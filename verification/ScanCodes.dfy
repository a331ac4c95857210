/** The incremental scan-code decoder: its one-byte steps, and what whole streams decode to. */
module ScanCodes {
  import opened CTypes
  import opened Devices

  /** bytes[0], bytes[1] and the tokens printed so far. */
  datatype Decoder = Decoder(first: uint8, second: uint8, printed: seq<Token>)

  const START := Decoder(0, 0, [])

  function Accept(d: Decoder, code: uint8): Decoder {
    if code == DOUBLE_BYTE then
      d.(first := code)
    else if d.first == DOUBLE_BYTE then
      Decoder(0, code, d.printed + [Token(code < BREAK_BIT, [d.first, code])])
    else
      Decoder(code, d.second, d.printed + [Token(code < BREAK_BIT, [code])])
  }

  function Decode(stream: seq<uint8>): Decoder {
    if stream == [] then START
    else Accept(Decode(stream[..|stream| - 1]), stream[|stream| - 1])
  }

  function Tokens(stream: seq<uint8>): seq<Token> {
    Decode(stream).printed
  }

  function Waiting(d: Decoder): seq<uint8> {
    if d.first == DOUBLE_BYTE then [DOUBLE_BYTE] else []
  }

  function Pending(stream: seq<uint8>): seq<uint8> {
    Waiting(Decode(stream))
  }

  /** Decoding more bytes from a state reached before. */
  function Resume(d: Decoder, stream: seq<uint8>): Decoder {
    if stream == [] then d
    else Accept(Resume(d, stream[..|stream| - 1]), stream[|stream| - 1])
  }

  lemma ResumeOneMore(d: Decoder, stream: seq<uint8>, code: uint8)
    ensures Resume(d, stream + [code]) == Accept(Resume(d, stream), code)
  {
    assert (stream + [code])[..|stream|] == stream;
  }

  /** What was printed before does not matter. */
  lemma {:induction false} ResumePrints(d: Decoder, stream: seq<uint8>)
    requires d.first == START.first && d.second == START.second
    ensures Resume(d, stream) == Decode(stream).(printed := d.printed + Tokens(stream))
  {
    if stream != [] {
      ResumePrints(d, stream[..|stream| - 1]);
    }
  }

  // The reference: keys as they are typed, and the stream they make on the wire. It spells its
  // numbers out: the prefix is 0xE0, and a break code has bit 7 set.

  /** A key: one byte other than the prefix, or the prefix and such a byte. */
  predicate WellFormed(t: Token) {
    && (|t.bytes| == 1 || (|t.bytes| == 2 && t.bytes[0] == 0xE0))
    && t.bytes[|t.bytes| - 1] != 0xE0
    && (t.make <==> t.bytes[|t.bytes| - 1] < 0x80)
  }

  predicate AllWellFormed(keys: seq<Token>) {
    forall i :: 0 <= i < |keys| ==> WellFormed(keys[i])
  }

  function Flatten(keys: seq<Token>): seq<uint8> {
    if keys == [] then [] else Flatten(keys[..|keys| - 1]) + keys[|keys| - 1].bytes
  }

  /** The stream with every prefix byte that directly follows another dropped. */
  function Collapse(stream: seq<uint8>): seq<uint8> {
    if stream == [] then []
    else
      var n := |stream| - 1;
      if stream[n] == 0xE0 && n > 0 && stream[n - 1] == 0xE0 then Collapse(stream[..n])
      else Collapse(stream[..n]) + [stream[n]]
  }

  lemma DecodeOneMore(stream: seq<uint8>, code: uint8)
    ensures Decode(stream + [code]) == Accept(Decode(stream), code)
  {
    assert (stream + [code])[..|stream|] == stream;
  }

  lemma FlattenOneMore(keys: seq<Token>, key: Token)
    ensures Flatten(keys + [key]) == Flatten(keys) + key.bytes
  {
    assert (keys + [key])[..|keys|] == keys;
  }

  /** The decoder is waiting for a second byte exactly after a prefix byte. */
  lemma PendingAfterPrefix(stream: seq<uint8>)
    ensures Decode(stream).first == DOUBLE_BYTE <==> stream != [] && stream[|stream| - 1] == DOUBLE_BYTE
  {
  }

  /** A byte other than the prefix prints the pending prefix, if any, and itself. */
  lemma AcceptPrints(d: Decoder, code: uint8)
    requires code != DOUBLE_BYTE
    ensures Accept(d, code).first != DOUBLE_BYTE
    ensures Accept(d, code).printed == d.printed + [Token(code < BREAK_BIT, Waiting(d) + [code])]
  {
    assert [] + [code] == [code];
    assert [DOUBLE_BYTE] + [code] == [DOUBLE_BYTE, code];
  }

  lemma CollapseOneMore(stream: seq<uint8>, code: uint8)
    ensures Collapse(stream + [code])
         == if code == DOUBLE_BYTE && Pending(stream) != [] then Collapse(stream) else Collapse(stream) + [code]
  {
    assert (stream + [code])[..|stream|] == stream;
    PendingAfterPrefix(stream);
  }

  lemma FaithfulPrefix(before: seq<uint8>)
    requires Flatten(Tokens(before)) + Pending(before) == Collapse(before)
    ensures var stream := before + [DOUBLE_BYTE];
            Flatten(Tokens(stream)) + Pending(stream) == Collapse(stream)
  {
    DecodeOneMore(before, DOUBLE_BYTE);
    CollapseOneMore(before, DOUBLE_BYTE);
    var printed := Flatten(Tokens(before));
    if Pending(before) == [] {
      assert printed + [] == printed;
    }
  }

  lemma TokenPrinted(before: seq<uint8>, code: uint8)
    requires code != DOUBLE_BYTE
    ensures Tokens(before + [code]) == Tokens(before) + [Token(code < BREAK_BIT, Pending(before) + [code])]
    ensures Pending(before + [code]) == []
  {
    DecodeOneMore(before, code);
    AcceptPrints(Decode(before), code);
  }

  lemma Regroup(a: seq<uint8>, b: seq<uint8>, c: seq<uint8>)
    ensures (a + (b + c)) + [] == (a + b) + c
  {
  }

  lemma FaithfulToken(before: seq<uint8>, code: uint8)
    requires code != DOUBLE_BYTE
    requires Flatten(Tokens(before)) + Pending(before) == Collapse(before)
    ensures var stream := before + [code];
            Flatten(Tokens(stream)) + Pending(stream) == Collapse(stream)
  {
    TokenPrinted(before, code);
    CollapseOneMore(before, code);
    FlattenOneMore(Tokens(before), Token(code < BREAK_BIT, Pending(before) + [code]));
    Regroup(Flatten(Tokens(before)), Pending(before), [code]);
  }

  lemma FaithfulByte(before: seq<uint8>, code: uint8)
    requires Flatten(Tokens(before)) + Pending(before) == Collapse(before)
    ensures var stream := before + [code];
            Flatten(Tokens(stream)) + Pending(stream) == Collapse(stream)
  {
    if code == DOUBLE_BYTE {
      FaithfulPrefix(before);
    } else {
      FaithfulToken(before, code);
    }
  }

  lemma {:induction false} TokensAreKeys(stream: seq<uint8>)
    ensures AllWellFormed(Tokens(stream))
  {
    if stream != [] {
      TokensAreKeys(stream[..|stream| - 1]);
    }
  }

  /** Nothing is lost and nothing is made up: the printed bytes and the pending prefix are the
      accepted stream with runs of the prefix collapsed, and every token is a key. */
  lemma {:induction false} DecoderIsFaithful(stream: seq<uint8>)
    ensures Flatten(Tokens(stream)) + Pending(stream) == Collapse(stream)
    ensures AllWellFormed(Tokens(stream))
  {
    TokensAreKeys(stream);
    if stream != [] {
      var n := |stream| - 1;
      assert stream == stream[..n] + [stream[n]];
      DecoderIsFaithful(stream[..n]);
      FaithfulByte(stream[..n], stream[n]);
    }
  }

  lemma KeyCompletes(wire: seq<uint8>, key: Token)
    requires WellFormed(key) && Pending(wire) == key.bytes[..|key.bytes| - 1]
    ensures var stream := wire + [key.bytes[|key.bytes| - 1]];
            Tokens(stream) == Tokens(wire) + [key] && Pending(stream) == []
  {
    var last := key.bytes[|key.bytes| - 1];
    TokenPrinted(wire, last);
    assert key.bytes == Pending(wire) + [last];
  }

  lemma KeyTyped(keys: seq<Token>)
    requires AllWellFormed(keys) && keys != []
    ensures var init, key := keys[..|keys| - 1], keys[|keys| - 1];
            var prefix := key.bytes[..|key.bytes| - 1];
            && WellFormed(key) && (prefix == [] || prefix == [DOUBLE_BYTE])
            && keys == init + [key]
            && Flatten(keys) == (Flatten(init) + prefix) + [key.bytes[|key.bytes| - 1]]
  {
    var key := keys[|keys| - 1];
    assert key.bytes == key.bytes[..|key.bytes| - 1] + [key.bytes[|key.bytes| - 1]];
  }

  lemma {:induction false} RoundTripPending(keys: seq<Token>, pending: seq<uint8>)
    requires AllWellFormed(keys) && (pending == [] || pending == [DOUBLE_BYTE])
    ensures Tokens(Flatten(keys) + pending) == keys && Pending(Flatten(keys) + pending) == pending
    decreases |keys|, |pending|
  {
    assert Flatten(keys) + [] == Flatten(keys);
    if pending != [] {
      RoundTripPending(keys, []);
      DecodeOneMore(Flatten(keys), DOUBLE_BYTE);
    } else if keys != [] {
      var init, key := keys[..|keys| - 1], keys[|keys| - 1];
      var prefix := key.bytes[..|key.bytes| - 1];
      KeyTyped(keys);
      RoundTripPending(init, prefix);
      KeyCompletes(Flatten(init) + prefix, key);
    }
  }

  /** Typing any list of keys decodes to exactly that list, with no prefix left over. */
  lemma RoundTrip(keys: seq<Token>)
    requires AllWellFormed(keys)
    ensures Tokens(Flatten(keys)) == keys && Pending(Flatten(keys)) == []
  {
    RoundTripPending(keys, []);
    assert Flatten(keys) + [] == Flatten(keys);
  }

  /** The decoder is characterised by this equation: no other keys and pending prefix solve it. */
  lemma DecoderIsTheOnlyReading(stream: seq<uint8>, keys: seq<Token>, pending: seq<uint8>)
    requires AllWellFormed(keys) && (pending == [] || pending == [DOUBLE_BYTE])
    ensures Flatten(keys) + pending == Collapse(stream) <==> keys == Tokens(stream) && pending == Pending(stream)
  {
    DecoderIsFaithful(stream);
    if Flatten(keys) + pending == Collapse(stream) {
      RoundTripPending(keys, pending);
      RoundTripPending(Tokens(stream), Pending(stream));
    }
  }

  /** More bytes only add tokens. */
  lemma {:induction false} TokensGrow(stream: seq<uint8>, more: seq<uint8>)
    ensures Tokens(stream) <= Tokens(stream + more)
  {
    if more == [] {
      assert stream + more == stream;
    } else {
      var init := more[..|more| - 1];
      TokensGrow(stream, init);
      assert stream + more == (stream + init) + [more[|more| - 1]];
      DecodeOneMore(stream + init, more[|more| - 1]);
    }
  }

  /** The break code of the escape key, 0x81, is among the bytes. */
  predicate HasEsc(arrivals: seq<Arrival>) {
    exists i :: 0 <= i < |arrivals| && arrivals[i].code == 0x81
  }

  /** The part of what arrives that a loop ending on ESC_BREAKCODE takes in. Such a loop looks at
      scan_code alone, so an invalid ESC_BREAKCODE ends it too. */
  function UpToEsc(arrivals: seq<Arrival>): seq<Arrival> {
    if arrivals == [] then []
    else if HasEsc(arrivals[..|arrivals| - 1]) then UpToEsc(arrivals[..|arrivals| - 1])
    else arrivals
  }

  lemma UpToEscOneMore(arrivals: seq<Arrival>, a: Arrival)
    ensures UpToEsc(arrivals + [a]) == if HasEsc(arrivals) then UpToEsc(arrivals) else arrivals + [a]
  {
    assert (arrivals + [a])[..|arrivals|] == arrivals;
  }

  lemma ValidOneMore(arrivals: seq<Arrival>, a: Arrival)
    ensures Valid(arrivals + [a]) == if a.valid then Valid(arrivals) + [a.code] else Valid(arrivals)
  {
    assert (arrivals + [a])[..|arrivals|] == arrivals;
  }

  /** That part is a prefix; it is everything, or ends with the first ESC_BREAKCODE. */
  lemma {:induction false} UpToEscCutsAtFirst(arrivals: seq<Arrival>)
    ensures UpToEsc(arrivals) <= arrivals
    ensures !HasEsc(arrivals) ==> UpToEsc(arrivals) == arrivals
    ensures HasEsc(arrivals) ==>
      var n := |UpToEsc(arrivals)| - 1;
      n >= 0 && UpToEsc(arrivals)[n].code == ESC_BREAKCODE && !HasEsc(UpToEsc(arrivals)[..n])
  {
    if arrivals != [] {
      var n := |arrivals| - 1;
      if HasEsc(arrivals[..n]) {
        UpToEscCutsAtFirst(arrivals[..n]);
      } else if HasEsc(arrivals) {
        assert arrivals[n].code == ESC_BREAKCODE;
      }
    }
  }

  lemma ValidMore(heard: seq<Arrival>, line: KeyboardLine)
    ensures Valid(heard + Arriving(line)) == Valid(heard) + (if line.Byte? then [line.code] else [])
  {
    if Arriving(line) == [] {
      assert heard + Arriving(line) == heard;
    } else {
      ValidOneMore(heard, Arriving(line)[0]);
    }
  }

  lemma UpToEscGrows(arrivals: seq<Arrival>, line: KeyboardLine)
    ensures UpToEsc(arrivals) <= UpToEsc(arrivals + Arriving(line))
    ensures !HasEsc(arrivals) ==> UpToEsc(arrivals) == arrivals && UpToEsc(arrivals + Arriving(line)) == arrivals + Arriving(line)
    ensures HasEsc(arrivals) ==> HasEsc(UpToEsc(arrivals)) && UpToEsc(arrivals + Arriving(line)) == UpToEsc(arrivals)
  {
    UpToEscCutsAtFirst(arrivals);
    if Arriving(line) == [] {
      assert arrivals + Arriving(line) == arrivals;
    } else {
      UpToEscOneMore(arrivals, Arriving(line)[0]);
    }
  }

  lemma ValidUpTo(arrivals: seq<Arrival>, line: KeyboardLine)
    ensures Valid(UpToEsc(arrivals + Arriving(line)))
         == Valid(UpToEsc(arrivals)) + (if line.Byte? && !HasEsc(arrivals) then [line.code] else [])
  {
    UpToEscGrows(arrivals, line);
    if HasEsc(arrivals) {
      assert Valid(UpToEsc(arrivals)) + [] == Valid(UpToEsc(arrivals));
    } else {
      ValidMore(arrivals, line);
    }
  }

  /** scan_code holds the last byte taken in, if any. */
  predicate LastTaken(scanCode: uint8, scan0: uint8, arrivals: seq<Arrival>) {
    var cut := UpToEsc(arrivals);
    scanCode == if cut == [] then scan0 else cut[|cut| - 1].code
  }

  lemma EscIsLast(scanCode: uint8, scan0: uint8, arrivals: seq<Arrival>)
    requires LastTaken(scanCode, scan0, arrivals) && (arrivals != [] || scan0 != ESC_BREAKCODE)
    ensures scanCode == ESC_BREAKCODE <==> HasEsc(arrivals)
  {
    UpToEscCutsAtFirst(arrivals);
    if arrivals != [] && !HasEsc(arrivals) {
      assert arrivals[|arrivals| - 1].code != ESC_BREAKCODE;
    }
  }

  // The timer interrupts that such a loop takes in, read off the notifications alone.

  /** The timer bits up to and including the notification that brings ESC_BREAKCODE, also of those
      notifications that have the keyboard bit as well; none when scan_code starts as that. */
  function TimerTicks(scan0: uint8, events: seq<Event>): nat {
    if events == [] || scan0 == 0x81 then 0
    else
      var init, e := events[..|events| - 1], events[|events| - 1];
      TimerTicks(scan0, init) + (if e.Hardware? && e.timer && !HasEsc(Arrivals(init)) then 1 else 0)
  }

  /** scan_code and counter are what the notifications make of them. */
  ghost predicate InStep(scanCode: uint8, counter: nat, scan0: uint8, counter0: nat, events: seq<Event>) {
    && counter == counter0 + TimerTicks(scan0, events)
    && if scan0 == 0x81 then scanCode == 0x81 else LastTaken(scanCode, scan0, Arrivals(events))
  }

  lemma TimerTicksOneMore(scan0: uint8, events: seq<Event>, e: Event)
    ensures TimerTicks(scan0, events + [e]) == TimerTicks(scan0, events)
            + (if scan0 != 0x81 && e.Hardware? && e.timer && !HasEsc(Arrivals(events)) then 1 else 0)
  {
    assert (events + [e])[..|events|] == events;
  }

  lemma LastTakenMore(scanCode: uint8, scan0: uint8, arrivals: seq<Arrival>, a: Arrival)
    requires scan0 != 0x81 && LastTaken(scanCode, scan0, arrivals)
    ensures LastTaken(if scanCode == 0x81 then scanCode else a.code, scan0, arrivals + [a])
  {
    EscIsLast(scanCode, scan0, arrivals);
    UpToEscOneMore(arrivals, a);
  }

  lemma ArrivalsOneMore(events: seq<Event>, e: Event)
    ensures Arrivals(events + [e]) == Arrivals(events) + (if e.Hardware? then Arriving(e.keyboard) else [])
  {
    assert (events + [e])[..|events|] == events;
  }

  /** The step of such a loop from one notification to the next. */
  lemma InStepMore(scanCode: uint8, counter: nat, scan0: uint8, counter0: nat, events: seq<Event>, e: Event)
    requires InStep(scanCode, counter, scan0, counter0, events)
    ensures scanCode == 0x81 || !e.Hardware? ==> InStep(scanCode, counter, scan0, counter0, events + [e])
    ensures scanCode != 0x81 && e.Hardware? ==>
      InStep(if Arriving(e.keyboard) == [] then scanCode else Arriving(e.keyboard)[0].code,
             if e.timer then counter + 1 else counter, scan0, counter0, events + [e])
  {
    TimerTicksOneMore(scan0, events, e);
    if scan0 != 0x81 {
      EscIsLast(scanCode, scan0, Arrivals(events));
      ArrivalsOneMore(events, e);
      if e.Hardware? && Arriving(e.keyboard) != [] {
        LastTakenMore(scanCode, scan0, Arrivals(events), Arriving(e.keyboard)[0]);
      } else {
        assert Arrivals(events) + [] == Arrivals(events);
      }
    }
  }

  /** A loop that ends on a valid ESC_BREAKCODE leaves no prefix pending, even when that byte completes
      a two-byte key; one that ends on an invalid ESC_BREAKCODE leaves the decoder as it was. */
  lemma PendingAfterEsc(arrivals: seq<Arrival>)
    requires HasEsc(arrivals)
    ensures var cut := UpToEsc(arrivals);
            var n := |cut| - 1;
            n >= 0 && Decode(Valid(cut)) == if cut[n].valid then Accept(Decode(Valid(cut[..n])), ESC_BREAKCODE)
                                            else Decode(Valid(cut[..n]))
    ensures var cut := UpToEsc(arrivals);
            cut[|cut| - 1].valid ==> Pending(Valid(cut)) == []
  {
    UpToEscCutsAtFirst(arrivals);
    var cut := UpToEsc(arrivals);
    var n := |cut| - 1;
    assert cut == cut[..n] + [cut[n]];
    ValidOneMore(cut[..n], cut[n]);
    if cut[n].valid {
      DecodeOneMore(Valid(cut[..n]), ESC_BREAKCODE);
    }
  }

  lemma {:induction false} ValidOfAllValid(stream: seq<uint8>)
    ensures Valid(AllValid(stream)) == stream
    ensures HasEsc(AllValid(stream)) <==> ESC_BREAKCODE in stream
  {
    if stream != [] {
      var init := stream[..|stream| - 1];
      ValidOfAllValid(init);
      assert AllValid(stream)[..|stream| - 1] == AllValid(init);
      assert stream == init + [stream[|stream| - 1]];
    }
    if ESC_BREAKCODE in stream {
      var i :| 0 <= i < |stream| && stream[i] == ESC_BREAKCODE;
      assert AllValid(stream)[i].code == ESC_BREAKCODE;
    }
  }
}
