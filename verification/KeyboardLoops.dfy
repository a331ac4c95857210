/** The interrupt-driven and the polling keyboard loops. */
module KeyboardLoops {
  import opened CTypes
  import opened Devices
  import opened ScanCodes
  import opened Runs

  /** A polling run as notifications: each call of kbc_ih is one keyboard-only interrupt. */
  function AsEvents(polls: seq<KeyboardLine>): (events: seq<Event>)
    ensures |events| == |polls|
  {
    seq(|polls|, i requires 0 <= i < |polls| => Hardware(polls[i], false))
  }

  // The loops as machines over what they receive.

  /** scan_code and the decoder's variables, between two rounds of a loop. */
  datatype Reader = Reader(scanCode: uint8, decoder: Decoder)

  function Hear(r: Reader, line: KeyboardLine): Reader {
    match line
    case Quiet => r
    case NoByte => r
    case Spoiled(code) => r.(scanCode := code)
    case Byte(code) => Reader(code, Accept(r.decoder, code))
  }

  function Round(r: Reader, e: Event): Reader {
    if r.scanCode == ESC_BREAKCODE || !e.Hardware? then r else Hear(r, e.keyboard)
  }

  /** The interrupt loop: while (scan_code != ESC_BREAKCODE) round. */
  function ScanRun(r: Reader, events: seq<Event>): Reader {
    Fold(Round, r, events)
  }

  /** The polling loop: do round while (scan_code != ESC_BREAKCODE). */
  function PollRun(r: Reader, polls: seq<KeyboardLine>): Reader {
    if polls == [] then r else ScanRun(Hear(r, polls[0]), AsEvents(polls[1..]))
  }

  // What they print.

  /** What the interrupt loop prints when scan_code starts as scan0: its guard is tested first. */
  function ScanPrints(scan0: uint8, arrivals: seq<Arrival>): seq<Token> {
    if scan0 == ESC_BREAKCODE then [] else Tokens(Valid(UpToEsc(arrivals)))
  }

  /** What the polling loop prints: its body runs once before scan_code is tested. */
  function PollPrints(scan0: uint8, polls: seq<KeyboardLine>): seq<Token> {
    if scan0 == ESC_BREAKCODE && polls != [] && Arriving(polls[0]) == [] then []
    else Tokens(Valid(UpToEsc(Arrivals(AsEvents(polls)))))
  }

  /** scan_code is the last byte taken in, if any, and the decoder has been given exactly the valid
      bytes up to the first ESC_BREAKCODE. */
  ghost predicate HasHeard(r: Reader, d: Decoder, scan0: uint8, arrivals: seq<Arrival>) {
    r.decoder == Resume(d, Valid(UpToEsc(arrivals))) && LastTaken(r.scanCode, scan0, arrivals)
  }

  lemma HearMore(r: Reader, d: Decoder, scan0: uint8, arrivals: seq<Arrival>, line: KeyboardLine)
    requires HasHeard(r, d, scan0, arrivals) && !HasEsc(arrivals)
    ensures HasHeard(Hear(r, line), d, scan0, arrivals + Arriving(line))
  {
    UpToEscCutsAtFirst(arrivals);
    if Arriving(line) == [] {
      assert arrivals + Arriving(line) == arrivals;
    } else {
      var a := Arriving(line)[0];
      UpToEscOneMore(arrivals, a);
      ValidOneMore(arrivals, a);
      if a.valid {
        ResumeOneMore(d, Valid(arrivals), a.code);
      }
    }
  }

  lemma HearNoMore(r: Reader, d: Decoder, scan0: uint8, arrivals: seq<Arrival>, line: KeyboardLine)
    requires HasHeard(r, d, scan0, arrivals) && HasEsc(arrivals)
    ensures HasHeard(r, d, scan0, arrivals + Arriving(line))
  {
    if Arriving(line) == [] {
      assert arrivals + Arriving(line) == arrivals;
    } else {
      UpToEscOneMore(arrivals, Arriving(line)[0]);
    }
  }

  lemma {:induction false} ScanRunHears(r: Reader, d: Decoder, scan0: uint8, before: seq<Arrival>, events: seq<Event>)
    requires HasHeard(r, d, scan0, before) && (before != [] || scan0 != ESC_BREAKCODE)
    ensures HasHeard(ScanRun(r, events), d, scan0, before + Arrivals(events))
  {
    if events == [] {
      assert before + Arrivals(events) == before;
    } else {
      var init, e := events[..|events| - 1], events[|events| - 1];
      ScanRunHears(r, d, scan0, before, init);
      var heard := before + Arrivals(init);
      if e.Hardware? {
        assert before + Arrivals(events) == heard + Arriving(e.keyboard);
        EscIsLast(ScanRun(r, init).scanCode, scan0, heard);
        if HasEsc(heard) {
          HearNoMore(ScanRun(r, init), d, scan0, heard, e.keyboard);
        } else {
          HearMore(ScanRun(r, init), d, scan0, heard, e.keyboard);
        }
      }
    }
  }

  lemma {:induction false} ArrivalsSplit(first: seq<Event>, rest: seq<Event>)
    ensures Arrivals(first + rest) == Arrivals(first) + Arrivals(rest)
  {
    if rest == [] {
      assert first + rest == first;
    } else {
      var init := rest[..|rest| - 1];
      ArrivalsSplit(first, init);
      assert (first + rest)[..|first + rest| - 1] == first + init;
    }
  }

  lemma ScanRunStopped(r: Reader, events: seq<Event>, i: nat)
    requires i <= |events|
    requires i == |events| || ScanRun(r, events[..i]).scanCode == ESC_BREAKCODE
    ensures ScanRun(r, events) == ScanRun(r, events[..i])
  {
    FoldStops(Round, r, events, i);
  }

  lemma PollRunHears(r: Reader, polls: seq<KeyboardLine>)
    requires polls != [] && (r.scanCode != ESC_BREAKCODE || Arriving(polls[0]) != [])
    ensures HasHeard(PollRun(r, polls), r.decoder, r.scanCode, Arrivals(AsEvents(polls)))
  {
    var first, rest := AsEvents(polls[..1]), AsEvents(polls[1..]);
    assert AsEvents(polls) == first + rest && first == [Hardware(polls[0], false)];
    ArrivalsSplit(first, rest);
    assert first[..0] == [] && Arrivals(first) == [] + Arriving(polls[0]) == Arriving(polls[0]);
    HearMore(r, r.decoder, r.scanCode, [], polls[0]);
    assert [] + Arriving(polls[0]) == Arriving(polls[0]);
    ScanRunHears(Hear(r, polls[0]), r.decoder, r.scanCode, Arriving(polls[0]), rest);
  }

  /** Both loops print, after what was printed before, exactly what their specifications say. */
  lemma ScanRunPrints(scan0: uint8, was: seq<Token>, events: seq<Event>)
    ensures ScanRun(Reader(scan0, Decoder(0, 0, was)), events).decoder.printed == was + ScanPrints(scan0, Arrivals(events))
  {
    var d := Decoder(0, 0, was);
    if scan0 == ESC_BREAKCODE {
      assert events[..0] == [];
      ScanRunStopped(Reader(scan0, d), events, 0);
    } else {
      ScanRunHears(Reader(scan0, d), d, scan0, [], events);
      assert [] + Arrivals(events) == Arrivals(events);
      ResumePrints(d, Valid(UpToEsc(Arrivals(events))));
    }
  }

  lemma PollRunPrints(scan0: uint8, was: seq<Token>, polls: seq<KeyboardLine>)
    ensures PollRun(Reader(scan0, Decoder(0, 0, was)), polls).decoder.printed == was + PollPrints(scan0, polls)
  {
    var d := Decoder(0, 0, was);
    if polls == [] {
      assert was + [] == was;
    } else if scan0 == ESC_BREAKCODE && Arriving(polls[0]) == [] {
      var rest := AsEvents(polls[1..]);
      assert rest[..0] == [];
      ScanRunStopped(Reader(scan0, d), rest, 0);
    } else {
      PollRunHears(Reader(scan0, d), polls);
      ResumePrints(d, Valid(UpToEsc(Arrivals(AsEvents(polls)))));
    }
  }

  /** Typing keys without an ESC_BREAKCODE byte makes the run of either loop print exactly those keys. */
  lemma TypedKeysArePrinted(scan0: uint8, keys: seq<Token>, events: seq<Event>, polls: seq<KeyboardLine>)
    requires scan0 != ESC_BREAKCODE && AllWellFormed(keys) && ESC_BREAKCODE !in Flatten(keys)
    requires Arrivals(events) == Arrivals(AsEvents(polls)) == AllValid(Flatten(keys))
    ensures ScanRun(Reader(scan0, START), events).decoder.printed == keys
    ensures PollRun(Reader(scan0, START), polls).decoder.printed == keys
  {
    ScanRunPrints(scan0, [], events);
    PollRunPrints(scan0, [], polls);
    ValidOfAllValid(Flatten(keys));
    UpToEscCutsAtFirst(AllValid(Flatten(keys)));
    RoundTrip(keys);
    assert [] + keys == keys;
  }

  /** Runs of the two loops that are given the same bytes print the same. */
  ghost predicate LoopsAgree(scan0: uint8) {
    forall events, polls :: Arrivals(events) == Arrivals(AsEvents(polls)) ==>
      ScanRun(Reader(scan0, START), events).decoder.printed == PollRun(Reader(scan0, START), polls).decoder.printed
  }

  /** They do, unless scan_code is left over as ESC_BREAKCODE from before: then only the polling loop
      looks at the keyboard at all. */
  lemma LoopsAgreeExactly(scan0: uint8)
    ensures LoopsAgree(scan0) <==> scan0 != ESC_BREAKCODE
  {
    if scan0 == ESC_BREAKCODE {
      LoopsDisagree();
    } else {
      forall events, polls | Arrivals(events) == Arrivals(AsEvents(polls))
        ensures ScanRun(Reader(scan0, START), events).decoder.printed == PollRun(Reader(scan0, START), polls).decoder.printed
      {
        ScanRunPrints(scan0, [], events);
        PollRunPrints(scan0, [], polls);
      }
    }
  }

  lemma LoopsDisagree()
    ensures !LoopsAgree(ESC_BREAKCODE)
  {
    var polls, events, r := [Byte(1)], [Hardware(Byte(1), false)], Reader(ESC_BREAKCODE, START);
    assert AsEvents(polls) == events;
    assert events[..0] == [];
    ScanRunStopped(r, events, 0);
    assert polls[1..] == [];
    assert |PollRun(r, polls).decoder.printed| == 1;
  }

  // The loops themselves.

  /** The decoder in the loop's variables. */
  ghost function View(dev: Drivers, bytes: array<uint8>): Decoder
    requires bytes.Length == 2
    reads dev, bytes
  {
    Decoder(bytes[0], bytes[1], dev.printed)
  }

  method KbdTestScan(dev: Drivers, events: seq<Event>)
    modifies dev`scanCode, dev`ihValid, dev`printed
    ensures dev.scanCode == ScanRun(Reader(old(dev.scanCode), Decoder(0, 0, old(dev.printed))), events).scanCode
    ensures dev.printed == old(dev.printed) + ScanPrints(old(dev.scanCode), Arrivals(events))
  {
    var bytes := new uint8[2](i => 0);
    ghost var start := Reader(dev.scanCode, View(dev, bytes));
    var i := 0;
    while dev.scanCode != ESC_BREAKCODE && i < |events|
      invariant i <= |events|
      invariant ScanRun(start, events[..i]) == Reader(dev.scanCode, View(dev, bytes))
      decreases |events| - i
    {
      var event := events[i];
      i := i + 1;
      assert events[..i][..i - 1] == events[..i - 1];
      if event.Failed? {
        continue;
      }
      if event.Hardware? {
        if !event.keyboard.Quiet? {
          dev.ihValid := false;
          dev.KbcIh(event.keyboard);
          if dev.ihValid {
            ghost var before := View(dev, bytes);
            if dev.scanCode == DOUBLE_BYTE {
              bytes[0] := dev.scanCode;
              continue;
            }
            if bytes[0] == DOUBLE_BYTE {
              bytes[1] := dev.scanCode;
              dev.PrintScancode(2, bytes);
              assert bytes[..2] == [before.first, dev.scanCode];
              bytes[0] := 0x00;
              continue;
            }
            bytes[0] := dev.scanCode;
            dev.PrintScancode(1, bytes);
            assert bytes[..1] == [dev.scanCode];
          }
        }
      }
    }
    ScanRunStopped(start, events, i);
    ScanRunPrints(start.scanCode, start.decoder.printed, events);
  }

  lemma PollRunOneMore(r: Reader, polls: seq<KeyboardLine>, i: nat)
    requires i < |polls|
    ensures PollRun(r, polls[..i + 1])
         == if i > 0 && PollRun(r, polls[..i]).scanCode == ESC_BREAKCODE then PollRun(r, polls[..i])
            else Hear(PollRun(r, polls[..i]), polls[i])
  {
    if i == 0 {
      assert polls[..1][1..] == [];
    } else {
      var rest := AsEvents(polls[..i][1..]);
      assert AsEvents(polls[..i + 1][1..]) == rest + [Hardware(polls[i], false)];
      FoldOneMore(Round, Hear(r, polls[0]), rest, Hardware(polls[i], false));
    }
  }

  lemma PollRunStopped(r: Reader, polls: seq<KeyboardLine>, i: nat)
    requires i <= |polls|
    requires i == |polls| || (i > 0 && PollRun(r, polls[..i]).scanCode == ESC_BREAKCODE)
    ensures PollRun(r, polls) == PollRun(r, polls[..i])
  {
    if i == |polls| {
      assert polls[..i] == polls;
    } else {
      assert AsEvents(polls[1..])[..i - 1] == AsEvents(polls[..i][1..]);
      ScanRunStopped(Hear(r, polls[0]), AsEvents(polls[1..]), i - 1);
    }
  }

  method KbdTestPoll(dev: Drivers, polls: seq<KeyboardLine>)
    modifies dev`scanCode, dev`ihValid, dev`printed
    ensures dev.scanCode == PollRun(Reader(old(dev.scanCode), Decoder(0, 0, old(dev.printed))), polls).scanCode
    ensures dev.printed == old(dev.printed) + PollPrints(old(dev.scanCode), polls)
  {
    var bytes := new uint8[2](i => 0);
    ghost var start := Reader(dev.scanCode, View(dev, bytes));
    var i := 0;
    while i < |polls| && (i == 0 || dev.scanCode != ESC_BREAKCODE)
      invariant i <= |polls|
      invariant PollRun(start, polls[..i]) == Reader(dev.scanCode, View(dev, bytes))
      decreases |polls| - i
    {
      var line := polls[i];
      PollRunOneMore(start, polls, i);
      i := i + 1;
      dev.ihValid := false;
      dev.KbcIh(line);
      if dev.ihValid {
        ghost var before := View(dev, bytes);
        if dev.scanCode == DOUBLE_BYTE {
          bytes[0] := dev.scanCode;
          continue;
        }
        if bytes[0] == DOUBLE_BYTE {
          bytes[1] := dev.scanCode;
          dev.PrintScancode(2, bytes);
          assert bytes[..2] == [before.first, dev.scanCode];
          bytes[0] := 0x00;
          continue;
        }
        bytes[0] := dev.scanCode;
        dev.PrintScancode(1, bytes);
        assert bytes[..1] == [dev.scanCode];
      }
    }
    PollRunStopped(start, polls, i);
    PollRunPrints(start.scanCode, start.decoder.printed, polls);
  }
}
