/** The timed keyboard loop: the decoder interleaved with an idle timer that drops ticks. */
module TimedScan {
  import opened CTypes
  import opened Arithmetic
  import opened Devices
  import opened ScanCodes
  import opened Runs
  import opened KeyboardLoops

  type TimerFrequency = n: int | 0 < n < 0x1_0000 witness 1

  /** scan_code, elapsed, counter and the decoder, between two rounds of the loop. */
  datatype State = State(scanCode: uint8, elapsed: uint8, counter: nat, decoder: Decoder)

  function Start(scan0: uint8, counter0: nat, decoder0: Decoder): State {
    State(scan0, 0, counter0, decoder0)
  }

  predicate Running(n: uint8, s: State) {
    s.scanCode != ESC_BREAKCODE && s.elapsed < n
  }

  /** The decoder takes the continue branch, which skips the timer branch of the same notification. */
  predicate Skips(d: Decoder, line: KeyboardLine) {
    line.Byte? && (line.code == DOUBLE_BYTE || d.first == DOUBLE_BYTE)
  }

  function Listen(s: State, line: KeyboardLine): State {
    match line
    case Quiet => s
    case NoByte => s.(elapsed := 0)
    case Spoiled(code) => s.(elapsed := 0, scanCode := code)
    case Byte(code) => s.(elapsed := 0, scanCode := code, decoder := Accept(s.decoder, code))
  }

  /** A counted tick; the one that completes a timer period is also an elapsed second, in a byte. */
  function Tick(freq: TimerFrequency, s: State): State {
    if Remainder(s.counter + 1, freq) == 0
    then s.(counter := s.counter + 1, elapsed := (s.elapsed + 1) % 0x100)
    else s.(counter := s.counter + 1)
  }

  function Round(n: uint8, freq: TimerFrequency, s: State, e: Event): State {
    if !Running(n, s) || !e.Hardware? then s
    else
      var heard := Listen(s, e.keyboard);
      if e.timer && !Skips(s.decoder, e.keyboard) then Tick(freq, heard) else heard
  }

  function Rounds(n: uint8, freq: TimerFrequency): (State, Event) -> State {
    (s, e) => Round(n, freq, s, e)
  }

  function Run(n: uint8, freq: TimerFrequency, s0: State, events: seq<Event>): State {
    Fold(Rounds(n, freq), s0, events)
  }

  // What a run has done, read off its notifications.

  /** The counter at the last keyboard notification, or at the start. */
  function IdleSince(n: uint8, freq: TimerFrequency, s0: State, events: seq<Event>): nat {
    if events == [] then s0.counter
    else
      var init, e := events[..|events| - 1], events[|events| - 1];
      var s := Run(n, freq, s0, init);
      if s.scanCode != 0x81 && s.elapsed < n && e.Hardware? && !e.keyboard.Quiet? then s.counter
      else IdleSince(n, freq, s0, init)
  }

  /** The notifications that the loop takes in while it runs. */
  function Taken(n: uint8, freq: TimerFrequency, s0: State, events: seq<Event>): seq<Event> {
    if events == [] then []
    else
      var init := events[..|events| - 1];
      TakeIn(n, Taken(n, freq, s0, init), Run(n, freq, s0, init), events[|events| - 1])
  }

  function TakeIn(n: uint8, taken: seq<Event>, s: State, e: Event): seq<Event> {
    if s.scanCode != 0x81 && s.elapsed < n && e.Hardware? then taken + [e] else taken
  }

  // What is due to a sequence of notifications, from their bits and bytes alone.

  /** The timer interrupts. */
  function Received(taken: seq<Event>): nat {
    if taken == [] then 0
    else
      var e := taken[|taken| - 1];
      Received(taken[..|taken| - 1]) + (if e.Hardware? && e.timer then 1 else 0)
  }

  /** The last valid byte, or the one that was in bytes[0] before. */
  function LastValid(first0: uint8, arrivals: seq<Arrival>): uint8 {
    var stream := Valid(arrivals);
    if stream == [] then first0 else stream[|stream| - 1]
  }

  /** The timer interrupts that come together with a byte of a two-byte key: a valid byte that is the
      prefix 0xE0 or directly follows it. */
  function Lost(first0: uint8, taken: seq<Event>): nat {
    if taken == [] then 0
    else
      var init, e := taken[..|taken| - 1], taken[|taken| - 1];
      Lost(first0, init)
        + (if e.Hardware? && e.timer && e.keyboard.Byte?
              && (e.keyboard.code == 0xE0 || LastValid(first0, Arrivals(init)) == 0xE0) then 1 else 0)
  }

  // The idle timer.

  ghost predicate Idle(n: uint8, freq: TimerFrequency, s: State, since: nat) {
    && since <= s.counter
    && s.elapsed == Quotient(s.counter, freq) - Quotient(since, freq)
    && s.elapsed <= n
    && (s.elapsed == n && n > 0 ==> Remainder(s.counter, freq) == 0)
  }

  lemma IdleRound(n: uint8, freq: TimerFrequency, s: State, since: nat, e: Event)
    requires Idle(n, freq, s, since) && Running(n, s) && e.Hardware?
    ensures Idle(n, freq, Round(n, freq, s, e), if e.keyboard.Quiet? then since else s.counter)
  {
    TickDivider(s.counter, freq);
  }

  /** elapsed is exactly the number of whole timer periods that the counter passed since the last
      keyboard notification, and the uint8_t never overflows. */
  lemma {:induction false} ElapsedIsExact(n: uint8, freq: TimerFrequency, scan0: uint8, counter0: nat, d: Decoder, events: seq<Event>)
    ensures var s0 := Start(scan0, counter0, d);
            Idle(n, freq, Run(n, freq, s0, events), IdleSince(n, freq, s0, events))
  {
    var s0 := Start(scan0, counter0, d);
    if events != [] {
      var init, e := events[..|events| - 1], events[|events| - 1];
      ElapsedIsExact(n, freq, scan0, counter0, d, init);
      var s := Run(n, freq, s0, init);
      if Running(n, s) && e.Hardware? {
        IdleRound(n, freq, s, IdleSince(n, freq, s0, init), e);
      }
    }
  }

  lemma PeriodsBetween(since: nat, counter: nat, freq: TimerFrequency, k: nat)
    requires since <= counter && Quotient(counter, freq) - Quotient(since, freq) == k
    ensures counter - since < Times(k, freq) + freq
    ensures Remainder(counter, freq) == 0 ==> counter - since <= Times(k, freq)
    ensures Remainder(counter, freq) == 0 && k > 0 ==> counter - since > Times(k - 1, freq)
  {
    QuotientRemainder(since, freq);
    QuotientRemainder(counter, freq);
    TimesSum(Quotient(since, freq), k, freq);
  }

  /** The loop times out between n - 1 (exclusive) and n (inclusive) periods after the last keyboard
      notification: it is still waiting before, and has given up after, at the tick that ends a period. */
  lemma TimeoutWindow(n: uint8, freq: TimerFrequency, scan0: uint8, counter0: nat, d: Decoder, events: seq<Event>)
    requires n > 0
    ensures var s0 := Start(scan0, counter0, d);
            var s, since := Run(n, freq, s0, events), IdleSince(n, freq, s0, events);
            && since <= s.counter
            && (s.elapsed < n ==> s.counter - since < n * freq)
            && (s.elapsed >= n ==> (n - 1) * freq < s.counter - since <= n * freq && Remainder(s.counter, freq) == 0)
  {
    var s0 := Start(scan0, counter0, d);
    ElapsedIsExact(n, freq, scan0, counter0, d, events);
    IdleWindow(n, freq, Run(n, freq, s0, events), IdleSince(n, freq, s0, events));
  }

  lemma IdleWindow(n: uint8, freq: TimerFrequency, s: State, since: nat)
    requires n > 0 && Idle(n, freq, s, since)
    ensures s.elapsed < n ==> s.counter - since < n * freq
    ensures s.elapsed >= n ==> (n - 1) * freq < s.counter - since <= n * freq && Remainder(s.counter, freq) == 0
  {
    PeriodsBetween(since, s.counter, freq, s.elapsed);
    TimesIsProduct(n, freq);
    TimesIsProduct(n - 1, freq);
    if s.elapsed < n {
      TimesGap(s.elapsed, n, freq);
    }
  }

  function OneByteKeys(keys: seq<Token>): nat {
    if keys == [] then 0
    else OneByteKeys(keys[..|keys| - 1]) + (if |keys[|keys| - 1].bytes| == 1 then 1 else 0)
  }

  lemma AcceptCounts(d: Decoder, code: uint8)
    ensures OneByteKeys(Accept(d, code).printed)
         == OneByteKeys(d.printed) + (if code == DOUBLE_BYTE || d.first == DOUBLE_BYTE then 0 else 1)
  {
    var printed := Accept(d, code).printed;
    if code != DOUBLE_BYTE {
      assert printed[..|printed| - 1] == d.printed;
    }
  }

  /** The counter has every timer interrupt but the lost ones, and the decoder is in the middle of a
      key exactly after a prefix byte. */
  predicate Counted(s0: State, s: State, taken: seq<Event>) {
    && s.counter == s0.counter + Received(taken) - Lost(s0.decoder.first, taken)
    && (s.decoder.first == 0xE0 <==> LastValid(s0.decoder.first, Arrivals(taken)) == 0xE0)
  }

  lemma ReceivedOneMore(first0: uint8, taken: seq<Event>, e: Event)
    requires e.Hardware?
    ensures Received(taken + [e]) == Received(taken) + (if e.timer then 1 else 0)
    ensures Lost(first0, taken + [e])
         == Lost(first0, taken) + (if e.timer && e.keyboard.Byte?
                                      && (e.keyboard.code == 0xE0 || LastValid(first0, Arrivals(taken)) == 0xE0) then 1 else 0)
    ensures Arrivals(taken + [e]) == Arrivals(taken) + Arriving(e.keyboard)
  {
    assert (taken + [e])[..|taken|] == taken;
  }

  lemma RoundCounts(n: uint8, freq: TimerFrequency, s: State, e: Event)
    requires s.scanCode != 0x81 && s.elapsed < n && e.Hardware?
    ensures var s' := Round(n, freq, s, e);
            var lost := e.keyboard.Byte? && (e.keyboard.code == 0xE0 || s.decoder.first == 0xE0);
            && s'.counter == (if e.timer && !lost then s.counter + 1 else s.counter)
            && (s'.decoder.first == 0xE0 <==> if e.keyboard.Byte? then e.keyboard.code == 0xE0 else s.decoder.first == 0xE0)
  {
  }

  lemma LastValidMore(first0: uint8, arrivals: seq<Arrival>, line: KeyboardLine)
    ensures LastValid(first0, arrivals + Arriving(line)) == if line.Byte? then line.code else LastValid(first0, arrivals)
  {
    ValidMore(arrivals, line);
  }

  lemma CountedRound(n: uint8, freq: TimerFrequency, s0: State, s: State, taken: seq<Event>, e: Event)
    requires Counted(s0, s, taken)
    ensures Counted(s0, Round(n, freq, s, e), TakeIn(n, taken, s, e))
  {
    if s.scanCode != 0x81 && s.elapsed < n && e.Hardware? {
      RoundCounts(n, freq, s, e);
      ReceivedOneMore(s0.decoder.first, taken, e);
      LastValidMore(s0.decoder.first, Arrivals(taken), e.keyboard);
    }
  }

  /** Every timer interrupt of the notifications taken in is counted, except exactly those that come
      together with a byte of a two-byte key. */
  lemma {:induction false} TicksAccounted(n: uint8, freq: TimerFrequency, s0: State, events: seq<Event>)
    ensures Counted(s0, Run(n, freq, s0, events), Taken(n, freq, s0, events))
  {
    if events != [] {
      var init := events[..|events| - 1];
      TicksAccounted(n, freq, s0, init);
      CountedRound(n, freq, s0, Run(n, freq, s0, init), Taken(n, freq, s0, init), events[|events| - 1]);
    }
  }

  /** At most the valid bytes that are not printed on their own lose a tick. */
  predicate LossBounded(s0: State, s: State, taken: seq<Event>) {
    Lost(s0.decoder.first, taken) + OneByteKeys(s.decoder.printed)
      <= |Valid(Arrivals(taken))| + OneByteKeys(s0.decoder.printed)
  }

  lemma LossBoundedRound(n: uint8, freq: TimerFrequency, s0: State, s: State, taken: seq<Event>, e: Event)
    requires Counted(s0, s, taken) && LossBounded(s0, s, taken)
    ensures LossBounded(s0, Round(n, freq, s, e), TakeIn(n, taken, s, e))
  {
    if e.Hardware? {
      ReceivedOneMore(s0.decoder.first, taken, e);
      ValidMore(Arrivals(taken), e.keyboard);
      if e.keyboard.Byte? {
        AcceptCounts(s.decoder, e.keyboard.code);
      }
    }
  }

  /** A valid byte loses at most one tick, and a byte printed on its own loses none. */
  lemma {:induction false} LossIsBounded(n: uint8, freq: TimerFrequency, s0: State, events: seq<Event>)
    ensures LossBounded(s0, Run(n, freq, s0, events), Taken(n, freq, s0, events))
  {
    if events != [] {
      var init := events[..|events| - 1];
      LossIsBounded(n, freq, s0, init);
      TicksAccounted(n, freq, s0, init);
      LossBoundedRound(n, freq, s0, Run(n, freq, s0, init), Taken(n, freq, s0, init), events[|events| - 1]);
    }
  }

  // The decoder, whatever the timer does.

  /** The loop has taken in a part of what arrived up to the first ESC_BREAKCODE, and all of it
      unless it timed out. */
  ghost predicate Follows(n: uint8, s: State, d: Decoder, scan0: uint8, heard: seq<Arrival>, arrivals: seq<Arrival>) {
    && HasHeard(Reader(s.scanCode, s.decoder), d, scan0, heard)
    && UpToEsc(heard) == heard
    && heard <= UpToEsc(arrivals)
    && (HasEsc(heard) || s.elapsed < n ==> heard == UpToEsc(arrivals))
  }

  lemma HasEscMonotone(first: seq<Arrival>, longer: seq<Arrival>)
    requires first <= longer && HasEsc(first)
    ensures HasEsc(longer)
  {
    var i :| 0 <= i < |first| && first[i].code == ESC_BREAKCODE;
    assert longer[i].code == ESC_BREAKCODE;
  }

  lemma FollowsRound(n: uint8, freq: TimerFrequency, s: State, d: Decoder, scan0: uint8, heard: seq<Arrival>,
                     arrivals: seq<Arrival>, e: Event)
    requires scan0 != ESC_BREAKCODE && e.Hardware?
    requires Follows(n, s, d, scan0, heard, arrivals)
    ensures Follows(n, Round(n, freq, s, e), d, scan0, if Running(n, s) then heard + Arriving(e.keyboard) else heard,
                    arrivals + Arriving(e.keyboard))
  {
    var r, line := Reader(s.scanCode, s.decoder), e.keyboard;
    EscIsLast(s.scanCode, scan0, heard);
    UpToEscGrows(arrivals, line);
    if Running(n, s) {
      HearMore(r, d, scan0, heard, line);
      UpToEscGrows(heard, line);
      assert heard == arrivals;
    } else if HasEsc(heard) {
      UpToEscCutsAtFirst(arrivals);
      HasEscMonotone(heard, arrivals);
    }
  }

  lemma {:induction false} RunFollows(n: uint8, freq: TimerFrequency, s0: State, events: seq<Event>)
    requires s0.scanCode != ESC_BREAKCODE
    ensures Follows(n, Run(n, freq, s0, events), s0.decoder, s0.scanCode, Arrivals(Taken(n, freq, s0, events)), Arrivals(events))
  {
    if events != [] {
      var init, e := events[..|events| - 1], events[|events| - 1];
      RunFollows(n, freq, s0, init);
      if e.Hardware? {
        var s, taken := Run(n, freq, s0, init), Taken(n, freq, s0, init);
        FollowsRound(n, freq, s, s0.decoder, s0.scanCode, Arrivals(taken), Arrivals(init), e);
        ArrivalsOneMore(taken, e);
      }
    }
  }

  lemma {:induction false} ValidGrows(first: seq<Arrival>, longer: seq<Arrival>)
    requires first <= longer
    ensures Valid(first) <= Valid(longer)
  {
    if first != longer {
      ValidGrows(first, longer[..|longer| - 1]);
    }
  }

  /** Under every interleaving with the timer, the loop prints a prefix of what the interrupt loop
      prints on the same run, and all of it unless it timed out. */
  lemma TimedPrintsPrefix(n: uint8, freq: TimerFrequency, scan0: uint8, counter0: nat, events: seq<Event>)
    requires scan0 != ESC_BREAKCODE
    ensures var s, r := Run(n, freq, Start(scan0, counter0, START), events), ScanRun(Reader(scan0, START), events);
            && s.decoder.printed <= r.decoder.printed
            && (s.scanCode == ESC_BREAKCODE || s.elapsed < n ==> s.decoder.printed == r.decoder.printed)
  {
    var s0 := Start(scan0, counter0, START);
    var heard, cut := Arrivals(Taken(n, freq, s0, events)), UpToEsc(Arrivals(events));
    RunFollows(n, freq, s0, events);
    EscIsLast(Run(n, freq, s0, events).scanCode, scan0, heard);
    ScanRunPrints(scan0, [], events);
    ResumePrints(START, Valid(heard));
    ValidGrows(heard, cut);
    TokensGrow(Valid(heard), Valid(cut)[|Valid(heard)|..]);
    assert Valid(heard) + Valid(cut)[|Valid(heard)|..] == Valid(cut);
    assert [] + Tokens(Valid(heard)) == Tokens(Valid(heard));
    assert [] + Tokens(Valid(cut)) == Tokens(Valid(cut));
  }

  // The loop itself.

  lemma RunStopped(n: uint8, freq: TimerFrequency, s0: State, events: seq<Event>, i: nat)
    requires i <= |events|
    requires i == |events| || !Running(n, Run(n, freq, s0, events[..i]))
    ensures Run(n, freq, s0, events) == Run(n, freq, s0, events[..i])
  {
    FoldStops(Rounds(n, freq), s0, events, i);
  }

  /** The timer branch of the loop body. */
  method TimerBranch(dev: Drivers, timerFreq: TimerFrequency, elapsed0: uint8, ghost s: State) returns (elapsed: uint8)
    requires s.counter == dev.counter && s.elapsed == elapsed0 < 0xFF
    modifies dev`counter
    ensures s.(counter := dev.counter, elapsed := elapsed) == Tick(timerFreq, s)
  {
    elapsed := elapsed0;
    dev.TimerIntHandler();
    if Remainder(dev.counter, timerFreq) == 0 {
      elapsed := elapsed + 1;
    }
  }

  method KbdTestTimedScan(dev: Drivers, n: uint8, timerFreq: TimerFrequency, events: seq<Event>) returns (elapsed: uint8)
    modifies dev
    ensures var s := Run(n, timerFreq, Start(old(dev.scanCode), old(dev.counter), Decoder(0, 0, old(dev.printed))), events);
            && elapsed == s.elapsed && dev.scanCode == s.scanCode
            && dev.counter == s.counter && dev.printed == s.decoder.printed
  {
    elapsed := 0;
    var bytes := new uint8[2](i => 0);
    ghost var s0 := Start(dev.scanCode, dev.counter, View(dev, bytes));
    var i := 0;
    while dev.scanCode != ESC_BREAKCODE && elapsed < n && i < |events|
      invariant i <= |events|
      invariant Run(n, timerFreq, s0, events[..i]) == State(dev.scanCode, elapsed, dev.counter, View(dev, bytes))
      decreases |events| - i
    {
      var event := events[i];
      ghost var s := State(dev.scanCode, elapsed, dev.counter, View(dev, bytes));
      i := i + 1;
      assert events[..i][..i - 1] == events[..i - 1];
      assert Run(n, timerFreq, s0, events[..i]) == Round(n, timerFreq, s, event);
      if event.Failed? {
        continue;
      }
      if event.Hardware? {
        if !event.keyboard.Quiet? {
          elapsed := 0;
          dev.ihValid := false;
          dev.KbcIh(event.keyboard);
          if dev.ihValid {
            if dev.scanCode == DOUBLE_BYTE {
              bytes[0] := dev.scanCode;
              continue;
            }
            if bytes[0] == DOUBLE_BYTE {
              bytes[1] := dev.scanCode;
              dev.PrintScancode(2, bytes);
              assert bytes[..2] == [s.decoder.first, dev.scanCode];
              bytes[0] := 0x00;
              assert View(dev, bytes) == Accept(s.decoder, dev.scanCode);
              continue;
            }
            bytes[0] := dev.scanCode;
            dev.PrintScancode(1, bytes);
            assert bytes[..1] == [dev.scanCode];
            assert View(dev, bytes) == Accept(s.decoder, dev.scanCode);
          }
        }
        if event.timer {
          elapsed := TimerBranch(dev, timerFreq, elapsed, Listen(s, event.keyboard));
        }
      }
    }
    RunStopped(n, timerFreq, s0, events, i);
  }
}
