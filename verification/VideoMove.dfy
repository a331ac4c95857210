/** The event loop that moves a sprite one step per frame. */
module VideoMove {
  import opened CTypes
  import opened Arithmetic
  import opened Devices
  import opened ScanCodes
  import opened Pictures
  import opened Frames
  import opened Runs
  import opened Rasteriser

  /** x, y and the driver globals between two rounds, and the positions of the frames drawn. */
  datatype State = State(x: uint16, y: uint16, scanCode: uint8, ihValid: bool, counter: nat, frames: seq<Point>)

  function Listen(s: State, line: KeyboardLine): State {
    match line
    case Quiet => s
    case NoByte => s
    case Spoiled(code) => s.(scanCode := code)
    case Byte(code) => s.(scanCode := code, ihValid := true)
  }

  function Tick(clocksPerFrame: Divisor, s: State): State {
    var x, y := Wrap16(s.x + 1), Wrap16(s.y + 1);
    if Remainder(s.counter + 1, clocksPerFrame) == 0
    then State(x, y, s.scanCode, s.ihValid, s.counter + 1, s.frames + [Point(x, y)])
    else s.(counter := s.counter + 1)
  }

  function Round(clocksPerFrame: Divisor, s: State, e: Event): State {
    if s.scanCode == ESC_BREAKCODE || !e.Hardware? then s
    else
      var heard := Listen(s, e.keyboard);
      if e.timer then Tick(clocksPerFrame, heard) else heard
  }

  function Rounds(clocksPerFrame: Divisor): (State, Event) -> State {
    (s, e) => Round(clocksPerFrame, s, e)
  }

  function Run(clocksPerFrame: Divisor, s0: State, events: seq<Event>): State {
    Fold(Rounds(clocksPerFrame), s0, events)
  }

  /** The counter has advanced by exactly the timer interrupts of the notifications. */
  lemma {:induction false} CounterFollowsTimer(clocksPerFrame: Divisor, s0: State, events: seq<Event>)
    ensures var s := Run(clocksPerFrame, s0, events);
            InStep(s.scanCode, s.counter, s0.scanCode, s0.counter, events)
  {
    if events != [] {
      var init, e := events[..|events| - 1], events[|events| - 1];
      CounterFollowsTimer(clocksPerFrame, s0, init);
      var s := Run(clocksPerFrame, s0, init);
      InStepMore(s.scanCode, s.counter, s0.scanCode, s0.counter, init, e);
      assert events == init + [e];
    }
  }

  lemma FlagRound(clocksPerFrame: Divisor, s: State, e: Event)
    requires e.Hardware?
    ensures Round(clocksPerFrame, s, e).ihValid <==> s.ihValid || (e.keyboard.Byte? && s.scanCode != ESC_BREAKCODE)
  {
  }

  /** kbd_ih_valid is set as soon as a valid byte is taken in, and never cleared. */
  lemma {:induction false} FlagStays(clocksPerFrame: Divisor, s0: State, events: seq<Event>)
    requires s0.scanCode != ESC_BREAKCODE
    ensures Run(clocksPerFrame, s0, events).ihValid <==> s0.ihValid || Valid(UpToEsc(Arrivals(events))) != []
  {
    if events != [] {
      var init, e := events[..|events| - 1], events[|events| - 1];
      FlagStays(clocksPerFrame, s0, init);
      if e.Hardware? {
        var s := Run(clocksPerFrame, s0, init);
        CounterFollowsTimer(clocksPerFrame, s0, init);
        EscIsLast(s.scanCode, s0.scanCode, Arrivals(init));
        FlagRound(clocksPerFrame, s, e);
        ValidUpTo(Arrivals(init), e.keyboard);
      }
    }
  }

  ghost predicate OnTrack(clocksPerFrame: Divisor, s: State, xi: uint16, yi: uint16, counter0: nat) {
    && |s.frames| == Quotient(s.counter, clocksPerFrame) - Quotient(counter0, clocksPerFrame)
    && OnDiagonal(s, xi, yi)
  }

  /** The k-th frame shows (xi + k, yi + k) modulo 2^16, and that is where the sprite is until the next. */
  ghost predicate OnDiagonal(s: State, xi: uint16, yi: uint16) {
    && s.x == Wrap16(xi + |s.frames|) && s.y == Wrap16(yi + |s.frames|)
    && forall k :: 0 <= k < |s.frames| ==> s.frames[k] == Point(Wrap16(xi + k + 1), Wrap16(yi + k + 1))
  }

  lemma OnTrackTick(clocksPerFrame: Divisor, s: State, xi: uint16, yi: uint16, counter0: nat)
    requires OnTrack(clocksPerFrame, s, xi, yi, counter0)
    ensures OnTrack(clocksPerFrame, Tick(clocksPerFrame, s), xi, yi, counter0)
  {
    TickDivider(s.counter, clocksPerFrame);
    WrapMoves(xi + |s.frames|, 1);
    WrapMoves(yi + |s.frames|, 1);
  }

  lemma {:induction false} RunOnTrack(clocksPerFrame: Divisor, xi: uint16, yi: uint16, scan0: uint8, valid0: bool, counter0: nat, events: seq<Event>)
    ensures OnTrack(clocksPerFrame, Run(clocksPerFrame, State(xi, yi, scan0, valid0, counter0, []), events), xi, yi, counter0)
  {
    if events != [] {
      var init, e := events[..|events| - 1], events[|events| - 1];
      RunOnTrack(clocksPerFrame, xi, yi, scan0, valid0, counter0, init);
      var s := Run(clocksPerFrame, State(xi, yi, scan0, valid0, counter0, []), init);
      if s.scanCode != ESC_BREAKCODE && e.Hardware? {
        OnTrackTick(clocksPerFrame, Listen(s, e.keyboard), xi, yi, counter0);
      }
    }
  }

  /** One frame per full divider period of the timer interrupts that the notifications carry. */
  lemma FramesOnTrack(clocksPerFrame: Divisor, xi: uint16, yi: uint16, scan0: uint8, valid0: bool, counter0: nat, events: seq<Event>)
    ensures var s, t := Run(clocksPerFrame, State(xi, yi, scan0, valid0, counter0, []), events), TimerTicks(scan0, events);
            && s.counter == counter0 + t
            && |s.frames| == (counter0 + t) / clocksPerFrame - counter0 / clocksPerFrame
            && OnDiagonal(s, xi, yi)
  {
    RunOnTrack(clocksPerFrame, xi, yi, scan0, valid0, counter0, events);
    CounterFollowsTimer(clocksPerFrame, State(xi, yi, scan0, valid0, counter0, []), events);
    QuotientIsDivision(counter0, clocksPerFrame);
    QuotientIsDivision(counter0 + TimerTicks(scan0, events), clocksPerFrame);
  }

  lemma RunStopped(clocksPerFrame: Divisor, s0: State, events: seq<Event>, i: nat)
    requires i <= |events|
    requires i == |events| || Run(clocksPerFrame, s0, events[..i]).scanCode == ESC_BREAKCODE
    ensures Run(clocksPerFrame, s0, events) == Run(clocksPerFrame, s0, events[..i])
  {
    FoldStops(Rounds(clocksPerFrame), s0, events, i);
  }

  /** The timer branch of the loop body. */
  method TimerBranch(gpu: Gpu, dev: Drivers, xpm: Sprite, clocksPerFrame: Divisor, x0: uint16, y0: uint16,
                     ghost before: Picture, ghost frames0: seq<Point>)
    returns (x: uint16, y: uint16, ghost frames: seq<Point>)
    requires gpu.Valid() && gpu.screen == Shown(gpu.format, xpm, before, frames0)
    modifies gpu, gpu.backbuffer, gpu.videoMem, dev`counter
    ensures gpu.Valid() && gpu.screen == Shown(gpu.format, xpm, before, frames)
    ensures State(x, y, dev.scanCode, dev.ihValid, dev.counter, frames)
         == Tick(clocksPerFrame, State(x0, y0, dev.scanCode, dev.ihValid, old(dev.counter), frames0))
  {
    x, y, frames := x0, y0, frames0;
    dev.TimerIntHandler();
    if Remainder(dev.counter, clocksPerFrame) == 0 {
      x := Wrap16(x + 1);
      y := Wrap16(y + 1);
      RenderFrame(gpu, xpm, x, y);
      frames := frames + [Point(x, y)];
    }
  }

  method VideoTestMove(gpu: Gpu, dev: Drivers, xpm: Sprite, xi: uint16, yi: uint16, frRate: uint8,
                       frequency: uint16, events: seq<Event>)
    returns (x: uint16, y: uint16, ghost frames: seq<Point>)
    requires gpu.Valid() && 0 < frRate <= frequency
    modifies gpu, gpu.backbuffer, gpu.videoMem, dev`scanCode, dev`ihValid, dev`counter
    ensures gpu.Valid()
    ensures 0 < Quotient(frequency, frRate) < 0x1_0000
    ensures State(x, y, dev.scanCode, dev.ihValid, dev.counter, frames)
         == Run(Quotient(frequency, frRate), State(xi, yi, old(dev.scanCode), old(dev.ihValid), old(dev.counter), []), events)
    ensures gpu.screen == Shown(gpu.format, xpm, old(gpu.screen), frames)
  {
    QuotientBound(frequency, frRate);
    var clocksPerFrame: Divisor := Quotient(frequency, frRate);
    x, y, frames := xi, yi, [];
    ghost var s0 := State(xi, yi, dev.scanCode, dev.ihValid, dev.counter, []);
    var i := 0;
    while dev.scanCode != ESC_BREAKCODE && i < |events|
      invariant i <= |events|
      invariant gpu.Valid() && gpu.screen == Shown(gpu.format, xpm, old(gpu.screen), frames)
      invariant Run(clocksPerFrame, s0, events[..i]) == State(x, y, dev.scanCode, dev.ihValid, dev.counter, frames)
      decreases |events| - i
    {
      var event := events[i];
      i := i + 1;
      assert events[..i][..i - 1] == events[..i - 1];
      if event.Failed? {
        continue;
      }
      if event.Hardware? {
        if !event.keyboard.Quiet? {
          dev.KbcIh(event.keyboard);
        }
        if event.timer {
          x, y, frames := TimerBranch(gpu, dev, xpm, clocksPerFrame, x, y, old(gpu.screen), frames);
        }
      }
    }
    RunStopped(clocksPerFrame, s0, events, i);
  }
}
