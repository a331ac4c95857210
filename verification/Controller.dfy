/** The event loop that walks and runs a sprite about with the keyboard: its rounds as a machine
    over notifications, and what holds over every run. */
module Controller {
  import opened CTypes
  import opened Arithmetic
  import opened Devices
  import opened ScanCodes
  import opened Pictures
  import opened Sprites
  import opened Rasteriser
  import opened Frames
  import opened Runs

  const W_MAKECODE: uint8 := 0x11
  const W_BREAKCODE: uint8 := 0x91
  const A_MAKECODE: uint8 := 0x1E
  const A_BREAKCODE: uint8 := 0x9E
  const S_MAKECODE: uint8 := 0x1F
  const S_BREAKCODE: uint8 := 0x9F
  const D_MAKECODE: uint8 := 0x20
  const D_BREAKCODE: uint8 := 0xA0
  const SHIFT_MAKECODE: uint8 := 0x2A
  const SHIFT_BREAKCODE: uint8 := 0xAA

  const FR_RATE := 30
  const STEP := 10

  /** A timer frequency that leaves at least one clock per frame. */
  type Frequency = n: int | FR_RATE <= n < 0x1_0000 witness FR_RATE

  function ClocksPerFrame(frequency: Frequency): Divisor {
    frequency / FR_RATE
  }

  datatype Keys = Keys(w: bool, a: bool, s: bool, d: bool, shift: bool) {
    predicate Any() {
      w || a || s || d
    }
  }

  /** The loop's variables between two rounds, and the positions of the frames drawn so far. */
  datatype State = State(x: uint16, y: uint16, elapsed: nat, keys: Keys, scanCode: uint8, ihValid: bool,
                         counter: nat, frames: seq<Point>)

  /** scan_code, kbd_ih_valid and counter are globals and keep their values from before. */
  function Start(frequency: Frequency, scan0: uint8, valid0: bool, counter0: nat): State {
    State(100, 100, frequency, Keys(false, false, false, false, false), scan0, valid0, counter0, [])
  }

  /** cooldown / move_state, where RUNNING is 10 and WALKING is 1. */
  function Charge(frequency: Frequency, running: bool): nat {
    if running then frequency / 10 else frequency
  }

  predicate MayMove(s: State) {
    s.elapsed == 0 && s.keys.Any()
  }

  function Axis(at: uint16, back: bool, forth: bool): uint16 {
    Wrap16(at + (if forth then STEP else 0) - (if back then STEP else 0))
  }

  function Move(frequency: Frequency, s: State): State {
    if !MayMove(s) then s
    else s.(x := Axis(s.x, s.keys.a, s.keys.d), y := Axis(s.y, s.keys.w, s.keys.s),
            elapsed := Charge(frequency, s.keys.shift))
  }

  function Switch(held: bool, code: uint8, make: uint8, brk: uint8): bool {
    if code == make then true else if code == brk then false else held
  }

  function Press(keys: Keys, code: uint8): Keys {
    Keys(Switch(keys.w, code, W_MAKECODE, W_BREAKCODE),
         Switch(keys.a, code, A_MAKECODE, A_BREAKCODE),
         Switch(keys.s, code, S_MAKECODE, S_BREAKCODE),
         Switch(keys.d, code, D_MAKECODE, D_BREAKCODE),
         Switch(keys.shift, code, SHIFT_MAKECODE, SHIFT_BREAKCODE))
  }

  /** kbd_ih_valid is never cleared here: once it is set, an interrupt without a byte handles the old
      one again, and one whose byte is not valid handles that byte all the same. */
  function Listen(s: State, line: KeyboardLine): State {
    match line
    case Quiet => s
    case NoByte => if s.ihValid then s.(keys := Press(s.keys, s.scanCode)) else s
    case Spoiled(code) => s.(scanCode := code, keys := if s.ihValid then Press(s.keys, code) else s.keys)
    case Byte(code) => s.(scanCode := code, ihValid := true, keys := Press(s.keys, code))
  }

  function Tick(frequency: Frequency, s: State): State {
    var next := s.(counter := s.counter + 1, elapsed := if s.elapsed > 0 then s.elapsed - 1 else 0);
    if Remainder(next.counter, ClocksPerFrame(frequency)) == 0
    then next.(frames := s.frames + [Point(s.x, s.y)])
    else next
  }

  function Round(frequency: Frequency, s: State, e: Event): State {
    if s.scanCode == ESC_BREAKCODE || e.Failed? then s
    else
      var moved := Move(frequency, s);
      if !e.Hardware? then moved
      else
        var heard := Listen(moved, e.keyboard);
        if e.timer then Tick(frequency, heard) else heard
  }

  function Rounds(frequency: Frequency): (State, Event) -> State {
    (s, e) => Round(frequency, s, e)
  }

  function Run(frequency: Frequency, s0: State, events: seq<Event>): State {
    Fold(Rounds(frequency), s0, events)
  }

  /** Every run goes on from where its first part ended, so a law about runs from any state is a law
      about any stretch of any run. */
  lemma RunSplits(frequency: Frequency, s0: State, first: seq<Event>, rest: seq<Event>)
    ensures Run(frequency, s0, first + rest) == Run(frequency, Run(frequency, s0, first), rest)
  {
    FoldSplits(Rounds(frequency), s0, first, rest);
  }

  /** The counter has advanced by exactly the timer interrupts of the notifications. */
  lemma {:induction false} CounterFollowsTimer(frequency: Frequency, s0: State, events: seq<Event>)
    ensures var s := Run(frequency, s0, events);
            InStep(s.scanCode, s.counter, s0.scanCode, s0.counter, events)
  {
    if events != [] {
      var init, e := events[..|events| - 1], events[|events| - 1];
      CounterFollowsTimer(frequency, s0, init);
      var s := Run(frequency, s0, init);
      if e.Hardware? && s.scanCode != ESC_BREAKCODE {
        RoundInStep(frequency, s, e);
      }
      InStepMore(s.scanCode, s.counter, s0.scanCode, s0.counter, init, e);
      assert events == init + [e];
    }
  }

  lemma RoundInStep(frequency: Frequency, s: State, e: Event)
    requires e.Hardware? && s.scanCode != ESC_BREAKCODE
    ensures var s' := Round(frequency, s, e);
            && s'.scanCode == (if Arriving(e.keyboard) == [] then s.scanCode else Arriving(e.keyboard)[0].code)
            && s'.counter == if e.timer then s.counter + 1 else s.counter
  {
  }

  /** One round, spelled out key by key: a batch is made exactly when nothing is left to count down
      and one of the four keys is down, and a frame is drawn exactly at every frequency / 30-th tick. */
  ghost predicate Obeys(frequency: Frequency, s: State, e: Event, s': State) {
    if s.scanCode == 0x81 || e.Failed? then s' == s
    else
      var free, ticked := s.elapsed == 0, e.Hardware? && e.timer;
      var charged := if !(free && (s.keys.w || s.keys.a || s.keys.s || s.keys.d)) then s.elapsed
                     else if s.keys.shift then frequency / 10
                     else frequency;
      && s'.x == (s.x + (if free && s.keys.d then 10 else 0) - (if free && s.keys.a then 10 else 0)) % 0x1_0000
      && s'.y == (s.y + (if free && s.keys.s then 10 else 0) - (if free && s.keys.w then 10 else 0)) % 0x1_0000
      && s'.elapsed == (if ticked && charged > 0 then charged - 1 else charged)
      && s'.counter == (if ticked then s.counter + 1 else s.counter)
      && s'.frames == if ticked && s'.counter % (frequency / 30) == 0 then s.frames + [Point(s'.x, s'.y)] else s.frames
  }

  lemma MoveObeys(frequency: Frequency, s: State)
    ensures var free, moved := s.elapsed == 0, Move(frequency, s);
            && moved.x == (s.x + (if free && s.keys.d then 10 else 0) - (if free && s.keys.a then 10 else 0)) % 0x1_0000
            && moved.y == (s.y + (if free && s.keys.s then 10 else 0) - (if free && s.keys.w then 10 else 0)) % 0x1_0000
            && moved.elapsed == if !(free && (s.keys.w || s.keys.a || s.keys.s || s.keys.d)) then s.elapsed
                                else if s.keys.shift then frequency / 10
                                else frequency
  {
  }

  /** Every round of every run does exactly that. */
  lemma RoundsObey(frequency: Frequency, s0: State, events: seq<Event>, i: nat)
    requires i < |events|
    ensures Obeys(frequency, Run(frequency, s0, events[..i]), events[i], Run(frequency, s0, events[..i + 1]))
  {
    var s, e := Run(frequency, s0, events[..i]), events[i];
    assert events[..i + 1] == events[..i] + [e];
    FoldOneMore(Rounds(frequency), s0, events[..i], e);
    RoundObeys(frequency, s, e);
  }

  lemma RoundObeys(frequency: Frequency, s: State, e: Event)
    ensures Obeys(frequency, s, e, Round(frequency, s, e))
  {
    MoveObeys(frequency, s);
    if e.Hardware? {
      ListenKeeps(Move(frequency, s), e.keyboard);
      QuotientIsDivision(s.counter + 1, ClocksPerFrame(frequency));
    }
  }

  // What a run has done, read off its rounds, in terms of the variables and not of the machine.

  /** Movement batches at walking and at running speed; timer ticks, those that counted the cooldown
      down, and those that found nothing to count down and no movement key held; steps in each direction. */
  datatype Ledger = Ledger(walks: nat, runs: nat, ticks: nat, countdown: nat, rests: nat,
                           left: nat, right: nat, up: nat, down: nat)

  function One(b: bool): nat {
    if b then 1 else 0
  }

  function Enter(l: Ledger, s: State, e: Event): Ledger {
    if s.scanCode == 0x81 || e.Failed? then l
    else
      var moved := EnterMove(l, s);
      if e.Hardware? && e.timer then EnterTick(moved, s) else moved
  }

  function EnterMove(l: Ledger, s: State): Ledger {
    if s.elapsed > 0 || !(s.keys.w || s.keys.a || s.keys.s || s.keys.d) then l
    else l.(walks := l.walks + One(!s.keys.shift), runs := l.runs + One(s.keys.shift),
            left := l.left + One(s.keys.a), right := l.right + One(s.keys.d),
            up := l.up + One(s.keys.w), down := l.down + One(s.keys.s))
  }

  function EnterTick(l: Ledger, s: State): Ledger {
    if s.elapsed > 0 || s.keys.w || s.keys.a || s.keys.s || s.keys.d
    then l.(ticks := l.ticks + 1, countdown := l.countdown + 1)
    else l.(ticks := l.ticks + 1, rests := l.rests + 1)
  }

  function Account(frequency: Frequency, s0: State, events: seq<Event>): Ledger {
    if events == [] then Ledger(0, 0, 0, 0, 0, 0, 0, 0, 0)
    else
      var init := events[..|events| - 1];
      Enter(Account(frequency, s0, init), Run(frequency, s0, init), events[|events| - 1])
  }

  /** The bytes handled, each repetition of an old byte left out. */
  function Handled(frequency: Frequency, s0: State, events: seq<Event>): seq<uint8> {
    if events == [] then []
    else
      var init := events[..|events| - 1];
      HandledMore(Handled(frequency, s0, init), Run(frequency, s0, init), events[|events| - 1])
  }

  function HandledMore(before: seq<uint8>, s: State, e: Event): seq<uint8> {
    if s.scanCode == 0x81 || !e.Hardware? then before
    else
      match e.keyboard
      case Quiet => before
      case NoByte => if s.ihValid && before == [] then [s.scanCode] else before
      case Spoiled(code) => if s.ihValid then before + [code] else before
      case Byte(code) => before + [code]
  }

  /** The ledger as it stood at each frame drawn. */
  function Snapshots(frequency: Frequency, s0: State, events: seq<Event>): seq<Ledger> {
    if events == [] then []
    else
      var init := events[..|events| - 1];
      Snapshot(Snapshots(frequency, s0, init), Run(frequency, s0, init), Run(frequency, s0, events),
               Account(frequency, s0, events))
  }

  function Snapshot(ledgers: seq<Ledger>, s: State, s': State, l: Ledger): seq<Ledger> {
    if |s.frames| < |s'.frames| then ledgers + [l] else ledgers
  }

  // The cooldown.

  predicate Balanced(frequency: Frequency, s0: State, s: State, l: Ledger) {
    && s0.elapsed + Times(l.walks, frequency) + Times(l.runs, frequency / 10) == s.elapsed + l.countdown
    && l.ticks == l.countdown + l.rests
    && s.counter == s0.counter + l.ticks
    && s.elapsed <= frequency
  }

  lemma BalancedMove(frequency: Frequency, s0: State, s: State, l: Ledger)
    requires Balanced(frequency, s0, s, l)
    ensures Balanced(frequency, s0, Move(frequency, s), EnterMove(l, s))
  {
  }

  lemma ListenKeeps(s: State, line: KeyboardLine)
    ensures var heard := Listen(s, line);
            && heard.x == s.x && heard.y == s.y && heard.elapsed == s.elapsed
            && heard.counter == s.counter && heard.frames == s.frames
  {
  }

  lemma BalancedTick(frequency: Frequency, s0: State, s: State, heard: State, l: Ledger)
    requires Balanced(frequency, s0, heard, l)
    requires heard.elapsed > 0 <==> s.elapsed > 0 || s.keys.Any()
    ensures Balanced(frequency, s0, Tick(frequency, heard), EnterTick(l, s))
  {
  }

  lemma BalancedRound(frequency: Frequency, s0: State, s: State, l: Ledger, e: Event)
    requires Balanced(frequency, s0, s, l)
    ensures Balanced(frequency, s0, Round(frequency, s, e), Enter(l, s, e))
  {
    BalancedMove(frequency, s0, s, l);
    if s.scanCode != ESC_BREAKCODE && e.Hardware? {
      var moved := Move(frequency, s);
      ListenKeeps(moved, e.keyboard);
      BalancedTick(frequency, s0, s, Listen(moved, e.keyboard), EnterMove(l, s));
    }
  }

  /** Every charge, a cooldown for a walking batch and a tenth of it for a running one, is paid back
      in ticks, and every other tick is a rest. */
  lemma {:induction false} CooldownConserved(frequency: Frequency, s0: State, events: seq<Event>)
    requires s0.elapsed <= frequency
    ensures Balanced(frequency, s0, Run(frequency, s0, events), Account(frequency, s0, events))
  {
    if events != [] {
      var init := events[..|events| - 1];
      CooldownConserved(frequency, s0, init);
      BalancedRound(frequency, s0, Run(frequency, s0, init), Account(frequency, s0, init), events[|events| - 1]);
    }
  }

  /** The speed limit of a whole run: the ticks cover the initial cooldown and every charge, less
      what is still to be counted down; so any k batches take at least k tenths of a cooldown more. */
  lemma SpeedLimit(frequency: Frequency, scan0: uint8, valid0: bool, counter0: nat, events: seq<Event>)
    ensures var s0 := Start(frequency, scan0, valid0, counter0);
            WithinLimit(frequency, counter0, Run(frequency, s0, events), Account(frequency, s0, events))
  {
    var s0 := Start(frequency, scan0, valid0, counter0);
    CooldownConserved(frequency, s0, events);
    BatchesTakeTicks(frequency, s0, Run(frequency, s0, events), Account(frequency, s0, events));
  }

  predicate WithinLimit(frequency: Frequency, counter0: nat, s: State, l: Ledger) {
    && 0 <= s.elapsed <= frequency
    && frequency + l.walks * frequency + l.runs * (frequency / 10) - s.elapsed == l.countdown
    && l.countdown <= l.ticks == s.counter - counter0
    && frequency + (l.walks + l.runs) * (frequency / 10) - s.elapsed <= l.ticks
  }

  lemma BatchesTakeTicks(frequency: Frequency, s0: State, s: State, l: Ledger)
    requires s0.elapsed == frequency && Balanced(frequency, s0, s, l)
    ensures WithinLimit(frequency, s0.counter, s, l)
  {
    var tenth := frequency / 10;
    TimesIsProduct(l.walks, frequency);
    TimesIsProduct(l.runs, tenth);
    TimesIsProduct(l.walks + l.runs, tenth);
    TimesSum(l.walks, l.runs, tenth);
    TimesMonotone(l.walks, tenth, frequency);
  }

  lemma {:induction false} NoRestWhileHeld(frequency: Frequency, s0: State, events: seq<Event>)
    requires forall i :: 0 <= i < |events| ==>
      var keys := Run(frequency, s0, events[..i]).keys; keys.w || keys.a || keys.s || keys.d
    ensures Account(frequency, s0, events).rests == 0
  {
    if events != [] {
      var init := events[..|events| - 1];
      assert forall i :: 0 <= i < |init| ==> init[..i] == events[..i];
      NoRestWhileHeld(frequency, s0, init);
    }
  }

  /** The exact speed: while some movement key stays held, every tick pays for a batch, so the ticks
      are the charges, up to what was left at the start and what is left at the end. */
  lemma FullSpeedWhileHeld(frequency: Frequency, s0: State, events: seq<Event>)
    requires s0.elapsed <= frequency
    requires forall i :: 0 <= i < |events| ==>
      var keys := Run(frequency, s0, events[..i]).keys; keys.w || keys.a || keys.s || keys.d
    ensures AtFullSpeed(frequency, s0, Run(frequency, s0, events), Account(frequency, s0, events))
  {
    CooldownConserved(frequency, s0, events);
    NoRestWhileHeld(frequency, s0, events);
    var l := Account(frequency, s0, events);
    TimesIsProduct(l.walks, frequency);
    TimesIsProduct(l.runs, frequency / 10);
  }

  predicate AtFullSpeed(frequency: Frequency, s0: State, s: State, l: Ledger) {
    && s.counter - s0.counter == s0.elapsed + l.walks * frequency + l.runs * (frequency / 10) - s.elapsed
    && 0 <= s.elapsed <= frequency
  }

  predicate Spaced(frequency: Frequency, s0: State, l: Ledger) {
    var k := l.walks + l.runs;
    k > 0 ==> s0.elapsed + Times(k - 1, frequency / 10) <= l.countdown
  }

  lemma SpacedRound(frequency: Frequency, s0: State, s: State, l: Ledger, e: Event)
    requires Balanced(frequency, s0, s, l) && Spaced(frequency, s0, l)
    ensures Spaced(frequency, s0, Enter(l, s, e))
  {
    TimesSum(l.walks, l.runs, frequency / 10);
    TimesMonotone(l.walks, frequency / 10, frequency);
  }

  lemma {:induction false} RunIsSpaced(frequency: Frequency, s0: State, events: seq<Event>)
    requires s0.elapsed <= frequency
    ensures Spaced(frequency, s0, Account(frequency, s0, events))
  {
    if events != [] {
      var init := events[..|events| - 1];
      RunIsSpaced(frequency, s0, init);
      CooldownConserved(frequency, s0, init);
      SpacedRound(frequency, s0, Run(frequency, s0, init), Account(frequency, s0, init), events[|events| - 1]);
    }
  }

  /** k batches need at least k - 1 tenths of a cooldown in ticks; in fewer ticks than three frame
      periods have, at most one batch fits. */
  predicate WellSpaced(frequency: Frequency, s0: State, l: Ledger) {
    var k := l.walks + l.runs;
    && (k > 0 ==> s0.elapsed + (k - 1) * (frequency / 10) <= l.ticks)
    && (l.ticks < 3 * (frequency / 30) ==> k <= 1)
  }

  lemma SpacedLedger(frequency: Frequency, s0: State, l: Ledger)
    requires Spaced(frequency, s0, l) && l.countdown <= l.ticks
    ensures WellSpaced(frequency, s0, l)
  {
    var k := l.walks + l.runs;
    if k > 0 {
      TimesIsProduct(k - 1, frequency / 10);
    }
    if k > 1 {
      TimesGap(0, k - 1, frequency / 10);
    }
  }

  /** Over any stretch of any run the batches are spaced out. */
  lemma BatchesAreSpaced(frequency: Frequency, s0: State, events: seq<Event>)
    requires s0.elapsed <= frequency
    ensures WellSpaced(frequency, s0, Account(frequency, s0, events))
  {
    RunIsSpaced(frequency, s0, events);
    CooldownConserved(frequency, s0, events);
    SpacedLedger(frequency, s0, Account(frequency, s0, events));
  }

  // The frames.

  /** At most one step of ten on each axis, around the uint16_t circle. */
  predicate Near(p: Point, q: Point) {
    NearOnAxis(p.x, q.x) && NearOnAxis(p.y, q.y)
  }

  predicate NearOnAxis(from: uint16, to: uint16) {
    to == from || Ahead(to, from) == 10 || Ahead(from, to) == 10
  }

  lemma AxisIsNear(at: uint16, back: bool, forth: bool)
    ensures NearOnAxis(at, Axis(at, back, forth))
  {
  }

  /** Frames up to three apart are near: at most one batch falls into any three frame gaps in a row. */
  predicate Smooth(frames: seq<Point>) {
    forall i, j :: 0 <= i < j < |frames| && j - i <= 3 ==> Near(frames[i], frames[j])
  }

  /** Since the m-th last frame, either nothing moved, or one batch did and its charge outlasts three
      frame periods from that frame. */
  predicate Settled(frequency: Frequency, s: State, m: nat, since: nat) {
    0 < m <= |s.frames| ==>
      var frame, here := s.frames[|s.frames| - m], Point(s.x, s.y);
      || frame == here
      || (Near(frame, here) && s.elapsed + since >= frequency / 10)
  }

  predicate Steady(frequency: Frequency, s: State) {
    var period := ClocksPerFrame(frequency);
    var since := Remainder(s.counter, period);
    && Smooth(s.frames)
    && Settled(frequency, s, 1, since)
    && Settled(frequency, s, 2, since + period)
    && Settled(frequency, s, 3, since + 2 * period)
  }

  lemma SteadyMove(frequency: Frequency, s: State)
    requires Steady(frequency, s)
    ensures Steady(frequency, Move(frequency, s))
  {
    assert 3 * ClocksPerFrame(frequency) <= frequency / 10;
    AxisIsNear(s.x, s.keys.a, s.keys.d);
    AxisIsNear(s.y, s.keys.w, s.keys.s);
  }

  /** Steadiness is about the position, the cooldown, the counter and the frames alone. */
  lemma SteadyListen(frequency: Frequency, s: State, line: KeyboardLine)
    requires Steady(frequency, s)
    ensures Steady(frequency, Listen(s, line))
  {
    ListenKeeps(s, line);
  }

  lemma SmoothMore(frames: seq<Point>, here: Point)
    requires Smooth(frames)
    requires forall i :: 0 <= i < |frames| && |frames| - i <= 3 ==> Near(frames[i], here)
    ensures Smooth(frames + [here])
  {
  }

  /** What was settled stays settled over a tick. */
  lemma SettledTick(frequency: Frequency, s: State, s': State, m: nat, m': nat, since: nat, since': nat)
    requires Settled(frequency, s, m, since) && 0 < m <= |s.frames|
    requires s'.x == s.x && s'.y == s.y && s.elapsed + since <= s'.elapsed + since'
    requires 0 < m' <= |s'.frames| && s'.frames[|s'.frames| - m'] == s.frames[|s.frames| - m]
    ensures Settled(frequency, s', m', since')
  {
  }

  lemma SettledIsNear(frequency: Frequency, s: State, m: nat, since: nat)
    requires Settled(frequency, s, m, since) && 0 < m <= |s.frames|
    ensures Near(s.frames[|s.frames| - m], Point(s.x, s.y))
  {
  }

  lemma RecentAreNear(frequency: Frequency, s: State)
    requires Steady(frequency, s)
    ensures forall i :: 0 <= i < |s.frames| && |s.frames| - i <= 3 ==> Near(s.frames[i], Point(s.x, s.y))
  {
    var period := ClocksPerFrame(frequency);
    var since, n := Remainder(s.counter, period), |s.frames|;
    forall i | 0 <= i < n && n - i <= 3
      ensures Near(s.frames[i], Point(s.x, s.y))
    {
      if i == n - 1 {
        SettledIsNear(frequency, s, 1, since);
      } else if i == n - 2 {
        SettledIsNear(frequency, s, 2, since + period);
      } else {
        SettledIsNear(frequency, s, 3, since + 2 * period);
      }
    }
  }

  lemma SteadyFrame(frequency: Frequency, s: State)
    requires Steady(frequency, s) && Remainder(s.counter + 1, ClocksPerFrame(frequency)) == 0
    ensures Steady(frequency, Tick(frequency, s))
  {
    var s', period, n := Tick(frequency, s), ClocksPerFrame(frequency), |s.frames|;
    var since := Remainder(s.counter, period);
    assert s'.frames == s.frames + [Point(s.x, s.y)];
    assert since < period;
    RecentAreNear(frequency, s);
    SmoothMore(s.frames, Point(s.x, s.y));
    if n >= 1 { SettledTick(frequency, s, s', 1, 2, since, period); }
    if n >= 2 { SettledTick(frequency, s, s', 2, 3, since + period, 2 * period); }
  }

  lemma SteadyPlainTick(frequency: Frequency, s: State)
    requires Steady(frequency, s) && Remainder(s.counter + 1, ClocksPerFrame(frequency)) != 0
    ensures Steady(frequency, Tick(frequency, s))
  {
    var s', period, n := Tick(frequency, s), ClocksPerFrame(frequency), |s.frames|;
    var since := Remainder(s.counter, period);
    TickDivider(s.counter, period);
    if n >= 1 { SettledTick(frequency, s, s', 1, 1, since, since + 1); }
    if n >= 2 { SettledTick(frequency, s, s', 2, 2, since + period, since + 1 + period); }
    if n >= 3 { SettledTick(frequency, s, s', 3, 3, since + 2 * period, since + 1 + 2 * period); }
  }

  lemma SteadyRound(frequency: Frequency, s: State, e: Event)
    requires Steady(frequency, s)
    ensures Steady(frequency, Round(frequency, s, e))
  {
    SteadyMove(frequency, s);
    if e.Hardware? {
      var moved := Move(frequency, s);
      SteadyListen(frequency, moved, e.keyboard);
      var heard := Listen(moved, e.keyboard);
      if Remainder(heard.counter + 1, ClocksPerFrame(frequency)) == 0 {
        SteadyFrame(frequency, heard);
      } else {
        SteadyPlainTick(frequency, heard);
      }
    }
  }

  lemma {:induction false} RunIsSteady(frequency: Frequency, s0: State, events: seq<Event>)
    requires Steady(frequency, s0)
    ensures Steady(frequency, Run(frequency, s0, events))
  {
    if events != [] {
      RunIsSteady(frequency, s0, events[..|events| - 1]);
      SteadyRound(frequency, Run(frequency, s0, events[..|events| - 1]), events[|events| - 1]);
    }
  }

  /** In every run the sprite moves by -10, 0 or +10 on each axis, modulo 2^16, over up to three
      consecutive frame gaps taken together. */
  lemma FramesAreSmooth(frequency: Frequency, scan0: uint8, valid0: bool, counter0: nat, events: seq<Event>)
    ensures Smooth(Run(frequency, Start(frequency, scan0, valid0, counter0), events).frames)
  {
    RunIsSteady(frequency, Start(frequency, scan0, valid0, counter0), events);
  }

  lemma FramesRound(frequency: Frequency, s: State, e: Event)
    ensures var s', k := Round(frequency, s, e), ClocksPerFrame(frequency);
            |s'.frames| - |s.frames| == Quotient(s'.counter, k) - Quotient(s.counter, k)
  {
    TickDivider(s.counter, ClocksPerFrame(frequency));
    if e.Hardware? {
      ListenKeeps(Move(frequency, s), e.keyboard);
    }
  }

  lemma {:induction false} FramesFollowCounter(frequency: Frequency, s0: State, events: seq<Event>)
    ensures var s, k := Run(frequency, s0, events), ClocksPerFrame(frequency);
            |s.frames| - |s0.frames| == Quotient(s.counter, k) - Quotient(s0.counter, k)
  {
    if events != [] {
      var init := events[..|events| - 1];
      FramesFollowCounter(frequency, s0, init);
      FramesRound(frequency, Run(frequency, s0, init), events[|events| - 1]);
    }
  }

  /** The timer interrupts that the notifications carry are all counted, and a frame is drawn at every
      frequency / 30-th of them, and only then. */
  lemma FramesPerTick(frequency: Frequency, s0: State, events: seq<Event>)
    ensures var s, t := Run(frequency, s0, events), TimerTicks(s0.scanCode, events);
            && s.counter == s0.counter + t
            && |s.frames| - |s0.frames| == (s0.counter + t) / (frequency / 30) - s0.counter / (frequency / 30)
  {
    FramesFollowCounter(frequency, s0, events);
    CounterFollowsTimer(frequency, s0, events);
    QuotientIsDivision(s0.counter, ClocksPerFrame(frequency));
    QuotientIsDivision(s0.counter + TimerTicks(s0.scanCode, events), ClocksPerFrame(frequency));
  }

  // The keys and the position.

  /** The last make or break code of a key in the history is a make code. */
  ghost predicate LastIsMake(history: seq<uint8>, make: uint8, brk: uint8) {
    exists i :: 0 <= i < |history| && history[i] == make && forall j :: i < j < |history| ==> history[j] != brk
  }

  lemma LastIsMakeMore(history: seq<uint8>, code: uint8, make: uint8, brk: uint8)
    requires make != brk
    ensures LastIsMake(history + [code], make, brk) == Switch(LastIsMake(history, make, brk), code, make, brk)
  {
    var longer := history + [code];
    assert longer[|history|] == code;
    assert forall j :: 0 <= j < |history| ==> longer[j] == history[j];
  }

  /** The keys that a history leaves pressed, by their make and break codes. */
  ghost function KeysOf(history: seq<uint8>): Keys {
    Keys(LastIsMake(history, 0x11, 0x91),
         LastIsMake(history, 0x1E, 0x9E),
         LastIsMake(history, 0x1F, 0x9F),
         LastIsMake(history, 0x20, 0xA0),
         LastIsMake(history, 0x2A, 0xAA))
  }

  lemma KeysOfMore(history: seq<uint8>, code: uint8)
    ensures KeysOf(history + [code]) == Press(KeysOf(history), code)
  {
    LastIsMakeMore(history, code, W_MAKECODE, W_BREAKCODE);
    LastIsMakeMore(history, code, A_MAKECODE, A_BREAKCODE);
    LastIsMakeMore(history, code, S_MAKECODE, S_BREAKCODE);
    LastIsMakeMore(history, code, D_MAKECODE, D_BREAKCODE);
    LastIsMakeMore(history, code, SHIFT_MAKECODE, SHIFT_BREAKCODE);
  }

  /** Handling a byte again changes nothing. */
  lemma PressTwice(keys: Keys, code: uint8)
    ensures Press(Press(keys, code), code) == Press(keys, code)
  {
  }

  ghost predicate Remembers(s: State, scan0: uint8, valid0: bool, history: seq<uint8>) {
    && s.keys == KeysOf(history)
    && (history == [] ==> s.ihValid == valid0 && (valid0 ==> s.scanCode == scan0))
    && (history != [] ==> s.ihValid && s.scanCode == history[|history| - 1])
  }

  lemma HandledAgain(history: seq<uint8>)
    requires history != []
    ensures Press(KeysOf(history), history[|history| - 1]) == KeysOf(history)
  {
    var last := |history| - 1;
    KeysOfMore(history[..last], history[last]);
    assert history[..last] + [history[last]] == history;
    PressTwice(KeysOf(history[..last]), history[last]);
  }

  lemma RemembersRound(frequency: Frequency, s: State, scan0: uint8, valid0: bool, history: seq<uint8>, e: Event)
    requires Remembers(s, scan0, valid0, history)
    ensures Remembers(Round(frequency, s, e), scan0, valid0, HandledMore(history, s, e))
  {
    if e.Hardware? {
      if Arriving(e.keyboard) != [] {
        KeysOfMore(history, Arriving(e.keyboard)[0].code);
      } else if history != [] {
        HandledAgain(history);
      } else {
        KeysOfMore([], s.scanCode);
        assert [] + [s.scanCode] == [s.scanCode];
      }
    }
  }

  /** In every run a key counts as pressed exactly when the last make or break code of it that was
      handled is a make, and handling the last scan code over and over changes no key. */
  lemma {:induction false} KeysFollowHistory(frequency: Frequency, scan0: uint8, valid0: bool, counter0: nat, events: seq<Event>)
    ensures var s0 := Start(frequency, scan0, valid0, counter0);
            Remembers(Run(frequency, s0, events), scan0, valid0, Handled(frequency, s0, events))
  {
    if events != [] {
      var s0, init := Start(frequency, scan0, valid0, counter0), events[..|events| - 1];
      KeysFollowHistory(frequency, scan0, valid0, counter0, init);
      RemembersRound(frequency, Run(frequency, s0, init), scan0, valid0, Handled(frequency, s0, init), events[|events| - 1]);
    }
  }

  /** The codes from the first valid byte on, whether or not the later ones are valid. */
  function SinceValid(arrivals: seq<Arrival>): seq<uint8> {
    if arrivals == [] then []
    else
      var before, last := SinceValid(arrivals[..|arrivals| - 1]), arrivals[|arrivals| - 1];
      if last.valid || before != [] then before + [last.code] else before
  }

  ghost predicate Handles(s: State, scan0: uint8, history: seq<uint8>, arrivals: seq<Arrival>) {
    && history == SinceValid(UpToEsc(arrivals))
    && (s.ihValid <==> history != [])
    && LastTaken(s.scanCode, scan0, arrivals)
  }

  lemma SinceValidOneMore(arrivals: seq<Arrival>, a: Arrival)
    ensures SinceValid(arrivals + [a])
         == if a.valid || SinceValid(arrivals) != [] then SinceValid(arrivals) + [a.code] else SinceValid(arrivals)
  {
    assert (arrivals + [a])[..|arrivals|] == arrivals;
  }

  lemma HandlesMore(s: State, scan0: uint8, history: seq<uint8>, arrivals: seq<Arrival>, line: KeyboardLine)
    requires Handles(s, scan0, history, arrivals) && !HasEsc(arrivals) && Arriving(line) != []
    ensures Handles(Listen(s, line), scan0, if line.Byte? || s.ihValid then history + [line.code] else history,
                    arrivals + Arriving(line))
  {
    UpToEscCutsAtFirst(arrivals);
    UpToEscOneMore(arrivals, Arriving(line)[0]);
    SinceValidOneMore(arrivals, Arriving(line)[0]);
  }

  lemma RoundTakesIn(frequency: Frequency, s: State, e: Event)
    requires e.Hardware?
    ensures var heard := if s.scanCode == ESC_BREAKCODE then s else Listen(s, e.keyboard);
            var next := Round(frequency, s, e);
            next.scanCode == heard.scanCode && next.ihValid == heard.ihValid
  {
  }

  lemma HandlesHeard(s: State, heard: State, scan0: uint8, history: seq<uint8>, arrivals: seq<Arrival>, e: Event)
    requires scan0 != ESC_BREAKCODE && e.Hardware?
    requires Handles(s, scan0, history, arrivals)
    requires heard == if s.scanCode == ESC_BREAKCODE then s else Listen(s, e.keyboard)
    ensures Handles(heard, scan0, HandledMore(history, s, e), arrivals + Arriving(e.keyboard))
  {
    EscIsLast(s.scanCode, scan0, arrivals);
    if Arriving(e.keyboard) == [] {
      assert arrivals + Arriving(e.keyboard) == arrivals;
    } else if HasEsc(arrivals) {
      UpToEscOneMore(arrivals, Arriving(e.keyboard)[0]);
    } else {
      HandlesMore(s, scan0, history, arrivals, e.keyboard);
    }
  }

  lemma HandlesRound(frequency: Frequency, s: State, scan0: uint8, history: seq<uint8>, arrivals: seq<Arrival>, e: Event)
    requires scan0 != ESC_BREAKCODE && e.Hardware?
    requires Handles(s, scan0, history, arrivals)
    ensures Handles(Round(frequency, s, e), scan0, HandledMore(history, s, e), arrivals + Arriving(e.keyboard))
  {
    RoundTakesIn(frequency, s, e);
    HandlesHeard(s, if s.scanCode == ESC_BREAKCODE then s else Listen(s, e.keyboard), scan0, history, arrivals, e);
  }

  /** With kbd_ih_valid still clear at the start, the bytes handled are those stored up to the first
      ESC_BREAKCODE, from the first valid one on: after it, invalid bytes are handled as keys too. */
  lemma {:induction false} HandledIsStored(frequency: Frequency, scan0: uint8, counter0: nat, events: seq<Event>)
    requires scan0 != ESC_BREAKCODE
    ensures var s0 := Start(frequency, scan0, false, counter0);
            Handles(Run(frequency, s0, events), scan0, Handled(frequency, s0, events), Arrivals(events))
  {
    if events != [] {
      var s0 := Start(frequency, scan0, false, counter0);
      var init, e := events[..|events| - 1], events[|events| - 1];
      HandledIsStored(frequency, scan0, counter0, init);
      if e.Hardware? {
        HandlesRound(frequency, Run(frequency, s0, init), scan0, Handled(frequency, s0, init), Arrivals(init), e);
      }
    }
  }

  lemma AxisSteps(start: int, net: int, back: bool, forth: bool)
    ensures Axis(Wrap16(start + 10 * net), back, forth) == Wrap16(start + 10 * (net + One(forth) - One(back)))
  {
    WrapMoves(start + 10 * net, 10 * (One(forth) - One(back)));
  }

  /** Where the steps lead from the starting point, modulo 2^16. */
  function PlaceOf(s0: State, l: Ledger): Point {
    Point(Wrap16(s0.x + 10 * (l.right - l.left)), Wrap16(s0.y + 10 * (l.down - l.up)))
  }

  predicate Placed(s0: State, s: State, l: Ledger) {
    Point(s.x, s.y) == PlaceOf(s0, l)
  }

  lemma PlacedRound(frequency: Frequency, s0: State, s: State, l: Ledger, e: Event)
    requires Placed(s0, s, l)
    ensures Placed(s0, Round(frequency, s, e), Enter(l, s, e))
  {
    if MayMove(s) {
      AxisSteps(s0.x, l.right - l.left, s.keys.a, s.keys.d);
      AxisSteps(s0.y, l.down - l.up, s.keys.w, s.keys.s);
    }
    if e.Hardware? {
      ListenKeeps(Move(frequency, s), e.keyboard);
    }
  }

  /** The position is the starting point and ten times the net steps on each axis, modulo 2^16. */
  lemma {:induction false} PositionFollowsSteps(frequency: Frequency, s0: State, events: seq<Event>)
    ensures Placed(s0, Run(frequency, s0, events), Account(frequency, s0, events))
  {
    if events != [] {
      var init := events[..|events| - 1];
      PositionFollowsSteps(frequency, s0, init);
      PlacedRound(frequency, s0, Run(frequency, s0, init), Account(frequency, s0, init), events[|events| - 1]);
    }
  }

  /** Each frame was drawn where the steps made by then lead. */
  predicate Recorded(s0: State, frames: seq<Point>, ledgers: seq<Ledger>) {
    |frames| == |ledgers| && forall k :: 0 <= k < |frames| ==> frames[k] == PlaceOf(s0, ledgers[k])
  }

  lemma RecordedRound(frequency: Frequency, s0: State, s: State, ledgers: seq<Ledger>, l: Ledger, e: Event)
    requires Recorded(s0, s.frames, ledgers) && Placed(s0, Round(frequency, s, e), l)
    ensures var s' := Round(frequency, s, e);
            Recorded(s0, s'.frames, Snapshot(ledgers, s, s', l))
  {
    if e.Hardware? {
      ListenKeeps(Move(frequency, s), e.keyboard);
    }
  }

  lemma {:induction false} FramesFollowSteps(frequency: Frequency, scan0: uint8, valid0: bool, counter0: nat, events: seq<Event>)
    ensures var s0 := Start(frequency, scan0, valid0, counter0);
            Recorded(s0, Run(frequency, s0, events).frames, Snapshots(frequency, s0, events))
  {
    if events != [] {
      var s0, init := Start(frequency, scan0, valid0, counter0), events[..|events| - 1];
      FramesFollowSteps(frequency, scan0, valid0, counter0, init);
      PositionFollowsSteps(frequency, s0, events);
      RecordedRound(frequency, s0, Run(frequency, s0, init), Snapshots(frequency, s0, init), Account(frequency, s0, events),
                    events[|events| - 1]);
    }
  }

  /** A frame drawn at the point shows the sprite clipped at the signed position that the steps add
      up to, as long as that stays in range. */
  ghost predicate ShowsSigned(f: Format, img: Sprite, at: Point, l: Ledger) {
    var sx, sy := 100 + 10 * (l.right - l.left), 100 + 10 * (l.down - l.up);
    Int16(sx) && Int16(sy) ==> Frame(f, img, at) == Black(f) + SignedInk(f, img, sx, sy)
  }

  lemma SignedFrame(f: Format, img: Sprite, at: Point, sx: int, sy: int)
    requires f.xRes <= 0x8000 && f.yRes <= 0x8000 && img.width <= 0x8001 && img.height <= 0x8001
    requires Int16(sx) && Int16(sy) && at == Point(Wrap16(sx), Wrap16(sy))
    ensures Frame(f, img, at) == Black(f) + SignedInk(f, img, sx, sy)
  {
    SignedSprite(f, img, sx, sy);
  }

  lemma PlaceShowsSigned(f: Format, img: Sprite, s0: State, l: Ledger)
    requires f.xRes <= 0x8000 && f.yRes <= 0x8000 && img.width <= 0x8001 && img.height <= 0x8001
    requires s0.x == s0.y == 100
    ensures ShowsSigned(f, img, PlaceOf(s0, l), l)
  {
    var sx, sy := 100 + 10 * (l.right - l.left), 100 + 10 * (l.down - l.up);
    if Int16(sx) && Int16(sy) {
      SignedFrame(f, img, PlaceOf(s0, l), sx, sy);
    }
  }

  /** In every run every frame shows the sprite correctly clipped at its signed position of that
      moment, also past the zero edges, and the last of them is what the screen shows. */
  lemma FramesShowSignedPosition(frequency: Frequency, f: Format, img: Sprite, scan0: uint8, valid0: bool, counter0: nat,
                                 events: seq<Event>, k: nat)
    requires f.xRes <= 0x8000 && f.yRes <= 0x8000 && img.width <= 0x8001 && img.height <= 0x8001
    requires k < |Run(frequency, Start(frequency, scan0, valid0, counter0), events).frames|
    ensures var s0 := Start(frequency, scan0, valid0, counter0);
            var frames, ledgers := Run(frequency, s0, events).frames, Snapshots(frequency, s0, events);
            && |frames| == |ledgers|
            && ShowsSigned(f, img, frames[k], ledgers[k])
            && forall before :: k == |frames| - 1 ==> Shown(f, img, before, frames) == Frame(f, img, frames[k])
  {
    var s0 := Start(frequency, scan0, valid0, counter0);
    FramesFollowSteps(frequency, scan0, valid0, counter0, events);
    PlaceShowsSigned(f, img, s0, Snapshots(frequency, s0, events)[k]);
  }

  // The loop itself.

  lemma RunStopped(frequency: Frequency, s0: State, events: seq<Event>, i: nat)
    requires i <= |events|
    requires i == |events| || Run(frequency, s0, events[..i]).scanCode == ESC_BREAKCODE
    ensures Run(frequency, s0, events) == Run(frequency, s0, events[..i])
  {
    FoldStops(Rounds(frequency), s0, events, i);
  }

  /** The movement block of the loop body. */
  method MovementBlock(frequency: Frequency, keys: Keys, x0: uint16, y0: uint16, elapsed0: nat, ghost s: State)
    returns (x: uint16, y: uint16, elapsed: nat)
    requires s.x == x0 && s.y == y0 && s.elapsed == elapsed0 && s.keys == keys
    ensures s.(x := x, y := y, elapsed := elapsed) == Move(frequency, s)
  {
    x, y, elapsed := x0, y0, elapsed0;
    var cooldown := 1 * frequency;
    var moveState := if keys.shift then 10 else 1;
    assert cooldown / moveState == Charge(frequency, keys.shift);
    if elapsed == 0 {
      if keys.w {
        y := Wrap16(y - 10);
        elapsed := cooldown / moveState;
      }
      if keys.a {
        x := Wrap16(x - 10);
        elapsed := cooldown / moveState;
      }
      if keys.s {
        y := Wrap16(y + 10);
        elapsed := cooldown / moveState;
      }
      if keys.d {
        x := Wrap16(x + 10);
        elapsed := cooldown / moveState;
      }
    }
  }

  /** The ten comparisons of the keyboard branch. */
  method HandleCode(keys0: Keys, code: uint8) returns (keys: Keys)
    ensures keys == Press(keys0, code)
  {
    var w, a, sKey, d, shift := keys0.w, keys0.a, keys0.s, keys0.d, keys0.shift;
    if code == SHIFT_MAKECODE { shift := true; }
    if code == SHIFT_BREAKCODE { shift := false; }
    if code == W_MAKECODE { w := true; }
    if code == W_BREAKCODE { w := false; }
    if code == A_MAKECODE { a := true; }
    if code == A_BREAKCODE { a := false; }
    if code == S_MAKECODE { sKey := true; }
    if code == S_BREAKCODE { sKey := false; }
    if code == D_MAKECODE { d := true; }
    if code == D_BREAKCODE { d := false; }
    keys := Keys(w, a, sKey, d, shift);
  }

  /** The keyboard branch of the loop body. */
  method KeyboardBranch(dev: Drivers, line: KeyboardLine, keys0: Keys, ghost s: State) returns (keys: Keys)
    requires !line.Quiet?
    requires s.scanCode == dev.scanCode && s.ihValid == dev.ihValid && s.keys == keys0
    modifies dev`scanCode, dev`ihValid
    ensures s.(keys := keys, scanCode := dev.scanCode, ihValid := dev.ihValid) == Listen(s, line)
  {
    keys := keys0;
    dev.KbcIh(line);
    if dev.ihValid {
      keys := HandleCode(keys0, dev.scanCode);
    }
  }

  /** The timer branch of the loop body. */
  method TimerBranch(gpu: Gpu, dev: Drivers, penguin: Sprite, frequency: Frequency, x: uint16, y: uint16,
                     elapsed0: nat, ghost before: Picture, ghost s: State)
    returns (elapsed: nat, ghost frames: seq<Point>)
    requires gpu.Valid() && gpu.screen == Shown(gpu.format, penguin, before, s.frames)
    requires s.x == x && s.y == y && s.elapsed == elapsed0 && s.counter == dev.counter
    modifies gpu, gpu.backbuffer, gpu.videoMem, dev`counter
    ensures gpu.Valid() && gpu.screen == Shown(gpu.format, penguin, before, frames)
    ensures s.(elapsed := elapsed, counter := dev.counter, frames := frames) == Tick(frequency, s)
  {
    elapsed, frames := elapsed0, s.frames;
    dev.TimerIntHandler();
    if elapsed != 0 {
      elapsed := elapsed - 1;
    }
    if Remainder(dev.counter, ClocksPerFrame(frequency)) == 0 {
      RenderFrame(gpu, penguin, x, y);
      frames := frames + [Point(x, y)];
    }
  }

  /** Any run of the loop: its variables follow the machine, the screen shows the frame of the last
      position drawn and nothing older, and the frames are smooth. */
  method VideoTestController(gpu: Gpu, dev: Drivers, penguin: Sprite, frequency: Frequency, events: seq<Event>)
    returns (x: uint16, y: uint16, elapsed: nat, keys: Keys, ghost frames: seq<Point>)
    requires gpu.Valid()
    modifies gpu, gpu.backbuffer, gpu.videoMem, dev`scanCode, dev`ihValid, dev`counter
    ensures gpu.Valid() && gpu.screen == Shown(gpu.format, penguin, old(gpu.screen), frames)
    ensures State(x, y, elapsed, keys, dev.scanCode, dev.ihValid, dev.counter, frames)
         == Run(frequency, Start(frequency, old(dev.scanCode), old(dev.ihValid), old(dev.counter)), events)
    ensures Smooth(frames)
  {
    x, y, frames := 100, 100, [];
    elapsed := frequency;
    keys := Keys(false, false, false, false, false);
    ghost var s0 := Start(frequency, dev.scanCode, dev.ihValid, dev.counter);
    ghost var s := s0;
    var i := 0;
    while dev.scanCode != ESC_BREAKCODE && i < |events|
      invariant i <= |events|
      invariant gpu.Valid() && gpu.screen == Shown(gpu.format, penguin, old(gpu.screen), frames)
      invariant s == State(x, y, elapsed, keys, dev.scanCode, dev.ihValid, dev.counter, frames)
      invariant s == Run(frequency, s0, events[..i])
      decreases |events| - i
    {
      var event := events[i];
      i := i + 1;
      assert events[..i][..i - 1] == events[..i - 1];
      s := Round(frequency, s, event);
      if event.Failed? {
        continue;
      }
      ghost var now := State(x, y, elapsed, keys, dev.scanCode, dev.ihValid, dev.counter, frames);
      x, y, elapsed := MovementBlock(frequency, keys, x, y, elapsed, now);
      if event.Hardware? {
        if !event.keyboard.Quiet? {
          now := State(x, y, elapsed, keys, dev.scanCode, dev.ihValid, dev.counter, frames);
          keys := KeyboardBranch(dev, event.keyboard, keys, now);
        }
        if event.timer {
          now := State(x, y, elapsed, keys, dev.scanCode, dev.ihValid, dev.counter, frames);
          elapsed, frames := TimerBranch(gpu, dev, penguin, frequency, x, y, elapsed, old(gpu.screen), now);
        }
      }
    }
    RunStopped(frequency, s0, events, i);
    FramesAreSmooth(frequency, s0.scanCode, s0.ihValid, s0.counter, events);
  }
}
