/**
 * The GUI's chess clock: two remaining-time counters in milliseconds, a
 * running flag, the side whose clock is active and the wall time of the last
 * timer tick (0 meaning "never").
 *
 * Every event of the clock is first given as a pure step function on
 * ClockState; the class Clock below holds the same five fields and its
 * methods update them in place, each proved to perform its step function.
 * Wall time, the game's state, the enabling check box and the spinner
 * values are parameters; a flag raised on time is returned as the side
 * that lost.
 */
module ChessClock {
  import opened Options

  datatype Side = White | Black

  function Other(side: Side): Side
  {
    if side == White then Black else White
  }

  datatype ClockState = ClockState(
    whiteMillis: int,
    blackMillis: int,
    running: bool,
    whiteActive: bool,
    lastTick: int)
  {
    function Active(): Side
    {
      if whiteActive then White else Black
    }

    function Remaining(side: Side): int
    {
      if side == White then whiteMillis else blackMillis
    }

    predicate NonNegative()
    {
      whiteMillis >= 0 && blackMillis >= 0
    }

    /** No clock is negative, and a running clock has a real last tick. */
    predicate Valid()
    {
      NonNegative() && (running ==> lastTick > 0)
    }
  }

  /** The state after an event, and the side flagged on time during it, if any. */
  datatype Step = Step(next: ClockState, flagged: Option<Side>)

  /** The side that has just moved, given whose turn it is now. */
  function Mover(whiteToMove: bool): Side
  {
    if whiteToMove then Black else White
  }

  function Credit(s: ClockState, side: Side, amount: int): (r: ClockState)
    ensures r.Remaining(side) == s.Remaining(side) + amount
    ensures r.Remaining(Other(side)) == s.Remaining(Other(side))
    ensures r.running == s.running && r.whiteActive == s.whiteActive && r.lastTick == s.lastTick
  {
    if side == White then s.(whiteMillis := s.whiteMillis + amount)
    else s.(blackMillis := s.blackMillis + amount)
  }

  /**
   * Takes delta milliseconds off the active clock. A clock that reaches zero
   * or below is set to zero, stops, and flags its side.
   */
  function Charge(s: ClockState, delta: int): (r: Step)
    ensures r.flagged.Some? <==> s.Remaining(s.Active()) - delta <= 0
    ensures r.flagged.Some? ==>
      r.flagged.value == s.Active() && r.next.Remaining(s.Active()) == 0 && !r.next.running
    ensures r.flagged.None? ==>
      r.next.Remaining(s.Active()) == s.Remaining(s.Active()) - delta && r.next.running == s.running
    ensures r.next.Remaining(Other(s.Active())) == s.Remaining(Other(s.Active()))
    ensures r.next.whiteActive == s.whiteActive && r.next.lastTick == s.lastTick
  {
    var left := s.Remaining(s.Active()) - delta;
    if left <= 0 then
      Step(Credit(s, s.Active(), -s.Remaining(s.Active())).(running := false), Some(s.Active()))
    else
      Step(Credit(s, s.Active(), -delta), None)
  }

  /** Whether the periodic timer does anything at all. */
  predicate Ticking(s: ClockState, gameOver: bool, enabled: bool)
  {
    s.running && !gameOver && enabled
  }

  /**
   * The wall time since the last tick, as both the timer and the move
   * bookkeeping take it: nothing when there was no tick yet.
   */
  function Elapsed(s: ClockState, now: int): int
  {
    if s.lastTick == 0 then 0 else now - s.lastTick
  }

  /**
   * One firing of the periodic timer. It does nothing unless the clock runs,
   * the game goes on and the clock is enabled; then it records the tick and,
   * if time went forward, charges it to the active side.
   */
  function TickStep(s: ClockState, now: int, gameOver: bool, enabled: bool): (r: Step)
    ensures !Ticking(s, gameOver, enabled) ==> r == Step(s, None)
    ensures Ticking(s, gameOver, enabled) ==> r.next.lastTick == now
    ensures r.next.whiteActive == s.whiteActive
    ensures r.next.Remaining(Other(s.Active())) == s.Remaining(Other(s.Active()))
    ensures r.flagged.Some? <==>
      Ticking(s, gameOver, enabled) && Elapsed(s, now) > 0
      && s.Remaining(s.Active()) <= Elapsed(s, now)
    ensures r.flagged.Some? ==>
      r.flagged.value == s.Active() && r.next.Remaining(s.Active()) == 0 && !r.next.running
    ensures r.flagged.None? && Ticking(s, gameOver, enabled) ==>
      r.next.running && r.next.Remaining(s.Active()) ==
        s.Remaining(s.Active()) - (if Elapsed(s, now) > 0 then Elapsed(s, now) else 0)
    ensures s.NonNegative() ==>
      (r.next.NonNegative() && r.next.whiteMillis <= s.whiteMillis && r.next.blackMillis <= s.blackMillis)
  {
    if !Ticking(s, gameOver, enabled) then Step(s, None)
    else
      var delta := Elapsed(s, now);
      var t := s.(lastTick := now);
      if delta <= 0 then Step(t, None) else Charge(t, delta)
  }

  /** Time taken off side's clock by processing a move: the elapsed time, if it was running for it. */
  function Spent(s: ClockState, side: Side, now: int): int
  {
    if s.running && s.Active() == side then Elapsed(s, now) else 0
  }

  /**
   * Bookkeeping after a move was played (whiteToMove is the side to move
   * after it). When the clock is enabled, the time since the last tick is
   * charged to the running clock, which may flag; otherwise the mover gets
   * the increment, the clock switches to the side to move, and it restarts
   * at wall time restartAt unless the game is over. Unlike the timer, time
   * going backwards is charged too, and so credits the active clock.
   */
  function MoveStep(s: ClockState, now: int, restartAt: int, whiteToMove: bool,
                    gameOver: bool, enabled: bool, incSeconds: int): (r: Step)
    ensures !enabled ==> r == Step(s, None)
    ensures r.flagged.Some? <==>
      enabled && s.running && s.Remaining(s.Active()) <= Elapsed(s, now)
    ensures r.flagged.Some? ==>
      r.flagged.value == s.Active() && r.next.Remaining(s.Active()) == 0 && !r.next.running
      && r.next.Remaining(Other(s.Active())) == s.Remaining(Other(s.Active()))
      && r.next.whiteActive == s.whiteActive && r.next.lastTick == now
    ensures enabled && r.flagged.None? ==>
      && r.next.whiteActive == whiteToMove
      && r.next.running == !gameOver
      && r.next.lastTick == (if gameOver then now else restartAt)
      && (forall side :: r.next.Remaining(side) ==
            s.Remaining(side) - Spent(s, side, now)
            + (if side == Mover(whiteToMove) then incSeconds * 1000 else 0))
  {
    if !enabled then Step(s, None)
    else
      var last := if s.lastTick == 0 then now else s.lastTick;
      var delta := now - last;
      var t := s.(lastTick := now);
      var charged := if s.running then Charge(t, delta) else Step(t, None);
      if charged.flagged.Some? then charged
      else
        var credited := Credit(charged.next, Mover(whiteToMove), incSeconds * 1000);
        var switched := credited.(whiteActive := whiteToMove);
        if !gameOver then Step(switched.(running := true, lastTick := restartAt), None)
        else Step(switched.(running := false), None)
  }

  /**
   * Resetting the clocks for a new game: both sides get the configured
   * minutes, the clock follows the side to move, and it runs (from now)
   * only if it is enabled and the game is not over.
   */
  function NewGameStep(minutes: int, now: int, whiteToMove: bool, gameOver: bool, enabled: bool): (r: ClockState)
    ensures r.Remaining(White) == r.Remaining(Black) == minutes * 60_000
    ensures r.Active() == (if whiteToMove then White else Black)
    ensures r.running <==> enabled && !gameOver
    ensures r.lastTick == (if r.running then now else 0)
  {
    var running := enabled && !gameOver;
    ClockState(minutes * 60_000, minutes * 60_000, running, whiteToMove, if running then now else 0)
  }

  /** The start/pause button: flips running; starting records the wall time. */
  function ToggleStep(s: ClockState, now: int): (r: ClockState)
    ensures r.running == !s.running
    ensures r.lastTick == (if r.running then now else s.lastTick)
    ensures r.whiteMillis == s.whiteMillis && r.blackMillis == s.blackMillis
    ensures r.whiteActive == s.whiteActive
  {
    var running := !s.running;
    if running then s.(running := running, lastTick := now) else s.(running := running)
  }

  // ---------------------------------------------------------------------------
  // Properties relating several events

  /**
   * Pausing and resuming keeps both times and the active side; the resume
   * records its own wall time as the last tick.
   */
  lemma ToggleTwice(s: ClockState, t1: int, t2: int)
    ensures var r := ToggleStep(ToggleStep(s, t1), t2);
      r.(lastTick := s.lastTick) == s
    ensures s.running ==> ToggleStep(ToggleStep(s, t1), t2).lastTick == t2
  {
  }

  /**
   * The paused interval is never charged: after a pause at t1 and a resume
   * at t2, a tick at t3 takes exactly t3 - t2 off the active clock.
   */
  lemma PauseResumeTick(s: ClockState, t1: int, t2: int, t3: int)
    requires s.running && t2 > 0 && t3 >= t2 && s.Remaining(s.Active()) > t3 - t2
    ensures var r := TickStep(ToggleStep(ToggleStep(s, t1), t2), t3, false, true);
      r.flagged.None? && r.next.running
      && r.next.Remaining(s.Active()) == s.Remaining(s.Active()) - (t3 - t2)
      && r.next.Remaining(Other(s.Active())) == s.Remaining(Other(s.Active()))
  {
  }

  /** A paused clock ignores the timer entirely, whenever it fires. */
  lemma PausedIgnoresTicks(s: ClockState, pausedAt: int, tickAt: int, gameOver: bool, enabled: bool)
    requires s.running
    ensures var p := ToggleStep(s, pausedAt); TickStep(p, tickAt, gameOver, enabled) == Step(p, None)
  {
  }

  /** Right after a reset the first timer tick at the same wall time charges nothing. */
  lemma NewGameFirstTick(minutes: int, now: int, whiteToMove: bool, gameOver: bool, enabled: bool)
    requires minutes >= 1 && now > 0
    ensures var s := NewGameStep(minutes, now, whiteToMove, gameOver, enabled);
      TickStep(s, now, gameOver, enabled).next == s
  {
  }

  /**
   * A move processed while the wall clock has gone backwards gives the active
   * side the lost time back, on top of the increment when it is also the side
   * that just moved.
   */
  lemma BackwardsClockCredits(s: ClockState, now: int, restartAt: int, whiteToMove: bool, incSeconds: int)
    requires s.running && s.lastTick > now > 0 && s.Remaining(s.Active()) >= 0 && incSeconds >= 0
    ensures var r := MoveStep(s, now, restartAt, whiteToMove, false, true, incSeconds);
      r.flagged.None? && r.next.Remaining(s.Active()) == s.Remaining(s.Active()) + (s.lastTick - now)
        + (if s.Active() == Mover(whiteToMove) then incSeconds * 1000 else 0)
  {
    var r := MoveStep(s, now, restartAt, whiteToMove, false, true, incSeconds);
    assert r.next.Remaining(s.Active()) ==
      s.Remaining(s.Active()) - Spent(s, s.Active(), now)
      + (if s.Active() == Mover(whiteToMove) then incSeconds * 1000 else 0);
  }

  // ---------------------------------------------------------------------------
  // Timer ticks over a stretch of wall time

  predicate NonDecreasing(times: seq<int>)
  {
    forall i, j :: 0 <= i < j < |times| ==> times[i] <= times[j]
  }

  /** The state after the timer fires at each of the given wall times in turn. */
  function Ticks(s: ClockState, times: seq<int>, gameOver: bool, enabled: bool): ClockState
  {
    if times == [] then s
    else TickStep(Ticks(s, times[..|times|-1], gameOver, enabled), times[|times|-1], gameOver, enabled).next
  }

  /**
   * While no flag falls, timer ticks at non-decreasing wall times take off
   * the active clock exactly the wall time elapsed since the last tick, and
   * leave everything else alone.
   */
  lemma {:induction false} TicksChargeElapsed(s: ClockState, times: seq<int>)
    requires s.running && s.lastTick > 0 && |times| > 0
    requires NonDecreasing(times) && s.lastTick <= times[0]
    requires s.Remaining(s.Active()) > times[|times|-1] - s.lastTick
    ensures var r := Ticks(s, times, false, true);
      && r.running && r.whiteActive == s.whiteActive && r.lastTick == times[|times|-1]
      && r.Remaining(s.Active()) == s.Remaining(s.Active()) - (times[|times|-1] - s.lastTick)
      && r.Remaining(Other(s.Active())) == s.Remaining(Other(s.Active()))
  {
    var n := |times|;
    if n == 1 {
      assert times[..0] == [];
    } else {
      var prefix := times[..n-1];
      assert prefix[|prefix|-1] == times[n-2] && prefix[0] == times[0];
      assert NonDecreasing(prefix);
      assert times[n-2] <= times[n-1];
      TicksChargeElapsed(s, prefix);
    }
  }

  // ---------------------------------------------------------------------------
  // Any sequence of events

  datatype Event =
    | Tick(now: int, gameOver: bool, enabled: bool)
    | MoveDone(now: int, restartAt: int, whiteToMove: bool, gameOver: bool, enabled: bool, incSeconds: int)
    | Reset(minutes: int, now: int, whiteToMove: bool, gameOver: bool, enabled: bool)
    | Toggle(now: int)

  /** Wall times are positive and the spinners stay within their ranges (1..180 minutes, 0..60 seconds). */
  predicate Admissible(ev: Event)
  {
    match ev
    case Tick(now, _, _) => now > 0
    case MoveDone(now, restartAt, _, _, _, inc) => now > 0 && restartAt > 0 && 0 <= inc <= 60
    case Reset(minutes, now, _, _, _) => now > 0 && 1 <= minutes <= 180
    case Toggle(now) => now > 0
  }

  function Apply(s: ClockState, ev: Event): ClockState
  {
    match ev
    case Tick(now, over, on) => TickStep(s, now, over, on).next
    case MoveDone(now, restartAt, wtm, over, on, inc) => MoveStep(s, now, restartAt, wtm, over, on, inc).next
    case Reset(minutes, now, wtm, over, on) => NewGameStep(minutes, now, wtm, over, on)
    case Toggle(now) => ToggleStep(s, now)
  }

  /** Every admissible event keeps the clock valid. */
  lemma ApplyValid(s: ClockState, ev: Event)
    requires s.Valid() && Admissible(ev)
    ensures Apply(s, ev).Valid()
  {
    match ev
    case MoveDone(now, restartAt, wtm, over, on, inc) =>
      var r := MoveStep(s, now, restartAt, wtm, over, on, inc);
      if on && r.flagged.None? {
        assert r.next.Remaining(White) >= 0;
        assert r.next.Remaining(Black) >= 0;
      }
    case _ =>
  }

  function Run(s: ClockState, events: seq<Event>): ClockState
  {
    if events == [] then s else Apply(Run(s, events[..|events|-1]), events[|events|-1])
  }

  /** No admissible history of events drives a clock below zero or leaves it running without a tick time. */
  lemma {:induction false} RunValid(s: ClockState, events: seq<Event>)
    requires s.Valid()
    requires forall i :: 0 <= i < |events| ==> Admissible(events[i])
    ensures Run(s, events).Valid()
  {
    if events != [] {
      var prefix := events[..|events|-1];
      assert forall i :: 0 <= i < |prefix| ==> prefix[i] == events[i];
      RunValid(s, prefix);
      ApplyValid(Run(s, prefix), events[|events|-1]);
    }
  }

  // ---------------------------------------------------------------------------
  // The clock's fields, updated in place

  class Clock {
    var whiteMillis: int
    var blackMillis: int
    var clockRunning: bool
    var whiteClockActive: bool
    var lastTimerTick: int

    function State(): ClockState
      reads this
    {
      ClockState(whiteMillis, blackMillis, clockRunning, whiteClockActive, lastTimerTick)
    }

    /** The field initialisers: empty clocks, stopped, White active, never ticked. */
    constructor ()
      ensures State() == ClockState(0, 0, false, true, 0)
      ensures State().Valid()
    {
      whiteMillis := 0;
      blackMillis := 0;
      clockRunning := false;
      whiteClockActive := true;
      lastTimerTick := 0;
    }

    /** The body of the periodic timer. */
    method Tick(now: int, gameOver: bool, enabled: bool) returns (flagged: Option<Side>)
      modifies this
      ensures Step(State(), flagged) == TickStep(old(State()), now, gameOver, enabled)
    {
      flagged := None;
      if !clockRunning || gameOver || !enabled {
        return;
      }
      var delta := if lastTimerTick == 0 then 0 else now - lastTimerTick;
      lastTimerTick := now;
      if delta <= 0 {
        return;
      }
      flagged := ChargeActive(delta);
    }

    /** Takes delta off the active clock; at zero or below it stops the clock and flags that side. */
    method ChargeActive(delta: int) returns (flagged: Option<Side>)
      modifies this
      ensures Step(State(), flagged) == Charge(old(State()), delta)
    {
      flagged := None;
      if whiteClockActive {
        whiteMillis := whiteMillis - delta;
        if whiteMillis <= 0 {
          whiteMillis := 0;
          clockRunning := false;
          flagged := Some(White);
        }
      } else {
        blackMillis := blackMillis - delta;
        if blackMillis <= 0 {
          blackMillis := 0;
          clockRunning := false;
          flagged := Some(Black);
        }
      }
    }

    /** Resets both clocks for a new game. */
    method InitClocksForNewGame(minutes: int, now: int, whiteToMove: bool, gameOver: bool, enabled: bool)
      modifies this
      ensures State() == NewGameStep(minutes, now, whiteToMove, gameOver, enabled)
    {
      whiteMillis := minutes * 60_000;
      blackMillis := minutes * 60_000;
      whiteClockActive := whiteToMove;
      clockRunning := enabled && !gameOver;
      lastTimerTick := if clockRunning then now else 0;
    }

    /** The start/pause button. */
    method ToggleClockRunning(now: int)
      modifies this
      ensures State() == ToggleStep(old(State()), now)
    {
      clockRunning := !clockRunning;
      if clockRunning {
        lastTimerTick := now;
      }
    }

    /**
     * Called after every move. The wall clock is read twice: now when the
     * move is charged, restartAt when the clock restarts.
     */
    method OnMoveProcessed(now: int, restartAt: int, whiteToMove: bool, gameOver: bool,
                           enabled: bool, incSeconds: int) returns (flagged: Option<Side>)
      modifies this
      ensures Step(State(), flagged) ==
        MoveStep(old(State()), now, restartAt, whiteToMove, gameOver, enabled, incSeconds)
    {
      flagged := None;
      if !enabled {
        return;
      }
      if lastTimerTick == 0 {
        lastTimerTick := now;
      }
      var delta := now - lastTimerTick;
      lastTimerTick := now;
      ghost var started := State();
      ghost var charged := if clockRunning then Charge(started, delta) else Step(started, None);
      if clockRunning {
        flagged := ChargeActive(delta);
        if flagged.Some? {
          return;
        }
      }
      assert State() == charged.next;
      var movedByWhite := !whiteToMove;
      var incMs := incSeconds * 1000;
      if movedByWhite {
        whiteMillis := whiteMillis + incMs;
      } else {
        blackMillis := blackMillis + incMs;
      }
      assert State() == Credit(charged.next, Mover(whiteToMove), incMs);
      whiteClockActive := whiteToMove;
      if !gameOver && enabled {
        clockRunning := true;
        lastTimerTick := restartAt;
      } else {
        clockRunning := false;
      }
    }
  }
}
