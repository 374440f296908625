/**
 * The design-reference timer: a countdown from 180 seconds whose effect runs
 * after mounting and again whenever `isActive` or `timeLeft` changes. The
 * effect resets the count while inactive, calls `onTimeUp` when active at
 * zero, and otherwise schedules a one-second interval; the interval's updater
 * takes one second off, or sets zero and calls `onTimeUp` at one second or
 * less.
 *
 * Effect runs and interval ticks are discrete events here: `TimerState` and
 * the functions over it specify them and the class `Timer` runs them.
 */
module FigmaTimer {
  import JsText
  import Countdown

  const FullSeconds: int := 180

  /** The timer's state: seconds left and whether an interval is scheduled. */
  datatype TimerState = TimerState(timeLeft: int, scheduled: bool)

  /**
   * One run of the effect (after the previous run's cleanup has cleared its
   * interval): the new state and whether `onTimeUp` was called.
   */
  function Effect(isActive: bool, s: TimerState): (TimerState, bool) {
    if !isActive then (TimerState(FullSeconds, false), false)
    else if s.timeLeft == 0 then (TimerState(0, false), true)
    else (TimerState(s.timeLeft, true), false)
  }

  /** One firing of the interval's updater: the new state and whether `onTimeUp` was called. */
  function Tick(s: TimerState): (TimerState, bool) {
    if !s.scheduled then (s, false)
    else if s.timeLeft <= 1 then (s.(timeLeft := 0), true)
    else (s.(timeLeft := s.timeLeft - 1), false)
  }

  /**
   * One second of an active timer whose parent keeps `isActive` set: the tick,
   * then, because `timeLeft` changed, the effect again. The count is how often
   * `onTimeUp` was called.
   */
  function Second(s: TimerState): (TimerState, nat) {
    var (s1, up1) := Tick(s);
    if s1.timeLeft == s.timeLeft then (s1, if up1 then 1 else 0)
    else
      var (s2, up2) := Effect(true, s1);
      (s2, (if up1 then 1 else 0) + (if up2 then 1 else 0))
  }

  function RunSeconds(s: TimerState, n: nat): (TimerState, nat)
    decreases n
  {
    if n == 0 then (s, 0)
    else
      var (s1, c1) := Second(s);
      var (s2, c2) := RunSeconds(s1, n - 1);
      (s2, c1 + c2)
  }

  /** `formatTime`: minutes, a colon, and the seconds padded to two digits with '0'. */
  function FormatTime(seconds: nat): string {
    var mins := seconds / 60;
    var secs := seconds % 60;
    JsText.NatToString(mins) + ":" + JsText.PadStart(JsText.NatToString(secs), 2, '0')
  }

  const RedClass: string := "text-red-400"
  const OrangeClass: string := "text-[color:var(--ow-orange-500)]"
  const NeutralClass: string := "text-[color:var(--ow-neutral-50)]"

  /** `getTimerColor`: the colour class for the seconds left. */
  function TimerColor(timeLeft: int): string {
    if timeLeft <= 30 then RedClass
    else if timeLeft <= 60 then OrangeClass
    else NeutralClass
  }

  /** How urgent a colour class is: neutral 0, orange 1, red 2. */
  function Urgency(colorClass: string): nat {
    if colorClass == RedClass then 2 else if colorClass == OrangeClass then 1 else 0
  }

  /** While inactive, the effect puts the count back to 180 and schedules nothing. */
  lemma InactiveResets(s: TimerState)
    ensures Effect(false, s) == (TimerState(180, false), false)
  {
  }

  /** Active at zero, the effect calls `onTimeUp` and schedules no interval. */
  lemma ActiveAtZeroCallsTimeUp(s: TimerState)
    requires s.timeLeft == 0
    ensures Effect(true, s) == (TimerState(0, false), true)
  {
  }

  /** The updater decrements by one above one second, and at one or less sets zero and calls `onTimeUp`. */
  lemma TickRule(s: TimerState)
    requires s.scheduled
    ensures s.timeLeft > 1 ==> Tick(s) == (s.(timeLeft := s.timeLeft - 1), false)
    ensures s.timeLeft <= 1 ==> Tick(s) == (s.(timeLeft := 0), true)
  {
  }

  ghost predicate InRange(s: TimerState) {
    0 <= s.timeLeft <= FullSeconds
  }

  /** The count stays within 0..180 under every effect run and every tick. */
  lemma RangePreserved(s: TimerState, isActive: bool)
    requires InRange(s)
    ensures InRange(Effect(isActive, s).0)
    ensures InRange(Tick(s).0)
    ensures InRange(Second(s).0)
  {
  }

  /** Seconds of an active timer above one count down by one and call nothing. */
  lemma {:induction false} SecondsCountDown(t: int, n: nat)
    requires n < t
    ensures RunSeconds(TimerState(t, true), n) == (TimerState(t - n, true), 0)
    decreases n
  {
    if n > 0 {
      assert Second(TimerState(t, true)) == (TimerState(t - 1, true), 0);
      SecondsCountDown(t - 1, n - 1);
    }
  }

  /**
   * Mounted active, the timer shows 180 with an interval scheduled; after
   * `n < 180` seconds it shows `180 - n` and has called nothing; the 180th
   * second brings it to zero with nothing scheduled and calls `onTimeUp`
   * twice, once from the updater and once from the effect that re-runs at
   * zero, as long as the parent keeps the timer mounted and active.
   */
  lemma ActiveCountdown(n: nat)
    ensures Effect(true, TimerState(180, false)) == (TimerState(180, true), false)
    ensures n < 180 ==> RunSeconds(TimerState(180, true), n) == (TimerState(180 - n, true), 0)
    ensures n == 180 ==> RunSeconds(TimerState(180, true), n) == (TimerState(0, false), 2)
  {
    if n < 180 {
      SecondsCountDown(180, n);
    } else if n == 180 {
      SecondsCountDown(180, 179);
      RunSecondsSplit(TimerState(180, true), 179, 1);
      assert RunSeconds(TimerState(1, true), 1) == (TimerState(0, false), 2);
    }
  }

  lemma {:induction false} RunSecondsSplit(s: TimerState, a: nat, b: nat)
    ensures RunSeconds(s, a + b).0 == RunSeconds(RunSeconds(s, a).0, b).0
    ensures RunSeconds(s, a + b).1 == RunSeconds(s, a).1 + RunSeconds(RunSeconds(s, a).0, b).1
    decreases a
  {
    if a > 0 {
      RunSecondsSplit(Second(s).0, a - 1, b);
    }
  }

  /** The colour thresholds: red up to 30 seconds, orange from 31 to 60, neutral above 60. */
  lemma ColorThresholds(t: int)
    ensures TimerColor(t) == RedClass <==> t <= 30
    ensures TimerColor(t) == OrangeClass <==> 30 < t <= 60
    ensures TimerColor(t) == NeutralClass <==> t > 60
  {
  }

  /** As the count goes down the colour only grows more urgent. */
  lemma ColorMonotone(t1: int, t2: int)
    requires t1 <= t2
    ensures Urgency(TimerColor(t1)) >= Urgency(TimerColor(t2))
  {
  }

  /** Both `formatTime` implementations, the ternary one and the `padStart` one, agree on every count. */
  lemma FormatTimeAgrees(seconds: nat)
    ensures FormatTime(seconds) == Countdown.FormatTime(seconds)
  {
    var secs := JsText.NatToString(seconds % 60);
    if seconds % 60 < 10 {
      assert |secs| == 1;
      assert JsText.PadStart(secs, 2, '0') == "0" + secs;
    } else {
      assert |secs| >= 2;
      assert JsText.PadStart(secs, 2, '0') == secs;
    }
  }

  /** The timer component: `isActive` is its prop, the rest its state. */
  class Timer {
    var isActive: bool
    var timeLeft: int
    var intervalScheduled: bool

    function State(): TimerState
      reads this
    {
      TimerState(timeLeft, intervalScheduled)
    }

    /** Mounting: the count starts at 180 and the effect runs once (it cannot call `onTimeUp` at 180). */
    constructor(isActive: bool)
      ensures this.isActive == isActive
      ensures State() == Effect(isActive, TimerState(180, false)).0
    {
      this.isActive := isActive;
      timeLeft := FullSeconds;
      intervalScheduled := false;
      if isActive {
        intervalScheduled := true;
      }
    }

    /** The effect, run after a change of `isActive` or `timeLeft`; it first clears the previous interval. */
    method RunEffect() returns (timeUpCalled: bool)
      modifies this
      ensures isActive == old(isActive)
      ensures (State(), timeUpCalled) == Effect(isActive, old(State()))
    {
      intervalScheduled := false;
      timeUpCalled := false;
      if !isActive {
        timeLeft := FullSeconds;
        return;
      }
      if timeLeft == 0 {
        timeUpCalled := true;
        return;
      }
      intervalScheduled := true;
    }

    /** A new value of the `isActive` prop followed by the effect it triggers. */
    method SetActive(active: bool) returns (timeUpCalled: bool)
      modifies this
      ensures isActive == active
      ensures (State(), timeUpCalled) == Effect(active, old(State()))
    {
      isActive := active;
      timeUpCalled := RunEffect();
    }

    /** The interval fires once. */
    method OnTick() returns (timeUpCalled: bool)
      modifies this
      ensures isActive == old(isActive)
      ensures (State(), timeUpCalled) == Tick(old(State()))
    {
      timeUpCalled := false;
      if intervalScheduled {
        if timeLeft <= 1 {
          timeUpCalled := true;
          timeLeft := 0;
        } else {
          timeLeft := timeLeft - 1;
        }
      }
    }
  }
}
