/**
 * The writing area of the application: a text box and a three-minute
 * countdown. Each interval tick takes one second off; the tick that finds one
 * second or less left sets the count to zero, stops the interval and reports
 * the latest text as the final one.
 *
 * Ticks, edits, the Start button and changes of the `isWritingActive` prop are
 * discrete events; `Clock` and the functions over it specify the countdown and
 * the class `WritingArea` runs it on its fields.
 */
module Countdown {
  import opened Wrappers
  import JsText

  const WritingDurationSeconds: int := 3 * 60

  /** The countdown's state: seconds left and whether the interval is set. */
  datatype Clock = Clock(timeLeft: int, running: bool)

  /** The effect when writing becomes active: reset to the full duration and (re)start the interval. */
  function Activate(c: Clock): Clock {
    Clock(WritingDurationSeconds, true)
  }

  /** The effect when writing is not active: clear the interval. */
  function Deactivate(c: Clock): Clock {
    c.(running := false)
  }

  /** One interval tick: the new clock, and whether `onTimeUp` is called. */
  function Tick(c: Clock): (Clock, bool) {
    if !c.running then (c, false)
    else if c.timeLeft <= 1 then (Clock(0, false), true)
    else (Clock(c.timeLeft - 1, true), false)
  }

  /** `n` ticks in a row: the clock after them and how often `onTimeUp` was called. */
  function RunTicks(c: Clock, n: nat): (Clock, nat)
    decreases n
  {
    if n == 0 then (c, 0)
    else
      var (c1, fired) := Tick(c);
      var (c2, count) := RunTicks(c1, n - 1);
      (c2, count + if fired then 1 else 0)
  }

  /** `formatTime`: whole minutes, a colon, and the seconds with a leading zero below ten. */
  function FormatTime(seconds: nat): string {
    var minutes := seconds / 60;
    var remainingSeconds := seconds % 60;
    JsText.NatToString(minutes) + ":" + (if remainingSeconds < 10 then "0" else "") + JsText.NatToString(remainingSeconds)
  }

  /** Becoming active resets the count to 180 and starts the interval, whatever the count was. */
  lemma ActivationResets(c: Clock)
    ensures Activate(c) == Clock(180, true)
  {
  }

  /** A tick above one second takes off exactly one second and does not report time-up. */
  lemma TickAboveOne(c: Clock)
    requires c.running && c.timeLeft > 1
    ensures Tick(c) == (Clock(c.timeLeft - 1, true), false)
  {
  }

  /** The tick at one second or less sets zero, stops the interval and reports time-up once. */
  lemma TickAtEnd(c: Clock)
    requires c.running && c.timeLeft <= 1
    ensures Tick(c) == (Clock(0, false), true)
  {
  }

  /** A stopped interval never ticks again. */
  lemma {:induction false} StoppedStaysStopped(c: Clock, n: nat)
    requires !c.running
    ensures RunTicks(c, n) == (c, 0)
  {
    if n > 0 {
      StoppedStaysStopped(c, n - 1);
    }
  }

  /** Fewer ticks than seconds left only count down. */
  lemma {:induction false} CountsDown(t: int, n: nat)
    requires n < t
    ensures RunTicks(Clock(t, true), n) == (Clock(t - n, true), 0)
  {
    if n > 0 {
      assert Tick(Clock(t, true)) == (Clock(t - 1, true), false);
      CountsDown(t - 1, n - 1);
    }
  }

  /**
   * From the full duration, the first 179 ticks count down without reporting,
   * the 180th reports time-up, and no later tick reports again.
   */
  lemma FiresOnTick180(n: nat)
    ensures n < 180 ==> RunTicks(Clock(180, true), n) == (Clock(180 - n, true), 0)
    ensures n >= 180 ==> RunTicks(Clock(180, true), n) == (Clock(0, false), 1)
  {
    if n < 180 {
      CountsDown(180, n);
    } else {
      CountsDown(180, 179);
      RunTicksSplit(Clock(180, true), 179, n - 179);
      StoppedStaysStopped(Clock(0, false), n - 180);
    }
  }

  /** Running `a` ticks then `b` more is running `a + b` ticks. */
  lemma {:induction false} RunTicksSplit(c: Clock, a: nat, b: nat)
    ensures RunTicks(c, a + b).0 == RunTicks(RunTicks(c, a).0, b).0
    ensures RunTicks(c, a + b).1 == RunTicks(c, a).1 + RunTicks(RunTicks(c, a).0, b).1
    decreases a
  {
    if a > 0 {
      RunTicksSplit(Tick(c).0, a - 1, b);
    }
  }

  /** The count stays within 0..180 across any number of ticks from any state within that range. */
  lemma {:induction false} StaysInRange(c: Clock, n: nat)
    requires 0 <= c.timeLeft <= WritingDurationSeconds
    ensures 0 <= RunTicks(c, n).0.timeLeft <= WritingDurationSeconds
    decreases n
  {
    if n > 0 {
      StaysInRange(Tick(c).0, n - 1);
    }
  }

  /** The examples of the component's test: 3:00 at the start, 2:59 and 2:58 after one and two ticks. */
  lemma FormatTimeExamples()
    ensures FormatTime(180) == "3:00"
    ensures FormatTime(179) == "2:59"
    ensures FormatTime(178) == "2:58"
    ensures FormatTime(0) == "0:00"
  {
    assert JsText.NatToString(59) == JsText.NatToString(5) + [JsText.DigitChar(9)];
    assert JsText.NatToString(58) == JsText.NatToString(5) + [JsText.DigitChar(8)];
  }

  /** The writing area with its props, its text and its timer state. */
  class WritingArea {
    var isWritingActive: bool
    var locked: bool
    var text: string
    var timeLeft: int
    var intervalRunning: bool

    function ClockState(): Clock
      reads this
    {
      Clock(timeLeft, intervalRunning)
    }

    /** Mounting: `text` starts at `initialText`, the count at 180, then the timer effect runs once. */
    constructor(isWritingActive: bool, locked: bool, initialText: string)
      ensures this.isWritingActive == isWritingActive && this.locked == locked
      ensures text == initialText
      ensures ClockState() == if isWritingActive then Activate(Clock(180, false)) else Clock(180, false)
    {
      this.isWritingActive := isWritingActive;
      this.locked := locked;
      text := initialText;
      timeLeft := WritingDurationSeconds;
      intervalRunning := false;
      if isWritingActive {
        timeLeft := WritingDurationSeconds;
        intervalRunning := true;
      }
    }

    /** A new value of the `isWritingActive` prop and the timer effect it triggers. */
    method SetWritingActive(active: bool)
      modifies this
      ensures isWritingActive == active && locked == old(locked) && text == old(text)
      ensures ClockState() == if active then Activate(old(ClockState())) else Deactivate(old(ClockState()))
    {
      isWritingActive := active;
      if active {
        timeLeft := WritingDurationSeconds;
        intervalRunning := true;
      } else {
        intervalRunning := false;
      }
    }

    /** One interval tick; `timeUp` is the argument `onTimeUp` is called with, if it is called. */
    method OnTick() returns (timeUp: Option<string>)
      modifies this
      ensures (ClockState(), timeUp.Some?) == Tick(old(ClockState()))
      ensures timeUp.Some? ==> timeUp.value == text
      ensures text == old(text) && isWritingActive == old(isWritingActive) && locked == old(locked)
    {
      timeUp := None;
      if intervalRunning {
        if timeLeft <= 1 {
          intervalRunning := false;
          timeUp := Some(text);
          timeLeft := 0;
        } else {
          timeLeft := timeLeft - 1;
        }
      }
    }

    /** The textarea's change handler: edits are taken only while writing and unlocked, and never touch the timer. */
    method HandleTextChange(value: string)
      modifies this
      ensures text == if !old(locked) && old(isWritingActive) then value else old(text)
      ensures ClockState() == old(ClockState())
      ensures isWritingActive == old(isWritingActive) && locked == old(locked)
    {
      if !locked && isWritingActive {
        text := value;
      }
    }

    /** The Start button, shown only while not writing and not locked: it clears the text, then notifies the parent. */
    method PressStart() returns (startNotified: bool)
      modifies this
      ensures startNotified == (!old(isWritingActive) && !old(locked))
      ensures text == if startNotified then "" else old(text)
      ensures ClockState() == old(ClockState())
      ensures isWritingActive == old(isWritingActive) && locked == old(locked)
    {
      startNotified := false;
      if !isWritingActive && !locked {
        text := "";
        startNotified := true;
      }
    }
  }

  /**
   * The component test: an active area shows 3:00, one tick later 2:59, then
   * typing "Hello" and one more tick gives 2:58 (typing does not reset the
   * timer); the returned list is what "Time Left:" shows at each step.
   */
  method TypingDoesNotResetTimer() returns (shown: seq<string>, finalText: string)
    ensures shown == ["3:00", "2:59", "2:58"]
    ensures finalText == "Hello"
  {
    FormatTimeExamples();
    var area := new WritingArea(true, false, "");
    shown := [FormatTime(area.timeLeft)];
    var up := area.OnTick();
    shown := shown + [FormatTime(area.timeLeft)];
    area.HandleTextChange("Hello");
    up := area.OnTick();
    shown := shown + [FormatTime(area.timeLeft)];
    finalText := area.text;
  }
}
