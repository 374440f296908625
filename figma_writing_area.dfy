/**
 * The design-reference writing area: a prompt, a text box, a character
 * counter, the timer (mounted only while writing) and one button whose text
 * and action follow the flags `isWriting` and `isSubmitted`.
 *
 * `Area` and the functions over it specify the handlers and what the view
 * shows; the class `WritingArea` runs the handlers on its fields. The events a
 * user (or the timer) can cause are a button click, typing, and the timer's
 * time-up.
 */
module FigmaWritingArea {
  import opened Wrappers

  datatype Area = Area(isWriting: bool, content: string, isSubmitted: bool)

  const Idle: Area := Area(false, "", false)

  datatype ButtonAction = Start | Submit

  function AfterStart(a: Area): Area {
    a.(isWriting := true)
  }

  function AfterSubmit(a: Area): Area {
    a.(isSubmitted := true, isWriting := false)
  }

  function AfterTimeUp(a: Area): Area {
    a.(isWriting := false, isSubmitted := true)
  }

  /** `getButtonText`. */
  function ButtonText(a: Area): string {
    if a.isSubmitted then "SUBMITTED"
    else if a.isWriting then "SUBMIT"
    else "START"
  }

  /** `getButtonAction`: `None` is `undefined`. */
  function GetButtonAction(a: Area): Option<ButtonAction> {
    if a.isSubmitted then None
    else if a.isWriting then Some(Submit)
    else Some(Start)
  }

  predicate ButtonDisabled(a: Area) {
    a.isSubmitted
  }

  predicate TextareaDisabled(a: Area) {
    !a.isWriting || a.isSubmitted
  }

  predicate TimerMounted(a: Area) {
    a.isWriting
  }

  function CharacterCount(a: Area): nat {
    |a.content|
  }

  datatype Event = Click | Type(value: string) | TimerElapsed

  /** What one event does: a disabled button or textarea fires nothing, and only a mounted timer can elapse. */
  function Apply(a: Area, e: Event): Area {
    match e
    case Click =>
      if ButtonDisabled(a) then a
      else (match GetButtonAction(a)
            case None => a
            case Some(Start) => AfterStart(a)
            case Some(Submit) => AfterSubmit(a))
    case Type(v) => if TextareaDisabled(a) then a else a.(content := v)
    case TimerElapsed => if TimerMounted(a) then AfterTimeUp(a) else a
  }

  function Run(a: Area, events: seq<Event>): Area
    decreases |events|
  {
    if events == [] then a else Run(Apply(a, events[0]), events[1..])
  }

  /** A state the area can be in: never writing and submitted at once. */
  ghost predicate Consistent(a: Area) {
    !(a.isWriting && a.isSubmitted)
  }

  /** Manual submit and time-up leave the same state. */
  lemma SubmitEqualsTimeUp(a: Area)
    ensures AfterSubmit(a) == AfterTimeUp(a)
    ensures !AfterSubmit(a).isWriting && AfterSubmit(a).isSubmitted
    ensures AfterSubmit(a).content == a.content
  {
  }

  /** Button text by priority: submitted first, then writing, otherwise start. */
  lemma ButtonTextPriority(a: Area)
    ensures a.isSubmitted ==> ButtonText(a) == "SUBMITTED"
    ensures !a.isSubmitted && a.isWriting ==> ButtonText(a) == "SUBMIT"
    ensures !a.isSubmitted && !a.isWriting ==> ButtonText(a) == "START"
  {
  }

  /** The action is start exactly when idle, submit exactly when writing and not yet submitted, and nothing once submitted. */
  lemma ButtonActionCases(a: Area)
    ensures GetButtonAction(a) == Some(Start) <==> !a.isWriting && !a.isSubmitted
    ensures GetButtonAction(a) == Some(Submit) <==> a.isWriting && !a.isSubmitted
    ensures GetButtonAction(a) == None <==> a.isSubmitted
    ensures GetButtonAction(a) == None <==> ButtonDisabled(a)
  {
  }

  /** The text box is editable exactly while writing and not submitted; the timer is mounted exactly while writing. */
  lemma EditableIff(a: Area)
    ensures !TextareaDisabled(a) <==> a.isWriting && !a.isSubmitted
    ensures TimerMounted(a) <==> a.isWriting
    ensures CharacterCount(a) == |a.content|
  {
  }

  /** Every event keeps the area consistent. */
  lemma ApplyConsistent(a: Area, e: Event)
    requires Consistent(a)
    ensures Consistent(Apply(a, e))
  {
  }

  /** Submitted is absorbing: once a consistent area is submitted, no event changes anything, the text included. */
  lemma {:induction false} SubmittedIsFinal(a: Area, events: seq<Event>)
    requires Consistent(a) && a.isSubmitted
    ensures Run(a, events) == a
    decreases |events|
  {
    if events != [] {
      assert Apply(a, events[0]) == a;
      SubmittedIsFinal(a, events[1..]);
    }
  }

  /** From any consistent state, the idle one among them, every sequence of events keeps the area consistent. */
  lemma {:induction false} RunConsistent(a: Area, events: seq<Event>)
    requires Consistent(a)
    ensures Consistent(Run(a, events))
    decreases |events|
  {
    if events != [] {
      ApplyConsistent(a, events[0]);
      RunConsistent(Apply(a, events[0]), events[1..]);
    }
  }

  /** Nothing is typed before Start: from idle, typing and a time-up change nothing. */
  lemma IdleIgnoresTypingAndTimeUp(v: string)
    ensures Apply(Idle, Type(v)) == Idle
    ensures Apply(Idle, TimerElapsed) == Idle
    ensures Apply(Idle, Click) == Area(true, "", false)
  {
  }

  /** The design-reference writing area's state, updated in place by its handlers. */
  class WritingArea {
    const prompt: string
    var isWriting: bool
    var content: string
    var isSubmitted: bool

    function State(): Area
      reads this
    {
      Area(isWriting, content, isSubmitted)
    }

    constructor(prompt: string)
      ensures this.prompt == prompt
      ensures State() == Idle
    {
      this.prompt := prompt;
      isWriting := false;
      content := "";
      isSubmitted := false;
    }

    method HandleStart()
      modifies this
      ensures State() == AfterStart(old(State()))
    {
      isWriting := true;
    }

    method HandleSubmit()
      modifies this
      ensures State() == AfterSubmit(old(State()))
    {
      isSubmitted := true;
      isWriting := false;
    }

    method HandleTimeUp()
      modifies this
      ensures State() == AfterTimeUp(old(State()))
    {
      isWriting := false;
      isSubmitted := true;
    }

    /** The button's click, dispatched through `getButtonAction` unless the button is disabled. */
    method ClickButton()
      modifies this
      ensures State() == Apply(old(State()), Click)
    {
      if isSubmitted {
        return;
      }
      var action := GetButtonAction(State());
      match action {
        case None =>
        case Some(Start) => HandleStart();
        case Some(Submit) => HandleSubmit();
      }
    }

    /** The text box's change event, which a disabled text box never fires. */
    method OnChange(value: string)
      modifies this
      ensures State() == Apply(old(State()), Type(value))
    {
      if !TextareaDisabled(State()) {
        content := value;
      }
    }

    /** The timer's `onTimeUp`, which can arrive only while the timer is mounted. */
    method OnTimerElapsed()
      modifies this
      ensures State() == Apply(old(State()), TimerElapsed)
    {
      if TimerMounted(State()) {
        HandleTimeUp();
      }
    }
  }
}
