/**
 * The daily writing session of the home page: a view mode that moves through
 * initial, writing and completed, the submission text, the day the session
 * belongs to, and the browser's local storage, where completion is mirrored
 * under the keys `completed_<day>` and `submission_<day>`.
 *
 * `Page` and the functions over it state what each handler does; the class
 * `HomePage` carries out the same handlers step by step on its fields and on a
 * `LocalStorage` object, and its methods are proved against those functions.
 */
module Home {
  import opened Wrappers
  import DailyPrompt

  datatype ViewMode = Initial | Writing | Completed

  function CompletedKey(day: string): string { "completed_" + day }

  function SubmissionKey(day: string): string { "submission_" + day }

  /** `localStorage.getItem(key)`: the stored string, or `null`. */
  function GetItem(store: map<string, string>, key: string): Option<string> {
    if key in store then Some(store[key]) else None
  }

  /** JavaScript truthiness of a `getItem` result: present and not the empty string. */
  predicate Truthy(v: Option<string>) {
    v.Some? && v.value != ""
  }

  /** The state the page's handlers read and write. */
  datatype Page = Page(
    prompt: Option<string>,
    mode: ViewMode,
    submission: string,
    day: string,
    store: map<string, string>)

  /** The page when it first renders, before any effect has run. */
  function Mount(store: map<string, string>): Page {
    Page(None, Initial, "", "", store)
  }

  /** The storage once the keys of a day other than today have been removed. */
  function Evict(p: Page, today: string): map<string, string> {
    if p.day != today then p.store - {SubmissionKey(p.day), CompletedKey(p.day)} else p.store
  }

  /** `setupDailyChallenge`: evict the held day's keys if the day changed, then restore or reset. */
  function Setup(p: Page, today: string, dayOfYear: int): Page {
    var store := Evict(p, today);
    var prompt := Some(DailyPrompt.PromptOfTheDay(dayOfYear));
    if Truthy(GetItem(store, CompletedKey(today))) && Truthy(GetItem(store, SubmissionKey(today)))
    then Page(prompt, Completed, store[SubmissionKey(today)], today, store)
    else Page(prompt, Initial, "", today, store)
  }

  /**
   * What the page does on load: the effect runs `setupDailyChallenge`, which
   * changes the held day and so re-creates the callback, and the effect runs
   * it once more.
   */
  function Bootstrap(store: map<string, string>, today: string, dayOfYear: int): Page {
    var once := Setup(Mount(store), today, dayOfYear);
    if once.day != Mount(store).day then Setup(once, today, dayOfYear) else once
  }

  function StartWriting(p: Page): Page {
    p.(submission := "", mode := Writing)
  }

  function TextChange(p: Page, text: string): Page {
    if p.mode == Writing then p.(submission := text) else p
  }

  function TimeUp(p: Page, finalText: string): Page {
    p.(submission := finalText, mode := Completed,
       store := p.store[CompletedKey(p.day) := "true"][SubmissionKey(p.day) := finalText])
  }

  function WriteAgain(p: Page, today: string, dayOfYear: int): Page {
    Setup(p, today, dayOfYear)
  }

  /** The two keys of one day never coincide, and different days have different keys. */
  lemma KeysDistinct(d: string, e: string)
    ensures CompletedKey(d) != SubmissionKey(e)
    ensures CompletedKey(d) == CompletedKey(e) ==> d == e
    ensures SubmissionKey(d) == SubmissionKey(e) ==> d == e
  {
    assert CompletedKey(d)[0] != SubmissionKey(e)[0];
    if CompletedKey(d) == CompletedKey(e) {
      assert d == CompletedKey(d)[10..];
      assert e == CompletedKey(e)[10..];
    }
    if SubmissionKey(d) == SubmissionKey(e) {
      assert d == SubmissionKey(d)[11..];
      assert e == SubmissionKey(e)[11..];
    }
  }

  /**
   * Time-up completes the session with the final text, writes exactly the two
   * keys of the held day, and leaves every other key as it was.
   */
  lemma TimeUpEffects(p: Page, t: string)
    ensures TimeUp(p, t).mode == Completed && TimeUp(p, t).submission == t
    ensures TimeUp(p, t).day == p.day && TimeUp(p, t).prompt == p.prompt
    ensures GetItem(TimeUp(p, t).store, CompletedKey(p.day)) == Some("true")
    ensures GetItem(TimeUp(p, t).store, SubmissionKey(p.day)) == Some(t)
    ensures forall k :: k != CompletedKey(p.day) && k != SubmissionKey(p.day) ==>
              GetItem(TimeUp(p, t).store, k) == GetItem(p.store, k)
  {
    KeysDistinct(p.day, p.day);
  }

  /** A day change removes exactly the two keys of the held day, and the held day becomes today. */
  lemma DayRolloverEvictsOldKeys(p: Page, today: string, dayOfYear: int)
    requires p.day != today
    ensures Setup(p, today, dayOfYear).day == today
    ensures Setup(p, today, dayOfYear).store.Keys == p.store.Keys - {CompletedKey(p.day), SubmissionKey(p.day)}
    ensures forall k :: k in Setup(p, today, dayOfYear).store ==> Setup(p, today, dayOfYear).store[k] == p.store[k]
  {
  }

  /** On the same day nothing is removed. */
  lemma SameDayKeepsStore(p: Page, dayOfYear: int)
    ensures Setup(p, p.day, dayOfYear).store == p.store
  {
  }

  /**
   * Setup restores the completed session exactly when today's two keys are
   * present and non-empty in the store as it was before setup (eviction only
   * ever touches another day's keys); otherwise the page starts afresh.
   */
  lemma RestoreCondition(p: Page, today: string, dayOfYear: int)
    ensures var r := Setup(p, today, dayOfYear);
      r.day == today && r.prompt == Some(DailyPrompt.PromptOfTheDay(dayOfYear)) &&
      (r.mode == Completed <==>
         Truthy(GetItem(p.store, CompletedKey(today))) && Truthy(GetItem(p.store, SubmissionKey(today)))) &&
      (r.mode == Completed ==> r.submission == p.store[SubmissionKey(today)] && r.submission != "") &&
      (r.mode != Completed ==> r.mode == Initial && r.submission == "")
  {
    KeysDistinct(p.day, today);
    KeysDistinct(today, p.day);
    var store := Evict(p, today);
    assert GetItem(store, CompletedKey(today)) == GetItem(p.store, CompletedKey(today));
    assert GetItem(store, SubmissionKey(today)) == GetItem(p.store, SubmissionKey(today));
  }

  /** Running setup a second time on the same day changes nothing, so the double run on load equals one run. */
  lemma SetupIdempotent(p: Page, today: string, dayOfYear: int)
    ensures Setup(Setup(p, today, dayOfYear), today, dayOfYear) == Setup(p, today, dayOfYear)
  {
    var once := Setup(p, today, dayOfYear);
    SameDayKeepsStore(once, dayOfYear);
  }

  lemma BootstrapIsOneSetup(store: map<string, string>, today: string, dayOfYear: int)
    ensures Bootstrap(store, today, dayOfYear) == Setup(Mount(store), today, dayOfYear)
  {
    SetupIdempotent(Mount(store), today, dayOfYear);
  }

  /** Time-up with non-empty text followed by setup on the same day lands in the completed view with that text. */
  lemma CompletionRoundTrip(p: Page, t: string, dayOfYear: int)
    requires t != ""
    ensures Setup(TimeUp(p, t), p.day, dayOfYear).mode == Completed
    ensures Setup(TimeUp(p, t), p.day, dayOfYear).submission == t
  {
    TimeUpEffects(p, t);
    RestoreCondition(TimeUp(p, t), p.day, dayOfYear);
  }

  /** An empty final text is stored but not restored: the next setup on the same day starts afresh. */
  lemma EmptySubmissionNotRestored(p: Page, dayOfYear: int)
    ensures Setup(TimeUp(p, ""), p.day, dayOfYear).mode == Initial
    ensures Setup(TimeUp(p, ""), p.day, dayOfYear).submission == ""
  {
    TimeUpEffects(p, "");
    RestoreCondition(TimeUp(p, ""), p.day, dayOfYear);
  }

  /** "Write again" after completing today with some text returns to the completed view, not to a new session. */
  lemma WriteAgainAfterCompletion(p: Page, t: string, dayOfYear: int)
    requires t != ""
    ensures WriteAgain(TimeUp(p, t), p.day, dayOfYear).mode == Completed
    ensures WriteAgain(TimeUp(p, t), p.day, dayOfYear).submission == t
  {
    CompletionRoundTrip(p, t, dayOfYear);
  }

  /** Text changes reach the submission only while writing. */
  lemma TextChangeOnlyWhileWriting(p: Page, text: string)
    ensures p.mode == Writing ==> TextChange(p, text) == p.(submission := text)
    ensures p.mode != Writing ==> TextChange(p, text) == p
  {
  }

  /** Starting always yields the writing mode with an empty submission, touching nothing else. */
  lemma StartWritingResets(p: Page)
    ensures StartWriting(p).mode == Writing && StartWriting(p).submission == ""
    ensures StartWriting(p).store == p.store && StartWriting(p).day == p.day
  {
  }

  /** Whenever the page shows a completed session, the store holds its text under the held day's key. */
  ghost predicate Mirrored(p: Page) {
    p.mode == Completed ==> GetItem(p.store, SubmissionKey(p.day)) == Some(p.submission)
  }

  /** Every handler keeps the completed view backed by local storage. */
  lemma MirroredPreserved(p: Page, text: string, today: string, dayOfYear: int)
    requires Mirrored(p)
    ensures Mirrored(Setup(p, today, dayOfYear))
    ensures Mirrored(StartWriting(p))
    ensures Mirrored(TextChange(p, text))
    ensures Mirrored(TimeUp(p, text))
    ensures Mirrored(Bootstrap(p.store, today, dayOfYear))
  {
    TimeUpEffects(p, text);
    BootstrapIsOneSetup(p.store, today, dayOfYear);
  }

  /** `localStorage`: a string-to-string map updated in place. */
  class LocalStorage {
    var items: map<string, string>

    constructor(initial: map<string, string>)
      ensures items == initial
    {
      items := initial;
    }

    method GetItemAt(key: string) returns (v: Option<string>)
      ensures v == GetItem(items, key)
    {
      v := if key in items then Some(items[key]) else None;
    }

    method SetItem(key: string, value: string)
      modifies this
      ensures items == old(items)[key := value]
    {
      items := items[key := value];
    }

    method RemoveItem(key: string)
      modifies this
      ensures items == old(items) - {key}
    {
      items := items - {key};
    }
  }

  /** The home page component: its React state as fields, local storage as a shared object. */
  class HomePage {
    var currentPrompt: Option<string>
    var viewMode: ViewMode
    var submission: string
    var dailyPromptId: string
    const storage: LocalStorage

    function State(): Page
      reads this, storage
    {
      Page(currentPrompt, viewMode, submission, dailyPromptId, storage.items)
    }

    constructor(storage: LocalStorage)
      ensures this.storage == storage
      ensures State() == Mount(storage.items)
    {
      currentPrompt := None;
      viewMode := Initial;
      submission := "";
      dailyPromptId := "";
      this.storage := storage;
    }

    method SetupDailyChallenge(today: string, dayOfYear: int)
      modifies this, storage
      ensures State() == Setup(old(State()), today, dayOfYear)
    {
      var prompt := DailyPrompt.PromptOfTheDay(dayOfYear);
      if dailyPromptId != today {
        storage.RemoveItem(SubmissionKey(dailyPromptId));
        storage.RemoveItem(CompletedKey(dailyPromptId));
        assert storage.items == old(storage.items) - {SubmissionKey(dailyPromptId), CompletedKey(dailyPromptId)};
      }
      currentPrompt := Some(prompt);
      dailyPromptId := today;
      var alreadyCompleted := storage.GetItemAt(CompletedKey(today));
      var savedSubmission := storage.GetItemAt(SubmissionKey(today));
      if Truthy(alreadyCompleted) && Truthy(savedSubmission) {
        submission := savedSubmission.value;
        viewMode := Completed;
      } else {
        submission := "";
        viewMode := Initial;
      }
    }

    method HandleStartWriting()
      modifies this
      ensures State() == StartWriting(old(State()))
    {
      submission := "";
      viewMode := Writing;
    }

    method HandleTextChange(text: string)
      modifies this
      ensures State() == TextChange(old(State()), text)
    {
      if viewMode == Writing {
        submission := text;
      }
    }

    method HandleTimeUp(finalText: string)
      modifies this, storage
      ensures State() == TimeUp(old(State()), finalText)
    {
      submission := finalText;
      viewMode := Completed;
      storage.SetItem(CompletedKey(dailyPromptId), "true");
      storage.SetItem(SubmissionKey(dailyPromptId), finalText);
    }

    method HandleWriteAgain(today: string, dayOfYear: int)
      modifies this, storage
      ensures State() == WriteAgain(old(State()), today, dayOfYear)
    {
      SetupDailyChallenge(today, dayOfYear);
    }
  }
}
