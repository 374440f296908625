/**
 * The prompt of the day: ten prompts in rotation, indexed by the day of the
 * year with JavaScript's remainder operator, and a fallback for an index that
 * lands outside the list.
 */
module DailyPrompt {

  const Prompts: seq<string> := [
    "Describe a color you've never seen.",
    "What does 'home' smell like after a long journey?",
    "If silence had a sound, what would it be?",
    "Write about a door that only appears at midnight.",
    "The most important lesson a tree could teach us.",
    "What if your shadow had a life of its own?",
    "Describe the taste of joy.",
    "A conversation between the moon and the sea.",
    "The secret life of a forgotten toy.",
    "What would you write on a message in a bottle today?"
  ]

  const Fallback: string := "Write about a moment of pure, unexpected happiness."

  const MsPerDay: int := 1000 * 60 * 60 * 24

  /**
   * Whole days between the start of the year (`new Date(year, 0, 0)`, the last
   * day of the previous year) and now, both in milliseconds; `Math.floor` of
   * the quotient, which is Dafny's `/` for a positive divisor.
   */
  function DayOfYear(nowMs: int, yearOriginMs: int): int {
    (nowMs - yearOriginMs) / MsPerDay
  }

  /** JavaScript's `a % n`: the remainder takes the sign of the dividend. */
  function JsRemainder(a: int, n: int): (r: int)
    requires n > 0
    ensures -n < r < n
    ensures a >= 0 ==> r == a % n
  {
    if a >= 0 then a % n else -((-a) % n)
  }

  /** `prompts[i] || fallback`: an index outside the list reads `undefined`, and an empty entry is falsy. */
  function PromptOfTheDay(dayOfYear: int): string {
    var i := JsRemainder(dayOfYear, |Prompts|);
    if 0 <= i < |Prompts| && Prompts[i] != "" then Prompts[i] else Fallback
  }

  /** `getPromptOfTheDay()` with the clock reading passed in. */
  function GetPromptOfTheDay(nowMs: int, yearOriginMs: int): string {
    PromptOfTheDay(DayOfYear(nowMs, yearOriginMs))
  }

  /** For a day of the year counted from the year's origin, the rotation index is `dayOfYear mod 10`, within the list. */
  lemma RotationIndexInRange(dayOfYear: int)
    requires dayOfYear >= 0
    ensures JsRemainder(dayOfYear, |Prompts|) == dayOfYear % 10
    ensures 0 <= JsRemainder(dayOfYear, |Prompts|) < |Prompts|
  {
  }

  /** Every non-negative day gets one of the ten listed prompts, never the fallback. */
  lemma PromptIsListed(dayOfYear: int)
    requires dayOfYear >= 0
    ensures PromptOfTheDay(dayOfYear) == Prompts[dayOfYear % 10]
    ensures PromptOfTheDay(dayOfYear) in Prompts
    ensures PromptOfTheDay(dayOfYear) != Fallback
  {
    assert Fallback !in Prompts;
  }

  /**
   * The fallback is reached exactly when the day is negative and not a
   * multiple of ten (`-10 % 10` is `-0`, which indexes the first prompt).
   */
  lemma FallbackOnlyForNegativeDays(dayOfYear: int)
    ensures PromptOfTheDay(dayOfYear) == Fallback <==> dayOfYear < 0 && dayOfYear % 10 != 0
  {
    assert Fallback !in Prompts;
    if dayOfYear < 0 {
      assert (-dayOfYear) % 10 == 0 <==> dayOfYear % 10 == 0;
    }
  }

  /** The rotation has period ten over the days of a year. */
  lemma RotationPeriod(dayOfYear: int)
    requires dayOfYear >= 0
    ensures PromptOfTheDay(dayOfYear + 10) == PromptOfTheDay(dayOfYear)
  {
  }

  /**
   * Day `d` of the year (1 January is day 1, since the origin is the last day
   * of the previous year) at any time of that day gives `dayOfYear == d`.
   */
  lemma DayOfYearOfDate(yearOriginMs: int, d: int, msIntoDay: int)
    requires 0 <= msIntoDay < MsPerDay
    ensures DayOfYear(yearOriginMs + d * MsPerDay + msIntoDay, yearOriginMs) == d
  {
    assert yearOriginMs + d * MsPerDay + msIntoDay - yearOriginMs == d * MsPerDay + msIntoDay;
  }

  /** Any instant at or after the origin has a non-negative day of the year, hence a listed prompt. */
  lemma GetPromptIsListed(nowMs: int, yearOriginMs: int)
    requires nowMs >= yearOriginMs
    ensures DayOfYear(nowMs, yearOriginMs) >= 0
    ensures GetPromptOfTheDay(nowMs, yearOriginMs) in Prompts
  {
    PromptIsListed(DayOfYear(nowMs, yearOriginMs));
  }
}
