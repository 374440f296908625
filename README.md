# OpenWrite daily writing session — a Dafny model

OpenWrite (the writerrank repository) is a daily writing challenge. The user gets one
prompt a day, writes for three minutes, and the finished text is kept in the
browser's local storage. It can also be emailed back, saved to the database, or
followed by a donation or a waitlist sign-up. This project models the parts of
the application that have logic of their own and proves properties about them:

- **The home page session** (`writerrank/src/app/page.tsx`), module `Home`.
  - The view mode moves through initial, writing and completed. The page holds the submission text and the day it belongs to.
  - Completion is mirrored into local storage under `completed_<day>` and `submission_<day>`. Local storage is a `map<string, string>` owned by a `LocalStorage` object.
  - `Page` and its functions (`Setup`, `StartWriting`, `TextChange`, `TimeUp`, `WriteAgain`, `Bootstrap`) specify the handlers. The class `HomePage` runs them step by step on its fields and on the storage object. Each of its methods is proved equal to its function.
- **The countdown** (`writerrank/src/components/WritingArea.tsx`), module `Countdown`.
  - The count starts at 180 seconds, and an interval tick takes one second off. The tick that finds one second or less sets zero, stops the interval and reports the latest text.
  - Edits are guarded by `locked` and `isWritingActive`, and time is shown as `m:ss`.
  - `Clock` with `Tick` and `RunTicks` specifies the countdown, and the class `WritingArea` runs it.
- **The design-reference timer** (`writerrank/figma_design_reference_code/components/Timer.tsx`), module `FigmaTimer`. It is a second countdown whose effect resets the count while inactive, calls `onTimeUp` when active at zero, and otherwise schedules the interval. It has `padStart` formatting and a colour by urgency.
- **The design-reference writing area** (`writerrank/figma_design_reference_code/components/WritingArea.tsx`), module `FigmaWritingArea`. It is an idle → writing → submitted state machine behind one button. It also has the disabled and visibility rules of the button, text box and timer.
- **The prompt of the day** (`writerrank/src/lib/dailyPrompt.ts`), module `DailyPrompt`. It holds ten prompts in rotation, indexed by the day of the year with JavaScript's `%`, plus a fallback.
- **Five API routes**, each a pure function from its inputs to a `Handled` value. That value holds the response, or the error that escapes, plus the external calls made, in order. The answers of the database, Stripe and Resend are inputs.
  - `ProfileRoute` (`/api/profile`)
  - `PaymentIntentRoute` (`/api/create-payment-intent`)
  - `SendSubmissionRoute` (`/api/send-submission`)
  - `SubscribeRoute` (`/api/subscribe`)
  - `SaveSubmissionRoute` (`/api/save-submission`)

Shared modules:

- `Wrappers` holds `Option` and `Result`.
- `JsText` holds decimal rendering, `padStart`, `includes` and `toLowerCase`.
- `JsValues` holds parsed JSON, thrown errors, truthiness, `typeof` and destructuring.
- `Http` holds responses, the external calls and database outcomes.

Three behaviours of the code shape the model:

- The local record is keyed by the date string alone (`completed_<day>`, `submission_<day>`); the prompt is not part of the key.
- The countdown is a counter decremented once per tick; no deadline is kept, so a late or throttled tick still takes off exactly one second.
- An empty saved submission is falsy, so it is not restored: the session starts afresh (`Home.EmptySubmissionNotRestored`).

## Model

| member | source | states |
|---|---|---|
| Home.KeysDistinct | writerrank/src/app/page.tsx:24-25 | The completed key of a day never equals a submission key, and each kind of key identifies its day, so writing one day's keys cannot touch another day's |
| Home.TimeUpEffects | writerrank/src/app/page.tsx:58-63 | After time-up the mode is completed with the final text; `completed_<day>` maps to "true" and `submission_<day>` to the text; every other key is unchanged |
| Home.DayRolloverEvictsOldKeys | writerrank/src/app/page.tsx:23-29 | When the held day differs from today, setup removes exactly the old day's two keys, keeps every other entry, and makes today the held day |
| Home.SameDayKeepsStore | writerrank/src/app/page.tsx:23-26 | Setup on the held day removes nothing |
| Home.RestoreCondition | writerrank/src/app/page.tsx:19-41 | Setup enters completed exactly when today's two keys are present and non-empty, restoring the saved text; otherwise it enters initial with an empty submission; the prompt is the prompt of the day |
| Home.SetupIdempotent | writerrank/src/app/page.tsx:19-41 | Running setup twice on the same day gives the same page as running it once |
| Home.BootstrapIsOneSetup | writerrank/src/app/page.tsx:43-45 | The effect runs setup again once the held day changes, and the result equals a single setup from the mounted page |
| Home.CompletionRoundTrip | writerrank/src/app/page.tsx:31-36 | Time-up with a non-empty text, then setup on the same day, lands in completed with that text |
| Home.EmptySubmissionNotRestored | writerrank/src/app/page.tsx:34-40 | Time-up with the empty text, then setup on the same day, lands in initial with an empty submission |
| Home.WriteAgainAfterCompletion | writerrank/src/app/page.tsx:65-67 | "Write again" is setup, so after completing today it returns to completed with the same text |
| Home.TextChangeOnlyWhileWriting | writerrank/src/app/page.tsx:52-56 | A text change sets the submission in writing mode and is a no-op in every other mode |
| Home.StartWritingResets | writerrank/src/app/page.tsx:47-50 | Starting always gives writing mode with an empty submission, with the store and the day unchanged |
| Home.MirroredPreserved | writerrank/src/app/page.tsx:19-67 | Setup, start, text change, time-up and load each keep the invariant that a completed page's text is stored under the held day's submission key |
| Home.LocalStorage.GetItemAt | writerrank/src/app/page.tsx:31-32 | `getItem` gives the stored string or null |
| Home.LocalStorage.SetItem | writerrank/src/app/page.tsx:61-62 | `setItem` maps the key to the value, all else unchanged |
| Home.LocalStorage.RemoveItem | writerrank/src/app/page.tsx:24-25 | `removeItem` drops the key, all else unchanged |
| Home.HomePage.constructor | writerrank/src/app/page.tsx:14-17 | The initial state: no prompt, initial mode, empty submission and day |
| Home.HomePage.SetupDailyChallenge | writerrank/src/app/page.tsx:19-41 | The new page state and storage equal `Setup` of the old ones |
| Home.HomePage.HandleStartWriting | writerrank/src/app/page.tsx:47-50 | The new state equals `StartWriting` of the old one |
| Home.HomePage.HandleTextChange | writerrank/src/app/page.tsx:52-56 | The new state equals `TextChange` of the old one |
| Home.HomePage.HandleTimeUp | writerrank/src/app/page.tsx:58-63 | The new state and storage equal `TimeUp` of the old ones |
| Home.HomePage.HandleWriteAgain | writerrank/src/app/page.tsx:65-67 | The new state and storage equal `WriteAgain` of the old ones |
| Countdown.ActivationResets | writerrank/src/components/WritingArea.tsx:37-50 | Becoming active resets the count to 180 and starts the interval, whatever the previous count |
| Countdown.TickAboveOne | writerrank/src/components/WritingArea.tsx:50-61 | A tick above one second decrements by exactly one and does not call `onTimeUp` |
| Countdown.TickAtEnd | writerrank/src/components/WritingArea.tsx:51-57 | A tick at one second or less sets zero, clears the interval and calls `onTimeUp` |
| Countdown.StoppedStaysStopped | writerrank/src/components/WritingArea.tsx:53-55 | Once the interval is cleared, no further tick changes anything or calls `onTimeUp` |
| Countdown.CountsDown | writerrank/src/components/WritingArea.tsx:50-61 | Fewer ticks than seconds left only count down, by one per tick, with no call |
| Countdown.FiresOnTick180 | writerrank/src/components/WritingArea.tsx:15-61 | From 180, after n < 180 ticks the count is 180 - n with no call; from the 180th tick on, the count is 0, the interval is stopped, and `onTimeUp` has been called exactly once |
| Countdown.RunTicksSplit | writerrank/src/components/WritingArea.tsx:50-61 | Running a ticks then b ticks equals running a + b ticks, in state and call count |
| Countdown.StaysInRange | writerrank/src/components/WritingArea.tsx:15-61 | The count stays within 0..180 over any number of ticks |
| Countdown.FormatTimeExamples | writerrank/src/components/__tests__/WritingArea.test.tsx:25-43 | `formatTime` gives "3:00", "2:59" and "2:58" for 180, 179 and 178, and "0:00" for 0 |
| Countdown.WritingArea.constructor | writerrank/src/components/WritingArea.tsx:25-50 | The text starts as the initial text, and the count at 180, running when mounted active |
| Countdown.WritingArea.SetWritingActive | writerrank/src/components/WritingArea.tsx:37-75 | Activation resets and starts the clock; deactivation clears the interval; text and lock are unchanged |
| Countdown.WritingArea.OnTick | writerrank/src/components/WritingArea.tsx:50-61 | The clock and the time-up call equal `Tick`, and the reported text is the current text |
| Countdown.WritingArea.HandleTextChange | writerrank/src/components/WritingArea.tsx:83-87 | The text takes the new value only when unlocked and active; the clock is never touched |
| Countdown.WritingArea.PressStart | writerrank/src/components/WritingArea.tsx:109-114 | The Start button (shown only when not active and not locked) clears the text and notifies the parent; the clock is unchanged |
| Countdown.TypingDoesNotResetTimer | writerrank/src/components/__tests__/WritingArea.test.tsx:10-44 | Mounted active, the display reads 3:00, then 2:59 after a tick, and 2:58 after typing "Hello" and another tick; the text is "Hello" |
| JsText.NatToString | writerrank/src/components/WritingArea.tsx:92 | A non-negative integer renders as at least one decimal digit, and as exactly one digit iff it is below ten |
| JsText.PadStart | writerrank/figma_design_reference_code/components/Timer.tsx:38 | `padStart` keeps the string as a suffix, fills the front with the fill character, and gives the larger of the width and the length |
| FigmaTimer.InactiveResets | writerrank/figma_design_reference_code/components/Timer.tsx:12-15 | While inactive the effect resets the count to 180, schedules nothing and calls nothing |
| FigmaTimer.ActiveAtZeroCallsTimeUp | writerrank/figma_design_reference_code/components/Timer.tsx:17-20 | Active at zero, the effect calls `onTimeUp` and schedules no interval |
| FigmaTimer.TickRule | writerrank/figma_design_reference_code/components/Timer.tsx:23-29 | The updater decrements by one above one second; at one or less it sets zero and calls `onTimeUp` |
| FigmaTimer.RangePreserved | writerrank/figma_design_reference_code/components/Timer.tsx:9-33 | The count stays within 0..180 under every effect run, tick and second |
| FigmaTimer.SecondsCountDown | writerrank/figma_design_reference_code/components/Timer.tsx:22-33 | Active seconds above one count down by one each and call nothing |
| FigmaTimer.RunSecondsSplit | writerrank/figma_design_reference_code/components/Timer.tsx:22-33 | Running a seconds then b seconds equals running a + b seconds |
| FigmaTimer.ActiveCountdown | writerrank/figma_design_reference_code/components/Timer.tsx:9-33 | Mounted active, the timer schedules the interval at 180 and shows 180 - n after n < 180 seconds with no call; the 180th second ends at 0 with nothing scheduled, and `onTimeUp` has been called twice (updater, then the effect at zero) |
| FigmaTimer.ColorThresholds | writerrank/figma_design_reference_code/components/Timer.tsx:41-45 | The colour is red iff at most 30 seconds are left, orange iff 31 to 60, neutral iff above 60 |
| FigmaTimer.ColorMonotone | writerrank/figma_design_reference_code/components/Timer.tsx:41-45 | A lower count never has a less urgent colour |
| FigmaTimer.FormatTimeAgrees | writerrank/figma_design_reference_code/components/Timer.tsx:35-39 | The `padStart` formatting equals the ternary one of the main writing area for every non-negative count |
| FigmaTimer.Timer.constructor | writerrank/figma_design_reference_code/components/Timer.tsx:9-33 | Mounting starts at 180 and runs the effect once |
| FigmaTimer.Timer.RunEffect | writerrank/figma_design_reference_code/components/Timer.tsx:11-33 | The new state and the time-up call equal `Effect` of the old state |
| FigmaTimer.Timer.SetActive | writerrank/figma_design_reference_code/components/Timer.tsx:11-33 | A new `isActive` prop followed by the effect it triggers |
| FigmaTimer.Timer.OnTick | writerrank/figma_design_reference_code/components/Timer.tsx:22-30 | The new state and the time-up call equal `Tick` of the old state |
| FigmaWritingArea.SubmitEqualsTimeUp | writerrank/figma_design_reference_code/components/WritingArea.tsx:24-36 | Submit and time-up give the same state: not writing, submitted, content kept |
| FigmaWritingArea.ButtonTextPriority | writerrank/figma_design_reference_code/components/WritingArea.tsx:38-42 | The button reads SUBMITTED when submitted, else SUBMIT when writing, else START |
| FigmaWritingArea.ButtonActionCases | writerrank/figma_design_reference_code/components/WritingArea.tsx:44-48 | The action is start iff idle, submit iff writing and not submitted, and undefined iff submitted, which is exactly when the button is disabled |
| FigmaWritingArea.EditableIff | writerrank/figma_design_reference_code/components/WritingArea.tsx:70-88 | The text box is editable iff writing and not submitted, the timer is mounted iff writing, and the counter is the content's length |
| FigmaWritingArea.ApplyConsistent | writerrank/figma_design_reference_code/components/WritingArea.tsx:16-91 | No event makes the area writing and submitted at once |
| FigmaWritingArea.SubmittedIsFinal | writerrank/figma_design_reference_code/components/WritingArea.tsx:44-91 | Once submitted, no sequence of clicks, typing or time-ups changes anything |
| FigmaWritingArea.RunConsistent | writerrank/figma_design_reference_code/components/WritingArea.tsx:16-91 | From any consistent state every sequence of events keeps the area consistent |
| FigmaWritingArea.IdleIgnoresTypingAndTimeUp | writerrank/figma_design_reference_code/components/WritingArea.tsx:11-22 | From idle, typing and time-up change nothing, and a click starts writing with empty content |
| FigmaWritingArea.WritingArea.constructor | writerrank/figma_design_reference_code/components/WritingArea.tsx:10-13 | The component mounts idle with empty content |
| FigmaWritingArea.WritingArea.HandleStart | writerrank/figma_design_reference_code/components/WritingArea.tsx:16-22 | The new state equals `AfterStart` of the old one |
| FigmaWritingArea.WritingArea.HandleSubmit | writerrank/figma_design_reference_code/components/WritingArea.tsx:24-29 | The new state equals `AfterSubmit` of the old one |
| FigmaWritingArea.WritingArea.HandleTimeUp | writerrank/figma_design_reference_code/components/WritingArea.tsx:31-36 | The new state equals `AfterTimeUp` of the old one |
| FigmaWritingArea.WritingArea.ClickButton | writerrank/figma_design_reference_code/components/WritingArea.tsx:89-91 | A click runs the action `getButtonAction` picks, unless the button is disabled |
| FigmaWritingArea.WritingArea.OnChange | writerrank/figma_design_reference_code/components/WritingArea.tsx:67-70 | Typing sets the content unless the text box is disabled |
| FigmaWritingArea.WritingArea.OnTimerElapsed | writerrank/figma_design_reference_code/components/WritingArea.tsx:86-88 | The timer's `onTimeUp` reaches the area only while the timer is mounted |
| DailyPrompt.JsRemainder | writerrank/src/lib/dailyPrompt.ts:23 | JavaScript's `%` lies strictly between -n and n, and equals the mathematical remainder for a non-negative dividend |
| DailyPrompt.RotationIndexInRange | writerrank/src/lib/dailyPrompt.ts:23 | For a non-negative day the index is `dayOfYear mod 10`, within the list |
| DailyPrompt.PromptIsListed | writerrank/src/lib/dailyPrompt.ts:3-23 | Every non-negative day gets the listed prompt at `dayOfYear mod 10`, never the fallback |
| DailyPrompt.FallbackOnlyForNegativeDays | writerrank/src/lib/dailyPrompt.ts:23 | The fallback is returned iff the day is negative and not a multiple of ten |
| DailyPrompt.RotationPeriod | writerrank/src/lib/dailyPrompt.ts:23 | Days d and d + 10 get the same prompt |
| DailyPrompt.DayOfYearOfDate | writerrank/src/lib/dailyPrompt.ts:19-22 | Any instant on day d after the origin (the last day of the previous year) gives `dayOfYear == d`, so 1 January is day 1 |
| DailyPrompt.GetPromptIsListed | writerrank/src/lib/dailyPrompt.ts:17-24 | Any instant at or after the origin has a non-negative day and gets one of the ten prompts |
| JsValues.TruthyString | writerrank/src/app/api/profile/route.ts:20 | The guard "falsy or not a string" rejects exactly what is not a non-empty string |
| JsValues.DestructureThrowsOnlyOnNull | writerrank/src/app/api/profile/route.ts:15 | Destructuring throws exactly when the value is `null`, with the engine's message naming the first property and the destructured expression; an object gives its field or `undefined` |
| JsText.IncludesChar | writerrank/src/app/api/send-submission/route.ts:28 | `includes` with a one-character string is membership of that character |
| ProfileRoute.ClassRepeatIff | writerrank/src/app/api/profile/route.ts:19 | The repetition `[a-z0-9_]{lo,hi}` matches iff the length is between lo and hi and every character is in the class |
| ProfileRoute.UsernameValidIff | writerrank/src/app/api/profile/route.ts:19 | A username is valid iff it has 3 to 20 characters, each in `a-z`, `0-9` or `_` |
| ProfileRoute.UppercaseRejected | writerrank/src/app/api/profile/route.ts:19 | Any upper-case letter makes a username invalid, and lower-cased text has none |
| ProfileRoute.UnauthenticatedIs401 | writerrank/src/app/api/profile/route.ts:9-12 | Without a user the answer is 401 and nothing but the session lookup happens |
| ProfileRoute.UsernameGuard | writerrank/src/app/api/profile/route.ts:15-31 | The answer is 400 iff the body has no acceptable username, in which case nothing is updated; an acceptable one leads to exactly one update, of the session user's row, with that name |
| ProfileRoute.UpdateOutcomeMapping | writerrank/src/app/api/profile/route.ts:33-42 | Duplicate 23505 gives 409, any other error 500, success the default 200 with the success message, and a throw escapes |
| ProfileRoute.NullBodyEscapes | writerrank/src/app/api/profile/route.ts:15 | A `null` body escapes as a TypeError naming `(intermediate value)`, the awaited call's result, and nothing is updated |
| ProfileRoute.UpdatesOnlyOwnRow | writerrank/src/app/api/profile/route.ts:28-31 | Every update targets the session user's id, whatever the body says |
| PaymentIntentRoute.AmountRange | writerrank/src/app/api/create-payment-intent/route.ts:13-19 | The answer is 400 iff the amount is not a number from 100 to 10000 cents; a rejected amount creates no intent and no row |
| PaymentIntentRoute.AcceptedAmountFlow | writerrank/src/app/api/create-payment-intent/route.ts:21-53 | An accepted amount creates a `usd` intent for that amount, then inserts a `pending` row with the intent id and the same amount; the answer is the client secret, 500 "Database error" on an insert error, or 500 "Payment failed" on a throw |
| PaymentIntentRoute.MetadataDefaults | writerrank/src/app/api/create-payment-intent/route.ts:26-29 | The email and user id metadata default to the empty string when absent or falsy, and are passed on otherwise |
| PaymentIntentRoute.AlwaysResponds | writerrank/src/app/api/create-payment-intent/route.ts:10-53 | Nothing escapes the handler; the status is 200, 400 or 500 |
| SendSubmissionRoute.NoClientIs500 | writerrank/src/app/api/send-submission/route.ts:17-22 | Without an email client the answer is 500 before the body is read |
| SendSubmissionRoute.RecipientRule | writerrank/src/app/api/send-submission/route.ts:28-36 | The email must be a non-empty string with an '@', the prompt a non-empty string, and the text a string, the empty one included |
| SendSubmissionRoute.ValidationOrder | writerrank/src/app/api/send-submission/route.ts:25-56 | The checks run email, then prompt, then text, and the first failure decides the 400 message; when all pass, exactly one email is sent with the given fields |
| SendSubmissionRoute.ProviderOutcomeMapping | writerrank/src/app/api/send-submission/route.ts:51-75 | Success gives 200 with the message id; a provider error gives 500 "Failed to send email." with the provider's message as details when it is non-empty, and "Unknown Resend error" when it is missing or empty; a thrown Error (other than a JSON.parse syntax error) gives 500 with its message |
| SendSubmissionRoute.BodyErrorMapping | writerrank/src/app/api/send-submission/route.ts:65-75 | A syntax error whose message mentions JSON.parse gives 400 "Invalid JSON in request body."; a syntax error without that text, and any other Error, gives 500 with its message; a non-Error gives 500 with the generic message |
| SendSubmissionRoute.DotlessParseErrorIs500 | writerrank/src/app/api/send-submission/route.ts:65-75 | A syntax error whose message has no '.', such as the engine's "Unexpected end of JSON input", is answered 500 with that message, never the 400 |
| SendSubmissionRoute.NullBodyIs500 | writerrank/src/app/api/send-submission/route.ts:25-26 | A `null` body is caught and answered 500 with the engine's destructuring message, which names the variable `body` |
| SendSubmissionRoute.AlwaysResponds | writerrank/src/app/api/send-submission/route.ts:16-76 | Nothing escapes the handler; the status is 200, 400 or 500 |
| SubscribeRoute.NoClientIs500 | writerrank/src/app/api/subscribe/route.ts:23-29 | Without a database client the answer is 500 and the body is not read |
| SubscribeRoute.EmailRule | writerrank/src/app/api/subscribe/route.ts:32-37 | The email is valid iff it is a non-empty string with an '@'; the answer is 400 iff it is invalid, and then nothing is inserted |
| SubscribeRoute.StoresLowercased | writerrank/src/app/api/subscribe/route.ts:41-44 | The inserted address is the lower-cased input, which is still a valid email; lower-casing is idempotent, so inputs differing only in case store the same address |
| JsText.ToLowerCaseIdempotent | writerrank/src/app/api/subscribe/route.ts:43 | Lower-casing twice equals lower-casing once |
| JsText.ToLowerCaseKeepsAt | writerrank/src/app/api/subscribe/route.ts:43 | Lower-casing neither adds nor removes an '@' |
| SubscribeRoute.InsertOutcomeMapping | writerrank/src/app/api/subscribe/route.ts:46-65 | A duplicate gives 200 "already registered", another insert error 500, success 201 with the rows, and a thrown Error 500 with its message |
| SubscribeRoute.AlwaysResponds | writerrank/src/app/api/subscribe/route.ts:22-66 | Nothing escapes the handler; the status is 200, 201, 400 or 500 |
| SaveSubmissionRoute.UnauthenticatedIs401 | writerrank/src/app/api/save-submission/route.ts:9-13 | Without a user the answer is 401, before the body is parsed |
| SaveSubmissionRoute.TypeGuard | writerrank/src/app/api/save-submission/route.ts:16-21 | The answer is 400 iff the fields are not a number, a string and a boolean, and then nothing is inserted |
| SaveSubmissionRoute.RecordConstruction | writerrank/src/app/api/save-submission/route.ts:24-39 | A well-typed body, including an empty text, inserts exactly one row holding the session's user id and the body's three fields unchanged; an insert error gives 500, success 201 |
| SaveSubmissionRoute.UserIdFromSession | writerrank/src/app/api/save-submission/route.ts:24-25 | Every inserted row's user id is the session's, whatever the body carries |

## Left out

- **Real time and React scheduling.** `setInterval`, `setTimeout`, effect scheduling, re-render batching and StrictMode double invocation are left out. Interval ticks, effect runs, prop changes and handler calls are discrete events applied one at a time.
- **The latest-text ref.** `currentTextRef` in `src/components/WritingArea.tsx` is updated by an effect after each render. The model treats it as always equal to `text`, so `onTimeUp` receives the current text.
- **Focus and visuals.** Focus calls, placeholders, class names other than the timer colour, and the rendered markup are left out.
- **The propagation effect.** The effect that calls `onTextChange` with each new text is left out; the page's side of it is `Home.TextChange`.
- **Wall-clock dates.** `new Date().toDateString()`, local time and daylight saving are not modelled. The day string, the millisecond timestamps and the day of the year are inputs.
- **Prompt display.** The page's `currentPrompt` is set from the prompt of the day, but what the page renders with it is not modelled.
- **External services.** Supabase, Stripe, Resend and the auth provider are not modelled. Each call's result (ok, error with code, or thrown) is an input.
- **`created_at`.** The timestamp the subscribe route adds to each row comes from the clock and is not part of the modelled insert.
- **Email rendering.** `render` in the send-submission route is assumed not to throw.
- **Authentication lookups.** `getAuth` in the payment route is assumed not to throw. `supabase.auth.getUser()` in the profile and save-submission routes is reduced to the user it yields.
- **Logging.** Every `console.error`/`console.log` is left out.
- JsText.ToLowerCase: lower-cases ASCII letters only, not the full Unicode case mapping of `toLowerCase`.
- FigmaWritingArea.CharacterCount: counts characters, while `content.length` counts UTF-16 code units.
- **Error messages.** The engine's error text is modelled only for destructuring `null`, where it names `(intermediate value)` for a destructured `await request.json()` and `body` for the send-submission route's variable. Other thrown errors, the body parser's syntax errors included, carry their message as an input.
- **Other parts of the repository.** These are not part of this model:
  - the donation widget and its floating-point amount arithmetic;
  - the authentication components, middleware and Supabase client setup;
  - the Stripe webhook and get-prompt routes;
  - the prompt seeding script;
  - the email, onboarding and presentation components;
  - the end-to-end test.
