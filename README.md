# HW Ninja: a verified model of its sequential core

HW Ninja is a homework helper for school students (classes 6 to 12). It is a
Next.js application. A student types or photographs a question and an AI
service solves and explains it. Solved questions are kept in a history in the
browser's local storage. The student can take a timed five-minute
multiple-choice self-test generated by the same service, and get an
illustration for a prompt. The interface can be shown in English or Hindi and
takes one of five colour themes.

This project models the logic around those service calls, in Dafny:

- the self-test session (`TestPage`): setup, start, answer, next/previous,
  a one-second timer tick, finish, reset, the `m:ss` clock display and the
  choice of view;
- its scoring (`TestResult`): the score fold, the rounded percentage, and the
  per-question verdicts;
- the history store (`History`) over a model of local storage
  (`LocalStorage`), and the history page (`HistoryPage`), which shows the log
  newest first;
- the solver page (`HomePage`): its empty-input guard, its request built from
  conditional fields, its save-on-success, and the guards of "explain" and
  "listen";
- the visualizer (`Visualizer`): its prompt guard, the download file name
  sanitiser, and the like/dislike feedback;
- the persisted preferences: the interface language (`LanguageContext`) and
  the colour theme (`SettingsPanel`);
- the two AI flows' input and output schemas as validity predicates
  (`SmartSolve`, `GenerateTest`, with `Zod` for the field checks).

`Js` holds the JavaScript built-ins the core relies on: truthiness, `trim`,
the truncating `%`, and decimal printing and parsing of integers.

The AI service is never called. Each service call is a parameter holding its
reply: `None` when the call throws, otherwise the model's raw structured
output, which the flow's output schema then validates. The storage
environment is also a parameter: whether a window exists, and whether reads
or writes throw. Stateful React components are classes, with one method per
handler or effect. Each effect runs once per call, in the order React runs it.

Gaps between the pages and the schemas they call are stated as lemmas:

- `HomePage.OfferedSubjectsRefused`: the solver form offers Hindi and Social
  Science, but the solve schema accepts only three subjects.
- `GenerateTest.AnyOptionsValidate`: a generated question may have any
  number of options, and its correct answer need not be one of them.
- `GenerateTest.QuestionCountUnconstrained`: the number of questions the
  service returns is not tied to the number requested.
- `TestPage.ShortReplyBreaksInterface`: with a shorter reply, "next" can move
  past the last question.

## Model

| member | source | states |
|---|---|---|
| `Js.TrimEmptyIffBlank` | src/app/page.tsx:241 | `trim()` yields the empty string exactly when every character is JavaScript whitespace |
| `Js.Remainder` | src/app/test/page.tsx:164 | `%` agrees with the mathematical remainder for a non-negative dividend, and is never positive for a negative one |
| `Js.ParseNatToString` | src/app/page.tsx:271 | `parseInt` of the decimal rendering of a natural number gives that number back |
| `LocalStorage.Store.GetItem` | src/lib/history.ts:15 | `getItem` yields a value exactly when the key is present, and a stored text verbatim |
| `LocalStorage.Store.SetItem` | src/lib/history.ts:30 | `setItem` changes only its key |
| `LocalStorage.Store.RemoveItem` | src/lib/history.ts:41 | `removeItem` removes only its key |
| `Zod.OptionalValue` | src/ai/flows/smart-solve.ts:31 | an optional field that validated yields a value exactly when it was present |
| `SmartSolve.UndeclaredKeys` | src/ai/flows/smart-solve.ts:14-25 | the input schema declares no photo, language or user-name field; each such key is outside the schema exactly when the request carries it |
| `SmartSolve.ParseOutput` | src/ai/flows/smart-solve.ts:28-32 | a reply yields an output exactly when `solution` and `explanation` are strings and `isCorrect` is absent or boolean; the fields are carried over |
| `SmartSolve.Flow` | src/ai/flows/smart-solve.ts:53-61 | the flow returns a solution exactly when the input (grade an integer in [6,12], subject among three, difficulty among three) and the reply both validate |
| `SmartSolve.SubjectOutsideEnumFails` | src/ai/flows/smart-solve.ts:22 | a subject outside Maths, Science and English never yields a solution, whatever the reply |
| `SmartSolve.EmptyQuestionAccepted` | src/ai/flows/smart-solve.ts:15-24 | an empty question with no student answer is valid input |
| `SmartSolve.IsCorrectOptional` | src/ai/flows/smart-solve.ts:31 | a reply without `isCorrect` validates, and its output carries no verdict |
| `GenerateTest.ParseOutput` | src/ai/flows/generate-test-flow.ts:28-30 | a reply yields questions exactly when every question has its three fields; count, order and fields are kept |
| `GenerateTest.Flow` | src/ai/flows/generate-test-flow.ts:49-58 | the flow returns a test exactly when the input (five subjects, grade in [6,12], three difficulties, count in [5,20]) and the reply both validate |
| `GenerateTest.AnyOptionsValidate` | src/ai/flows/generate-test-flow.ts:14-18 | a question with any list of options, and a correct answer outside it, validates unchanged |
| `GenerateTest.QuestionCountUnconstrained` | src/ai/flows/generate-test-flow.ts:28-30 | for a valid request, a reply with any number of questions is returned with exactly that number |
| `TestResult.Score` | src/components/test-result.tsx:17-19 | the score lies in [0, number of questions]; it is the maximum exactly when every answer matches, and 0 exactly when none does |
| `TestResult.Matches` | src/components/test-result.tsx:18 | a question counts only when an answer exists at its index and equals its correct answer exactly; an index past the answers reads `undefined` and never matches |
| `TestResult.ScoreCountsMatches` | src/components/test-result.tsx:17-19 | the score is the number of indices whose answer equals the correct answer |
| `TestResult.ScoreIgnoresExtraAnswers` | src/components/test-result.tsx:18 | answers past the last question do not change the score |
| `TestResult.UnreachableAnswerNeverScores` | src/components/test-result.tsx:18 | a question whose correct answer is neither empty nor among its options cannot be scored by an answer picked from the options |
| `TestResult.VerdictOf` | src/components/test-result.tsx:32-46 | a question is marked correct by the score's own test; a falsy answer is shown as "Not answered"; the correct answer is shown exactly under a wrong one |
| `TestResult.Verdicts` | src/components/test-result.tsx:31-50 | one verdict per question, in order |
| `TestResult.ScoreMatchesVerdicts` | src/components/test-result.tsx:17-32 | the score equals the number of questions shown as correct |
| `TestResult.Percentage` | src/components/test-result.tsx:20 | `NaN` exactly for an empty test; otherwise the integer nearest to 100 × score / total, ties rounded up |
| `TestResult.PercentageBounds` | src/components/test-result.tsx:20 | with at least one question, the percentage lies in [0,100]; it is 100 for a full score and 0 for none |
| `TestResult.EndpointPercentages` | src/components/test-result.tsx:17-20 | a test with every answer matching scores 100%; one with none matching scores 0% |
| `TestResult.OneOfFive` | src/components/test-result.tsx:17-20 | one match out of five questions gives a score of 1 and 20% |
| `FormOptions.Grades` | src/app/page.tsx:473 | the class options are exactly 6 to 12 |
| `FormOptions.GradeValues` | src/app/page.tsx:473-474 | each class option's value is the decimal rendering of its class |
| `FormOptions.ParsedGradeInRange` | src/app/page.tsx:271 | parsing any class option's value gives its class, an integer in [6,12] |
| `FormOptions.InitialGradeOffered` | src/app/page.tsx:157 | the initial class "8" is one of the options |
| `TestPage.OfferedCountsValidate` | src/app/test/page.tsx:231-233 | the counts 5, 10 and 15 lie in the schema's [5,20]; 20 is not offered |
| `TestPage.Finish` | src/app/test/page.tsx:148-151 | finishing clears `started` and shows the result, keeping the time left |
| `TestPage.TimerEffect` | src/app/test/page.tsx:88-98 | at 0 seconds the effect finishes the test; otherwise it changes nothing |
| `TestPage.Tick` | src/app/test/page.tsx:90-93 | a tick takes exactly one second off, only while started with time left; the time never goes negative; the result appears only at 0 |
| `TestPage.FinishIdempotent` | src/app/test/page.tsx:94-95 | finishing twice is finishing once; the effect re-running at 0 after a finish changes nothing |
| `TestPage.CountsDown` | src/app/test/page.tsx:90-93 | before the time runs out, k ticks leave the test running with k seconds fewer |
| `TestPage.Expires` | src/app/test/page.tsx:88-98 | after exactly t ticks, a test started with t seconds is finished with 0 left and the result shown |
| `TestPage.FinishedIsStable` | src/app/test/page.tsx:90 | once the test has stopped, ticks change nothing |
| `TestPage.ResultShownOnce` | src/app/test/page.tsx:68 | from a fresh 300-second start the result is hidden for 299 ticks and shown from tick 300 on |
| `TestPage.FormatTimeShape` | src/app/test/page.tsx:162-166 | for s ≥ 0 the display is `floor(s/60)`, a colon, then two digits equal to `s % 60` |
| `TestPage.FormatTimeRoundTrip` | src/app/test/page.tsx:162-166 | the seconds left can be read back from the display |
| `TestPage.FormatTimeExamples` | src/app/test/page.tsx:162-166 | 300 seconds display as `5:00`, one second as `0:01` |
| `TestPage.NextIndex` | src/app/test/page.tsx:136-140 | "next" adds one below `numQuestions - 1`, is a no-op at the end, and keeps the index in [0, numQuestions-1] |
| `TestPage.PrevIndex` | src/app/test/page.tsx:142-146 | "previous" subtracts one above 0, is a no-op at 0, and never goes negative |
| `TestPage.FormRequestValidates` | src/app/test/page.tsx:105-112 | every request the setup form can send satisfies the test input schema |
| `TestPage.BuildRequest` | src/app/test/page.tsx:105-112 | the request carries the subject, difficulty and count as selected and the parsed class; `language` is absent exactly for English, otherwise the selection |
| `TestPage.SetupListsAreSchemaEnums` | src/app/test/page.tsx:201-220 | the setup form offers exactly the test schema's five subjects and three difficulties, in the same order |
| `TestPage.TestPage.constructor` | src/app/test/page.tsx:72-84 | the initial form and session: no data, not started, no result, index 0, 300 seconds, setup view |
| `TestPage.TestPage.View` | src/app/test/page.tsx:311-319 | the result exactly when it is to be shown and there is data; the setup form exactly when no test runs and no result is shown; the question exactly when a running test has data and the index is within the questions; an error only past the last question |
| `TestPage.TestPage.SelectOptions` | src/app/test/page.tsx:181-240 | each select holds the option chosen; the session and the loading flag are unchanged |
| `TestPage.TestPage.StartTest` | src/app/test/page.tsx:100-128 | on success, one empty answer per returned question, index 0, 300 seconds, started, and the first question shown when there is one; on failure, not started and no data; loading ends false |
| `TestPage.TestPage.AnswerChange` | src/app/test/page.tsx:130-134 | only the current slot is overwritten; the length, every other answer, the index, the clock, the data, the form and the loading flag are unchanged |
| `TestPage.TestPage.NextQuestion` | src/app/test/page.tsx:136-140 | the index moves as `NextIndex`, bounded by the selected count; answers, data, clock, form and loading flag are unchanged |
| `TestPage.TestPage.PrevQuestion` | src/app/test/page.tsx:142-146 | the index moves as `PrevIndex`; answers, data, clock, form and loading flag are unchanged |
| `TestPage.TestPage.ElapseSecond` | src/app/test/page.tsx:88-98 | the clock moves as `Tick`; answers, data, index, form and loading flag are unchanged |
| `TestPage.TestPage.FinishTest` | src/app/test/page.tsx:148-151 | the clock moves as `Finish` and, with data, the result is shown; nothing else changes |
| `TestPage.TestPage.ResetTest` | src/app/test/page.tsx:153-160 | back to the initial session with the form and loading flag kept: no data, not started, no result, no answers, index 0, 300 seconds, the setup view |
| `TestPage.ShortReplyBreaksInterface` | src/app/test/page.tsx:271-273 | for any offered count and any valid reply with fewer questions, the test starts, and one "next" press per question received shows a question before each press and leaves the index just past the last question, where the interface cannot render |
| `History.ReadHistory` | src/lib/history.ts:10-21 | the stored log, or empty when there is no window, when reading throws, when the key is absent, or when it holds a text (the falsy empty string, or a text that is not a log) |
| `History.AfterSave` | src/lib/history.ts:23-34 | without a window, or when the write throws, the storage is unchanged; otherwise the key holds the log as read plus the item; no other key changes |
| `History.AfterClear` | src/lib/history.ts:36-45 | the key is removed unless there is no window or the removal throws; no other key changes |
| `History.SaveHistory` | src/lib/history.ts:23-34 | the storage after the call is `AfterSave` of the storage before it |
| `History.ClearHistory` | src/lib/history.ts:36-45 | the storage after the call is `AfterClear` of the storage before it |
| `History.SaveAppends` | src/lib/history.ts:28-30 | with working storage, a save appends the item: one more record, and the last is the item |
| `History.SaveAllAppends` | src/lib/history.ts:28-30 | successive saves append their items in order after all earlier records |
| `History.SaveTwiceKeepsBoth` | src/lib/history.ts:28-30 | saving the same item twice leaves two copies of it |
| `History.ClearEmpties` | src/lib/history.ts:41 | after a clear the log reads empty, and the next save starts a log of one record |
| `History.FailedReadDropsLog` | src/lib/history.ts:14-30 | a read that throws inside a save is caught as the empty log, so a successful write keeps only the new item |
| `HistoryPage.Reverse` | src/app/history/page.tsx:60 | the reversed log has the same length, and entry i is entry n-1-i of the log |
| `HistoryPage.NewestFirst` | src/app/history/page.tsx:59-60 | the record saved last is listed first, and the oldest is listed last |
| `HistoryPage.ReverseInPlace` | src/app/history/page.tsx:60 | reversing in place leaves the array holding `Reverse` of its old contents |
| `HistoryPage.ListKeys` | src/app/history/page.tsx:139 | one key per entry, made of the timestamp, a dash and the index |
| `HistoryPage.ListKeysDistinct` | src/app/history/page.tsx:139 | keys within one rendering are pairwise distinct, whatever the timestamps |
| `HistoryPage.HistoryPage.constructor` | src/app/history/page.tsx:54-55 | the page starts with an empty list and loading set |
| `HistoryPage.HistoryPage.ClearDisabled` | src/app/history/page.tsx:128 | the clear button is disabled exactly when the list is empty |
| `HistoryPage.HistoryPage.Load` | src/app/history/page.tsx:58-62 | after the mount, the list is the stored log reversed, loading is over, and the clear button is disabled exactly when the log is empty |
| `HistoryPage.HistoryPage.HandleClear` | src/app/history/page.tsx:64-67 | the stored log is cleared and the list emptied, which disables the clear button |
| `HistoryPage.ClearThenReload` | src/app/history/page.tsx:58-67 | after a clear with working storage, the key is gone, and a freshly mounted page has finished loading, lists nothing and disables its clear button |
| `HomePage.LangParam` | src/app/page.tsx:268 | no language exactly for "auto", otherwise the selection |
| `HomePage.BuildRequest` | src/app/page.tsx:269-278 | the request carries `studentAnswer` iff test mode is on, the photo iff an image is set, `language` iff one is chosen, `userName` iff it is non-empty; the class is the parsed option |
| `HomePage.Entry` | src/app/page.tsx:282-287 | the saved entry is the request with its language replaced by `langParam`, plus the solution and the time |
| `HomePage.RequestValidIffSubject` | src/app/page.tsx:269-279 | for a form holding its own options, the request passes the solve schema exactly when the subject is Maths, Science or English |
| `HomePage.OfferedSubjectsRefused` | src/app/page.tsx:494-498 | Hindi and Social Science are offered, yet such a request never yields a solution |
| `HomePage.ImageOnlyRequest` | src/app/page.tsx:241 | an image with a blank question passes the guard; the blank question is sent as typed, and the photo goes in an undeclared field |
| `HomePage.NoInput` | src/app/page.tsx:241-248 | the guard refuses exactly when the trimmed question is empty and there is no non-empty image |
| `HomePage.FormListsAgainstSchema` | src/app/page.tsx:494-517 | the solver form offers the solve schema's three difficulties in its order, and every subject the schema admits |
| `HomePage.SpeechText` | src/app/page.tsx:371-375 | the spoken text holds the solution, the explanation and, only when it is non-empty, the simplified explanation, each verbatim at its fixed place in the template |
| `HomePage.HomePage.constructor` | src/app/page.tsx:157-175 | the initial form and an empty result area |
| `HomePage.HomePage.HandleSolve` | src/app/page.tsx:240-299 | without input, no call and no change; otherwise the previous results are cleared, the solution is the flow's result, history is written exactly once on success and never on failure, and loading ends false |
| `HomePage.HomePage.HandleExplain` | src/app/page.tsx:301-330 | a no-op without a solution; otherwise the request is sent, the old explanation is replaced by the reply, and the busy flag ends false |
| `HomePage.HomePage.HandleListen` | src/app/page.tsx:363-390 | a no-op without a solution; otherwise the speech text is sent, the old audio is replaced by the reply, and the busy flag ends false |
| `Visualizer.LowerChar` | src/app/visualizer/page.tsx:101 | upper-case ASCII letters become their lower-case forms; other characters are unchanged |
| `Visualizer.ReplaceNonAlnum` | src/app/visualizer/page.tsx:101 | same length; ASCII letters and digits are kept, every other character becomes `_` |
| `Visualizer.LowerAscii` | src/app/visualizer/page.tsx:101 | same length, each character lowered |
| `Visualizer.Sanitize` | src/app/visualizer/page.tsx:101 | the stem is as long as the prompt and made only of `[a-z0-9_]`; letters are lowered, digits kept, anything else becomes `_` |
| `Visualizer.SanitizeIdempotent` | src/app/visualizer/page.tsx:101 | sanitising a stem returns it unchanged |
| `Visualizer.SanitizeFixedPoints` | src/app/visualizer/page.tsx:101 | the strings sanitising leaves unchanged are exactly those over `[a-z0-9_]` |
| `Visualizer.SanitizeExample` | src/app/visualizer/page.tsx:101 | "Cat 2!" becomes `cat_2_`: letters lowered, the digit kept, the space and the `!` each an underscore |
| `Visualizer.FileName` | src/app/visualizer/page.tsx:101 | the name is `hwninja-`, the stem, then `.png` |
| `Visualizer.VisualizerPage.constructor` | src/app/visualizer/page.tsx:61-64 | empty prompt, not loading, no image, no feedback |
| `Visualizer.VisualizerPage.GenerateImage` | src/app/visualizer/page.tsx:67-94 | a whitespace-only prompt makes no call and no change; otherwise the image and feedback are cleared, the image is set only on success, and loading ends false |
| `Visualizer.VisualizerPage.Download` | src/app/visualizer/page.tsx:96-110 | no download without an image; otherwise the file name is `FileName(prompt)` |
| `Visualizer.VisualizerPage.Rate` | src/app/visualizer/page.tsx:221-230 | each button sets exactly its own feedback value |
| `LanguageContext.Code` | src/contexts/language-context.tsx:6 | a locale's code is `en` or `hi` |
| `LanguageContext.ParseLocale` | src/contexts/language-context.tsx:21-22 | a stored value is recognised exactly when it is `en` or `hi`, as the locale with that code |
| `LanguageContext.ParseCode` | src/contexts/language-context.tsx:21-31 | the code `setLocale` stores is read back as the same locale |
| `LanguageContext.MountedLocale` | src/contexts/language-context.tsx:20-26 | the mount adopts a recognised stored locale and otherwise keeps the current one |
| `LanguageContext.UnrecognisedKeepsEnglish` | src/contexts/language-context.tsx:17-24 | a missing, empty or unknown stored value leaves English |
| `LanguageContext.LanguageProvider.constructor` | src/contexts/language-context.tsx:17-18 | English, not mounted, rendering nothing |
| `LanguageContext.LanguageProvider.Renders` | src/contexts/language-context.tsx:35-37 | the provider renders its children exactly when it has mounted |
| `LanguageContext.LanguageProvider.Mount` | src/contexts/language-context.tsx:20-26 | the locale becomes `MountedLocale` of the stored value; the provider is mounted and renders |
| `LanguageContext.LanguageProvider.SetLocale` | src/contexts/language-context.tsx:28-31 | the code is stored under `locale` and the locale switched |
| `LanguageContext.ChoiceSurvivesReload` | src/contexts/language-context.tsx:21-37 | a chosen language is stored, and a fresh provider, once mounted, renders in that language |
| `SettingsPanel.FindIndex` | src/components/settings-panel.tsx:25 | the first theme with the name, or none exactly when no theme has it |
| `SettingsPanel.NamesDistinct` | src/components/settings-panel.tsx:9-15 | the five theme names are pairwise distinct |
| `SettingsPanel.ThemeFor` | src/components/settings-panel.tsx:25 | a table theme: the one named, or `Default` when no theme has the name |
| `SettingsPanel.NameSelectsItsTheme` | src/components/settings-panel.tsx:25 | each table entry's name selects that very entry |
| `SettingsPanel.UnknownNameFallsBack` | src/components/settings-panel.tsx:25 | an unknown name selects `Default` |
| `SettingsPanel.MountedTheme` | src/components/settings-panel.tsx:23-26 | no theme is applied for a missing or empty stored value; otherwise a table theme |
| `SettingsPanel.AppliedThemeRestored` | src/components/settings-panel.tsx:23-33 | the name `applyTheme` stores re-selects the same theme on the next mount |
| `SettingsPanel.SettingsPanel.constructor` | src/components/settings-panel.tsx:19 | not mounted, rendering nothing, no colours set |
| `SettingsPanel.SettingsPanel.Renders` | src/components/settings-panel.tsx:36-38 | the panel renders exactly when it has mounted |
| `SettingsPanel.SettingsPanel.ApplyTheme` | src/components/settings-panel.tsx:29-34 | both colours are set from the theme and its name is stored under `app-theme` |
| `SettingsPanel.SettingsPanel.Mount` | src/components/settings-panel.tsx:21-27 | mounted; the storage and colours are unchanged when no name is stored, and otherwise `MountedTheme` is applied and stored |

## Left out

- The AI service calls are left out: the model prompts, the flows' internals, `explainSimply`, `textToSpeech` and `generateImage`. Each is a reply parameter. The explain and image flows' output schemas each require a single string; their reply parameter stands for that validated string, or `None` when the call throws. The text-to-speech flow is not part of this model; its reply is taken the same way.
- The ad simulation, `window.print`, the Capacitor check, the daily notification and `aiMessage` are left out. They are timers, wall-clock time, platform I/O and translated strings.
- FileReader image loading, audio playback, the DOM, CSS beyond the two theme properties, and the i18n tables are left out.
- The interval's real time is not modelled. One `Tick`/`ElapseSecond` is one firing of the interval, and the clean-up and re-arming of the effect are not modelled separately.
- JSON is abstracted. The history log is stored as the sequence of records it encodes, so `JSON.stringify` dropping `undefined` fields is not modelled.
- A text value under the history key is read as an empty log. Any text the program did not write is therefore treated as JSON that fails to parse, including a text that happens to be a valid JSON array.
- Storage exceptions in the language and theme code are not modelled. Those calls are not inside `try`, so an exception would abort the effect.
- Strings are sequences of Unicode scalar values, not UTF-16 code units. An astral character in a prompt becomes one `_` here but two in the browser.
- `parseInt` is modelled only on strings of digits. Every string the core parses is a select option the program rendered.
- Whether the flows reject request keys their schemas do not declare (photo, language, user name) is not modelled. Only the declared fields are checked; `SmartSolve.UndeclaredKeys` says which keys lie outside.
- HomePage.HomePage.HandleSolve: runs to completion as one step. Interleavings at its `await` are not modelled. The solve button stays enabled while an explanation is pending, so a late explanation can land after a new solve has cleared it. The contract's "previous results cleared" holds only when no other handler is pending.
- HomePage.HomePage.HandleExplain: runs to completion as one step; its reply is not modelled as landing after a later solve.
- HomePage.HomePage.HandleListen: runs to completion as one step; its audio is not modelled as landing after a later solve.
- Every other asynchronous handler also runs as one step: starting a test, and generating an image. The source's loading flags disable only their own buttons.
- TestResult.Percentage: computed exactly, with ties rounded up, instead of in floating point. Rounding of `score / total * 100` in binary can differ from the exact value at ties.
- TestPage.TestPage.StartTest: requires that no test is running, since its button exists only in the setup view. The service call's language field is carried but not validated, because the schema does not declare it.
- TestPage.TestPage.AnswerChange: requires the interface view, since the radio group that calls it exists only there.
