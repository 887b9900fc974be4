# Quiz app core, modelled in Dafny

This project models the logic of the three page components of a React quiz
application that carry behaviour of their own:

- **The quiz-taking screen** (`src/pages/PublicQuiz.jsx`). An attempt is the
  class `PublicQuiz.QuizSession`. Its fields are:
  - the loaded quiz;
  - the current question index;
  - the sparse answer map from question index to chosen option;
  - the seconds left;
  - the completed flag.

  Its methods are the screen's handlers: load, select an answer,
  next/previous, the one-second tick, the timer's auto-submit branch and
  submit. The scoring `forEach` loop is the method `Scoring.ScoreAnswers`,
  proved against the specification function `Scoring.CountCorrect`.
  `formatTime` is the pure function `PublicQuiz.FormatTime`.
- **The result screen** (`src/pages/QuizResult.jsx`). It is all pure
  derivations:
  - the defaulted navigation state;
  - the rounded percentage;
  - the colour and message bands;
  - the per-question mark;
  - the per-option highlight and tags.
- **The authoring screen** (`src/pages/CreateQuiz.jsx`). The draft quiz and the
  question being composed are the class `CreateQuiz.QuizBuilder`. Its methods
  are `addQuestion`, `removeQuestion`, `handleOptionChange`, `handleSave`,
  `handlePreview` and the field setters. The checks and the
  `parseInt(...) || 0` coercion are pure functions.

Supporting modules:

- `QuizModel` holds the shared datatypes.
- `Decimal` holds digit strings, `Number.prototype.toString` and `padStart`.
- `Text` holds `String.prototype.trim` over the ECMAScript whitespace set, and
  `parseInt` for decimal text.

The fetch from the document store is a parameter of `QuizSession.Load`: a
quiz, or `None` for any failure. The save request is the value that
`QuizBuilder.Save` returns. Navigation to the result screen is the
`ResultState` record that `Submit` returns.

Three behaviours of the code deserve a note, because the code does not do
what its own user interface suggests:

- `handleSubmitQuiz` (src/pages/PublicQuiz.jsx:63-82) has no completed
  guard. Both the submit button and the timer call it, and a second call
  scores and navigates again. `PublicQuiz.SubmitTwice` shows that on unchanged
  answers both calls hand over the same record.
- The authoring form's placeholder "0 for no limit"
  (src/pages/CreateQuiz.jsx:194) and the countdown guard `quiz.timeLimit > 0`
  (src/pages/PublicQuiz.jsx:135) treat a limit of 0 as unlimited. Yet the
  timer effect auto-submits such a quiz as soon as it loads (see Findings).
- Neither screen bounds the limit. The time-limit input carries `min="0"`
  (src/pages/CreateQuiz.jsx:192), but that attribute only limits the spinner
  and the field's validity state. The value read at src/pages/CreateQuiz.jsx:191
  can still be negative, and the authoring screen saves a negative limit
  unchanged (`CreateQuiz.CoerceTimeLimitKeepsNegative`). The timer then never
  runs for such a quiz (`PublicQuiz.NegativeLimitNeverTimesOut`).

## Model

| member | source | states |
|---|---|---|
| Decimal.NatToString | src/pages/PublicQuiz.jsx:87 | `toString` of a whole number is a non-empty digit string, one character exactly below 10, with no leading zero |
| Decimal.ValueOfNatToString | src/pages/PublicQuiz.jsx:87 | the digits `toString` writes denote the number again |
| Decimal.NatToStringInjective | src/pages/PublicQuiz.jsx:87 | two different numbers never print the same |
| Decimal.PadStart | src/pages/PublicQuiz.jsx:87 | `padStart(width, fill)` has length max(len, width), ends with the original string and is `fill` before it |
| Decimal.TwoDigits | src/pages/PublicQuiz.jsx:87 | the padded field has at least two digits, exactly two below 100, no leading zero from 10 upwards, and denotes the number |
| Decimal.TwoDigitsIsPadStart | src/pages/PublicQuiz.jsx:87 | that field is exactly `n.toString().padStart(2, '0')` |
| Text.TrimStart | src/pages/CreateQuiz.jsx:28 | the result is a suffix, what was cut is all whitespace, and the result does not start with whitespace |
| Text.TrimEnd | src/pages/CreateQuiz.jsx:28 | the mirror image of TrimStart at the end of the string |
| Text.Trim | src/pages/CreateQuiz.jsx:28 | `trim()` is the middle slice of the string with all-whitespace parts cut at both ends, and it neither starts nor ends with whitespace |
| Text.IsBlank | src/pages/CreateQuiz.jsx:33 | `!s.trim()` holds when every character is whitespace; TrimEmptyIffBlank proves this is exactly when the trimmed string is empty |
| Text.TrimEmptyIffBlank | src/pages/CreateQuiz.jsx:28 | `s.trim()` is empty (falsy) if and only if every character of `s` is whitespace |
| Text.LeadingDigits | src/pages/CreateQuiz.jsx:91 | the digits `parseInt` reads are the longest all-digit prefix |
| Text.ParseInt | src/pages/CreateQuiz.jsx:91 | blank text is NaN, and a negative result comes only from a leading minus sign |
| Text.ParseIntOfDigits | src/pages/CreateQuiz.jsx:91 | a non-empty string of digits parses to the number it denotes |
| Text.ParseIntNatToString | src/pages/CreateQuiz.jsx:91 | `parseInt` reads back every decimal number that `toString` writes |
| Text.ParseIntWithoutDigits | src/pages/CreateQuiz.jsx:91 | text with no digit (the empty field included) parses to NaN |
| Scoring.AnsweredCorrectly | src/pages/PublicQuiz.jsx:68 | the strict-equality rule shared by the scorer and the review; a question with no recorded answer is never correct |
| Scoring.CorrectIndices | src/pages/PublicQuiz.jsx:66-71 | the reference set for the score: only answered question indices, in range, are in it; CountCorrectIsCardinality equates its size with the score |
| Scoring.CountCorrect | src/pages/PublicQuiz.jsx:66-71 | the score never exceeds the number of questions |
| Scoring.CountCorrectIsCardinality | src/pages/PublicQuiz.jsx:66-71 | the score is the number of indices `i` whose recorded answer is strictly equal to question `i`'s key |
| Scoring.FullScoreIffAllCorrect | src/pages/PublicQuiz.jsx:66-71 | full marks exactly when every question is answered correctly |
| Scoring.UnansweredScoresZero | src/pages/PublicQuiz.jsx:66-71 | questions without a recorded answer count as wrong, so an empty answer map scores 0 |
| Scoring.ScoreDependsOnlyOnQuestionIndices | src/pages/PublicQuiz.jsx:66-71 | entries of the answer map under no question index do not affect the score |
| Scoring.AnswerChangesScoreByOne | src/pages/PublicQuiz.jsx:44-71 | recording the key for a wrongly answered question raises the score by exactly one; replacing a correct answer with a wrong one lowers it by one |
| Scoring.ScoreAnswers | src/pages/PublicQuiz.jsx:66-71 | the `forEach` counting loop computes CountCorrect, so `0 <= score <= total` |
| PublicQuiz.TimerStepAsWritten | src/pages/PublicQuiz.jsx:32-42 | the effect arms a tick exactly when time is left on a loaded, open attempt; it auto-submits exactly at 0 seconds; otherwise it does nothing |
| PublicQuiz.ZeroLimitSubmitsOnLoad | src/pages/PublicQuiz.jsx:18-41 | a published quiz with limit 0 is auto-submitted as soon as it loads, scoring 0 |
| PublicQuiz.NegativeLimitNeverTimesOut | src/pages/PublicQuiz.jsx:20-41 | a negative limit starts below zero, so the timer neither ticks nor submits |
| PublicQuiz.TimerStepIntended | src/pages/PublicQuiz.jsx:135 | with "0 means no limit" honoured, a quiz without a positive limit is never ticked or auto-submitted |
| PublicQuiz.TimerStepIntendedAgrees | src/pages/PublicQuiz.jsx:32-42 | the intended decision equals the written one at every time left for a positive limit, and at the start for a negative limit (both idle); at limit 0 on a loaded, open attempt the written effect auto-submits while the intended one is idle |
| PublicQuiz.FormatTime | src/pages/PublicQuiz.jsx:84-88 | the clock is at least five characters long, with the colon third from the end |
| PublicQuiz.FormatTimeRoundTrip | src/pages/PublicQuiz.jsx:84-88 | both sides of the colon are digits, the seconds read below 60, and minutes*60 + seconds gives back the input; a minutes part longer than two digits has no leading zero |
| PublicQuiz.FormatTimeWidth | src/pages/PublicQuiz.jsx:84-88 | below 100 minutes the clock is exactly `MM:SS` |
| PublicQuiz.QuizSession.Valid | src/pages/PublicQuiz.jsx:51-61 | the invariant every handler keeps: the question index is never negative, stays 0 before a quiz is loaded, and is within range for a quiz with questions |
| PublicQuiz.QuizSession.constructor | src/pages/PublicQuiz.jsx:8-13 | the initial state: loading, no quiz, index 0, no answers, 0 seconds, not completed |
| PublicQuiz.QuizSession.Load | src/pages/PublicQuiz.jsx:15-25 | the fetched quiz is taken if and only if it exists and is published, with `timeLimit * 60` seconds left; loading always ends |
| PublicQuiz.QuizSession.SelectAnswer | src/pages/PublicQuiz.jsx:44-49 | records the option for the question and overwrites any earlier choice; every other entry is unchanged |
| PublicQuiz.QuizSession.NextQuestion | src/pages/PublicQuiz.jsx:51-55 | moves forward only below the last question, otherwise does nothing; the index stays in range |
| PublicQuiz.QuizSession.PreviousQuestion | src/pages/PublicQuiz.jsx:57-61 | moves back only above 0, otherwise does nothing; the index stays in range |
| PublicQuiz.QuizSession.Tick | src/pages/PublicQuiz.jsx:33-37 | a pending tick removes exactly one second; with no time left, no quiz or a completed attempt nothing changes |
| PublicQuiz.QuizSession.Submit | src/pages/PublicQuiz.jsx:63-82 | completes the attempt and hands over the score, the question count, the answers and the title |
| PublicQuiz.QuizSession.TimerEffect | src/pages/PublicQuiz.jsx:38-41 | submits exactly when the time is 0 on a loaded, open attempt; once completed it never submits |
| PublicQuiz.OpenQuiz | src/pages/PublicQuiz.jsx:15-42 | after the fetch and the first effect run, the session holds the fetched quiz exactly when it is published, with `timeLimit * 60` seconds, no answers and index 0; it is completed exactly when that quiz has limit 0, and then the result handed over has score 0 and no answers |
| PublicQuiz.SubmitTwice | src/pages/PublicQuiz.jsx:63-82 | a repeated submit on the same answers hands over the same result |
| PublicQuiz.RunOutClock | src/pages/PublicQuiz.jsx:32-42 | left alone, an open attempt with `t` seconds left is submitted by the timer after exactly `t` ticks, with the answers recorded so far; only the time left and the completed flag change |
| QuizResult.ResolveState | src/pages/QuizResult.jsx:12 | the navigation state is used as given; when it is missing, the defaults are 0 of 0, no answers and an empty title |
| QuizResult.Percentage | src/pages/QuizResult.jsx:26 | 0 without questions; otherwise the integer nearest to 100*score/total, with halves rounded up |
| QuizResult.PercentageBounds | src/pages/QuizResult.jsx:26 | a score between 0 and the total gives a percentage between 0 and 100 |
| QuizResult.PercentageMonotone | src/pages/QuizResult.jsx:26 | for a fixed total, a higher score never shows a lower percentage |
| QuizResult.PercentageExtremes | src/pages/QuizResult.jsx:26 | full marks show 100, no correct answers show 0, and 0 of 0 shows 0 |
| QuizResult.TwoOfThreeIsSixtySeven | src/pages/QuizResult.jsx:26 | 2 of 3 shows 67 |
| QuizResult.MissingStateShowsZero | src/pages/QuizResult.jsx:12-26 | missing navigation state shows 0% |
| QuizResult.SubmittedPercentageInRange | src/pages/QuizResult.jsx:26 | any score the taking screen hands over shows between 0% and 100% |
| QuizResult.ScoreColor | src/pages/QuizResult.jsx:28-32 | green if and only if at least 80, yellow if and only if 60 to 79, red if and only if below 60 |
| QuizResult.ScoreMessage | src/pages/QuizResult.jsx:34-38 | the three messages, each if and only if the same band holds |
| QuizResult.MessageAgreesWithColor | src/pages/QuizResult.jsx:28-38 | the message band always matches the colour band |
| QuizResult.ColorMonotone | src/pages/QuizResult.jsx:28-32 | a higher percentage never gets a worse colour |
| QuizResult.UserAnswer | src/pages/QuizResult.jsx:91 | the choice is present if and only if the map records one, and it is that entry |
| QuizResult.IsCorrect | src/pages/QuizResult.jsx:91-92 | the review's mark: the user's answer for the question, if any, is the key; it is the scorer's rule |
| QuizResult.OptionHighlight | src/pages/QuizResult.jsx:108-116 | each option gets exactly one highlight: green if and only if it is the key, red if and only if it is the user's wrong choice, grey otherwise |
| QuizResult.CorrectTag | src/pages/QuizResult.jsx:123-125 | "(Correct Answer)" on an option excludes "(Your Answer)" on it, whatever the user chose |
| QuizResult.YourAnswerTag | src/pages/QuizResult.jsx:126-128 | "(Your Answer)" appears only on the user's choice, and never on the key |
| QuizResult.TagsFollowHighlight | src/pages/QuizResult.jsx:123-128 | "(Correct Answer)" appears exactly on the green option, "(Your Answer)" exactly on the red option |
| QuizResult.AtMostOneWrongChoice | src/pages/QuizResult.jsx:107-116 | at most one option is red, and a red option is shown if and only if the question was answered wrongly with one of its options |
| QuizResult.Row | src/pages/QuizResult.jsx:90-116 | each review row has one highlight per option |
| QuizResult.ReviewRows | src/pages/QuizResult.jsx:90-92 | one review row per question, in order, marked by the scorer's rule |
| QuizResult.CountMarked | src/pages/QuizResult.jsx:90-100 | the number of rows marked correct never exceeds the number of rows |
| QuizResult.MarkedRowsEqualScore | src/pages/QuizResult.jsx:90-92 | for the same quiz and answers, the review marks exactly as many questions correct as the taking screen scored |
| CreateQuiz.DraftError | src/pages/CreateQuiz.jsx:28-36 | a draft is accepted if and only if its text and every option are non-blank; blank text is reported first, then a blank option |
| CreateQuiz.AnyBlank | src/pages/CreateQuiz.jsx:33 | some option is blank exactly when the filter of `addQuestion` would drop one |
| CreateQuiz.KeepNonBlank | src/pages/CreateQuiz.jsx:40 | the filter keeps every non-blank option as many times as it occurs, and nothing else |
| CreateQuiz.BlankIffDropped | src/pages/CreateQuiz.jsx:33-40 | the filter shortens the options if and only if one of them is blank |
| CreateQuiz.KeepNonBlankKeepsAll | src/pages/CreateQuiz.jsx:38-41 | when no option is blank, the filter keeps all of them in order |
| CreateQuiz.SaveError | src/pages/CreateQuiz.jsx:76-84 | saving passes if and only if the title is non-blank and there is a question; the title is checked first |
| CreateQuiz.CoerceTimeLimit | src/pages/CreateQuiz.jsx:91 | whenever `parseInt` gives a number the saved limit is that number, and it is 0 when parsing gives NaN |
| CreateQuiz.CoerceTimeLimitWithoutDigits | src/pages/CreateQuiz.jsx:91 | an empty or non-numeric field is saved as 0 |
| CreateQuiz.CoerceTimeLimitOfNumber | src/pages/CreateQuiz.jsx:91 | a field holding a number's decimal form is saved as that number |
| CreateQuiz.CoerceTimeLimitKeepsNegative | src/pages/CreateQuiz.jsx:91 | a typed negative number is saved unchanged, with no clamping at 0 |
| CreateQuiz.EmptyLimitFieldSubmitsOnLoad | src/pages/CreateQuiz.jsx:91 | a quiz published with an empty time-limit field is auto-submitted by the taking screen as soon as it loads |
| CreateQuiz.SpliceStart | src/pages/CreateQuiz.jsx:59 | `splice`'s start: the index itself when in range, counted from the end when negative, clamped to `[0, length]` |
| CreateQuiz.SpliceOne | src/pages/CreateQuiz.jsx:57-64 | removes exactly the element at the start and keeps the others in order; nothing is removed when the start is at the end |
| CreateQuiz.SpliceOneRemovesOne | src/pages/CreateQuiz.jsx:57-64 | at a valid index the result is the list without that element, as a multiset too |
| CreateQuiz.QuizBuilder.Valid | src/pages/CreateQuiz.jsx:18-22 | the question being composed always has four option slots; the constructor establishes it, ChangeOption relies on it for the indices 0 to 3 and keeps it, and AddQuestion keeps it |
| CreateQuiz.QuizBuilder.constructor | src/pages/CreateQuiz.jsx:11-25 | the initial state: empty quiz fields, a draft with four empty options and key 0, no error, not loading |
| CreateQuiz.QuizBuilder.SetTitle | src/pages/CreateQuiz.jsx:157 | the title field takes the typed value |
| CreateQuiz.QuizBuilder.SetDescription | src/pages/CreateQuiz.jsx:174 | the description field takes the typed value |
| CreateQuiz.QuizBuilder.SetTimeLimitText | src/pages/CreateQuiz.jsx:191 | the raw time-limit text is kept as typed |
| CreateQuiz.QuizBuilder.SetDraftText | src/pages/CreateQuiz.jsx:215 | the draft question text takes the typed value |
| CreateQuiz.QuizBuilder.SelectCorrectOption | src/pages/CreateQuiz.jsx:243 | the chosen radio becomes the draft's key |
| CreateQuiz.QuizBuilder.ChangeOption | src/pages/CreateQuiz.jsx:66-73 | on a draft with its four slots, replaces exactly one option; the option count and all other options are unchanged |
| CreateQuiz.QuizBuilder.AddQuestion | src/pages/CreateQuiz.jsx:27-55 | a rejected draft sets its message and changes nothing else; an accepted draft is appended at the end with all its options, the draft resets, and the message clears |
| CreateQuiz.QuizBuilder.RemoveQuestion | src/pages/CreateQuiz.jsx:57-64 | the list becomes its `splice(index, 1)` copy: one element fewer at a valid index, unchanged at or past the end |
| CreateQuiz.QuizBuilder.Save | src/pages/CreateQuiz.jsx:75-93 | a failed check sets its message and sends nothing; otherwise loading starts, the message clears, and the quiz is sent with the coerced limit and the requested status |
| CreateQuiz.QuizBuilder.SaveFailed | src/pages/CreateQuiz.jsx:95-100 | a refused save shows the store's message and stops loading |
| CreateQuiz.QuizBuilder.Preview | src/pages/CreateQuiz.jsx:103-117 | the same checks as saving; on success it reports the question count and leaves the message unchanged |

## Left out

- Reading and writing quizzes in the document store (`src/services/quiz.service.js`) is left out:
  - the fetch is the `Option<Quiz>` parameter of `QuizSession.Load`;
  - the save is the payload that `QuizBuilder.Save` returns;
  - the store's answer to a save is the `SaveFailed` call, or nothing on success.
- `setTimeout`/`clearTimeout` and React's effect scheduling are left out:
  - the armed timer firing is the `Tick` method;
  - the effect's auto-submit branch is `TimerEffect`;
  - `setQuiz` and `setTimeLeft` in the fetch continuation are assumed to commit together (React 18 batching), so no render sees the quiz with the old `timeLeft`.
- `navigate` and `alert` are left out. Navigation to the result screen is the returned `ResultState`. The "not found" alert and the redirect home, the dashboard redirect after a successful save, and the preview alert are not modelled as effects.
- Re-fetching when the route's quiz id changes is left out. `QuizSession.Load` requires that no quiz is loaded yet.
- QuizSession.SelectAnswer, NextQuestion and PreviousQuestion: these do not model that the rendered screen hides the handlers once the attempt is completed. As in the code, the handlers themselves have no guard.
- QuizResult.Percentage: does not model binary floating point. `Math.round((score / total) * 100)` is taken as exact rounding of the rational 100*score/total, with halves rounded up. The two can differ: for 29 of 200, `(29 / 200) * 100` is 14.499999999999998 in doubles, so the screen shows 14 where the model gives 15.
- Decimal.NatToString: does not model the exponent notation `toString` switches to from 1e21 upwards (`"1e+21"`). A limit that large is outside this model.
- Text.ParseInt: does not model `parseInt`'s `0x` hexadecimal prefix or its handling of numbers too large for a double. Decimal text only.
- CreateQuiz.QuizBuilder.ChangeOption: requires an index inside the option list. The screen only passes 0 to 3. JavaScript would grow the array for a larger index.
- The result screen's own fetch of the quiz is left out. The review rows are computed from the questions passed in. The title fallback `quiz?.title || quizTitle` and the loading spinner are left out.
- A partially filled navigation state is left out: a state object missing only some keys, which JavaScript defaults one by one. ResolveState covers a present or an absent state.
- The analytics page is left out because it displays random figures. Markup, routing, authentication, layout and build configuration are left out because they hold no logic to model.

## Findings

| source | as written | input that shows it | evidently intended | confidence | as-written member | corrected member |
|---|---|---|---|---|---|---|
| src/pages/PublicQuiz.jsx:20 | `timeLeft` starts at `timeLimit * 60`, and the timer effect (lines 38-41) submits whenever it is exactly 0 on a loaded, open attempt | a published quiz saved with time limit 0 ("0 for no limit", src/pages/CreateQuiz.jsx:194, also the value stored for an empty field): the first effect run after loading submits it, unanswered, with score 0 | limit 0 means no time limit: the countdown is hidden (src/pages/PublicQuiz.jsx:135) and the quiz is never auto-submitted | high (not executed) | PublicQuiz.ZeroLimitSubmitsOnLoad | PublicQuiz.TimerStepIntended |
