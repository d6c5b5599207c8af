# SAP interview system: a Dafny model of its interview pipeline

The system runs structured job interviews. An interviewer sets up a position with a job title, a description and a candidate's resume. A text-generation service proposes questions in four categories: technical, scenario, behavioral and problem solving. The candidate answers them one at a time on a Streamlit page. The same service grades each answer and finally writes a narrative report. The system merges that narrative with scores it computes itself and stores everything in PostgreSQL.

This project models the deterministic logic around the service calls and proves properties of it:

- **Question planning** (`question_planner.dfy`). The new engine splits the number of questions into per-category quotas. It then normalises the generator's reply so that all four category keys are present.
- **Answer scoring** (`answer_scorer.dfy`). `evaluate_answer` fills in missing fields, converts each numeric field, clamps it to 0..10 and rounds it to one decimal. On any failure it falls back to a fixed evaluation.
- **Report assembly** (`report_builder.dfy`). `generate_final_report` computes the completion rate, the category means and the weighted overall score. It merges these figures over the narrative, or falls back.
- **The older engine** (`legacy_engine.dfy`): its quota split, question pick, criteria weights, completion percentage and per-module prompt choice.
- **Persistence row mapping** (`persistence.dfy`): what is written when questions, answers and the report are saved, and how the joined rows are read back. This includes the report's duration text and its score columns.
- **The interview page** (`interview_session.dfy`).
  - A `Session` class holds the questions in display order, the stored answer rows and the saved report. Its methods are submit, skip and complete.
  - A `Navigator` class holds the page's state flags: which view is shown, and the buttons that change it.
  - The module also models the setup form and the flattening of the generated questions.
- **Report display** (`report_display.dfy`): the star rating, the percentage and the running interview time.
- **Support modules.**
  - `json_values.dfy`: JSON-shaped values, Python's truthiness, `float()` and `str()` of integers.
  - `rounding.dfy`: clamping and Python's round-half-even `round`.
  - `categories.dfy`: the four categories, their case-insensitive lookup and their weights.
  - `wrappers.dfy`: an `Option` type.

Service replies, database outcomes, elapsed times and `json.loads` results are parameters of the model. The text service is modelled as a reply that is either a failure or the items of a JSON object whose values may be any JSON value. A database write is modelled as a success flag, or as the row it would insert. Scores are exact reals.

Points where the code's behaviour is easy to misread, each stated against the code itself:

- **Skipped answers are averaged in.** A skip is stored like an answer, with score 0, so it enters its category's mean (`ReportBuilder.SkipIsAveragedIn`, `InterviewSession.SkipRow`).
- **Recommendations are not gated by completion rate.** The 70 % and 50 % thresholds and the "fewer than two answers" rule appear only in prompt text. No code applies them.
- **The fallback report zeroes everything.** It sets all five scores to 0 and the completion rate to 0, rather than keeping the locally computed scores (`ReportBuilder.FallbackZeroes`).
- **Questions are ordered by the reply, not by category.** They take the key order of the generator's reply, and keys it lacked are appended after it. They are not placed in the fixed category sequence (`InterviewSession.Flatten`, `QuestionPlanner.AddMissing`).
- **The weighted overall is renormalised over the present categories.** With technical 8, behavioral 6, problem solving 4 and no scenario answers, the weighted sum is 4.7 and the present weights total 0.7, so the code reports 6.7 rather than the unnormalised 4.7 (`ReportBuilder.OverallExample`).
- **Questions can be answered twice.** Because the page only ever acts on the current question, a second answer is never given. Nothing rejects one, though.

## Model

| member | source | states |
|---|---|---|
| Json.ToFloat | interview_engine_new.py:228 | `float()` of a number is that number; it overflows exactly on an integer too large for a float; it is invalid on None, lists and dictionaries |
| Json.AsNumber | interview_engine_new.py:317 | a number adds as itself to `sum`; None, strings, lists and dictionaries make `sum` raise, and an over-large integer is treated as making `sum` or the division after it raise |
| Json.ParseDecimalOfNat | interview_engine_new.py:228 | `float(str(n))` is `n`: the decimal reader inverts the `str()` writer |
| Rounding.Clamp | interview_engine_new.py:229 | the clamped value lies in 0..10; it equals the input inside the range, 0 below it and 10 above it |
| Rounding.RoundHalfEven | interview_ui.py:834 | `round(x)` is within a half of `x`, and at an exact half it is the even neighbour |
| Rounding.RoundHalfEvenUnique | interview_ui.py:834 | those two properties determine `round(x)`: any integer satisfying them is the result |
| Rounding.Round1 | interview_engine_new.py:230 | `round(x, 1)` is a multiple of a tenth within a twentieth of `x` |
| Rounding.Round1InRange | interview_engine_new.py:230 | rounding to tenths keeps a value on the 0..10 scale |
| Rounding.Round1OfTenths | interview_engine_new.py:230 | rounding is the identity on values that already are tenths |
| Rounding.ClampRound | interview_engine_new.py:229-230 | clamp then round: on the scale, a tenth, within a twentieth of the clamped value |
| Categories.FromName | interview_engine_new.py:300 | a name maps to the category bearing exactly that name, and to none when no category has it |
| Categories.OfType | interview_engine_new.py:285-301 | a question type is filed under the category whose name equals its lower-cased form, and under none otherwise |
| Categories.OfTypeIgnoresCase | interview_engine_new.py:285 | a type and its upper-cased spelling are filed alike |
| Categories.OfTypeOfName | interview_engine_new.py:285-301 | every category is found under its own name in either case |
| Categories.Weight | interview_engine_new.py:322-327 | every category weight is positive |
| Categories.WeightsSumToOne | interview_engine_new.py:322-327 | the four weights 0.4, 0.3, 0.15 and 0.15 add up to 1 |
| QuestionPlanner.TruncatedShare | interview_engine_new.py:48-50 | `int(n * share)` is the share truncated toward zero, bounded on both sides for either sign of `n` |
| QuestionPlanner.PlanQuotas | interview_engine_new.py:48-51 | the four quotas sum to exactly `n`; for `n >= 0` the first three are floor(4n/10), floor(3n/10) and floor(2n/10) |
| QuestionPlanner.QuotasNonNegative | interview_engine_new.py:48-51 | for `n >= 0` no quota is negative, and problem solving gets between n/10 and n/10 + 3 |
| QuestionPlanner.TwentyQuestions | interview_engine_new.py:48-51 | the default twenty questions split as 8, 6, 4 and 2 |
| QuestionPlanner.AddIfMissing | interview_engine_new.py:116-118 | the category becomes a key; an entry is appended, as an empty list, only when the key was missing |
| QuestionPlanner.AddMissing | interview_engine_new.py:115-118 | the reply's own entries stay first and unchanged, and at most one entry per category is added |
| QuestionPlanner.AddMissingHasAll | interview_engine_new.py:115-118 | after normalisation every category is a key |
| QuestionPlanner.AddMissingAdded | interview_engine_new.py:115-118 | every appended entry is an empty list under the name of a category the reply lacked |
| QuestionPlanner.AddIfMissingDistinct | interview_engine_new.py:117-118 | adding a missing category never duplicates a key |
| QuestionPlanner.AddMissingDistinct | interview_engine_new.py:115-118 | normalisation keeps the keys distinct |
| QuestionPlanner.NormalizeQuestions | interview_engine_new.py:111-134 | a failed call, or a category value without a length (null, boolean, number) on which the logged `len` raises, gives four empty lists. Otherwise a parsed reply keeps its entries and gets its missing categories added as empty lists. Either way all four keys are present, each with a value that has a length, and list lengths are not compared with the quotas. The result is `QuestionPlanner.Plan` of the reply |
| QuestionPlanner.PlanShape | interview_engine_new.py:111-134 | the plan is the fallback for a failed call or a raising `len`, the reply with its missing categories otherwise; either way all four keys are present with a value that has a length |
| QuestionPlanner.AddMissingKeys | interview_engine_new.py:115-118 | the loop appends an empty list under each category the reply lacks, in category order, giving `AddMissing` of the reply |
| QuestionPlanner.LengthsDefined | interview_engine_new.py:121 | the logged total of the four `len`s is computed exactly when every category holds a string, list or object |
| QuestionPlanner.EmptyPlanShape | interview_engine_new.py:128-134 | the fallback plan has the four category keys, each with an empty list |
| AnswerScorer.Fallback | interview_engine_new.py:237-249 | the failure evaluation has all five scores 5.0 and is well formed |
| AnswerScorer.FieldScore | interview_engine_new.py:216-232 | a field's final score is on the scale and a tenth; it is 5.0 when missing or not convertible, within a twentieth of the clamped number otherwise, and unchanged when already a tenth on the scale |
| AnswerScorer.FilledSpec | interview_engine_new.py:215-222 | the first loop adds exactly the missing required fields with their defaults and keeps every present value |
| AnswerScorer.ScoredSpec | interview_engine_new.py:225-232 | the second loop fails exactly when a field holds an over-large integer; otherwise it replaces each numeric field by its normalised score and changes nothing else |
| AnswerScorer.ScoreFieldsRequired | interview_engine_new.py:211-226 | the five numeric fields are among the required ones and default to 5 |
| AnswerScorer.FilledThenScored | interview_engine_new.py:215-232 | for any required and numeric field lists, the two loops together give the keys, scores, defaults and pass-through values described above |
| AnswerScorer.ScoredLinks | interview_engine_new.py:210-232 | the same, for the engine's own field lists |
| AnswerScorer.EvaluateAnswer | interview_engine_new.py:208-249 | the evaluation is always well formed. A failed call, or an over-large integer whose OverflowError the inner handler does not catch, gives the fallback. Otherwise the result has the normalised scores, strengths, weaknesses and feedback defaulted only when absent, and every other key as sent |
| ReportBuilder.CountAnswered | interview_engine_new.py:271 | the count of results whose answer is not None is at most the total; it equals the total iff all have one, and is 0 iff none has |
| ReportBuilder.CompletionRateRange | interview_engine_new.py:270-272 | the completion rate lies in 0..1; it is 1 iff every result has an answer (for a non-empty list) and 0 iff none has |
| ReportBuilder.CategoryScores | interview_engine_new.py:283-301 | a category collects no more scores than there are results |
| ReportBuilder.CategoryScoresFrom | interview_engine_new.py:283-301 | every collected score is the `score` (default 0) of a truthy answer whose lower-cased type names that category |
| ReportBuilder.CategoryScoresHas | interview_engine_new.py:296-301 | conversely, the score of every such answer is collected |
| ReportBuilder.Numbers | interview_engine_new.py:317 | the scores can be summed exactly when each converts to a number, and then they sum as those numbers |
| ReportBuilder.MeanBounds | interview_engine_new.py:315-319 | a category mean lies between the smallest and largest of its scores |
| ReportBuilder.ZeroLowersMean | interview_engine_new.py:315-317 | one more zero turns the mean into sum / (n + 1), never above the old mean |
| ReportBuilder.SkipIsAveragedIn | interview_engine_new.py:288-301 | a stored skip, score 0, adds a zero to its category's scores |
| ReportBuilder.OverallBounds | interview_engine_new.py:329-339 | when some category has scores, the overall score is their weighted mean: it lies between the smallest and the largest mean of those categories |
| ReportBuilder.OverallWithoutScores | interview_engine_new.py:338-341 | when no category has scores, the overall score is 0 |
| ReportBuilder.OverallIgnoresAbsent | interview_engine_new.py:332-336 | the mean of a category without scores takes no part in the overall score |
| ReportBuilder.OverallExample | interview_engine_new.py:322-349 | technical 8, behavioral 6 and problem solving 4 with no scenario answers give 4.7 / 0.7, reported as 6.7 |
| ReportBuilder.ScoresObject | interview_engine_new.py:348-354 | the `scores` dictionary has exactly the keys overall, technical, scenario, behavioral and problem_solving |
| ReportBuilder.AsObject | interview_engine_new.py:437-438 | the returned dictionary carries the local scores and completion rate over whatever the narrative had under those keys, and every other narrative key unchanged |
| ReportBuilder.FallbackNarrative | interview_engine_new.py:470-490 | the failure narrative recommends "Unable to determine" |
| ReportBuilder.CategoryOnScale | interview_engine_new.py:313-319 | with scores on the scale, every category can be summed and its mean is on the scale |
| ReportBuilder.ReportOnScale | interview_engine_new.py:329-354 | with scores on the scale and a parsed narrative, all five reported scores are on the scale and tenths, the rate is the true completion rate, and the narrative's other keys are kept |
| ReportBuilder.FallbackZeroes | interview_engine_new.py:443-493 | an unsummable score or a failed narrative call gives all five scores 0, completion rate 0 and "Unable to determine" |
| ReportBuilder.NonNumericScoreFallsBack | interview_engine_new.py:315-317 | a non-numeric score in a category makes the whole report fall back even though the narrative would have answered |
| ReportBuilder.CollectScores | interview_engine_new.py:270-311 | the counting and collecting loop yields the answered count and each category's scores |
| ReportBuilder.AverageScores | interview_engine_new.py:313-319 | the loop succeeds iff every category's scores can be summed, and then yields each category's mean and whether it has any scores |
| ReportBuilder.WeightedOverall | interview_engine_new.py:329-341 | the weighting loop computes the weighted mean over the categories with scores, or 0 |
| ReportBuilder.GenerateFinalReport | interview_engine_new.py:268-441 | the method's report is the one the report specification defines, whose properties are the lemmas above |
| LegacyEngine.TruncDiv | interview_engine.py:52-54 | `int(x / d)` truncates toward zero for both signs |
| LegacyEngine.LegacyQuotas | interview_engine.py:52-55 | the old engine's four quotas sum to `n` |
| LegacyEngine.SameQuotasAsNewEngine | interview_engine.py:52-55 | the two engines split every number of questions alike |
| LegacyEngine.PickQuestion | interview_engine.py:177-184 | the question picked is "" for an absent or empty type, the numbered question within range, the last one beyond it, and one counted from the end for a negative number, each raising when the question picked has no text; an index before the start raises |
| LegacyEngine.PickWithinList | interview_engine.py:181-184 | for a non-negative number the pick never raises and is a question of the chosen type |
| LegacyEngine.CriteriaWeights | interview_engine.py:190-218 | every type's criteria row has four entries summing to 100 |
| LegacyEngine.UnknownTypeWeighedAsTechnical | interview_engine.py:218 | a type outside the four gets the technical row |
| LegacyEngine.CompletionPercentage | interview_engine.py:306-316 | the percentage is never negative |
| LegacyEngine.CompletionPercentageBounded | interview_engine.py:310-311 | with a positive total bounding the answers, it is at most 100, and 100 iff everything was answered |
| LegacyEngine.CompletionPercentageCanExceed | interview_engine.py:313-316 | without a usable total, twelve answers count as 120 % |
| LegacyEngine.Select | interview_engine.py:73-74 | the specific text is chosen iff the upper-cased module name is a key, and the generic text quotes the name as given |
| LegacyEngine.SelectIgnoresCase | interview_engine.py:73-74 | the lookup ignores the case of the module name |
| LegacyEngine.BwHintWithoutGuide | interview_engine.py:319-333 | BW has a specific question hint but only the generic evaluation guide; every module with a guide has a hint |
| Persistence.SaveQuestions | database_methods.py:62-92 | an empty list is refused with nothing written; otherwise question i is written with its text, its type (default "technical") and display order i + 1, in increasing order |
| Persistence.SaveAnswer | database_methods.py:147-202 | a row is written iff the evaluation is a dictionary; missing numeric fields are written as 0, the lists as given or empty, the skip flag false by default |
| Persistence.StoredListsReadBackEmpty | database_methods.py:248-261 | as written, every non-empty stored strengths or weaknesses list reads back as the empty list |
| Persistence.ReadList | database.py:33-41 | read as intended, following the helper's type test: a decoded cell is used as it is and only text is parsed; an empty cell gives [] |
| Persistence.ReadListRoundTrip | database.py:33-41 | read as intended, a stored list comes back unchanged |
| Persistence.EvaluationOf | database_methods.py:272-281 | the rebuilt evaluation has exactly the five numeric fields, strengths, weaknesses and feedback, with the lists read as intended |
| Persistence.ReadRow | database_methods.py:264-293 | a row yields an answer record iff its answer text is truthy; its skip flag is false without the skip column; the question fields are copied; the lists are read as intended |
| Persistence.GetInterviewAnswers | database_methods.py:245-296 | one record per row, in row order, with the lists read as intended |
| Persistence.StoredReportReadsBackNone | database_methods.py:425-429 | as written, a stored report is never read back: `report_data` is always None |
| Persistence.ReadReport | database.py:33-41 | read as intended: an empty cell gives None, a decoded cell is used as it is |
| Persistence.ReadReportRoundTrip | database.py:33-41 | read as intended, a stored non-empty report comes back unchanged |
| Persistence.SaveThenRead | database_methods.py:147-293 | an answer written and read back (with lists read as intended) has its text, numeric fields (or 0), lists and skip flag as given |
| Persistence.SplitSpec | database_methods.py:330-331 | `divmod` splits the seconds into hours, minutes below 60 and seconds below 60 that recombine to the total |
| Persistence.Count | database_methods.py:334-336 | a count shows its number and unit, and the unit is plural unless the count is exactly 1 |
| Persistence.DurationText | database_methods.py:325-342 | the duration is "Unknown" without a start time, hours and minutes from an hour on, minutes and seconds below |
| Persistence.DurationOfAnHour | database_methods.py:333-334 | 3601 seconds read "1 hour 0 minutes": the seconds are dropped |
| Persistence.DurationOfAMinute | database_methods.py:336 | 61 seconds read "1 minute 1 second" |
| Persistence.CompleteInterview | database_methods.py:312-371 | the report gains its duration. The columns come from `scores` (communication from behavioral, 0 when missing) and the recommendation defaults to "No recommendation". The call fails iff `scores` is not a dictionary |
| InterviewSession.AnsweredCount | interview_ui.py:402 | the answered count is at most the total; it equals the total iff all questions are answered, and is 0 iff none is |
| InterviewSession.ProgressRange | interview_ui.py:401-403 | progress lies in 0..1; it is 1 iff all are answered (with questions present) and 0 iff none is |
| InterviewSession.FirstUnanswered | interview_ui.py:410-414 | the question shown is unanswered and every earlier one is answered; there is none iff all are answered |
| InterviewSession.AnswerAdvances | interview_ui.py:572-589 | storing an answer to the question shown answers exactly it: the count grows by one and the next question shown comes later |
| InterviewSession.SubmittedRow | interview_ui.py:572-581 | a submitted answer is stored with its text, its evaluation's score (on the scale) and the skip flag false |
| InterviewSession.SkipRow | interview_ui.py:601-617 | a skip is stored with a truthy text, all five numeric fields 0, response time 0 and the skip flag set, so it counts as answered |
| InterviewSession.AnsweredItems | interview_ui.py:669-678 | only answered questions are handed to the report builder, as many as the answered count |
| InterviewSession.ItemsOnScale | interview_ui.py:669-678 | with stored scores on the scale, every result handed over has its score on the scale |
| InterviewSession.EngineRateIsOne | interview_ui.py:680-691 | the builder's own completion rate over the handed-over results is always 1 (or 0), so the page's override is what carries information |
| InterviewSession.SavedReport | interview_ui.py:690-697 | the saved report has the page's completion rate, the builder's scores, the duration, and every other narrative key |
| InterviewSession.StoreKeepsReport | interview_ui.py:690-697 | the store accepts the page's report and keeps exactly the saved report, with the page's rate in its column |
| InterviewSession.SavedReportOnScale | interview_ui.py:664-697 | with a narrative reply, the saved report's five scores are on the scale and its completion rate is the true progress, in 0..1 |
| InterviewSession.SaveFinalReport | interview_ui.py:683-697 | generate, override the rate, store: the result is the saved report of the built report |
| InterviewSession.GatherResults | interview_ui.py:669-677 | the gathering loop yields exactly the answered results in display order |
| InterviewSession.GenerateAndSave | interview_ui.py:664-697 | gather, rate, generate and save give the interview's final report |
| InterviewSession.Session.constructor | interview_ui.py:317-328 | a new interview has its saved questions, no answers and no report |
| InterviewSession.Session.ShowProgress | interview_ui.py:400-403 | the counting loop gives the answered count and the progress |
| InterviewSession.Session.CurrentQuestion | interview_ui.py:409-414 | the scan gives the first unanswered question |
| InterviewSession.EvaluateAndRow | interview_ui.py:562-580 | a submitted answer's evaluation is well formed, and the row stored for it exists and has its score on the scale |
| InterviewSession.Session.SubmitAnswer | interview_ui.py:549-589 | a blank answer is refused and nothing changes. Otherwise the question shown, and no other, gets its answer row when the insert succeeds. The evaluation is well formed and the invariant is kept |
| InterviewSession.Session.Skip | interview_ui.py:595-625 | the question shown, and no other, gets the skip row when the insert succeeds; nothing else changes |
| InterviewSession.Session.Complete | interview_ui.py:640-707 | with the report cell read as intended: a completed interview with a report shows it again unchanged. Otherwise the final report is built and, when saved, stored with the interview marked completed, and the report read back is shown. Questions and answers never change |
| InterviewSession.Session.CompleteAsWritten | interview_ui.py:640-711 | as written, the reuse branch is never taken: every visit builds and saves the report again, and after a save the display fails, so the report is never shown. Questions and answers never change |
| InterviewSession.ReportPresentIffStored | interview_ui.py:659 | read as intended, the report check holds exactly when a non-empty report was stored |
| InterviewSession.ReportNeverPresent | interview_ui.py:659 | as written, the report check never holds |
| InterviewSession.Display | interview_ui.py:720-724 | the report is shown exactly when the report read back is a dictionary; otherwise `.get` raises and the error is shown |
| InterviewSession.FinalReportNotEmpty | interview_ui.py:689-692 | a saved report is never empty, since it carries its completion rate |
| InterviewSession.ShowSaved | interview_ui.py:703-707 | read as intended, the saved report is shown |
| InterviewSession.ShowSavedAsWritten | interview_ui.py:703-707 | as written, the display of the saved report fails |
| InterviewSession.Session.Store | interview_ui.py:694-697 | the interview is marked completed with the given report and nothing else changes |
| InterviewSession.ObjectsOf | interview_ui.py:309-314 | a list gives its objects exactly when every element is an object, one object per element |
| InterviewSession.Questions | interview_ui.py:309-314 | the inner loop runs without raising exactly on a list of objects, an empty string or an empty object |
| InterviewSession.FlattenEntry | interview_ui.py:310-314 | each question object of an entry becomes one saved question |
| InterviewSession.FlattenSucceeds | interview_ui.py:307-314 | the flattening raises exactly when the questions of some entry cannot be read |
| InterviewSession.FlattenTypes | interview_ui.py:307-314 | every flattened question has a text and, as its type, one of the reply's keys |
| InterviewSession.FailedGenerationSavesNothing | interview_ui.py:300-324 | a failed generation flattens without error to nothing, so setup fails at the save |
| InterviewSession.UnreadableReply | interview_ui.py:307-314 | a normalised reply fails to flatten exactly when one of the reply's own entries cannot be read |
| InterviewSession.GenerateAndFlatten | interview_ui.py:300-314 | generating and flattening fail only on, and always on, a reply entry that cannot be read while the logged total could be computed; on success the questions are exactly the normalised plan flattened in key order, each with a string type |
| InterviewSession.FlattenQuestions | interview_ui.py:307-314 | the nested loops raise exactly when the flattening fails, and otherwise give its questions in the reply's key order |
| InterviewSession.EntryQuestions | interview_ui.py:309-314 | the inner loop raises exactly when the entry's questions cannot be read, and otherwise gives one saved question per object |
| InterviewSession.Navigator.constructor | interview_ui.py:1196-1203 | a first visit starts with every flag false, on the setup view |
| InterviewSession.Navigator.Route | interview_ui.py:1222-1228 | the view is history iff its flag is set, else completion iff that flag, else interview iff setup is complete, else setup |
| InterviewSession.Navigator.OpenHistory | interview_ui.py:1248-1254 | View Interview History clears the interview flags and shows the history |
| InterviewSession.Navigator.ReturnHome | interview_ui.py:1175-1189 | Return to Home and Start New Interview clear every flag and show setup |
| InterviewSession.Navigator.ViewReportAsWritten | interview_ui.py:1113-1117 | as written, View Report leaves the history flag set, so the history is shown again |
| InterviewSession.Navigator.ViewReport | interview_ui.py:1113-1117 | as intended, View Report shows the selected interview's report |
| InterviewSession.Navigator.ContinueAsWritten | interview_ui.py:1154-1158 | as written, Continue leaves the history flag set, so the history is shown again |
| InterviewSession.Navigator.Continue | interview_ui.py:1154-1158 | as intended, Continue shows the selected interview |
| InterviewSession.Navigator.FinishAllAnswered | interview_ui.py:378-422 | the completion button is offered iff the session has questions and every one is answered (without questions the page returns with an error first); only a press of the offered button sets the completion flag, which is otherwise unchanged |
| InterviewSession.Navigator.EndInterviewAsWritten | interview_ui.py:631-638 | as written, End is refused without an answer and shows Confirm with one, but no run ever sets the completion flag |
| InterviewSession.Navigator.EndInterview | interview_ui.py:631-638 | as intended, End is refused without an answer; with one it awaits a confirmation, and Confirm then sets the completion flag |
| InterviewSession.Navigator.EndThenConfirm | interview_ui.py:631-638 | as intended, End then Confirm ends an interview with an answer given and shows the completion view |
| InterviewSession.Navigator.SetupInterview | interview_ui.py:264-337 | the form's checks apply in order. A reply entry whose questions cannot be read ends in the caught setup error after the interview was created, and conversely such an entry always does when the logged total could be computed. The interview is selected only after it was created with a non-zero id and its questions were saved: one row per question of the normalised plan flattened in key order, with that question's text and type and display order i + 1. No other flag changes |
| ReportDisplay.Stars | interview_ui.py:834 | the star count lies in 0..5 and, for a score on the scale, within a half of score / 2 |
| ReportDisplay.StarExamples | interview_ui.py:834 | 5.0 gets two stars and 7.0 four (halves go to even); 3.0 gets two, 0 none and 10 five |
| ReportDisplay.StarsMonotone | interview_ui.py:834 | a higher score never gets fewer stars |
| ReportDisplay.StarLine | interview_ui.py:849-854 | the star line has five symbols of three characters each, as the star literals are spelled in the source text (fifteen characters), filled exactly in the first `star_score` places |
| ReportDisplay.StarLineShowsStars | interview_ui.py:849-854 | a line of such symbols shows exactly `star_score` filled stars, all before the empty ones |
| ReportDisplay.Truncate | interview_ui.py:835 | `int(x)` truncates toward zero |
| ReportDisplay.Percentage | interview_ui.py:835 | the percentage of a score on the scale lies in 0..100 and is the whole part of score × 10 |
| ReportDisplay.PercentageOfTenths | interview_ui.py:835 | 6.7 shows as 67 % and 10 as 100 % |
| ReportDisplay.FormatElapsedShows | interview_ui.py:354-360 | the running time shows hours t / 3600 iff there is at least one, then the remaining minutes and seconds, each below 60 |
| ReportDisplay.FormatElapsedExamples | interview_ui.py:354-360 | 3725.9 seconds show as "1h 2m 5s" and 59 seconds as "0m 59s" |

## Left out

- **The text-generation service and all prompt text.** A generation reply is the items of a parsed JSON object, each value any JSON value, or a failure. A parsed reply that is not an object counts as a failure: on a string or list the membership test, the assignment of a missing category or, when all four names are in it, `len(result[cat])` at interview_engine_new.py:121 raises. What the service would answer is not modelled.
- Json.AsNumber: an integer too large for a float is always treated as making the score sum or its division raise. Python sums integers exactly, so over-large integers that cancel (10**400 and -10**400) give a finite mean. The score columns are floats, so such values never come from the store.
- QuestionPlanner.NormalizeQuestions: a reply with a repeated key is not modelled. `json.loads` keeps the last value at the key's first position, and the model reads the first entry.
- **Floating point.** Scores, rates and weights are exact reals, so IEEE effects in `int(n * 0.4)`, `round(x, 1)`, the weighted division and the percentage `int(score * 100 / max_score)` are not modelled. For example, 0.4 + 0.15 + 0.15 is exactly 0.7 here, and a score of 2.3 shows as 23 % here where IEEE arithmetic gives 22 %.
- **`json.loads` and `json.dumps`.** Parsing is the `JsonLoads` table, which gives the value of each text that parses. Serialisation is modelled as the identity: what is written is read back as decoded.
- **`float()` of strings.** It is modelled for plain decimal strings with surrounding whitespace. Exponents, "inf", "nan", underscores and Unicode digits are treated as non-numeric.
- **Exception texts.** The TypeError text of a failed `sum` is one constant, `ArithmeticError`.
- **Recommendation gating.** It exists only in prompt text, so there is no postcondition about the recommendation beyond the fallback's.
- **No rule excludes skips from the scores**, because the code averages them in.
- **Double-answer rejection.** The store inserts blindly. The model keeps one row per question id, written only for the question shown.
- **LegacyEngine.** The old engine's service calls, its transcript-building loop and its returned `json.dumps` strings are not modelled. Its log-and-re-raise is modelled as the None of `PickQuestion`, and nothing else.
- **Database failures beyond those modelled.** A failed query or connection makes a read return [] (or None). The model takes the rows a query returned, and writes are success flags. A failed answer insert is not reported to the user; the model keeps the answers unchanged in that case.
- **`get_interview_details`.** Only its `report_data` cell is modelled, as written (`Persistence.ReadReportAsWritten`) and as intended (`Persistence.ReadReport`); its other columns are not. `Session.Complete` and its reuse branch and report display are the intended reading; `Session.CompleteAsWritten` is the code as written (see Findings).
- Persistence.EvaluationOf: its strengths and weaknesses are read as intended (`ReadList`); as written they read back as [] (see Findings).
- Persistence.ReadRow: its evaluation's lists are read as intended, as in `EvaluationOf`.
- Persistence.GetInterviewAnswers: its records' lists are read as intended, as in `EvaluationOf`.
- **An orphan interview on failed generation.** The interview row is created before the questions are generated, so a failed generation or an unreadable reply leaves an interview without questions. The model reports `SaveFailed` or `SetupError` and selects nothing.
- **`get_interview_questions_new`, the history lists and the other store reads.** Only the joined question and answer read drives the interview page.
- **The "Return to Setup" and "Return to Home" buttons on error paths.** These are buttons shown after a failed load, and only clear flags.
- **An empty report and a missing report are not distinguished.** Both are falsy, and the model writes them `map[]`.
- **The interview timer, response timers, `time.sleep`, and all Streamlit rendering, HTML and CSS.** Elapsed times are parameters.
- **The migration adding the skip column, and the DDL.** A row without the column is modelled by `hasSkippedColumn`.
- **Text extraction from PDF and DOCX resumes** (`utils.py`). The resume text is a parameter.
- **Case conversion.** `str.lower()` and `str.upper()` are modelled on ASCII letters only, and whitespace is the set `str.isspace` accepts.

## Findings

| source | as written | input that shows it | evidently intended | confidence | as-written member | corrected member |
|---|---|---|---|---|---|---|
| interview_ui.py:1113-1117 | View Report and Continue set the interview flags but leave `view_history` set, while routing (1223) tests `view_history` first | on the history view, select an interview and press View Report: the rerun shows the history again | clear `view_history` so the report or the interview is shown | medium; not executed | InterviewSession.Navigator.ViewReportAsWritten | InterviewSession.Navigator.ViewReport |
| database_methods.py:251-261 | `json.loads` is applied to the strengths and weaknesses cells, which the PostgreSQL driver has already decoded from JSONB into lists; the TypeError is swallowed | an answer stored with strengths ["clear"] reads back with strengths [] | use a decoded cell as it is and parse only text, following the type test of the store's own helper at database.py:33-41 (which gives {} rather than [] for an empty or unparsable cell) | medium; not executed | Persistence.StoredListsReadBackEmpty | Persistence.ReadListRoundTrip |
| interview_ui.py:632-636 | the Confirm End Interview button is created only inside the branch of a pressed End Interview button, and pressing it reruns the page with End no longer pressed | with one answer given, press End Interview, then Confirm End Interview: the page reruns on the interview view and `interview_complete` stays false | remember the pending confirmation across runs so that Confirm ends the interview | medium; not executed | InterviewSession.Navigator.EndInterviewAsWritten | InterviewSession.Navigator.EndThenConfirm |
| database_methods.py:425-429 | `json.loads` is applied to the `report_data` cell, which the driver has already decoded from JSONB into a dictionary; the TypeError is swallowed and the report stays None | complete an interview and open its completion page again: the reuse test at interview_ui.py:659 fails, the report is built and saved again, and the display at interview_ui.py:722-723 calls `.get` on None, so "Error generating final report" is shown instead of the report | use the decoded dictionary as it is | medium; not executed | InterviewSession.Session.CompleteAsWritten | InterviewSession.Session.Complete |

The corrected End button needs one flag the page as written does not have, `confirmingEnd`. It carries the pending confirmation from one run of the page to the next.

The Continue button at interview_ui.py:1154-1158 has the same flaw as the first row. `InterviewSession.Navigator.ContinueAsWritten` models it as written, and `InterviewSession.Navigator.Continue` as intended.
