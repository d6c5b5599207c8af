/** The interview page and its navigation. A `Session` is one interview as the
    page sees it: its questions in display order, the answer rows stored for
    them, and whether a report was saved. A `Navigator` is the page's own state
    flags, which decide the view shown on each run. The page loads these from
    the store on every run; here they are kept as fields that the operations
    update, and every store call is reduced to the row it writes or to a
    success flag given as a parameter. */
module InterviewSession {

  import opened Wrappers
  import opened Json
  import opened Categories
  import QuestionPlanner
  import AnswerScorer
  import ReportBuilder
  import Persistence

  /** A question as the page reads it back: its id, text and type. */
  datatype Question = Question(id: nat, text: string, kind: string)

  /** The answer rows stored per question id. */
  type Answers = map<nat, Persistence.AnswerRow>

  predicate DistinctIds(qs: seq<Question>) {
    forall i, j :: 0 <= i < j < |qs| ==> qs[i].id != qs[j].id
  }

  /** The question has an answer record: a row is stored for it and its answer
      text is truthy, as the joined read yields a record exactly then. */
  predicate IsAnswered(answers: Answers, q: Question) {
    q.id in answers && Truthy(answers[q.id].answerText)
  }

  /** Every stored row has a score on the 0..10 scale, as every row the page
      writes has. */
  predicate RowsOnScale(answers: Answers) {
    forall id :: id in answers ==> answers[id].score.Num? && 0.0 <= answers[id].score.x <= 10.0
  }

  // ------------------------------------------------------------- progress

  /** `sum(1 for q in questions if q.get('answer') is not None)`. */
  function AnsweredCount(qs: seq<Question>, answers: Answers): (n: nat)
    ensures n <= |qs|
    ensures n == |qs| <==> forall i :: 0 <= i < |qs| ==> IsAnswered(answers, qs[i])
    ensures n == 0 <==> forall i :: 0 <= i < |qs| ==> !IsAnswered(answers, qs[i])
    decreases |qs|
  {
    if qs == [] then 0
    else AnsweredCount(qs[..|qs| - 1], answers) + (if IsAnswered(answers, qs[|qs| - 1]) then 1 else 0)
  }

  /** answered / total, or 0 for an interview without questions. */
  function Progress(qs: seq<Question>, answers: Answers): real {
    if |qs| > 0 then AnsweredCount(qs, answers) as real / |qs| as real else 0.0
  }

  /** The progress is a fraction, 1 exactly when every question is answered
      and 0 exactly when none is. */
  lemma ProgressRange(qs: seq<Question>, answers: Answers)
    ensures 0.0 <= Progress(qs, answers) <= 1.0
    ensures |qs| > 0 ==> (Progress(qs, answers) == 1.0 <==> forall i :: 0 <= i < |qs| ==> IsAnswered(answers, qs[i]))
    ensures Progress(qs, answers) == 0.0 <==> forall i :: 0 <= i < |qs| ==> !IsAnswered(answers, qs[i])
  {
    if |qs| > 0 {
      ReportBuilder.FractionRange(AnsweredCount(qs, answers) as real, |qs| as real);
    }
  }

  /** The question shown: the first one without an answer, None when all are
      answered. */
  function FirstUnanswered(qs: seq<Question>, answers: Answers): (r: Option<nat>)
    ensures r.Some? ==> r.value < |qs| && !IsAnswered(answers, qs[r.value])
    ensures r.Some? ==> forall j :: 0 <= j < r.value ==> IsAnswered(answers, qs[j])
    ensures r.None? <==> forall j :: 0 <= j < |qs| ==> IsAnswered(answers, qs[j])
    decreases |qs|
  {
    if qs == [] then None
    else if !IsAnswered(answers, qs[0]) then Some(0)
    else match FirstUnanswered(qs[1..], answers)
      case None => None
      case Some(j) => Some(j + 1)
  }

  /** Storing an answer for the question shown, under distinct ids, answers it
      and no other: the count grows by one and the next question shown, if
      any, comes later in the list. */
  lemma AnswerAdvances(qs: seq<Question>, answers: Answers, i: nat, row: Persistence.AnswerRow)
    requires DistinctIds(qs)
    requires FirstUnanswered(qs, answers) == Some(i) && Truthy(row.answerText)
    ensures var answers' := answers[qs[i].id := row];
      && AnsweredCount(qs, answers') == AnsweredCount(qs, answers) + 1
      && (FirstUnanswered(qs, answers').Some? ==> FirstUnanswered(qs, answers').value > i)
  {
    var answers' := answers[qs[i].id := row];
    forall j | 0 <= j < |qs| && j != i ensures IsAnswered(answers', qs[j]) == IsAnswered(answers, qs[j]) {
    }
    CountAfterAnswer(qs, answers, i, row);
  }

  lemma {:induction false} CountAfterAnswer(qs: seq<Question>, answers: Answers, i: nat, row: Persistence.AnswerRow)
    requires DistinctIds(qs) && i < |qs|
    requires !IsAnswered(answers, qs[i]) && Truthy(row.answerText)
    ensures AnsweredCount(qs, answers[qs[i].id := row]) == AnsweredCount(qs, answers) + 1
    decreases |qs|
  {
    var answers' := answers[qs[i].id := row];
    var init := qs[..|qs| - 1];
    if i < |qs| - 1 {
      assert init[i] == qs[i];
      CountAfterAnswer(init, answers, i, row);
      assert qs[|qs| - 1].id != qs[i].id;
    } else {
      CountUnchanged(init, answers, qs[i].id, row);
    }
  }

  lemma {:induction false} CountUnchanged(qs: seq<Question>, answers: Answers, id: nat, row: Persistence.AnswerRow)
    requires forall j :: 0 <= j < |qs| ==> qs[j].id != id
    ensures AnsweredCount(qs, answers[id := row]) == AnsweredCount(qs, answers)
    decreases |qs|
  {
    if qs != [] {
      CountUnchanged(qs[..|qs| - 1], answers, id, row);
    }
  }

  // ------------------------------------------------------------- answering

  /** The record the page stores for a submitted answer. */
  function SubmittedData(text: string, evaluation: Object, responseTime: int): Object {
    map["answer_text" := Str(text), "evaluation" := Obj(evaluation), "response_time" := Num(responseTime as real)]
  }

  /** A submitted answer is stored with its text, its evaluation's score and
      the skip flag false. */
  lemma SubmittedRow(text: string, evaluation: Object, responseTime: int)
    requires !IsBlank(text) && AnswerScorer.WellFormed(evaluation)
    ensures var r := Persistence.SaveAnswer(SubmittedData(text, evaluation, responseTime));
      && r.Some?
      && r.value.answerText == Str(text) && Truthy(r.value.answerText)
      && r.value.score == evaluation["score"]
      && r.value.score.Num? && 0.0 <= r.value.score.x <= 10.0
      && r.value.skipped == Bool(false)
  {
    assert "score" in AnswerScorer.ScoreFields;
    assert text != [];
  }

  /** The record the page stores for a skipped question. */
  const SkipData: Object := map[
    "answer_text" := Str("[Question skipped by interviewer]"),
    "evaluation" := Obj(map[
      "score" := Num(0.0),
      "feedback" := Str("This question was skipped."),
      "improvement_suggestions" := Str(""),
      "strengths" := Str(""),
      "weaknesses" := Str("Question was not attempted.")]),
    "response_time" := Num(0.0),
    "skipped" := Bool(true)]

  /** A skip is stored as an answer: a truthy text, zero for all five numeric
      fields, the skip flag set, and so it counts as answered and its zero
      enters the category mean. */
  lemma SkipRow()
    ensures var r := Persistence.SaveAnswer(SkipData);
      && r.Some?
      && Truthy(r.value.answerText)
      && r.value.score == Num(0.0) && r.value.technicalAccuracy == Num(0.0)
      && r.value.clarityOfCommunication == Num(0.0) && r.value.relevance == Num(0.0)
      && r.value.demonstratedExpertise == Num(0.0)
      && r.value.responseTime == Num(0.0)
      && r.value.skipped == Bool(true)
  {
    var ev := SkipData["evaluation"].fields;
    assert "technical_accuracy" !in ev && "clarity_of_communication" !in ev
      && "relevance" !in ev && "demonstrated_expertise" !in ev;
  }

  /** The evaluation of a submitted answer and the row stored for it. */
  method EvaluateAndRow(text: string, reply: AnswerScorer.Reply, responseTime: int)
    returns (evaluation: Object, row: Persistence.AnswerRow)
    requires !IsBlank(text)
    ensures AnswerScorer.WellFormed(evaluation)
    ensures Persistence.SaveAnswer(SubmittedData(text, evaluation, responseTime)) == Some(row)
    ensures row.score.Num? && 0.0 <= row.score.x <= 10.0
  {
    evaluation := AnswerScorer.EvaluateAnswer(reply);
    SubmittedRow(text, evaluation, responseTime);
    row := Persistence.SaveAnswer(SubmittedData(text, evaluation, responseTime)).value;
  }

  /** What a press of Submit or Next did. */
  datatype AnswerOutcome = BlankAnswer | NothingToAnswer | Recorded(index: nat)

  /** What Complete did: the saved report shown again, a report that could
      not be saved, a report saved and shown, or a report saved whose display
      raised because it did not read back as a dictionary. */
  datatype CompletionOutcome = AlreadyCompleted | NotSaved | Saved | ShowFailed

  lemma RowsOnScaleUpdate(answers: Answers, id: nat, row: Persistence.AnswerRow)
    requires RowsOnScale(answers) && row.score.Num? && 0.0 <= row.score.x <= 10.0
    ensures RowsOnScale(answers[id := row])
  {
  }

  // ------------------------------------------------------------- reporting

  /** An answered question as handed to the report builder. */
  function ItemOf(q: Question, answers: Answers, loads: Persistence.JsonLoads): ReportBuilder.Item
    requires q.id in answers
  {
    ReportBuilder.Item(q.text, q.kind, ReportBuilder.Answered(Persistence.EvaluationOf(answers[q.id], loads)))
  }

  /** The results given to the report builder: the answered questions only,
      in display order. */
  function AnsweredItems(qs: seq<Question>, answers: Answers, loads: Persistence.JsonLoads): (items: seq<ReportBuilder.Item>)
    ensures |items| == AnsweredCount(qs, answers)
    ensures forall k :: 0 <= k < |items| ==> items[k].answer.Answered? && ReportBuilder.HasAnswer(items[k])
    decreases |qs|
  {
    if qs == [] then []
    else
      var q := qs[|qs| - 1];
      AnsweredItems(qs[..|qs| - 1], answers, loads) + (if IsAnswered(answers, q) then [ItemOf(q, answers, loads)] else [])
  }

  /** Every result handed over carries the score of a stored row. */
  lemma {:induction false} ItemsFromRows(qs: seq<Question>, answers: Answers, loads: Persistence.JsonLoads)
    ensures forall k :: 0 <= k < |AnsweredItems(qs, answers, loads)| ==>
      AnsweredItems(qs, answers, loads)[k].answer.Answered? &&
      exists id :: id in answers && ReportBuilder.ScoreOf(AnsweredItems(qs, answers, loads)[k].answer.evaluation) == answers[id].score
    decreases |qs|
  {
    if qs != [] {
      var init := qs[..|qs| - 1];
      ItemsFromRows(init, answers, loads);
      var items := AnsweredItems(qs, answers, loads);
      forall k | 0 <= k < |items|
        ensures exists id :: id in answers && ReportBuilder.ScoreOf(items[k].answer.evaluation) == answers[id].score
      {
        if k < |AnsweredItems(init, answers, loads)| {
          assert items[k] == AnsweredItems(init, answers, loads)[k];
        } else {
          var id := qs[|qs| - 1].id;
          assert ReportBuilder.ScoreOf(items[k].answer.evaluation) == answers[id].score;
        }
      }
    }
  }

  /** With every stored score on the scale, every result handed over has its
      score on the scale. */
  lemma ItemsOnScale(qs: seq<Question>, answers: Answers, loads: Persistence.JsonLoads)
    requires RowsOnScale(answers)
    ensures ReportBuilder.ScoresOnScale(AnsweredItems(qs, answers, loads))
  {
    ItemsFromRows(qs, answers, loads);
  }

  /** Since only answered results are handed over, the builder's own
      completion rate is 1 whenever anything was answered: it says nothing,
      and the page overwrites it with the true progress. */
  lemma EngineRateIsOne(qs: seq<Question>, answers: Answers, loads: Persistence.JsonLoads)
    ensures var items := AnsweredItems(qs, answers, loads);
      ReportBuilder.CompletionRate(items) == if |items| > 0 then 1.0 else 0.0
    ensures |AnsweredItems(qs, answers, loads)| as real == AnsweredCount(qs, answers) as real
  {
    ReportBuilder.CompletionRateRange(AnsweredItems(qs, answers, loads));
  }

  /** The report the page saves: the builder's report with the completion
      rate replaced by the page's own figure and the duration added by the
      store. */
  function SavedReport(base: ReportBuilder.Report, rate: real, elapsed: Option<int>): (o: Object)
    ensures && "completion_rate" in o && o["completion_rate"] == Num(rate)
      && "scores" in o && o["scores"] == Obj(ReportBuilder.ScoresObject(base.scores))
      && "interview_duration" in o && o["interview_duration"] == Str(Persistence.DurationText(elapsed))
      && (forall k :: k in base.narrative && k != "scores" && k != "completion_rate" && k != "interview_duration" ==>
            k in o && o[k] == base.narrative[k])
  {
    ReportBuilder.AsObject(base)["completion_rate" := Num(rate)]["interview_duration" := Str(Persistence.DurationText(elapsed))]
  }

  /** The store accepts the page's report: its `scores` is a dictionary, and
      what it keeps is the saved report. */
  lemma StoreKeepsReport(base: ReportBuilder.Report, rate: real, elapsed: Option<int>)
    ensures var report := ReportBuilder.AsObject(base)["completion_rate" := Num(rate)];
      && Persistence.CompleteInterview(report, elapsed).Some?
      && Persistence.CompleteInterview(report, elapsed).value.0 == SavedReport(base, rate, elapsed)
      && Persistence.CompleteInterview(report, elapsed).value.1.completionRate == Num(rate)
  {
    var report := ReportBuilder.AsObject(base)["completion_rate" := Num(rate)];
    assert "scores" in report && report["scores"].Obj?;
  }

  /** A report saved from answers whose scores are on the scale, with a
      narrative reply, has five scores on the scale and the true progress as
      its completion rate. */
  lemma SavedReportOnScale(qs: seq<Question>, answers: Answers, loads: Persistence.JsonLoads,
                           assessment: Object, elapsed: Option<int>)
    requires RowsOnScale(answers)
    ensures var items := AnsweredItems(qs, answers, loads);
      var o := FinalReport(qs, answers, loads, ReportBuilder.NarrativeParsed(assessment), elapsed);
      var s := ReportBuilder.BuildReport(items, ReportBuilder.NarrativeParsed(assessment)).scores;
      && o["scores"] == Obj(ReportBuilder.ScoresObject(s))
      && 0.0 <= s.overall <= 10.0 && 0.0 <= s.technical <= 10.0 && 0.0 <= s.scenario <= 10.0
      && 0.0 <= s.behavioral <= 10.0 && 0.0 <= s.problemSolving <= 10.0
      && o["completion_rate"] == Num(Progress(qs, answers))
      && 0.0 <= Progress(qs, answers) <= 1.0
  {
    ItemsOnScale(qs, answers, loads);
    ReportBuilder.ReportOnScale(AnsweredItems(qs, answers, loads), assessment);
    ProgressRange(qs, answers);
  }

  /** The report generated, its completion rate replaced, and the report
      the store keeps. */
  method SaveFinalReport(items: seq<ReportBuilder.Item>, reply: ReportBuilder.NarrativeReply, rate: real, elapsed: Option<int>)
    returns (report: Object)
    ensures report == SavedReport(ReportBuilder.BuildReport(items, reply), rate, elapsed)
  {
    var built := ReportBuilder.GenerateFinalReport(items, reply);
    var finalReport := ReportBuilder.AsObject(built)["completion_rate" := Num(rate)];
    StoreKeepsReport(built, rate, elapsed);
    report := Persistence.CompleteInterview(finalReport, elapsed).value.0;
  }

  /** The report the completion page saves for an interview: the report
      built from its answered questions, with the progress as its completion
      rate and the duration added. */
  function FinalReport(qs: seq<Question>, answers: Answers, loads: Persistence.JsonLoads,
                       reply: ReportBuilder.NarrativeReply, elapsed: Option<int>): Object
  {
    SavedReport(ReportBuilder.BuildReport(AnsweredItems(qs, answers, loads), reply), Progress(qs, answers), elapsed)
  }

  /** The results handed to the report builder, gathered by a loop over the
      questions read back. */
  method GatherResults(qs: seq<Question>, answers: Answers, loads: Persistence.JsonLoads) returns (items: seq<ReportBuilder.Item>)
    ensures items == AnsweredItems(qs, answers, loads)
  {
    items := [];
    for i := 0 to |qs|
      invariant items == AnsweredItems(qs[..i], answers, loads)
    {
      assert qs[..i + 1][..i] == qs[..i];
      var q := qs[i];
      if q.id in answers && Truthy(answers[q.id].answerText) {
        items := items + [ItemOf(q, answers, loads)];
      }
    }
    assert qs[..|qs|] == qs;
  }

  /** The completion page's computation: gather, rate, generate, save. */
  method GenerateAndSave(qs: seq<Question>, answers: Answers, loads: Persistence.JsonLoads,
                         reply: ReportBuilder.NarrativeReply, elapsed: Option<int>) returns (report: Object)
    ensures report == FinalReport(qs, answers, loads, reply, elapsed)
  {
    var items := GatherResults(qs, answers, loads);
    var rate := if |qs| > 0 then |items| as real / |qs| as real else 0.0;
    report := SaveFinalReport(items, reply, rate, elapsed);
  }

  /** `interview['report_data']` is truthy. */
  predicate ReportPresent(seen: Option<Value>) {
    seen.Some? && Truthy(seen.value)
  }

  /** Read as intended, the report cell holds a report exactly when a
      non-empty one was stored. */
  lemma ReportPresentIffStored(reportData: Object, loads: Persistence.JsonLoads)
    ensures ReportPresent(Persistence.ReadReport(Obj(reportData), loads)) <==> reportData != map[]
  {
    if reportData != map[] {
      Persistence.ReadReportRoundTrip(reportData, loads);
    }
  }

  /** As written, the report cell never holds a report. */
  lemma ReportNeverPresent(reportData: Object, loads: Persistence.JsonLoads)
    ensures !ReportPresent(Persistence.ReadReportAsWritten(Obj(reportData), loads))
  {
    Persistence.StoredReportReadsBackNone(reportData, loads);
  }

  /** The report page's display of the interview details read back: it
      shows the report when it is a dictionary, and otherwise `.get` raises
      and the error is shown instead. */
  function Display(back: Option<Value>): (o: CompletionOutcome)
    ensures o == Saved <==> back.Some? && back.value.Obj?
    ensures o == ShowFailed <==> !(back.Some? && back.value.Obj?)
  {
    if back.Some? && back.value.Obj? then Saved else ShowFailed
  }

  /** A saved report is never empty: it always carries its completion rate. */
  lemma FinalReportNotEmpty(qs: seq<Question>, answers: Answers, loads: Persistence.JsonLoads,
                            reply: ReportBuilder.NarrativeReply, elapsed: Option<int>)
    ensures FinalReport(qs, answers, loads, reply, elapsed) != map[]
  {
    assert "completion_rate" in FinalReport(qs, answers, loads, reply, elapsed);
  }

  /** The display after the save, with the report read back as intended: the
      saved report is shown. */
  method ShowSaved(report: Object, loads: Persistence.JsonLoads) returns (outcome: CompletionOutcome)
    requires report != map[]
    ensures outcome == Saved
  {
    var back := Persistence.ReadReport(Obj(report), loads);
    Persistence.ReadReportRoundTrip(report, loads);
    outcome := Display(back);
  }

  /** The display after the save, as written: the report reads back as None
      and the display raises. */
  method ShowSavedAsWritten(report: Object, loads: Persistence.JsonLoads) returns (outcome: CompletionOutcome)
    ensures outcome == ShowFailed
  {
    var back := Persistence.ReadReportAsWritten(Obj(report), loads);
    Persistence.StoredReportReadsBackNone(report, loads);
    outcome := Display(back);
  }

  /** One interview as the interview page works on it. */
  class Session {
    var questions: seq<Question>
    var answers: Answers
    var completed: bool
    var reportData: Object

    /** Ids are distinct and every stored score is on the scale. */
    predicate Valid()
      reads this
    {
      DistinctIds(questions) && RowsOnScale(answers)
    }

    /** An interview whose questions were just saved. */
    constructor(qs: seq<Question>)
      requires DistinctIds(qs)
      ensures Valid()
      ensures questions == qs && answers == map[] && !completed && reportData == map[]
    {
      questions := qs;
      answers := map[];
      completed := false;
      reportData := map[];
    }

    /** The progress bar: the number of answered questions and their share. */
    method ShowProgress() returns (answered: nat, progress: real)
      ensures answered == AnsweredCount(questions, answers)
      ensures progress == Progress(questions, answers)
    {
      answered := 0;
      for i := 0 to |questions|
        invariant answered == AnsweredCount(questions[..i], answers)
      {
        assert questions[..i + 1][..i] == questions[..i];
        if questions[i].id in answers && Truthy(answers[questions[i].id].answerText) {
          answered := answered + 1;
        }
      }
      assert questions[..|questions|] == questions;
      progress := if |questions| > 0 then answered as real / |questions| as real else 0.0;
    }

    /** The scan for the question to show. */
    method CurrentQuestion() returns (r: Option<nat>)
      ensures r == FirstUnanswered(questions, answers)
    {
      var i := 0;
      while i < |questions|
        invariant 0 <= i <= |questions|
        invariant forall j :: 0 <= j < i ==> IsAnswered(answers, questions[j])
      {
        if !(questions[i].id in answers && Truthy(answers[questions[i].id].answerText)) {
          FirstIsFirst(questions, answers, i);
          return Some(i);
        }
        i := i + 1;
      }
      r := None;
    }

    /** Submit: a blank answer is refused; otherwise the answer to the
        question shown is evaluated and its row stored when the insert
        succeeds (`stored`). A failed insert is not reported, and the same
        question is shown again. Nothing else changes. */
    method SubmitAnswer(text: string, reply: AnswerScorer.Reply, responseTime: int, stored: bool)
      returns (outcome: AnswerOutcome, evaluation: Object)
      requires Valid()
      modifies this
      ensures Valid()
      ensures questions == old(questions) && completed == old(completed) && reportData == old(reportData)
      ensures IsBlank(text) ==> outcome == BlankAnswer && answers == old(answers)
      ensures !IsBlank(text) && FirstUnanswered(old(questions), old(answers)).None? ==>
        outcome == NothingToAnswer && answers == old(answers)
      ensures !IsBlank(text) && FirstUnanswered(old(questions), old(answers)).Some? ==>
        && outcome == Recorded(FirstUnanswered(old(questions), old(answers)).value)
        && AnswerScorer.WellFormed(evaluation)
        && (stored ==> answers == old(answers)[questions[outcome.index].id :=
              Persistence.SaveAnswer(SubmittedData(text, evaluation, responseTime)).value])
        && (!stored ==> answers == old(answers))
    {
      evaluation := map[];
      if IsBlank(text) {
        return BlankAnswer, evaluation;
      }
      var current := CurrentQuestion();
      if current.None? {
        return NothingToAnswer, evaluation;
      }
      var row;
      evaluation, row := EvaluateAndRow(text, reply, responseTime);
      if stored {
        RowsOnScaleUpdate(answers, questions[current.value].id, row);
        answers := answers[questions[current.value].id := row];
      }
      outcome := Recorded(current.value);
    }

    /** Next: the question shown is stored as skipped when the insert
        succeeds; nothing else changes. */
    method Skip(stored: bool) returns (outcome: AnswerOutcome)
      requires Valid()
      modifies this
      ensures Valid()
      ensures questions == old(questions) && completed == old(completed) && reportData == old(reportData)
      ensures FirstUnanswered(old(questions), old(answers)).None? ==> outcome == NothingToAnswer && answers == old(answers)
      ensures FirstUnanswered(old(questions), old(answers)).Some? ==>
        && outcome == Recorded(FirstUnanswered(old(questions), old(answers)).value)
        && (stored ==> answers == old(answers)[questions[outcome.index].id := Persistence.SaveAnswer(SkipData).value])
        && (!stored ==> answers == old(answers))
    {
      var current := CurrentQuestion();
      if current.None? {
        return NothingToAnswer;
      }
      SkipRow();
      var row := Persistence.SaveAnswer(SkipData).value;
      if stored {
        RowsOnScaleUpdate(answers, questions[current.value].id, row);
        answers := answers[questions[current.value].id := row];
      }
      outcome := Recorded(current.value);
    }

    /** The completion page, with the report cell read as intended
        (`Persistence.ReadReport`): a completed interview with a saved report
        shows it again; otherwise the report is built from the answered
        questions, its completion rate replaced by the progress, and it is
        stored and the interview marked completed when the save succeeds
        (`saved`); the report read back is then shown. */
    method Complete(reply: ReportBuilder.NarrativeReply, elapsed: Option<int>, saved: bool, loads: Persistence.JsonLoads)
      returns (outcome: CompletionOutcome, report: Object)
      requires Valid()
      modifies this
      ensures Valid()
      ensures questions == old(questions) && answers == old(answers)
      ensures old(completed) && old(reportData) != map[] ==>
        outcome == AlreadyCompleted && completed && reportData == old(reportData)
      ensures !(old(completed) && old(reportData) != map[]) ==>
        && report == FinalReport(questions, answers, loads, reply, elapsed)
        && (saved ==> outcome == Saved && completed && reportData == report)
        && (!saved ==> outcome == NotSaved && completed == old(completed) && reportData == old(reportData))
    {
      report := map[];
      var reuse := ReportPresent(Persistence.ReadReport(Obj(reportData), loads));
      ReportPresentIffStored(reportData, loads);
      if completed && reuse {
        return AlreadyCompleted, report;
      }
      var qs, stored := questions, answers;
      report := GenerateAndSave(qs, stored, loads, reply, elapsed);
      if !saved {
        return NotSaved, report;
      }
      FinalReportNotEmpty(qs, stored, loads, reply, elapsed);
      Store(report);
      outcome := ShowSaved(report, loads);
    }

    /** The completion page as written: the report cell reads back as None
        (`Persistence.StoredReportReadsBackNone`), so the reuse branch is
        never taken and every visit builds and saves the report again; and
        the report read back after the save is None too, so its display
        raises and the page shows "Error generating final report". */
    method CompleteAsWritten(reply: ReportBuilder.NarrativeReply, elapsed: Option<int>, saved: bool, loads: Persistence.JsonLoads)
      returns (outcome: CompletionOutcome, report: Object)
      requires Valid()
      modifies this
      ensures Valid()
      ensures questions == old(questions) && answers == old(answers)
      ensures outcome != AlreadyCompleted && outcome != Saved
      ensures report == FinalReport(questions, answers, loads, reply, elapsed)
      ensures saved ==> outcome == ShowFailed && completed && reportData == report
      ensures !saved ==> outcome == NotSaved && completed == old(completed) && reportData == old(reportData)
    {
      report := map[];
      var reuse := ReportPresent(Persistence.ReadReportAsWritten(Obj(reportData), loads));
      ReportNeverPresent(reportData, loads);
      if completed && reuse {
        assert false;
      }
      var qs, stored := questions, answers;
      report := GenerateAndSave(qs, stored, loads, reply, elapsed);
      if !saved {
        return NotSaved, report;
      }
      Store(report);
      outcome := ShowSavedAsWritten(report, loads);
    }

    /** The interview marked completed with its saved report. */
    method Store(report: Object)
      modifies this
      ensures questions == old(questions) && answers == old(answers)
      ensures completed && reportData == report
    {
      completed := true;
      reportData := report;
    }
  }

  /** A question found unanswered after all earlier ones were answered is the
      first unanswered one. */
  lemma {:induction false} FirstIsFirst(qs: seq<Question>, answers: Answers, i: nat)
    requires i < |qs| && !IsAnswered(answers, qs[i])
    requires forall j :: 0 <= j < i ==> IsAnswered(answers, qs[j])
    ensures FirstUnanswered(qs, answers) == Some(i)
    decreases i
  {
    if i > 0 {
      FirstIsFirst(qs[1..], answers, i - 1);
    }
  }

  // ------------------------------------------------------------ navigation

  /** The four views of the page. */
  datatype View = History | Completion | Interview | Setup

  /** The button a run of the page sees pressed: a press reruns the page, and
      in that run only the pressed button reads as pressed. */
  datatype Click = NoClick | EndClicked | ConfirmClicked

  /** The setup form: title, description, whether a resume was uploaded and
      the text read from it, and the text kept from an earlier upload. */
  datatype SetupForm = SetupForm(title: string, description: string, resumeUploaded: bool,
                                 resumeText: string, cachedResume: Option<string>)

  /** How a press of Generate Interview Questions ended; `SetupError` is the
      caught exception of a reply whose questions cannot be read. */
  datatype SetupOutcome =
    | TitleMissing | DescriptionMissing | ResumeMissing | ResumeUnreadable
    | CreateFailed | SetupError | SaveFailed | Ready(interviewId: int)

  /** The objects of a list, None when some element is not an object. */
  function ObjectsOf(items: seq<Value>): (r: Option<seq<Object>>)
    ensures r.Some? <==> forall k :: 0 <= k < |items| ==> items[k].Obj?
    ensures r.Some? ==> |r.value| == |items| && forall k :: 0 <= k < |items| ==> items[k] == Obj(r.value[k])
    decreases |items|
  {
    if items == [] then Some([])
    else match ObjectsOf(items[..|items| - 1])
      case None => None
      case Some(os) =>
        var last := items[|items| - 1];
        if last.Obj? then Some(os + [last.fields]) else None
  }

  /** The questions `for question in questions: question.get(...)` visits
      under one key: the objects of a list. None when the loop raises: an
      element of a list that is not an object, a character of a non-empty
      string or a key of a non-empty object has no `get`, and a null,
      boolean or number cannot be iterated. */
  function Questions(v: Value): (r: Option<seq<Object>>)
    ensures r.Some? <==> (v.List? && ObjectsOf(v.items).Some?) || v == Str("") || v == Obj(map[])
  {
    match v
    case List(items) => ObjectsOf(items)
    case Str(t) => if t == "" then Some([]) else None
    case Obj(f) => if f == map[] then Some([]) else None
    case _ => None
  }

  /** One generated question as saved: its text (default "") and the key it
      was listed under, for each question object of one entry. */
  function FlattenEntry(key: string, qs: seq<Object>): (saved: seq<Object>)
    ensures |saved| == |qs|
  {
    seq(|qs|, k requires 0 <= k < |qs| => map["question" := Get(qs[k], "question", Str("")), "type" := Str(key)])
  }

  /** The generated questions flattened in the order of the reply's keys, or
      None when the flattening raises. */
  function Flatten(entries: seq<QuestionPlanner.Entry>): (r: Option<seq<Object>>)
    decreases |entries|
  {
    if entries == [] then Some([])
    else match Flatten(entries[..|entries| - 1])
      case None => None
      case Some(init) =>
        var (key, v) := entries[|entries| - 1];
        match Questions(v)
        case None => None
        case Some(qs) => Some(init + FlattenEntry(key, qs))
  }

  /** The flattening succeeds exactly when the questions of every entry can
      be read. */
  lemma {:induction false} FlattenSucceeds(entries: seq<QuestionPlanner.Entry>)
    ensures Flatten(entries).Some? <==> forall i :: 0 <= i < |entries| ==> Questions(entries[i].1).Some?
    decreases |entries|
  {
    if entries != [] {
      var init := entries[..|entries| - 1];
      FlattenSucceeds(init);
      assert forall i :: 0 <= i < |init| ==> init[i] == entries[i];
    }
  }

  /** Every flattened question has a text and, as its type, one of the
      reply's keys. */
  lemma {:induction false} FlattenTypes(entries: seq<QuestionPlanner.Entry>)
    requires Flatten(entries).Some?
    ensures var all := Flatten(entries).value;
      forall k :: 0 <= k < |all| ==>
        && "question" in all[k] && "type" in all[k]
        && all[k]["type"].Str? && all[k]["type"].s in QuestionPlanner.KeysOf(entries)
    decreases |entries|
  {
    if entries != [] {
      var init := entries[..|entries| - 1];
      FlattenTypes(init);
      assert forall k :: k in QuestionPlanner.KeysOf(init) ==> k in QuestionPlanner.KeysOf(entries) by {
        forall k | k in QuestionPlanner.KeysOf(init) ensures k in QuestionPlanner.KeysOf(entries) {
          var i :| 0 <= i < |init| && QuestionPlanner.KeysOf(init)[i] == k;
          assert QuestionPlanner.KeysOf(entries)[i] == k;
        }
      }
      assert QuestionPlanner.KeysOf(entries)[|entries| - 1] == entries[|entries| - 1].0;
    }
  }

  /** When the generation call fails, there is nothing to save, so setup
      fails with "Failed to save interview questions". */
  lemma FailedGenerationSavesNothing()
    ensures Flatten(QuestionPlanner.EmptyPlan) == Some([])
  {
    QuestionPlanner.EmptyPlanShape();
    FlattenEmptyLists(QuestionPlanner.EmptyPlan);
  }

  /** Entries whose lists are all empty flatten to nothing. */
  lemma {:induction false} FlattenEmptyLists(entries: seq<QuestionPlanner.Entry>)
    requires forall i :: 0 <= i < |entries| ==> entries[i].1 == List([])
    ensures Flatten(entries) == Some([])
    decreases |entries|
  {
    if entries != [] {
      var init := entries[..|entries| - 1];
      FlattenEmptyLists(init);
      var (key, v) := entries[|entries| - 1];
      assert v == List([]);
      assert Questions(v) == Some([]);
      assert FlattenEntry(key, []) == [];
      assert Flatten(entries) == Some(Flatten(init).value + FlattenEntry(key, []));
      assert Flatten(init).value + FlattenEntry(key, []) == [];
    }
  }

  /** A normalised reply fails to flatten exactly when one of the reply's own
      entries cannot be read: the empty lists added for missing categories
      always can. */
  lemma UnreadableReply(r0: seq<QuestionPlanner.Entry>)
    ensures Flatten(QuestionPlanner.AddMissing(r0, All)).None? <==>
      exists i :: 0 <= i < |r0| && Questions(r0[i].1).None?
  {
    var r := QuestionPlanner.AddMissing(r0, All);
    forall j | |r0| <= j < |r| ensures r[j].1 == List([]) {
      QuestionPlanner.AddMissingAdded(r0, All, j);
    }
    UnreadableExtension(r0, r);
  }

  lemma UnreadableExtension(r0: seq<QuestionPlanner.Entry>, r: seq<QuestionPlanner.Entry>)
    requires |r0| <= |r| && r[..|r0|] == r0
    requires forall j :: |r0| <= j < |r| ==> r[j].1 == List([])
    ensures Flatten(r).None? <==> exists i :: 0 <= i < |r0| && Questions(r0[i].1).None?
  {
    FlattenSucceeds(r);
    assert forall i :: 0 <= i < |r0| ==> r[i] == r0[i] by {
      forall i | 0 <= i < |r0| ensures r[i] == r0[i] {
        assert r[..|r0|][i] == r0[i];
      }
    }
    if Flatten(r).None? {
      var i :| 0 <= i < |r| && Questions(r[i].1).None?;
      assert i < |r0|;
      assert Questions(r0[i].1).None?;
    }
  }

  /** The generated reply normalised and flattened: it fails exactly when one
      of the reply's own entries cannot be read while the logged total
      could be computed, and every flattened question has a string type.
      What it yields is the normalised plan flattened in key order. */
  method GenerateAndFlatten(reply: QuestionPlanner.GenReply) returns (ok: bool, all: seq<Object>)
    ensures ok <==> Flatten(QuestionPlanner.Plan(reply)).Some?
    ensures ok ==> Flatten(QuestionPlanner.Plan(reply)) == Some(all)
    ensures !ok ==> reply.GenParsed? && exists i :: 0 <= i < |reply.entries| && Questions(reply.entries[i].1).None?
    ensures (reply.GenParsed?
      && (forall c :: !QuestionPlanner.LenRaises(QuestionPlanner.AddMissing(reply.entries, All), Name(c)))
      && (exists i :: 0 <= i < |reply.entries| && Questions(reply.entries[i].1).None?)) ==> !ok
    ensures ok ==> forall k :: 0 <= k < |all| ==> "type" in all[k] && all[k]["type"].Str?
  {
    var entries := QuestionPlanner.NormalizeQuestions(reply);
    FailedGenerationSavesNothing();
    if reply.GenParsed? {
      UnreadableReply(reply.entries);
    }
    ok, all := FlattenQuestions(entries);
    if ok {
      FlattenTypes(entries);
    }
  }

  /** The flattening loops of the setup page; `ok` is false when they
      raise. */
  method FlattenQuestions(entries: seq<QuestionPlanner.Entry>) returns (ok: bool, all: seq<Object>)
    ensures ok == Flatten(entries).Some?
    ensures ok ==> all == Flatten(entries).value
  {
    all := [];
    for i := 0 to |entries|
      invariant Flatten(entries[..i]).Some? && all == Flatten(entries[..i]).value
    {
      assert entries[..i + 1][..i] == entries[..i];
      var (key, v) := entries[i];
      var visited;
      ok, visited := EntryQuestions(key, v);
      if !ok {
        FlattenSucceeds(entries);
        return false, all;
      }
      all := all + visited;
    }
    assert entries[..|entries|] == entries;
    ok := true;
  }

  /** The inner loop over one entry's value. */
  method EntryQuestions(key: string, v: Value) returns (ok: bool, visited: seq<Object>)
    ensures ok == Questions(v).Some?
    ensures ok ==> visited == FlattenEntry(key, Questions(v).value)
  {
    visited := [];
    if !v.List? {
      ok := v == Str("") || v == Obj(map[]);
      return;
    }
    var list := v.items;
    for j := 0 to |list|
      invariant ObjectsOf(list[..j]).Some? && visited == FlattenEntry(key, ObjectsOf(list[..j]).value)
    {
      assert list[..j + 1][..j] == list[..j];
      if !list[j].Obj? {
        return false, visited;
      }
      var q := list[j].fields;
      assert FlattenEntry(key, ObjectsOf(list[..j + 1]).value)
        == FlattenEntry(key, ObjectsOf(list[..j]).value) + [map["question" := Get(q, "question", Str("")), "type" := Str(key)]];
      visited := visited + [map["question" := Get(q, "question", Str("")), "type" := Str(key)]];
    }
    assert list[..|list|] == list;
    ok := true;
  }

  /** The page's own state flags. */
  class Navigator {
    var viewHistory: bool
    var interviewComplete: bool
    var setupComplete: bool
    var currentInterview: Option<int>
    /** Not a flag of the page as written: the corrected End button keeps it
        between the press of End and the press of Confirm. */
    var confirmingEnd: bool

    /** A first visit: every flag false. */
    constructor()
      ensures !viewHistory && !interviewComplete && !setupComplete && currentInterview.None? && !confirmingEnd
      ensures Route() == Setup
    {
      viewHistory := false;
      interviewComplete := false;
      setupComplete := false;
      currentInterview := None;
      confirmingEnd := false;
    }

    /** The view shown: history before completion before the interview
        before setup. */
    function Route(): (v: View)
      reads this
      ensures v == History <==> viewHistory
      ensures v == Completion <==> !viewHistory && interviewComplete
      ensures v == Interview <==> !viewHistory && !interviewComplete && setupComplete
      ensures v == Setup <==> !viewHistory && !interviewComplete && !setupComplete
    {
      if viewHistory then History
      else if interviewComplete then Completion
      else if setupComplete then Interview
      else Setup
    }

    /** View Interview History, on the setup view: the interview flags are
        cleared and the history is shown. */
    method OpenHistory()
      modifies this
      ensures viewHistory && !interviewComplete && !setupComplete && currentInterview.None?
      ensures confirmingEnd == old(confirmingEnd)
      ensures Route() == History
    {
      currentInterview := None;
      setupComplete := false;
      interviewComplete := false;
      viewHistory := true;
    }

    /** Return to Home and Start New Interview, on the history view: every
        flag is cleared. */
    method ReturnHome()
      modifies this
      ensures !viewHistory && !interviewComplete && !setupComplete && currentInterview.None?
      ensures confirmingEnd == old(confirmingEnd)
      ensures Route() == Setup
    {
      currentInterview := None;
      setupComplete := false;
      interviewComplete := false;
      viewHistory := false;
    }

    /** View Report, on the history view, as written: it selects the
        interview and sets the completion flags but leaves the history flag
        set, so the next run shows the history again. */
    method ViewReportAsWritten(id: int)
      modifies this
      ensures currentInterview == Some(id) && setupComplete && interviewComplete
      ensures viewHistory == old(viewHistory) && confirmingEnd == old(confirmingEnd)
      ensures old(viewHistory) ==> Route() == History
    {
      currentInterview := Some(id);
      setupComplete := true;
      interviewComplete := true;
    }

    /** View Report as evidently intended: the history flag is cleared too,
        and the report of the selected interview is shown. */
    method ViewReport(id: int)
      modifies this
      ensures currentInterview == Some(id) && setupComplete && interviewComplete && !viewHistory
      ensures confirmingEnd == old(confirmingEnd)
      ensures Route() == Completion
    {
      currentInterview := Some(id);
      setupComplete := true;
      interviewComplete := true;
      viewHistory := false;
    }

    /** Continue, on the history view, as written: it selects the interview
        but leaves the history flag set, so the history is shown again. */
    method ContinueAsWritten(id: int)
      modifies this
      ensures currentInterview == Some(id) && setupComplete && !interviewComplete
      ensures viewHistory == old(viewHistory) && confirmingEnd == old(confirmingEnd)
      ensures old(viewHistory) ==> Route() == History
    {
      currentInterview := Some(id);
      setupComplete := true;
      interviewComplete := false;
    }

    /** Continue as evidently intended: the interview page is shown. */
    method Continue(id: int)
      modifies this
      ensures currentInterview == Some(id) && setupComplete && !interviewComplete && !viewHistory
      ensures confirmingEnd == old(confirmingEnd)
      ensures Route() == Interview
    {
      currentInterview := Some(id);
      setupComplete := true;
      interviewComplete := false;
      viewHistory := false;
    }

    /** Complete Interview & Generate Report: offered only when every
        question of a session that has questions is answered (without
        questions the page shows an error and returns before any button), and
        only a press of the offered button sets the completion flag.
        Answering never sets it by itself. */
    method FinishAllAnswered(s: Session, pressed: bool) returns (offered: bool)
      modifies this
      ensures offered <==> |s.questions| > 0 && FirstUnanswered(s.questions, s.answers).None?
      ensures offered && pressed ==> interviewComplete
      ensures !(offered && pressed) ==> interviewComplete == old(interviewComplete)
      ensures viewHistory == old(viewHistory) && setupComplete == old(setupComplete)
      ensures currentInterview == old(currentInterview) && confirmingEnd == old(confirmingEnd)
    {
      var current := s.CurrentQuestion();
      offered := |s.questions| > 0 && current.None?;
      if offered && pressed {
        interviewComplete := true;
      }
    }

    /** End Interview as written, for one run: with an answer given, a press
        of End shows a Confirm button nested under it, and without one an
        error. The Confirm button exists only in the run where End reads as
        pressed, and its own press starts a run where End does not, so no
        run ever sets the completion flag. */
    method EndInterviewAsWritten(answered: nat, click: Click) returns (confirmShown: bool, refused: bool)
      modifies this
      ensures confirmShown <==> click == EndClicked && answered > 0
      ensures refused <==> click == EndClicked && answered == 0
      ensures interviewComplete == old(interviewComplete)
      ensures viewHistory == old(viewHistory) && setupComplete == old(setupComplete)
      ensures currentInterview == old(currentInterview) && confirmingEnd == old(confirmingEnd)
    {
      confirmShown, refused := false, false;
      var endPressed := click == EndClicked;
      if endPressed {
        if answered > 0 {
          confirmShown := true;
          var confirmPressed := click == ConfirmClicked;
          interviewComplete := interviewComplete || confirmPressed;
        } else {
          refused := true;
        }
      }
    }

    /** End Interview as evidently intended: End, with an answer given,
        remembers that a confirmation is awaited and shows Confirm; a press
        of Confirm then sets the completion flag. */
    method EndInterview(answered: nat, click: Click) returns (confirmShown: bool, refused: bool)
      modifies this
      ensures refused <==> click == EndClicked && answered == 0
      ensures click == EndClicked && answered > 0 ==> confirmShown && confirmingEnd && interviewComplete == old(interviewComplete)
      ensures click == ConfirmClicked && old(confirmingEnd) && answered > 0 ==> interviewComplete && !confirmingEnd
      ensures !(click == ConfirmClicked && old(confirmingEnd) && answered > 0) ==> interviewComplete == old(interviewComplete)
      ensures viewHistory == old(viewHistory) && setupComplete == old(setupComplete)
      ensures currentInterview == old(currentInterview)
    {
      confirmShown, refused := false, false;
      if click == EndClicked {
        if answered > 0 {
          confirmingEnd := true;
          confirmShown := true;
        } else {
          refused := true;
        }
      } else if click == ConfirmClicked && confirmingEnd && answered > 0 {
        interviewComplete := true;
        confirmingEnd := false;
      }
    }

    /** Two runs of the corrected End button: End then Confirm ends an
        interview with an answer given. */
    method EndThenConfirm(answered: nat)
      requires answered > 0
      modifies this
      ensures interviewComplete && !confirmingEnd
      ensures viewHistory == old(viewHistory) && setupComplete == old(setupComplete)
      ensures !viewHistory ==> Route() == Completion
    {
      var _, _ := EndInterview(answered, EndClicked);
      var _, _ := EndInterview(answered, ConfirmClicked);
    }

    /** Generate Interview Questions: the form checks in order, the resume
        text falling back to an earlier upload's; then the interview is
        created (`created`, None or 0 for a failed insert), the questions
        generated and flattened in the reply's key order, and saved; only
        then is the interview selected and the interview view enabled. */
    method SetupInterview(form: SetupForm, created: Option<int>, reply: QuestionPlanner.GenReply)
      returns (outcome: SetupOutcome, rows: seq<Persistence.QuestionRow>)
      modifies this
      ensures IsBlank(form.title) ==> outcome == TitleMissing
      ensures !IsBlank(form.title) && IsBlank(form.description) ==> outcome == DescriptionMissing
      ensures !IsBlank(form.title) && !IsBlank(form.description) && !form.resumeUploaded ==> outcome == ResumeMissing
      ensures (!IsBlank(form.title) && !IsBlank(form.description) && form.resumeUploaded
        && IsBlank(form.resumeText) && form.cachedResume.None?) ==> outcome == ResumeUnreadable
      ensures outcome.Ready? ==>
        && !IsBlank(form.title) && !IsBlank(form.description) && form.resumeUploaded
        && created.Some? && created.value != 0 && outcome.interviewId == created.value
        && |rows| > 0
        && (forall i :: 0 <= i < |rows| ==> rows[i].displayOrder == i + 1 && rows[i].kind.Str?)
      ensures outcome.Ready? ==>
        && Flatten(QuestionPlanner.Plan(reply)).Some?
        && |rows| == |Flatten(QuestionPlanner.Plan(reply)).value|
        && (forall i :: 0 <= i < |rows| ==>
          && rows[i].text == Get(Flatten(QuestionPlanner.Plan(reply)).value[i], "question", Str(""))
          && rows[i].kind == Get(Flatten(QuestionPlanner.Plan(reply)).value[i], "type", Str("technical")))
        && currentInterview == created && setupComplete
      ensures outcome == CreateFailed ==> created.None? || created.value == 0
      ensures outcome == SetupError ==>
        && created.Some? && created.value != 0 && reply.GenParsed?
        && exists i :: 0 <= i < |reply.entries| && Questions(reply.entries[i].1).None?
      ensures (!IsBlank(form.title) && !IsBlank(form.description) && form.resumeUploaded
        && !(IsBlank(form.resumeText) && form.cachedResume.None?) && created.Some? && created.value != 0
        && reply.GenParsed?
        && (forall c :: !QuestionPlanner.LenRaises(QuestionPlanner.AddMissing(reply.entries, All), Name(c)))
        && (exists i :: 0 <= i < |reply.entries| && Questions(reply.entries[i].1).None?)) ==> outcome == SetupError
      ensures !outcome.Ready? ==> setupComplete == old(setupComplete) && currentInterview == old(currentInterview)
      ensures viewHistory == old(viewHistory) && interviewComplete == old(interviewComplete)
      ensures confirmingEnd == old(confirmingEnd)
    {
      rows := [];
      if IsBlank(form.title) {
        return TitleMissing, rows;
      }
      if IsBlank(form.description) {
        return DescriptionMissing, rows;
      }
      if !form.resumeUploaded {
        return ResumeMissing, rows;
      }
      if IsBlank(form.resumeText) && form.cachedResume.None? {
        return ResumeUnreadable, rows;
      }
      if created.None? || created.value == 0 {
        return CreateFailed, rows;
      }
      var ok, all := GenerateAndFlatten(reply);
      if !ok {
        return SetupError, rows;
      }
      ok, rows := Persistence.SaveQuestions(all);
      if !ok {
        return SaveFailed, rows;
      }
      currentInterview := created;
      setupComplete := true;
      outcome := Ready(created.value);
    }
  }
}
