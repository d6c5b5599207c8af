/** The row-mapping rules of the interview store: how questions, answers and
    the final report are written, how the joined question and answer rows are
    read back, and how the interview duration is worded. The SQL itself and
    the database are not modelled: a written row is the tuple of values the
    insert receives, and a read row is the tuple the query returns, with
    `Null` for SQL NULL and JSONB cells already decoded, as the PostgreSQL
    driver hands them over. */
module Persistence {

  import opened Wrappers
  import opened Json

  /** What `json.loads` makes of each text: the value of every text that
      parses, and no entry for a text on which it raises. JSON parsing itself
      is not modelled. */
  type JsonLoads = map<string, Value>

  // ---------------------------------------------------------------- questions

  /** The values inserted for one question. */
  datatype QuestionRow = QuestionRow(text: Value, kind: Value, displayOrder: int)

  /** `save_interview_questions_new`: nothing is written for an empty list and
      the call reports failure; otherwise question i is written with its text
      (default ""), its type (default "technical") and display order i + 1, so
      the order of the list is the display order. */
  method SaveQuestions(questions: seq<Object>) returns (ok: bool, rows: seq<QuestionRow>)
    ensures ok <==> |questions| > 0
    ensures |rows| == |questions|
    ensures forall i :: 0 <= i < |rows| ==>
      && rows[i].text == Get(questions[i], "question", Str(""))
      && rows[i].kind == Get(questions[i], "type", Str("technical"))
      && rows[i].displayOrder == i + 1
    ensures forall i, j :: 0 <= i < j < |rows| ==> rows[i].displayOrder < rows[j].displayOrder
  {
    if |questions| == 0 {
      return false, [];
    }
    rows := [];
    for i := 0 to |questions|
      invariant |rows| == i
      invariant forall k :: 0 <= k < i ==>
        && rows[k].text == Get(questions[k], "question", Str(""))
        && rows[k].kind == Get(questions[k], "type", Str("technical"))
        && rows[k].displayOrder == k + 1
    {
      var q := questions[i];
      rows := rows + [QuestionRow(Get(q, "question", Str("")), Get(q, "type", Str("technical")), i + 1)];
    }
    ok := true;
  }

  // ------------------------------------------------------------------ answers

  /** The cells of one `interview_answers` row. */
  datatype AnswerRow = AnswerRow(
    answerText: Value,
    score: Value,
    technicalAccuracy: Value,
    clarityOfCommunication: Value,
    relevance: Value,
    demonstratedExpertise: Value,
    strengths: Value,
    weaknesses: Value,
    feedback: Value,
    responseTime: Value,
    skipped: Value)

  /** `evaluation.get(field, 0)`. */
  function ZeroDefault(evaluation: Object, field: string): (v: Value)
    ensures field in evaluation ==> v == evaluation[field]
    ensures field !in evaluation ==> v == Num(0.0)
  {
    Get(evaluation, field, Num(0.0))
  }

  /** The row `save_interview_answer` inserts, or None when the record's
      `evaluation` is not a dictionary and the call fails. Every numeric field
      missing from the evaluation is written as 0, strengths and weaknesses
      as the JSON of the given value (empty lists by default), the feedback as
      "" and the response time as 0 by default, and the skip flag as false
      unless the record says otherwise. */
  function SaveAnswer(answerData: Object): (r: Option<AnswerRow>)
    ensures r.Some? <==> Get(answerData, "evaluation", Obj(map[])).Obj?
    ensures r.Some? ==>
      var ev := Get(answerData, "evaluation", Obj(map[])).fields;
      && r.value.answerText == Get(answerData, "answer_text", Str(""))
      && r.value.score == ZeroDefault(ev, "score")
      && r.value.technicalAccuracy == ZeroDefault(ev, "technical_accuracy")
      && r.value.clarityOfCommunication == ZeroDefault(ev, "clarity_of_communication")
      && r.value.relevance == ZeroDefault(ev, "relevance")
      && r.value.demonstratedExpertise == ZeroDefault(ev, "demonstrated_expertise")
      && r.value.strengths == Get(ev, "strengths", List([]))
      && r.value.weaknesses == Get(ev, "weaknesses", List([]))
      && r.value.feedback == Get(ev, "feedback", Str(""))
      && r.value.responseTime == Get(answerData, "response_time", Num(0.0))
      && r.value.skipped == Get(answerData, "skipped", Bool(false))
  {
    match Get(answerData, "evaluation", Obj(map[]))
    case Obj(ev) =>
      Some(AnswerRow(
        Get(answerData, "answer_text", Str("")),
        ZeroDefault(ev, "score"),
        ZeroDefault(ev, "technical_accuracy"),
        ZeroDefault(ev, "clarity_of_communication"),
        ZeroDefault(ev, "relevance"),
        ZeroDefault(ev, "demonstrated_expertise"),
        Get(ev, "strengths", List([])),
        Get(ev, "weaknesses", List([])),
        Get(ev, "feedback", Str("")),
        Get(answerData, "response_time", Num(0.0)),
        Get(answerData, "skipped", Bool(false))))
    case _ => None
  }

  // ----------------------------------------------------------------- reading

  /** One row of the question/answer join, in display order. A question
      without an answer has every answer cell `Null`. `hasSkippedColumn` is
      false for a row of 16 columns, from a store without the skip column. */
  datatype JoinRow = JoinRow(
    questionId: int,
    questionText: Value,
    questionType: Value,
    displayOrder: int,
    answerId: Value,
    cells: AnswerRow,
    answeredAt: Value,
    hasSkippedColumn: bool)

  /** The answer part of a question record. */
  datatype AnswerRecord = AnswerRecord(id: Value, text: Value, evaluation: Object, responseTime: Value, timestamp: Value, skipped: Value)

  /** One element of the list `get_interview_answers` returns. */
  datatype QuestionRecord = QuestionRecord(id: int, question: Value, kind: Value, order: int, answer: Option<AnswerRecord>)

  /** The strengths or weaknesses cell as `get_interview_answers` reads it:
      `json.loads(cell)` when the cell is truthy, [] when it is not or when
      `json.loads` raises. The driver has already decoded the JSONB cell, so a
      stored list reaches `json.loads` as a list, which raises. */
  function ReadListAsWritten(cell: Value, loads: JsonLoads): (v: Value)
  {
    if !Truthy(cell) then List([])
    else if cell.Str? then (if cell.s in loads then loads[cell.s] else List([]))
    else List([])
  }

  /** As written, every non-empty list of strengths or weaknesses that was
      stored reads back as the empty list. */
  lemma StoredListsReadBackEmpty(items: seq<Value>, loads: JsonLoads)
    requires items != []
    ensures ReadListAsWritten(List(items), loads) == List([])
    ensures ReadListAsWritten(List(items), loads) != List(items)
  {
  }

  /** The evidently intended reading, following the type test of the store's
      own JSON helper: a decoded cell is used as it is and only a text cell is
      parsed. An empty or unparsable cell gives [], as the reader's own
      fallback does (the helper itself gives an empty dictionary there). */
  function ReadList(cell: Value, loads: JsonLoads): (v: Value)
    ensures !Truthy(cell) ==> v == List([])
    ensures Truthy(cell) && !cell.Str? ==> v == cell
  {
    if !Truthy(cell) then List([])
    else if cell.Str? then (if cell.s in loads then loads[cell.s] else List([]))
    else cell
  }

  /** Read correctly, a stored list comes back as it was written. */
  lemma ReadListRoundTrip(items: seq<Value>, loads: JsonLoads)
    ensures ReadList(List(items), loads) == List(items)
  {
  }

  /** The evaluation rebuilt from the answer cells of a row, with the lists
      read as intended (`ReadList`); as written they read back as [] (see
      `StoredListsReadBackEmpty`). */
  function EvaluationOf(cells: AnswerRow, loads: JsonLoads): (ev: Object)
    ensures ev.Keys == {"score", "technical_accuracy", "clarity_of_communication", "relevance",
                        "demonstrated_expertise", "strengths", "weaknesses", "feedback"}
  {
    map[
      "score" := cells.score,
      "technical_accuracy" := cells.technicalAccuracy,
      "clarity_of_communication" := cells.clarityOfCommunication,
      "relevance" := cells.relevance,
      "demonstrated_expertise" := cells.demonstratedExpertise,
      "strengths" := ReadList(cells.strengths, loads),
      "weaknesses" := ReadList(cells.weaknesses, loads),
      "feedback" := cells.feedback
    ]
  }

  /** The record of one row: it has an answer exactly when the answer text is
      truthy, and the skip flag is false when the row has no skip column. Its
      evaluation's lists are read as intended. */
  function ReadRow(row: JoinRow, loads: JsonLoads): (r: QuestionRecord)
    ensures r.answer.Some? <==> Truthy(row.cells.answerText)
    ensures r.answer.Some? && !row.hasSkippedColumn ==> r.answer.value.skipped == Bool(false)
    ensures r.answer.Some? && row.hasSkippedColumn ==> r.answer.value.skipped == row.cells.skipped
    ensures r.id == row.questionId && r.question == row.questionText && r.kind == row.questionType && r.order == row.displayOrder
  {
    var answer :=
      if Truthy(row.cells.answerText) then
        Some(AnswerRecord(row.answerId, row.cells.answerText, EvaluationOf(row.cells, loads),
                          row.cells.responseTime, row.answeredAt,
                          if row.hasSkippedColumn then row.cells.skipped else Bool(false)))
      else None;
    QuestionRecord(row.questionId, row.questionText, row.questionType, row.displayOrder, answer)
  }

  /** `get_interview_answers` over the rows the query returned: one record per
      row, in the same order, with the lists read as intended. */
  method GetInterviewAnswers(rows: seq<JoinRow>, loads: JsonLoads) returns (records: seq<QuestionRecord>)
    ensures |records| == |rows|
    ensures forall i :: 0 <= i < |rows| ==> records[i] == ReadRow(rows[i], loads)
  {
    records := [];
    for i := 0 to |rows|
      invariant |records| == i
      invariant forall k :: 0 <= k < i ==> records[k] == ReadRow(rows[k], loads)
    {
      records := records + [ReadRow(rows[i], loads)];
    }
  }

  /** An answer written by `save_interview_answer` and read back: the record
      has the written text, each numeric field as given or 0, the lists as
      given, and the skip flag as given. */
  lemma SaveThenRead(answerData: Object, row: JoinRow, loads: JsonLoads)
    requires SaveAnswer(answerData).Some? && row.cells == SaveAnswer(answerData).value
    requires row.hasSkippedColumn && Truthy(row.cells.answerText)
    requires var ev := Get(answerData, "evaluation", Obj(map[])).fields;
      && Get(ev, "strengths", List([])).List? && Get(ev, "weaknesses", List([])).List?
    ensures var ev := Get(answerData, "evaluation", Obj(map[])).fields;
      var rec := ReadRow(row, loads).answer;
      && rec.Some?
      && rec.value.text == Get(answerData, "answer_text", Str(""))
      && rec.value.evaluation["score"] == ZeroDefault(ev, "score")
      && rec.value.evaluation["technical_accuracy"] == ZeroDefault(ev, "technical_accuracy")
      && rec.value.evaluation["clarity_of_communication"] == ZeroDefault(ev, "clarity_of_communication")
      && rec.value.evaluation["relevance"] == ZeroDefault(ev, "relevance")
      && rec.value.evaluation["demonstrated_expertise"] == ZeroDefault(ev, "demonstrated_expertise")
      && rec.value.evaluation["strengths"] == Get(ev, "strengths", List([]))
      && rec.value.evaluation["weaknesses"] == Get(ev, "weaknesses", List([]))
      && rec.value.skipped == Get(answerData, "skipped", Bool(false))
  {
    var ev := Get(answerData, "evaluation", Obj(map[])).fields;
    ReadListRoundTrip(Get(ev, "strengths", List([])).items, loads);
    ReadListRoundTrip(Get(ev, "weaknesses", List([])).items, loads);
  }

  /** The report cell as `get_interview_details` reads it: `json.loads(cell)`
      when the cell is truthy, None when it is not or when `json.loads`
      raises. The driver has already decoded the JSONB cell, so a stored
      report reaches `json.loads` as a dictionary, which raises. */
  function ReadReportAsWritten(cell: Value, loads: JsonLoads): (r: Option<Value>)
  {
    if !Truthy(cell) then None
    else if cell.Str? then (if cell.s in loads then Some(loads[cell.s]) else None)
    else None
  }

  /** As written, no stored report is ever read back: the interview details
      always carry None as their report. */
  lemma StoredReportReadsBackNone(report: Object, loads: JsonLoads)
    ensures ReadReportAsWritten(Obj(report), loads) == None
  {
  }

  /** The evidently intended reading: a decoded cell is used as it is, a text
      cell is parsed, and an empty or unparsable one gives None. */
  function ReadReport(cell: Value, loads: JsonLoads): (r: Option<Value>)
    ensures !Truthy(cell) ==> r.None?
    ensures Truthy(cell) && !cell.Str? ==> r == Some(cell)
  {
    if !Truthy(cell) then None
    else if cell.Str? then (if cell.s in loads then Some(loads[cell.s]) else None)
    else Some(cell)
  }

  /** Read as intended, a stored report comes back as it was written. */
  lemma ReadReportRoundTrip(report: Object, loads: JsonLoads)
    requires report != map[]
    ensures ReadReport(Obj(report), loads) == Some(Obj(report))
  {
  }

  // ----------------------------------------------------------------- duration

  /** `divmod` of the whole seconds into hours, minutes and seconds; Python's
      floor division agrees with Dafny's for the positive divisor 60. */
  function Split(total: int): (hms: (int, int, int))
  {
    var minutes := total / 60;
    (minutes / 60, minutes % 60, total % 60)
  }

  lemma SplitSpec(total: int)
    ensures var (h, m, s) := Split(total);
      && h * 3600 + m * 60 + s == total
      && 0 <= m < 60 && 0 <= s < 60
      && (total >= 0 ==> h >= 0)
  {
  }

  /** "n unit", with an "s" unless n is exactly 1. */
  function Count(n: int, unit: string): (t: string)
    ensures |t| > |IntToString(n)| && t[..|IntToString(n)| + 1] == IntToString(n) + " "
    ensures t[|IntToString(n)| + 1..] == unit <==> n == 1
  {
    IntToString(n) + " " + unit + (if n != 1 then "s" else "")
  }

  /** The duration stored with the report, from the whole seconds between the
      start and the completion, or "Unknown" without a start time: hours and
      minutes when there is at least an hour, else minutes and seconds. */
  function DurationText(elapsed: Option<int>): (t: string)
    ensures elapsed.None? ==> t == "Unknown"
    ensures elapsed.Some? && Split(elapsed.value).0 > 0 ==>
      t == Count(Split(elapsed.value).0, "hour") + " " + Count(Split(elapsed.value).1, "minute")
    ensures elapsed.Some? && Split(elapsed.value).0 <= 0 ==>
      t == Count(Split(elapsed.value).1, "minute") + " " + Count(Split(elapsed.value).2, "second")
  {
    match elapsed
    case None => "Unknown"
    case Some(total) =>
      var (h, m, s) := Split(total);
      if h > 0 then Count(h, "hour") + " " + Count(m, "minute")
      else Count(m, "minute") + " " + Count(s, "second")
  }

  /** An hour and a second is worded "1 hour 0 minutes": the seconds are
      dropped and only a count of exactly 1 is singular. */
  lemma DurationOfAnHour()
    ensures DurationText(Some(3601)) == "1 hour 0 minutes"
  {
    assert Split(3601) == (1, 0, 1);
    assert IntToString(1) == "1" && IntToString(0) == "0";
    assert Count(1, "hour") == "1 hour";
    assert Count(0, "minute") == "0 minutes";
    assert DurationText(Some(3601)) == Count(1, "hour") + " " + Count(0, "minute");
  }

  lemma DurationOfAMinute()
    ensures DurationText(Some(61)) == "1 minute 1 second"
  {
    assert Split(61) == (0, 1, 1);
    assert IntToString(1) == "1";
    assert Count(1, "minute") == "1 minute";
    assert Count(1, "second") == "1 second";
    assert DurationText(Some(61)) == Count(1, "minute") + " " + Count(1, "second");
  }

  // ------------------------------------------------------------------ report

  /** The columns `complete_interview` sets besides the status and end time. */
  datatype InterviewColumns = InterviewColumns(
    overallScore: Value,
    technicalScore: Value,
    problemSolvingScore: Value,
    communicationScore: Value,
    completionRate: Value,
    recommendation: Value)

  /** `complete_interview`: the report gains its `interview_duration`, and the
      score columns are read from its `scores`, the communication column from
      the behavioral score, each 0 when missing, with the recommendation
      "No recommendation" by default. None when `scores` is not a dictionary
      and the call fails. */
  function CompleteInterview(report: Object, elapsed: Option<int>): (r: Option<(Object, InterviewColumns)>)
    ensures r.Some? <==> Get(report, "scores", Obj(map[])).Obj?
    ensures r.Some? ==>
      var (stored, cols) := r.value;
      var scores := Get(report, "scores", Obj(map[])).fields;
      && stored == report["interview_duration" := Str(DurationText(elapsed))]
      && cols.overallScore == ZeroDefault(scores, "overall")
      && cols.technicalScore == ZeroDefault(scores, "technical")
      && cols.problemSolvingScore == ZeroDefault(scores, "problem_solving")
      && cols.communicationScore == ZeroDefault(scores, "behavioral")
      && cols.completionRate == ZeroDefault(report, "completion_rate")
      && cols.recommendation == Get(report, "recommendation", Str("No recommendation"))
  {
    match Get(report, "scores", Obj(map[]))
    case Obj(scores) =>
      var stored := report["interview_duration" := Str(DurationText(elapsed))];
      Some((stored, InterviewColumns(
        ZeroDefault(scores, "overall"),
        ZeroDefault(scores, "technical"),
        ZeroDefault(scores, "problem_solving"),
        ZeroDefault(scores, "behavioral"),
        ZeroDefault(report, "completion_rate"),
        Get(report, "recommendation", Str("No recommendation")))))
    case _ => None
  }
}
