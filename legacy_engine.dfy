/** The older interview engine: its quota split, the choice of the question
    being answered, the per-type criteria weights, the completion percentage
    of its final report, and the module-specific prompt selection. Unlike the
    new engine it absorbs no failure: every exception reaches the caller,
    which `None` stands for here. */
module LegacyEngine {

  import opened Wrappers
  import opened Json
  import opened Categories
  import QuestionPlanner

  /** Python's `int(x / d)` for a positive divisor: the quotient truncated
      toward zero. */
  function TruncDiv(x: int, d: int): (q: int)
    requires d > 0
    ensures x >= 0 ==> q == x / d
    ensures x < 0 ==> q == -((-x) / d)
  {
    if x >= 0 then x / d else -((-x) / d)
  }

  /** `int(n * 0.4)`, `int(n * 0.3)`, `int(n * 0.2)` and the remainder. */
  function LegacyQuotas(n: int): (q: QuestionPlanner.Quotas)
    ensures q.technical + q.scenario + q.behavioral + q.problemSolving == n
  {
    var t := TruncDiv(4 * n, 10);
    var s := TruncDiv(3 * n, 10);
    var b := TruncDiv(2 * n, 10);
    QuestionPlanner.Quotas(t, s, b, n - t - s - b)
  }

  /** The two engines split every number of questions alike. */
  lemma SameQuotasAsNewEngine(n: int)
    ensures LegacyQuotas(n) == QuestionPlanner.PlanQuotas(n)
  {
  }

  /** The questions of `conduct_interview`, keyed by type. */
  type Questions = map<string, seq<Object>>

  /** `questions[t][min(number, len - 1)]['question']` when type `t` has
      questions, with Python's reading of a negative index from the end; `""`
      when the type is absent or has none. None is the IndexError of an index
      before the start or the KeyError of a question without text. */
  function PickQuestion(questions: Questions, number: int, kind: string): (r: Option<Value>)
    ensures kind !in questions || |questions[kind]| == 0 ==> r == Some(Str(""))
    ensures kind in questions && 0 <= number < |questions[kind]| ==>
      r == if "question" in questions[kind][number] then Some(questions[kind][number]["question"]) else None
    ensures kind in questions && 0 < |questions[kind]| <= number ==>
      var last := questions[kind][|questions[kind]| - 1];
      r == if "question" in last then Some(last["question"]) else None
    ensures kind in questions && -|questions[kind]| <= number < 0 ==>
      var picked := questions[kind][|questions[kind]| + number];
      r == if "question" in picked then Some(picked["question"]) else None
    ensures kind in questions && 0 < |questions[kind]| && number < -|questions[kind]| ==> r.None?
  {
    if kind in questions && |questions[kind]| > 0 then
      var list := questions[kind];
      var index := if number < |list| - 1 then number else |list| - 1;
      var position := if index >= 0 then index else |list| + index;
      if 0 <= position < |list| && "question" in list[position] then Some(list[position]["question"])
      else None
    else Some(Str(""))
  }

  /** With a non-negative question number and texts on every question of the
      type, the pick never raises and is a question of that type. */
  lemma PickWithinList(questions: Questions, number: int, kind: string)
    requires number >= 0 && kind in questions && |questions[kind]| > 0
    requires forall i :: 0 <= i < |questions[kind]| ==> "question" in questions[kind][i]
    ensures PickQuestion(questions, number, kind).Some?
    ensures exists i :: 0 <= i < |questions[kind]| && PickQuestion(questions, number, kind).value == questions[kind][i]["question"]
  {
    var n := |questions[kind]|;
    var i := if number < n - 1 then number else n - 1;
    assert PickQuestion(questions, number, kind).value == questions[kind][i]["question"];
  }

  /** One row of the criteria weight table: criterion names and percentages. */
  type Criteria = seq<(string, nat)>

  function TotalPercent(row: Criteria): nat
    decreases |row|
  {
    if row == [] then 0 else row[0].1 + TotalPercent(row[1..])
  }

  const TechnicalCriteria: Criteria :=
    [("technical_accuracy", 40), ("sap_specific_knowledge", 30), ("experience_application", 20), ("clarity", 10)]

  /** `weights.get(question_type, weights["technical"])`. */
  function CriteriaWeights(kind: string): (row: Criteria)
    ensures |row| == 4
    ensures TotalPercent(row) == 100
  {
    if kind == "scenario" then
      [("solution_approach", 30), ("sap_specific_knowledge", 30), ("business_understanding", 20), ("experience_application", 20)]
    else if kind == "behavioral" then
      [("relevant_experience", 40), ("teamwork_approach", 20), ("sap_context_understanding", 20), ("communication_clarity", 20)]
    else if kind == "problem_solving" then
      [("solution_approach", 30), ("technical_understanding", 30), ("experience_application", 20), ("systematic_thinking", 20)]
    else TechnicalCriteria
  }

  /** A type outside the four is weighed like a technical question. */
  lemma UnknownTypeWeighedAsTechnical(kind: string)
    requires forall c :: kind != Name(c)
    ensures CriteriaWeights(kind) == TechnicalCriteria
  {
    assert kind != Name(Scenario) && kind != Name(Behavioral) && kind != Name(ProblemSolving);
  }

  /** The completion percentage of the final report: answered / total · 100
      when a positive total is given, otherwise answered / 10 · 100. */
  function CompletionPercentage(answered: nat, total: Option<int>): (p: real)
    ensures p >= 0.0
  {
    if total.Some? && total.value > 0 then (answered as real / total.value as real) * 100.0
    else (answered as real / 10.0) * 100.0
  }

  /** With a positive total that bounds the answers, the percentage is at
      most 100, and 100 exactly when every question was answered. */
  lemma CompletionPercentageBounded(answered: nat, total: int)
    requires 0 < total && answered <= total
    ensures CompletionPercentage(answered, Some(total)) <= 100.0
    ensures CompletionPercentage(answered, Some(total)) == 100.0 <==> answered == total
  {
    var q := answered as real / total as real;
    assert q * total as real == answered as real;
  }

  /** Without a total, twelve answers count as 120 percent. */
  lemma CompletionPercentageCanExceed()
    ensures CompletionPercentage(12, None) == 120.0
    ensures CompletionPercentage(12, Some(0)) == 120.0
  {
  }

  /** The modules with a specific question hint, and those with a specific
      evaluation guide; BW has the first and not the second. */
  const HintModules: seq<string> := ["FI", "CO", "MM", "SD", "PP", "HCM", "PM", "QM", "WM", "BW", "ABAP"]
  const GuideModules: seq<string> := ["FI", "CO", "MM", "SD", "PP", "HCM", "PM", "QM", "WM", "ABAP"]

  /** Which prompt text a module name selects: the text stored under a known
      module key, or the generic text that quotes the name as given. */
  datatype Selection = Specific(key: string) | Generic(sapModule: string)

  /** `table.get(sap_module.upper(), generic)` for a table with the given keys. */
  function Select(keys: seq<string>, sapModule: string): (r: Selection)
    ensures r.Specific? <==> Upper(sapModule) in keys
    ensures r.Specific? ==> r.key == Upper(sapModule)
    ensures r.Generic? ==> r.sapModule == sapModule
  {
    if Upper(sapModule) in keys then Specific(Upper(sapModule)) else Generic(sapModule)
  }

  function QuestionHint(sapModule: string): Selection { Select(HintModules, sapModule) }

  function EvaluationGuide(sapModule: string): Selection { Select(GuideModules, sapModule) }

  /** The lookup ignores the case of ASCII letters. */
  lemma SelectIgnoresCase(keys: seq<string>, sapModule: string)
    ensures Select(keys, Lower(sapModule)).Specific? <==> Select(keys, sapModule).Specific?
    ensures Select(keys, Lower(sapModule)).Specific? ==> Select(keys, Lower(sapModule)) == Select(keys, sapModule)
  {
    assert Upper(Lower(sapModule)) == Upper(sapModule) by {
      forall i | 0 <= i < |sapModule| ensures UpperChar(LowerChar(sapModule[i])) == UpperChar(sapModule[i]) {
      }
    }
  }

  /** A BW position gets its specific question hint but the generic
      evaluation guide; every module with a guide also has a hint. */
  lemma BwHintWithoutGuide()
    ensures QuestionHint("bw") == Specific("BW")
    ensures EvaluationGuide("bw") == Generic("bw")
    ensures forall m :: EvaluationGuide(m).Specific? ==> QuestionHint(m).Specific?
  {
    assert Upper("bw") == "BW";
    assert HintModules[9] == "BW";
    assert forall k :: k in GuideModules ==> k in HintModules;
  }
}
