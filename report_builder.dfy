/** Final report assembly in the new engine: the completion rate, the mean
    score of each category, the weighted overall score over the categories
    that have scored answers, and the merge of these figures over whatever the
    narrative service wrote, with a fallback that zeroes everything. */
module ReportBuilder {

  import opened Wrappers
  import opened Json
  import opened Rounding
  import opened Categories

  /** The `answer` entry of one interview result. `NoAnswer` is a missing or
      None entry; `EmptyAnswer` is one that is present but falsy (an empty
      record); `Answered` carries the stored evaluation. */
  datatype AnswerSlot = NoAnswer | EmptyAnswer | Answered(evaluation: Object)

  /** One interview result handed to the report builder. */
  datatype Item = Item(question: string, kind: string, answer: AnswerSlot)

  /** `q.get('answer') is not None`. */
  predicate HasAnswer(item: Item) { !item.answer.NoAnswer? }

  /** The number of results whose answer is not None. */
  function CountAnswered(items: seq<Item>): (n: nat)
    ensures n <= |items|
    ensures n == |items| <==> forall i :: 0 <= i < |items| ==> HasAnswer(items[i])
    ensures n == 0 <==> forall i :: 0 <= i < |items| ==> !HasAnswer(items[i])
    decreases |items|
  {
    if items == [] then 0
    else CountAnswered(items[..|items| - 1]) + (if HasAnswer(items[|items| - 1]) then 1 else 0)
  }

  /** answered / total, or 0 for no results. */
  function CompletionRate(items: seq<Item>): (rate: real)
  {
    if |items| > 0 then CountAnswered(items) as real / |items| as real else 0.0
  }

  /** The completion rate is a fraction: 1 exactly when every result is
      answered and 0 exactly when none is. */
  lemma CompletionRateRange(items: seq<Item>)
    ensures 0.0 <= CompletionRate(items) <= 1.0
    ensures |items| > 0 ==>
      (CompletionRate(items) == 1.0 <==> forall i :: 0 <= i < |items| ==> HasAnswer(items[i]))
    ensures CompletionRate(items) == 0.0 <==> forall i :: 0 <= i < |items| ==> !HasAnswer(items[i])
  {
    if |items| > 0 {
      FractionRange(CountAnswered(items) as real, |items| as real);
    }
  }

  /** A quotient of `n` by a larger positive `t` is a fraction, 1 exactly
      when they are equal and 0 exactly when `n` is. */
  lemma FractionRange(n: real, t: real)
    requires 0.0 <= n <= t && t > 0.0
    ensures 0.0 <= n / t <= 1.0
    ensures n / t == 1.0 <==> n == t
    ensures n / t == 0.0 <==> n == 0.0
  {
    assert n / t * t == n;
  }

  /** `evaluation.get('score', 0)`. */
  function ScoreOf(evaluation: Object): Value {
    Get(evaluation, "score", Num(0.0))
  }

  /** The result's score is collected for category `c`: its answer is truthy
      and its type, lower-cased, is the name of `c`. */
  predicate ScoredIn(item: Item, c: Category) {
    item.answer.Answered? && OfType(item.kind) == Some(c)
  }

  /** `scores_by_type[c]` after the collecting loop: the scores of the results
      filed under `c`, in order. */
  function CategoryScores(items: seq<Item>, c: Category): (vs: seq<Value>)
    ensures |vs| <= |items|
    decreases |items|
  {
    if items == [] then []
    else
      var last := items[|items| - 1];
      CategoryScores(items[..|items| - 1], c) + (if ScoredIn(last, c) then [ScoreOf(last.answer.evaluation)] else [])
  }

  /** Every collected score of `c` is the score of a result filed under `c`. */
  lemma {:induction false} CategoryScoresFrom(items: seq<Item>, c: Category)
    ensures forall v :: v in CategoryScores(items, c) ==>
      exists i :: 0 <= i < |items| && ScoredIn(items[i], c) && ScoreOf(items[i].answer.evaluation) == v
    decreases |items|
  {
    if items != [] {
      var init := items[..|items| - 1];
      CategoryScoresFrom(init, c);
      forall v | v in CategoryScores(items, c)
        ensures exists i :: 0 <= i < |items| && ScoredIn(items[i], c) && ScoreOf(items[i].answer.evaluation) == v
      {
        if v in CategoryScores(init, c) {
          var i :| 0 <= i < |init| && ScoredIn(init[i], c) && ScoreOf(init[i].answer.evaluation) == v;
          assert items[i] == init[i];
        } else {
          assert ScoredIn(items[|items| - 1], c);
        }
      }
    }
  }

  /** The reals `sum` adds up, or None when one of the values makes `sum` or
      the division after it raise. */
  function Numbers(vs: seq<Value>): (r: Option<seq<real>>)
    ensures r.Some? ==> |r.value| == |vs| && forall i :: 0 <= i < |vs| ==> AsNumber(vs[i]) == Some(r.value[i])
    ensures r.None? ==> exists i :: 0 <= i < |vs| && AsNumber(vs[i]).None?
    decreases |vs|
  {
    if vs == [] then Some([])
    else
      match (Numbers(vs[..|vs| - 1]), AsNumber(vs[|vs| - 1]))
      case (Some(xs), Some(x)) => Some(xs + [x])
      case (None, _) => None
      case (_, None) => None
  }

  function Sum(xs: seq<real>): real
    decreases |xs|
  {
    if xs == [] then 0.0 else Sum(xs[..|xs| - 1]) + xs[|xs| - 1]
  }

  /** `sum(xs) / len(xs)`, or 0 for an empty category. */
  function Mean(xs: seq<real>): real {
    if |xs| == 0 then 0.0 else Sum(xs) / |xs| as real
  }

  /** A sum of values between `lo` and `hi` lies between |xs|·lo and |xs|·hi. */
  lemma {:induction false} SumBounds(xs: seq<real>, lo: real, hi: real)
    requires forall i :: 0 <= i < |xs| ==> lo <= xs[i] <= hi
    ensures |xs| as real * lo <= Sum(xs) <= |xs| as real * hi
    decreases |xs|
  {
    if xs != [] {
      SumBounds(xs[..|xs| - 1], lo, hi);
    }
  }

  /** The mean of values between `lo` and `hi` lies between them. */
  lemma MeanBounds(xs: seq<real>, lo: real, hi: real)
    requires |xs| > 0
    requires forall i :: 0 <= i < |xs| ==> lo <= xs[i] <= hi
    ensures lo <= Mean(xs) <= hi
  {
    SumBounds(xs, lo, hi);
    var n := |xs| as real;
    assert Sum(xs) / n * n == Sum(xs);
  }

  /** A skipped question stores score 0, and that zero is averaged in: one
      more zero turns the mean into sum / (n + 1), never above the old mean
      when the scores are not negative. */
  lemma ZeroLowersMean(xs: seq<real>)
    requires forall i :: 0 <= i < |xs| ==> xs[i] >= 0.0
    ensures Mean(xs + [0.0]) == Sum(xs) / (|xs| + 1) as real
    ensures |xs| > 0 ==> Mean(xs + [0.0]) <= Mean(xs)
  {
    assert (xs + [0.0])[..|xs|] == xs;
    if |xs| > 0 {
      SumNonNegative(xs);
      var n := |xs| as real;
      DivideByMore(Sum(xs), n, n + 1.0);
    }
  }

  lemma {:induction false} SumNonNegative(xs: seq<real>)
    requires forall i :: 0 <= i < |xs| ==> xs[i] >= 0.0
    ensures Sum(xs) >= 0.0
    decreases |xs|
  {
    if xs != [] {
      SumNonNegative(xs[..|xs| - 1]);
    }
  }

  lemma DivideByMore(s: real, a: real, b: real)
    requires s >= 0.0 && 0.0 < a <= b
    ensures s / b <= s / a
  {
    var p := s / a;
    var q := s / b;
    assert p * a == s && q * b == s;
    assert q * a <= q * b;
  }

  /** A result skipped in the interview carries the stored evaluation of a
      skip, whose score is 0; it is filed under its category like any other
      answer, so it adds a zero to that category's scores. */
  lemma SkipIsAveragedIn(items: seq<Item>, question: string, c: Category, evaluation: Object)
    requires ScoreOf(evaluation) == Num(0.0)
    ensures CategoryScores(items + [Item(question, Name(c), Answered(evaluation))], c)
      == CategoryScores(items, c) + [Num(0.0)]
  {
    OfTypeOfName(c);
    assert (items + [Item(question, Name(c), Answered(evaluation))])[..|items|] == items;
  }

  /** The weighted sum of the means of the first `k` categories that have
      scores, and the sum of their weights. */
  function PartialSum(means: seq<real>, present: seq<bool>, k: nat): real
    requires |means| == |present| == |All| && k <= |All|
  {
    if k == 0 then 0.0
    else PartialSum(means, present, k - 1) + (if present[k - 1] then means[k - 1] * Weight(All[k - 1]) else 0.0)
  }

  function PartialWeight(present: seq<bool>, k: nat): (w: real)
    requires |present| == |All| && k <= |All|
    ensures w >= 0.0
  {
    if k == 0 then 0.0
    else PartialWeight(present, k - 1) + (if present[k - 1] then Weight(All[k - 1]) else 0.0)
  }

  /** The overall score: the weighted mean over the categories with scores,
      or 0 when none has any. */
  function Overall(means: seq<real>, present: seq<bool>): real
    requires |means| == |present| == |All|
  {
    var w := PartialWeight(present, |All|);
    if w > 0.0 then PartialSum(means, present, |All|) / w else 0.0
  }

  /** The weighted sum lies between the weight times the smallest and the
      largest mean of the categories counted. */
  lemma PartialSumBounds(means: seq<real>, present: seq<bool>, k: nat, lo: real, hi: real)
    requires |means| == |present| == |All| && k <= |All|
    requires forall i :: 0 <= i < |All| && present[i] ==> lo <= means[i] <= hi
    ensures lo * PartialWeight(present, k) <= PartialSum(means, present, k) <= hi * PartialWeight(present, k)
  {
    PartialSumAbove(means, present, k, lo);
    PartialSumBelow(means, present, k, hi);
  }

  lemma {:induction false} PartialSumAbove(means: seq<real>, present: seq<bool>, k: nat, lo: real)
    requires |means| == |present| == |All| && k <= |All|
    requires forall i :: 0 <= i < |All| && present[i] ==> lo <= means[i]
    ensures lo * PartialWeight(present, k) <= PartialSum(means, present, k)
  {
    if k > 0 {
      PartialSumAbove(means, present, k - 1, lo);
      var p := PartialWeight(present, k - 1);
      var s := PartialSum(means, present, k - 1);
      if present[k - 1] {
        var w := Weight(All[k - 1]);
        var m := means[k - 1];
        assert PartialWeight(present, k) == p + w;
        assert PartialSum(means, present, k) == s + m * w;
        StepAbove(lo, p, s, m, w);
      } else {
        assert PartialWeight(present, k) == p;
        assert PartialSum(means, present, k) == s;
      }
    }
  }

  lemma {:induction false} PartialSumBelow(means: seq<real>, present: seq<bool>, k: nat, hi: real)
    requires |means| == |present| == |All| && k <= |All|
    requires forall i :: 0 <= i < |All| && present[i] ==> means[i] <= hi
    ensures PartialSum(means, present, k) <= hi * PartialWeight(present, k)
  {
    if k > 0 {
      PartialSumBelow(means, present, k - 1, hi);
      var p := PartialWeight(present, k - 1);
      var s := PartialSum(means, present, k - 1);
      if present[k - 1] {
        var w := Weight(All[k - 1]);
        var m := means[k - 1];
        assert PartialWeight(present, k) == p + w;
        assert PartialSum(means, present, k) == s + m * w;
        StepBelow(hi, p, s, m, w);
      } else {
        assert PartialWeight(present, k) == p;
        assert PartialSum(means, present, k) == s;
      }
    }
  }

  /** One more category of weight `w` and mean `m` keeps the weighted sum
      within each bound. */
  lemma StepAbove(lo: real, p: real, s: real, m: real, w: real)
    requires lo * p <= s && lo <= m && w >= 0.0
    ensures lo * (p + w) <= s + m * w
  {
    MultiplyBounds(lo, m, m, w);
    assert lo * (p + w) == lo * p + lo * w;
  }

  lemma StepBelow(hi: real, p: real, s: real, m: real, w: real)
    requires s <= hi * p && m <= hi && w >= 0.0
    ensures s + m * w <= hi * (p + w)
  {
    MultiplyBounds(m, m, hi, w);
    assert hi * (p + w) == hi * p + hi * w;
  }

  lemma MultiplyBounds(lo: real, m: real, hi: real, w: real)
    requires lo <= m <= hi && w >= 0.0
    ensures lo * w <= m * w <= hi * w
  {
  }

  lemma MultiplyStrict(a: real, b: real, w: real)
    requires a < b && w > 0.0
    ensures a * w < b * w
  {
  }

  /** A quotient by a positive `w` of a value between `lo·w` and `hi·w` lies
      between `lo` and `hi`. */
  lemma DivideBounds(s: real, w: real, lo: real, hi: real)
    requires w > 0.0 && lo * w <= s <= hi * w
    ensures lo <= s / w <= hi
  {
    var q := s / w;
    assert q * w == s;
    if q < lo {
      MultiplyStrict(q, lo, w);
    }
    if q > hi {
      MultiplyStrict(hi, q, w);
    }
  }

  /** The overall score is a weighted mean: when some category has scores,
      it lies between the smallest and the largest mean of the categories
      that have them. */
  lemma OverallBounds(means: seq<real>, present: seq<bool>, lo: real, hi: real)
    requires |means| == |present| == |All|
    requires exists i :: 0 <= i < |All| && present[i]
    requires forall i :: 0 <= i < |All| && present[i] ==> lo <= means[i] <= hi
    ensures lo <= Overall(means, present) <= hi
  {
    var i :| 0 <= i < |All| && present[i];
    WeightPositive(present, |All|, i);
    PartialSumBounds(means, present, |All|, lo, hi);
    DivideBounds(PartialSum(means, present, |All|), PartialWeight(present, |All|), lo, hi);
  }

  /** When no category has scores, the overall score is 0. */
  lemma OverallWithoutScores(means: seq<real>, present: seq<bool>)
    requires |means| == |present| == |All|
    requires forall i :: 0 <= i < |All| ==> !present[i]
    ensures Overall(means, present) == 0.0
  {
    WeightZero(present, |All|);
  }

  /** A counted category makes the weight positive. */
  lemma {:induction false} WeightPositive(present: seq<bool>, k: nat, i: nat)
    requires |present| == |All| && i < k <= |All| && present[i]
    ensures PartialWeight(present, k) > 0.0
  {
    if i < k - 1 {
      WeightPositive(present, k - 1, i);
    }
  }

  lemma {:induction false} WeightZero(present: seq<bool>, k: nat)
    requires |present| == |All| && k <= |All|
    requires forall i :: 0 <= i < k ==> !present[i]
    ensures PartialWeight(present, k) == 0.0
  {
    if k > 0 {
      WeightZero(present, k - 1);
    }
  }

  /** A category without scores does not dilute the overall score: its mean
      and its weight take no part. */
  lemma {:induction false} PartialIgnoresAbsent(means: seq<real>, means': seq<real>, present: seq<bool>, k: nat)
    requires |means| == |means'| == |present| == |All| && k <= |All|
    requires forall i :: 0 <= i < |All| && present[i] ==> means[i] == means'[i]
    ensures PartialSum(means, present, k) == PartialSum(means', present, k)
  {
    if k > 0 {
      PartialIgnoresAbsent(means, means', present, k - 1);
    }
  }

  lemma OverallIgnoresAbsent(means: seq<real>, means': seq<real>, present: seq<bool>)
    requires |means| == |means'| == |present| == |All|
    requires forall i :: 0 <= i < |All| && present[i] ==> means[i] == means'[i]
    ensures Overall(means, present) == Overall(means', present)
  {
    PartialIgnoresAbsent(means, means', present, |All|);
  }

  /** Technical 8, behavioral 6 and problem solving 4 with no scenario
      answers: 4.7 / 0.7, reported as 6.7. */
  lemma OverallExample()
    ensures Overall([8.0, 0.0, 6.0, 4.0], [true, false, true, true]) == 4.7 / 0.7
    ensures Round1(Overall([8.0, 0.0, 6.0, 4.0], [true, false, true, true])) == 6.7
  {
    assert PartialSum([8.0, 0.0, 6.0, 4.0], [true, false, true, true], 4) == 4.7;
    assert PartialWeight([true, false, true, true], 4) == 0.7;
    RoundHalfEvenUnique(47.0 / 0.7, 67);
  }

  /** The five reported scores. */
  datatype ScoreCard = ScoreCard(overall: real, technical: real, scenario: real, behavioral: real, problemSolving: real)

  /** The report: the narrative fields, the scores and the completion rate. */
  datatype Report = Report(narrative: Object, scores: ScoreCard, completionRate: real)

  /** The `scores` dictionary of the report. */
  function ScoresObject(s: ScoreCard): (o: Object)
    ensures o.Keys == {"overall", "technical", "scenario", "behavioral", "problem_solving"}
  {
    map["overall" := Num(s.overall), "technical" := Num(s.technical), "scenario" := Num(s.scenario),
        "behavioral" := Num(s.behavioral), "problem_solving" := Num(s.problemSolving)]
  }

  /** The report as the dictionary the engine returns: the narrative with
      `scores` and `completion_rate` written over it. */
  function AsObject(r: Report): (o: Object)
    ensures "scores" in o && o["scores"] == Obj(ScoresObject(r.scores))
    ensures "completion_rate" in o && o["completion_rate"] == Num(r.completionRate)
    ensures forall k :: k in r.narrative && k != "scores" && k != "completion_rate" ==> k in o && o[k] == r.narrative[k]
    ensures o.Keys == r.narrative.Keys + {"scores", "completion_rate"}
  {
    r.narrative["scores" := Obj(ScoresObject(r.scores))]["completion_rate" := Num(r.completionRate)]
  }

  /** What the narrative call produced: a JSON object, or any failure (the
      call, `json.loads`, or a reply that is not an object). */
  datatype NarrativeReply = NarrativeFailed(error: string) | NarrativeParsed(assessment: Object)

  const Unavailable: string := "Unable to determine"

  /** The message standing for the TypeError of `sum` over a non-numeric score
      and the OverflowError of the division after it. */
  const ArithmeticError: string := "unsupported operand type(s) for +"

  /** The narrative part of the report returned on any failure. */
  function FallbackNarrative(error: string): (n: Object)
    ensures "recommendation" in n && n["recommendation"] == Str(Unavailable)
  {
    map[
      "overall_assessment" := Str("Could not generate a comprehensive assessment due to an error."),
      "technical_skills" := Obj(map[
        "assessment" := Str("Technical skills assessment could not be completed."),
        "strengths" := List([]),
        "weaknesses" := List([])]),
      "communication_skills" := Obj(map["assessment" := Str("Communication skills assessment could not be completed.")]),
      "problem_solving" := Obj(map["assessment" := Str("Problem solving assessment could not be completed.")]),
      "key_strengths" := List([Str("Unable to determine key strengths")]),
      "areas_for_improvement" := List([Str("Unable to determine areas for improvement")]),
      "key_observations" := List([Str("System encountered an error during final assessment")]),
      "interview_completion" := Obj(map["assessment" := Str("The candidate completed 0% of the interview questions.")]),
      "recommendation" := Str(Unavailable),
      "reasoning" := Str("An error occurred during the final assessment: " + error)
    ]
  }

  function FallbackReport(error: string): Report {
    Report(FallbackNarrative(error), ScoreCard(0.0, 0.0, 0.0, 0.0, 0.0), 0.0)
  }

  /** Every category's scores can be summed. */
  predicate Summable(items: seq<Item>) {
    forall c :: Numbers(CategoryScores(items, c)).Some?
  }

  function CategoryMean(items: seq<Item>, c: Category): real
    requires Summable(items)
  {
    Mean(Numbers(CategoryScores(items, c)).value)
  }

  function Means(items: seq<Item>): (ms: seq<real>)
    requires Summable(items)
    ensures |ms| == |All|
    ensures forall i :: 0 <= i < |All| ==> ms[i] == CategoryMean(items, All[i])
  {
    [CategoryMean(items, Technical), CategoryMean(items, Scenario),
     CategoryMean(items, Behavioral), CategoryMean(items, ProblemSolving)]
  }

  function Present(items: seq<Item>): (ps: seq<bool>)
    ensures |ps| == |All|
    ensures forall i :: 0 <= i < |All| ==> ps[i] == (CategoryScores(items, All[i]) != [])
  {
    [CategoryScores(items, Technical) != [], CategoryScores(items, Scenario) != [],
     CategoryScores(items, Behavioral) != [], CategoryScores(items, ProblemSolving) != []]
  }

  /** The scores computed locally, each rounded to one decimal. */
  function LocalScores(items: seq<Item>): ScoreCard
    requires Summable(items)
  {
    ScoreCard(
      Round1(Overall(Means(items), Present(items))),
      Round1(CategoryMean(items, Technical)),
      Round1(CategoryMean(items, Scenario)),
      Round1(CategoryMean(items, Behavioral)),
      Round1(CategoryMean(items, ProblemSolving)))
  }

  /** The report `generate_final_report` returns. A score that cannot be
      summed raises before the narrative is requested, and any failure gives
      the fallback; otherwise the local scores and completion rate replace
      whatever the narrative carried under those keys. */
  function BuildReport(items: seq<Item>, reply: NarrativeReply): Report {
    if !Summable(items) then FallbackReport(ArithmeticError)
    else match reply
      case NarrativeFailed(error) => FallbackReport(error)
      case NarrativeParsed(assessment) =>
        Report(assessment - {"scores", "completion_rate"}, LocalScores(items), CompletionRate(items))
  }

  /** Every score of a result filed under one of the four categories is a
      number on the 0..10 scale, as every evaluation the engine produces is. */
  predicate ScoresOnScale(items: seq<Item>) {
    forall i, c :: 0 <= i < |items| && ScoredIn(items[i], c) ==>
      ScoreOf(items[i].answer.evaluation).Num? && 0.0 <= ScoreOf(items[i].answer.evaluation).x <= 10.0
  }

  lemma CategoryOnScale(items: seq<Item>, c: Category)
    requires ScoresOnScale(items)
    ensures Numbers(CategoryScores(items, c)).Some?
    ensures 0.0 <= Mean(Numbers(CategoryScores(items, c)).value) <= 10.0
  {
    var vs := CategoryScores(items, c);
    CategoryScoresFrom(items, c);
    assert forall j :: 0 <= j < |vs| ==> vs[j].Num? && 0.0 <= vs[j].x <= 10.0 by {
      forall j | 0 <= j < |vs| ensures vs[j].Num? && 0.0 <= vs[j].x <= 10.0 {
        assert vs[j] in vs;
        var i :| 0 <= i < |items| && ScoredIn(items[i], c) && ScoreOf(items[i].answer.evaluation) == vs[j];
      }
    }
    var xs := Numbers(vs).value;
    if |xs| > 0 {
      MeanBounds(xs, 0.0, 10.0);
    }
  }

  /** With scores on the scale and a parsed narrative, the report carries the
      local figures: five scores on the scale, each a multiple of a tenth, and
      the true completion rate; the narrative keeps every other key. */
  lemma ReportOnScale(items: seq<Item>, assessment: Object)
    requires ScoresOnScale(items)
    ensures Summable(items)
    ensures var r := BuildReport(items, NarrativeParsed(assessment));
      var s := r.scores;
      && 0.0 <= s.overall <= 10.0 && 0.0 <= s.technical <= 10.0 && 0.0 <= s.scenario <= 10.0
      && 0.0 <= s.behavioral <= 10.0 && 0.0 <= s.problemSolving <= 10.0
      && IsTenths(s.overall) && IsTenths(s.technical) && IsTenths(s.scenario)
      && IsTenths(s.behavioral) && IsTenths(s.problemSolving)
      && r.completionRate == CompletionRate(items)
      && (forall k :: k in assessment && k != "scores" && k != "completion_rate" ==> k in r.narrative && r.narrative[k] == assessment[k])
  {
    forall c ensures Numbers(CategoryScores(items, c)).Some? {
      CategoryOnScale(items, c);
    }
    forall c ensures 0.0 <= CategoryMean(items, c) <= 10.0 {
      CategoryOnScale(items, c);
    }
    var ms := Means(items);
    if exists i :: 0 <= i < |All| && Present(items)[i] {
      OverallBounds(ms, Present(items), 0.0, 10.0);
    } else {
      OverallWithoutScores(ms, Present(items));
    }
    Round1InRange(Overall(ms, Present(items)));
    forall c ensures 0.0 <= Round1(CategoryMean(items, c)) <= 10.0 {
      Round1InRange(CategoryMean(items, c));
    }
  }

  /** Any failure zeroes the scores and the completion rate and gives the
      recommendation "Unable to determine", whatever was computed before. */
  lemma FallbackZeroes(items: seq<Item>, reply: NarrativeReply)
    requires !Summable(items) || reply.NarrativeFailed?
    ensures var r := BuildReport(items, reply);
      && r.scores == ScoreCard(0.0, 0.0, 0.0, 0.0, 0.0) && r.completionRate == 0.0
      && r.narrative["recommendation"] == Str(Unavailable)
  {
  }

  /** A non-numeric score filed under a category makes the report fall back,
      even when the narrative service would have answered. */
  lemma NonNumericScoreFallsBack(items: seq<Item>, i: int, c: Category, assessment: Object)
    requires 0 <= i < |items| && ScoredIn(items[i], c)
    requires AsNumber(ScoreOf(items[i].answer.evaluation)).None?
    ensures BuildReport(items, NarrativeParsed(assessment)) == FallbackReport(ArithmeticError)
  {
    CategoryScoresHas(items, i, c);
  }

  /** The score of a result filed under `c` is among the collected scores. */
  lemma {:induction false} CategoryScoresHas(items: seq<Item>, i: int, c: Category)
    requires 0 <= i < |items| && ScoredIn(items[i], c)
    ensures ScoreOf(items[i].answer.evaluation) in CategoryScores(items, c)
    decreases |items|
  {
    if i < |items| - 1 {
      CategoryScoresHas(items[..|items| - 1], i, c);
    }
  }

  /** The counting and collecting pass of `generate_final_report`: the number
      of answered results and `scores_by_type`. */
  method CollectScores(items: seq<Item>) returns (answered: nat, byType: map<Category, seq<Value>>)
    ensures answered == CountAnswered(items)
    ensures forall c :: c in byType && byType[c] == CategoryScores(items, c)
  {
    answered := 0;
    byType := map[Technical := [], Scenario := [], Behavioral := [], ProblemSolving := []];
    assert items[..0] == [];
    assert forall c :: c in byType && byType[c] == [] by {
      forall c ensures c in byType && byType[c] == [] {
        match c
        case Technical =>
        case Scenario =>
        case Behavioral =>
        case ProblemSolving =>
      }
    }
    for i := 0 to |items|
      invariant answered == CountAnswered(items[..i])
      invariant forall c :: c in byType && byType[c] == CategoryScores(items[..i], c)
    {
      var item := items[i];
      assert items[..i + 1][..i] == items[..i];
      if HasAnswer(item) {
        answered := answered + 1;
      }
      if item.answer.Answered? {
        match OfType(item.kind)
        case Some(c) =>
          byType := byType[c := byType[c] + [ScoreOf(item.answer.evaluation)]];
        case None =>
      }
    }
    assert items[..|items|] == items;
  }

  /** The averaging loop of `generate_final_report`; `ok` is false when some
      category's scores cannot be summed, as `sum` then raises. */
  method AverageScores(items: seq<Item>, byType: map<Category, seq<Value>>)
      returns (ok: bool, means: seq<real>, present: seq<bool>)
    requires forall c :: c in byType && byType[c] == CategoryScores(items, c)
    ensures ok == Summable(items)
    ensures ok ==> means == Means(items) && present == Present(items)
  {
    means := [];
    present := [];
    for k := 0 to |All|
      invariant |means| == |present| == k
      invariant forall j :: 0 <= j < k ==>
        && Numbers(CategoryScores(items, All[j])).Some?
        && means[j] == Mean(Numbers(CategoryScores(items, All[j])).value)
        && present[j] == (CategoryScores(items, All[j]) != [])
    {
      var scores := byType[All[k]];
      match Numbers(scores)
      case None =>
        return false, means, present;
      case Some(xs) =>
        means := means + [Mean(xs)];
        present := present + [scores != []];
    }
    forall c ensures Numbers(CategoryScores(items, c)).Some? {
      InAll(c);
    }
    ok := true;
  }

  /** The weighting loop: `overall_score` and `total_weight` accumulated over
      the categories with scores, then divided. */
  method WeightedOverall(means: seq<real>, present: seq<bool>) returns (overall: real)
    requires |means| == |present| == |All|
    ensures overall == Overall(means, present)
  {
    overall := 0.0;
    var totalWeight := 0.0;
    for k := 0 to |All|
      invariant overall == PartialSum(means, present, k)
      invariant totalWeight == PartialWeight(present, k)
    {
      if present[k] {
        overall := overall + means[k] * Weight(All[k]);
        totalWeight := totalWeight + Weight(All[k]);
      }
    }
    overall := if totalWeight > 0.0 then overall / totalWeight else 0.0;
  }

  /** `generate_final_report` after the narrative call: the counting and
      collecting pass, the category means, the weighted overall score, and the
      merge over the narrative or the fallback. */
  method GenerateFinalReport(items: seq<Item>, reply: NarrativeReply) returns (r: Report)
    ensures r == BuildReport(items, reply)
  {
    var answered, byType := CollectScores(items);
    var rate := if |items| > 0 then answered as real / |items| as real else 0.0;
    var ok, means, present := AverageScores(items, byType);
    if !ok {
      return FallbackReport(ArithmeticError);
    }
    var overall := WeightedOverall(means, present);
    var scores := ScoreCard(Round1(overall), Round1(means[0]), Round1(means[1]), Round1(means[2]), Round1(means[3]));
    match reply
    case NarrativeFailed(error) =>
      r := FallbackReport(error);
    case NarrativeParsed(assessment) =>
      r := Report(assessment - {"scores", "completion_rate"}, scores, rate);
  }
}
