/** Answer evaluation in the new engine: whatever the grading service
    returned is turned into an evaluation whose five numeric fields are always
    present, on the 0..10 scale and rounded to one decimal. */
module AnswerScorer {

  import opened Wrappers
  import opened Json
  import opened Rounding

  /** The five numeric fields, in the order the engine visits them. */
  const ScoreFields: seq<string> :=
    ["score", "technical_accuracy", "clarity_of_communication", "relevance", "demonstrated_expertise"]

  /** The eight fields every evaluation must carry. */
  const RequiredFields: seq<string> := ScoreFields + ["strengths", "weaknesses", "feedback"]

  const NoFeedback: string := "No detailed feedback provided."

  /** Python's message for `float()` of an integer beyond the float range. */
  const OverflowMessage: string := "int too large to convert to float"

  /** What the grading call produced. `Failed` stands for every exception
      raised before the fields are examined: the service call, `json.loads`,
      and a reply that is JSON but not an object (the first dictionary
      operation on it raises). */
  datatype Reply = Failed(error: string) | Parsed(result: Object)

  /** The evaluation returned when anything goes wrong. */
  function Fallback(error: string): (r: Object)
    ensures WellFormed(r)
    ensures forall f :: f in ScoreFields ==> r[f] == Num(5.0)
  {
    Round1OfTenths(5.0);
    map[
      "score" := Num(5.0),
      "technical_accuracy" := Num(5.0),
      "clarity_of_communication" := Num(5.0),
      "relevance" := Num(5.0),
      "demonstrated_expertise" := Num(5.0),
      "strengths" := List([Str("Unable to properly evaluate response")]),
      "weaknesses" := List([Str("System could not analyze this response")]),
      "feedback" := Str("Error during evaluation: " + error)
    ]
  }

  /** Every numeric field is present, a number on the 0..10 scale and a
      multiple of a tenth. */
  predicate WellFormed(r: Object) {
    forall f :: f in ScoreFields ==>
      f in r && r[f].Num? && 0.0 <= r[f].x <= 10.0 && IsTenths(r[f].x)
  }

  /** The default a missing required field receives. */
  function Default(field: string): Value {
    if field == "strengths" || field == "weaknesses" then List([])
    else if field == "feedback" then Str(NoFeedback)
    else Num(5.0)
  }

  /** Some numeric field holds an integer that `float()` cannot convert; its
      OverflowError is not among the errors the inner handler catches. */
  predicate Overflows(result: Object) {
    exists f :: f in ScoreFields && f in result && result[f].BigInt?
  }

  /** The value a numeric field ends with when nothing overflows: 5.0 when it
      is missing or not convertible, otherwise the converted number clamped and
      rounded to a tenth. */
  function FieldScore(result: Object, field: string): (s: real)
    requires !(field in result && result[field].BigInt?)
    ensures 0.0 <= s <= 10.0 && IsTenths(s)
    ensures field !in result ==> s == 5.0
    ensures field in result && ToFloat(result[field]).Invalid? ==> s == 5.0
    ensures field in result && ToFloat(result[field]).Converted? ==>
      -0.05 <= s - Clamp(ToFloat(result[field]).x) <= 0.05
    ensures field in result && result[field].Num? && 0.0 <= result[field].x <= 10.0 && IsTenths(result[field].x) ==>
      s == result[field].x
  {
    assert IsTenths(5.0);
    if field !in result then 5.0
    else match ToFloat(result[field])
      case Converted(x) =>
        if 0.0 <= x <= 10.0 && IsTenths(x) then Round1OfTenths(x); ClampRound(x)
        else ClampRound(x)
      case _ => 5.0
  }

  /** The fields of a list, as a set. */
  function FieldSet(fields: seq<string>): (s: set<string>)
    ensures forall f :: f in s <==> f in fields
  {
    set f | f in fields
  }

  /** The first loop of `evaluate_answer`: each of `fields` missing from
      `obj` is added with its default, in turn. */
  function Filled(obj: Object, fields: seq<string>): Object
    decreases |fields|
  {
    if fields == [] then obj
    else Filled(if fields[0] in obj then obj else obj[fields[0] := Default(fields[0])], fields[1..])
  }

  /** Filling adds exactly the missing fields, with their defaults, and keeps
      every value already present. */
  lemma {:induction false} FilledSpec(obj: Object, fields: seq<string>)
    ensures Filled(obj, fields).Keys == obj.Keys + FieldSet(fields)
    ensures forall k :: k in obj ==> Filled(obj, fields)[k] == obj[k]
    ensures forall f :: f in fields && f !in obj ==> Filled(obj, fields)[f] == Default(f)
    decreases |fields|
  {
    if fields != [] {
      var obj1 := if fields[0] in obj then obj else obj[fields[0] := Default(fields[0])];
      FilledSpec(obj1, fields[1..]);
      assert forall f :: f in fields <==> f == fields[0] || f in fields[1..];
    }
  }

  /** The second loop of `evaluate_answer`: each of `fields` is converted,
      clamped and rounded in turn; None when a conversion overflows. */
  function Scored(obj: Object, fields: seq<string>): Option<Object>
    requires forall f :: f in fields ==> f in obj
    decreases |fields|
  {
    if fields == [] then Some(obj)
    else
      var f := fields[0];
      match ToFloat(obj[f])
      case Overflow => None
      case Invalid => Scored(obj[f := Num(5.0)], fields[1..])
      case Converted(x) => Scored(obj[f := Num(ClampRound(x))], fields[1..])
  }

  /** The second loop fails exactly when one of the fields holds an integer
      too large for a float; otherwise it replaces each field by its
      normalised score and changes nothing else. */
  lemma {:induction false} ScoredSpec(obj: Object, fields: seq<string>)
    requires forall f :: f in fields ==> f in obj
    ensures Scored(obj, fields).None? <==> exists f :: f in fields && obj[f].BigInt?
    ensures Scored(obj, fields).Some? ==>
      var r := Scored(obj, fields).value;
      && r.Keys == obj.Keys
      && (forall k :: k in obj && k !in fields ==> r[k] == obj[k])
      && (forall f :: f in fields ==> r[f] == Num(FieldScore(obj, f)))
    decreases |fields|
  {
    if fields != [] {
      var f := fields[0];
      assert forall g :: g in fields <==> g == f || g in fields[1..];
      if !obj[f].BigInt? {
        var obj1 := obj[f := Num(FieldScore(obj, f))];
        assert Scored(obj, fields) == Scored(obj1, fields[1..]);
        ScoredSpec(obj1, fields[1..]);
        forall g | g in fields[1..] && !(g in obj && obj[g].BigInt?)
          ensures FieldScore(obj1, g) == FieldScore(obj, g)
        {
          if g == f {
            assert obj1[g] == Num(FieldScore(obj, f));
          }
        }
      }
    }
  }

  /** The numeric fields are required, and a missing one defaults to 5. */
  lemma ScoreFieldsRequired()
    ensures forall f :: f in ScoreFields ==> f in RequiredFields && Default(f) == Num(5.0)
  {
    forall f | f in ScoreFields ensures f in RequiredFields && Default(f) == Num(5.0) {
      var i :| 0 <= i < |ScoreFields| && ScoreFields[i] == f;
      assert RequiredFields[i] == f;
    }
  }

  /** The two loops together, for any list of required fields and any list
      of numeric fields among them that default to 5. */
  lemma {:induction false} FilledThenScored(obj: Object, required: seq<string>, scores: seq<string>)
    requires forall f :: f in scores ==> f in required && Default(f) == Num(5.0)
    ensures forall f :: f in scores ==> f in Filled(obj, required)
    ensures Scored(Filled(obj, required), scores).None? <==> exists f :: f in scores && f in obj && obj[f].BigInt?
    ensures Scored(Filled(obj, required), scores).Some? ==>
      var r := Scored(Filled(obj, required), scores).value;
      && r.Keys == obj.Keys + FieldSet(required)
      && (forall f :: f in scores ==> f in r && !(f in obj && obj[f].BigInt?) && r[f] == Num(FieldScore(obj, f)))
      && (forall k :: k in obj && k !in scores ==> k in r && r[k] == obj[k])
      && (forall f :: f in required && f !in scores && f !in obj ==> f in r && r[f] == Default(f))
  {
    var filled := Filled(obj, required);
    FilledSpec(obj, required);
    ScoredSpec(filled, scores);
    forall f | f in scores
      ensures (filled[f].BigInt? <==> f in obj && obj[f].BigInt?)
      ensures !filled[f].BigInt? ==> FieldScore(filled, f) == FieldScore(obj, f)
    {
      if f !in obj {
        assert filled[f] == Num(5.0);
      }
    }
  }

  /** The two loops of `evaluate_answer` with its own field lists: the result
      fails exactly when the reply overflows, and otherwise has the required
      keys, the normalised scores of the reply's own fields, the defaults of
      the missing non-numeric fields, and every other value of the reply. */
  lemma ScoredLinks(obj: Object)
    ensures forall f :: f in ScoreFields ==> f in Filled(obj, RequiredFields)
    ensures Scored(Filled(obj, RequiredFields), ScoreFields).None? <==> Overflows(obj)
    ensures !Overflows(obj) ==>
      var r := Scored(Filled(obj, RequiredFields), ScoreFields).value;
      && r.Keys == obj.Keys + FieldSet(RequiredFields)
      && (forall f :: f in ScoreFields ==> r[f] == Num(FieldScore(obj, f)))
      && (forall k :: k in obj && k !in ScoreFields ==> k in r && r[k] == obj[k])
      && (forall f :: f in RequiredFields && f !in ScoreFields && f !in obj ==> f in r && r[f] == Default(f))
  {
    ScoreFieldsRequired();
    FilledThenScored(obj, RequiredFields, ScoreFields);
  }

  /** `evaluate_answer` after the grading call. It never fails: a failed call,
      or an integer too large for a float in a numeric field, gives the
      fallback evaluation; otherwise every required field is present, the
      numeric ones normalised, the other required ones defaulted only when
      absent, and every other key left as the service sent it. */
  method EvaluateAnswer(reply: Reply) returns (r: Object)
    ensures WellFormed(r)
    ensures reply.Failed? ==> r == Fallback(reply.error)
    ensures reply.Parsed? && Overflows(reply.result) ==> r == Fallback(OverflowMessage)
    ensures reply.Parsed? && !Overflows(reply.result) ==>
      var obj := reply.result;
      && r.Keys == obj.Keys + FieldSet(RequiredFields)
      && (forall f :: f in ScoreFields ==> r[f] == Num(FieldScore(obj, f)))
      && (forall k :: k in obj && k !in ScoreFields ==> k in r && r[k] == obj[k])
      && (forall f :: f in RequiredFields && f !in ScoreFields && f !in obj ==> f in r && r[f] == Default(f))
  {
    if reply.Failed? {
      return Fallback(reply.error);
    }
    var obj := reply.result;
    var result := obj;
    for i := 0 to |RequiredFields|
      invariant Filled(result, RequiredFields[i..]) == Filled(obj, RequiredFields)
    {
      var field := RequiredFields[i];
      if field !in result {
        result := result[field := Default(field)];
      }
      assert RequiredFields[i..][1..] == RequiredFields[i + 1..];
    }
    assert RequiredFields[|RequiredFields|..] == [];
    ghost var filled := result;
    FilledSpec(obj, RequiredFields);
    assert forall f :: f in ScoreFields ==> f in RequiredFields;
    for j := 0 to |ScoreFields|
      invariant forall f :: f in ScoreFields ==> f in result
      invariant Scored(result, ScoreFields[j..]) == Scored(filled, ScoreFields)
    {
      var field := ScoreFields[j];
      assert ScoreFields[j..][1..] == ScoreFields[j + 1..];
      match ToFloat(result[field])
      case Overflow =>
        ScoredLinks(obj);
        return Fallback(OverflowMessage);
      case Invalid =>
        result := result[field := Num(5.0)];
      case Converted(x) =>
        result := result[field := Num(ClampRound(x))];
    }
    assert ScoreFields[|ScoreFields|..] == [];
    ScoredLinks(obj);
    r := result;
  }
}
