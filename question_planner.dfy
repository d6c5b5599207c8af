/** Question planning in the new engine: the per-category quota split and the
    normalisation of whatever the generation service returned, so that the
    result always carries the four category keys. */
module QuestionPlanner {

  import opened Wrappers
  import opened Json
  import opened Categories

  /** The number of questions asked of the service per category. */
  datatype Quotas = Quotas(technical: int, scenario: int, behavioral: int, problemSolving: int)

  /** `int(n * tenths / 10)`: the share truncated toward zero, as Python's
      `int()` truncates the float product. */
  function TruncatedShare(n: int, tenths: nat): (r: int)
    requires tenths <= 10
    ensures n >= 0 ==> 0 <= 10 * r <= n * tenths < 10 * r + 10
    ensures n < 0 ==> 10 * r - 10 < n * tenths <= 10 * r <= 0
  {
    if n >= 0 then (n * tenths) / 10 else -((-n * tenths) / 10)
  }

  /** The split of `n` questions: 40%, 30% and 20% truncated, the rest to
      problem solving. */
  function PlanQuotas(n: int): (q: Quotas)
    ensures q.technical + q.scenario + q.behavioral + q.problemSolving == n
    ensures n >= 0 ==> q.technical == (4 * n) / 10 && q.scenario == (3 * n) / 10 && q.behavioral == (2 * n) / 10
  {
    var t := TruncatedShare(n, 4);
    var s := TruncatedShare(n, 3);
    var b := TruncatedShare(n, 2);
    Quotas(t, s, b, n - t - s - b)
  }

  /** For every non-negative total, no quota is negative and problem solving,
      which absorbs the three truncations, gets its tenth and less than three
      questions more. */
  lemma QuotasNonNegative(n: int)
    requires n >= 0
    ensures var q := PlanQuotas(n);
      q.technical >= 0 && q.scenario >= 0 && q.behavioral >= 0 && q.problemSolving >= 0
    ensures n <= 10 * PlanQuotas(n).problemSolving < n + 30
  {
    var q := PlanQuotas(n);
    assert 10 * q.technical <= 4 * n < 10 * q.technical + 10;
    assert 10 * q.scenario <= 3 * n < 10 * q.scenario + 10;
    assert 10 * q.behavioral <= 2 * n < 10 * q.behavioral + 10;
  }

  /** The default interview of twenty questions asks for 8, 6, 4 and 2. */
  lemma TwentyQuestions()
    ensures PlanQuotas(20) == Quotas(8, 6, 4, 2)
  {
  }

  /** One entry of the service's reply: a key and its value, which the
      service is asked to make a list of question objects but may be any
      JSON value, in the order the JSON object listed them. */
  type Entry = (string, Value)

  /** What the generation call produced: the items of a parsed JSON object,
      or any exception (network, timeout, malformed JSON, or a parsed reply
      that is not an object, on which the membership test or the assignment
      of a missing category raises). */
  datatype GenReply = GenFailed(error: string) | GenParsed(entries: seq<Entry>)

  /** The keys of the entries, in order. */
  function KeysOf(entries: seq<Entry>): (keys: seq<string>)
    ensures |keys| == |entries|
    ensures forall i :: 0 <= i < |entries| ==> keys[i] == entries[i].0
  {
    seq(|entries|, i requires 0 <= i < |entries| => entries[i].0)
  }

  /** `key in result`. */
  predicate HasKey(entries: seq<Entry>, key: string) {
    key in KeysOf(entries)
  }

  /** The keys of a dictionary are distinct. */
  predicate DistinctKeys(entries: seq<Entry>) {
    forall i, j :: 0 <= i < j < |entries| ==> entries[i].0 != entries[j].0
  }

  /** `if category not in result: result[category] = []` for one category. */
  function AddIfMissing(r: seq<Entry>, c: Category): (r': seq<Entry>)
    ensures HasKey(r', Name(c))
    ensures |r| <= |r'| <= |r| + 1 && r'[..|r|] == r
    ensures |r'| == |r| + 1 ==> r'[|r|] == (Name(c), List([])) && !HasKey(r, Name(c))
  {
    if HasKey(r, Name(c)) then r
    else
      var r' := r + [(Name(c), List([]))];
      assert r'[|r|] == (Name(c), List([]));
      r'
  }

  /** The normalisation applied for each of `cats` in turn, starting from
      `r0`; the entries of `r0` stay first and unchanged. */
  function AddMissing(r0: seq<Entry>, cats: seq<Category>): (r: seq<Entry>)
    ensures |r0| <= |r| <= |r0| + |cats| && r[..|r0|] == r0
    decreases |cats|
  {
    if cats == [] then r0 else AddMissing(AddIfMissing(r0, cats[0]), cats[1..])
  }

  /** After the normalisation every category of `cats` is a key. */
  lemma {:induction false} AddMissingHasAll(r0: seq<Entry>, cats: seq<Category>)
    ensures forall c :: c in cats ==> HasKey(AddMissing(r0, cats), Name(c))
    decreases |cats|
  {
    if cats != [] {
      var r1 := AddIfMissing(r0, cats[0]);
      AddMissingHasAll(r1, cats[1..]);
      var r := AddMissing(r1, cats[1..]);
      assert KeysOf(r)[..|r1|] == KeysOf(r1);
      assert Name(cats[0]) in KeysOf(r1);
      assert forall c :: c in cats ==> c == cats[0] || c in cats[1..];
    }
  }

  /** Whatever the normalisation appended is an empty list under the name of
      a category the reply lacked. */
  lemma {:induction false} AddMissingAdded(r0: seq<Entry>, cats: seq<Category>, j: int)
    requires |r0| <= j < |AddMissing(r0, cats)|
    ensures AddMissing(r0, cats)[j].1 == List([])
    ensures !HasKey(r0, AddMissing(r0, cats)[j].0)
    ensures exists c :: c in cats && AddMissing(r0, cats)[j].0 == Name(c)
    decreases |cats|
  {
    var r1 := AddIfMissing(r0, cats[0]);
    var r := AddMissing(r1, cats[1..]);
    if j < |r1| {
      assert r[j] == r1[j] == (Name(cats[0]), List([]));
    } else {
      AddMissingAdded(r1, cats[1..], j);
      var key := r[j].0;
      var c :| c in cats[1..] && key == Name(c);
      assert c in cats;
    }
  }

  /** The normalisation never duplicates a key. */
  lemma AddIfMissingDistinct(r: seq<Entry>, c: Category)
    requires DistinctKeys(r)
    ensures DistinctKeys(AddIfMissing(r, c))
  {
    var r' := AddIfMissing(r, c);
    if |r'| > |r| {
      forall i | 0 <= i < |r| ensures r'[i].0 != r'[|r|].0 {
        assert KeysOf(r)[i] == r[i].0 == r'[i].0;
      }
    }
  }

  lemma {:induction false} AddMissingDistinct(r0: seq<Entry>, cats: seq<Category>)
    requires DistinctKeys(r0)
    ensures DistinctKeys(AddMissing(r0, cats))
    decreases |cats|
  {
    if cats != [] {
      AddIfMissingDistinct(r0, cats[0]);
      AddMissingDistinct(AddIfMissing(r0, cats[0]), cats[1..]);
    }
  }

  /** `result[key]`: the value of the first entry with that key (a parsed
      object has one), None when there is none. */
  function Lookup(entries: seq<Entry>, key: string): (v: Option<Value>)
    ensures v.Some? <==> HasKey(entries, key)
    ensures v.Some? ==> (key, v.value) in entries
    decreases |entries|
  {
    if entries == [] then None
    else if entries[0].0 == key then
      assert KeysOf(entries)[0] == key;
      Some(entries[0].1)
    else
      assert KeysOf(entries) == [entries[0].0] + KeysOf(entries[1..]);
      Lookup(entries[1..], key)
  }

  /** `len(v)` is defined: a string, a list or an object. */
  predicate Sized(v: Value) {
    v.Str? || v.List? || v.Obj?
  }

  /** `len(result[key])` raises: the key is missing or its value has no
      length. */
  predicate LenRaises(entries: seq<Entry>, key: string) {
    Lookup(entries, key).None? || !Sized(Lookup(entries, key).value)
  }

  /** The reply `generate_questions` returns when the service call fails. */
  const EmptyPlan: seq<Entry> := [("technical", List([])), ("scenario", List([])), ("behavioral", List([])), ("problem_solving", List([]))]

  /** The fallback plan has the four categories with empty lists. */
  lemma EmptyPlanShape()
    ensures forall c :: HasKey(EmptyPlan, Name(c)) && !LenRaises(EmptyPlan, Name(c))
    ensures forall i :: 0 <= i < |EmptyPlan| ==> EmptyPlan[i].1 == List([])
  {
    forall c ensures HasKey(EmptyPlan, Name(c)) && !LenRaises(EmptyPlan, Name(c)) {
      var j := match c case Technical => 0 case Scenario => 1 case Behavioral => 2 case ProblemSolving => 3;
      assert KeysOf(EmptyPlan)[j] == Name(c);
    }
  }

  /** The plan `generate_questions` returns for a service reply: the empty
      plan when the call failed or the logged total `len` raises, otherwise
      the reply's entries with the missing categories added. */
  ghost function Plan(reply: GenReply): seq<Entry> {
    if reply.GenFailed? then EmptyPlan
    else if LengthsKnown(AddMissing(reply.entries, All)) then AddMissing(reply.entries, All)
    else EmptyPlan
  }

  /** Every category's value has a length, so the logged total is defined. */
  ghost predicate LengthsKnown(entries: seq<Entry>) {
    forall c :: !LenRaises(entries, Name(c))
  }

  /** `generate_questions` after the service call. A parsed reply keeps its
      entries, other keys included, first and unchanged, and gains an empty
      list for each category it lacked, in category order; the list lengths
      are not compared with the quotas. When the logged total `len` of the
      four category values raises (a null, boolean or number under a
      category key), or the call failed, the result is the four categories
      with empty lists. Either way all four category keys are present, each
      with a value that has a length. */
  method NormalizeQuestions(reply: GenReply) returns (r: seq<Entry>)
    ensures r == Plan(reply)
    ensures reply.GenFailed? ==> r == EmptyPlan
    ensures reply.GenParsed? && (forall c :: !LenRaises(AddMissing(reply.entries, All), Name(c))) ==>
      r == AddMissing(reply.entries, All)
    ensures reply.GenParsed? && (exists c :: LenRaises(AddMissing(reply.entries, All), Name(c))) ==>
      r == EmptyPlan
    ensures forall c :: HasKey(r, Name(c)) && !LenRaises(r, Name(c))
  {
    PlanShape(reply);
    if reply.GenFailed? {
      return EmptyPlan;
    }
    r := AddMissingKeys(reply.entries);
    var sized := LengthsDefined(r);
    if !sized {
      return EmptyPlan;
    }
  }

  /** The plan's cases: the fallback for a failed call or a raising `len`,
      the completed reply otherwise, and all four keys with a length either
      way. */
  lemma PlanShape(reply: GenReply)
    ensures reply.GenFailed? ==> Plan(reply) == EmptyPlan
    ensures reply.GenParsed? && (forall c :: !LenRaises(AddMissing(reply.entries, All), Name(c))) ==>
      Plan(reply) == AddMissing(reply.entries, All)
    ensures reply.GenParsed? && (exists c :: LenRaises(AddMissing(reply.entries, All), Name(c))) ==>
      Plan(reply) == EmptyPlan
    ensures forall c :: HasKey(Plan(reply), Name(c)) && !LenRaises(Plan(reply), Name(c))
  {
    if reply.GenFailed? || !LengthsKnown(AddMissing(reply.entries, All)) {
      EmptyPlanShape();
    } else {
      AddMissingHasAll(reply.entries, All);
      forall c ensures HasKey(AddMissing(reply.entries, All), Name(c)) {
        InAll(c);
      }
    }
  }

  /** The loop of `generate_questions` that adds an empty list under each
      category the reply lacks, in category order. */
  method AddMissingKeys(entries: seq<Entry>) returns (r: seq<Entry>)
    ensures r == AddMissing(entries, All)
  {
    r := entries;
    var i := 0;
    while i < |All|
      invariant 0 <= i <= |All|
      invariant AddMissing(r, All[i..]) == AddMissing(entries, All)
    {
      var name := Name(All[i]);
      if !HasKey(r, name) {
        r := r + [(name, List([]))];
      }
      assert All[i..][1..] == All[i + 1..];
      i := i + 1;
    }
    assert All[4..] == [];
  }

  /** The logged total `sum(len(result[cat]) for cat in categories)`: it is
      computed, without raising, exactly when every category's value has a
      length. */
  method LengthsDefined(r: seq<Entry>) returns (ok: bool)
    ensures ok <==> forall c :: !LenRaises(r, Name(c))
  {
    for k := 0 to |All|
      invariant forall j :: 0 <= j < k ==> !LenRaises(r, Name(All[j]))
    {
      if LenRaises(r, Name(All[k])) {
        return false;
      }
    }
    forall c ensures !LenRaises(r, Name(c)) {
      InAll(c);
    }
    ok := true;
  }
}
