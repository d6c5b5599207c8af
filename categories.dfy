/** The four question categories of the new interview engine, their names,
    the case-insensitive lookup the report builder uses, and the weights of
    the overall score. */
module Categories {

  import opened Wrappers

  datatype Category = Technical | Scenario | Behavioral | ProblemSolving

  /** The categories in the order the engine lists them
      (interview_engine_new.py, the `categories` list and the
      `scores_by_type` dictionary). */
  const All: seq<Category> := [Technical, Scenario, Behavioral, ProblemSolving]

  lemma InAll(c: Category)
    ensures c in All
  {
    match c
    case Technical => assert All[0] == c;
    case Scenario => assert All[1] == c;
    case Behavioral => assert All[2] == c;
    case ProblemSolving => assert All[3] == c;
  }

  function Name(c: Category): (s: string)
  {
    match c
    case Technical => "technical"
    case Scenario => "scenario"
    case Behavioral => "behavioral"
    case ProblemSolving => "problem_solving"
  }

  /** The category a name denotes exactly, if any. */
  function FromName(s: string): (r: Option<Category>)
    ensures r.Some? ==> Name(r.value) == s
    ensures r.None? ==> forall c :: Name(c) != s
  {
    if s == "technical" then Some(Technical)
    else if s == "scenario" then Some(Scenario)
    else if s == "behavioral" then Some(Behavioral)
    else if s == "problem_solving" then Some(ProblemSolving)
    else None
  }

  /** Python's `str.lower()` on the ASCII letters. */
  function LowerChar(c: char): (d: char)
  {
    if 'A' <= c <= 'Z' then (c as int + 32) as char else c
  }

  function Lower(s: string): (t: string)
    ensures |t| == |s|
    ensures forall i :: 0 <= i < |s| ==> t[i] == LowerChar(s[i])
  {
    seq(|s|, i requires 0 <= i < |s| => LowerChar(s[i]))
  }

  /** Python's `str.upper()` on the ASCII letters. */
  function UpperChar(c: char): (d: char)
  {
    if 'a' <= c <= 'z' then (c as int - 32) as char else c
  }

  function Upper(s: string): (t: string)
    ensures |t| == |s|
    ensures forall i :: 0 <= i < |s| ==> t[i] == UpperChar(s[i])
  {
    seq(|s|, i requires 0 <= i < |s| => UpperChar(s[i]))
  }

  /** The category the report builder files a question type under:
      `item.get('type', '').lower()` looked up among the four names. */
  function OfType(questionType: string): (r: Option<Category>)
    ensures r.Some? ==> Lower(questionType) == Name(r.value)
    ensures r.None? ==> forall c :: Lower(questionType) != Name(c)
  {
    FromName(Lower(questionType))
  }

  /** The lookup ignores letter case: a type and its upper-cased spelling file
      under the same category. */
  lemma OfTypeIgnoresCase(questionType: string)
    ensures OfType(Upper(questionType)) == OfType(questionType)
  {
    assert Lower(Upper(questionType)) == Lower(questionType) by {
      forall i | 0 <= i < |questionType|
        ensures LowerChar(UpperChar(questionType[i])) == LowerChar(questionType[i])
      {
      }
    }
  }

  /** Every category is found under its own name, whatever its case. */
  lemma OfTypeOfName(c: Category)
    ensures OfType(Name(c)) == Some(c)
    ensures OfType(Upper(Name(c))) == Some(c)
  {
    assert Lower(Name(c)) == Name(c);
    OfTypeIgnoresCase(Name(c));
  }

  /** Weights of the categories in the overall score. */
  function Weight(c: Category): (w: real)
    ensures w > 0.0
  {
    match c
    case Technical => 0.4
    case Scenario => 0.3
    case Behavioral => 0.15
    case ProblemSolving => 0.15
  }

  /** The weights of all four categories add up to one. */
  lemma WeightsSumToOne()
    ensures Weight(Technical) + Weight(Scenario) + Weight(Behavioral) + Weight(ProblemSolving) == 1.0
  {
  }
}
