/** JSON-shaped values as the engine receives them from the text-generation
    service and hands them on inside Python dictionaries, together with the
    two Python conversions the core applies to them: `float(v)` and the
    numeric coercion that `sum` relies on. */
module Json {

  import opened Wrappers

  /** A decoded JSON value. `BigInt` stands for an integer literal too large to
      be converted to a float (Python raises OverflowError for it); every other
      number is `Num`. */
  datatype Value =
    | Null
    | Bool(b: bool)
    | Num(x: real)
    | BigInt
    | Str(s: string)
    | List(items: seq<Value>)
    | Obj(fields: map<string, Value>)

  /** A JSON object: a Python `dict` with string keys. */
  type Object = map<string, Value>

  /** `d.get(key, default)`. */
  function Get(d: Object, key: string, default: Value): (r: Value)
    ensures key in d ==> r == d[key]
    ensures key !in d ==> r == default
  {
    if key in d then d[key] else default
  }

  /** Python's truth value of a decoded value. */
  predicate Truthy(v: Value) {
    match v
    case Null => false
    case Bool(b) => b
    case Num(x) => x != 0.0
    case BigInt => true
    case Str(s) => s != ""
    case List(items) => items != []
    case Obj(fields) => fields != map[]
  }

  /** The outcome of Python's `float(v)`. */
  datatype FloatResult = Converted(x: real) | Invalid | Overflow

  predicate IsDigit(c: char) { '0' <= c <= '9' }

  /** The whitespace characters Python's `str.strip()` and `float()` remove:
      those `str.isspace` accepts, that is the six ASCII spaces, the four
      ASCII separators 0x1C-0x1F and the Unicode spaces. */
  predicate IsSpace(c: char) {
    || c == ' ' || c == '\t' || c == '\n' || c == '\r' || c == '\U{B}' || c == '\U{C}'
    || '\U{1C}' <= c <= '\U{1F}'
    || c == '\U{85}' || c == '\U{A0}' || c == '\U{1680}'
    || '\U{2000}' <= c <= '\U{200A}'
    || c == '\U{2028}' || c == '\U{2029}' || c == '\U{202F}' || c == '\U{205F}' || c == '\U{3000}'
  }

  /** True when `s.strip()` is the empty string. */
  predicate IsBlank(s: string) { forall i :: 0 <= i < |s| ==> IsSpace(s[i]) }

  function DigitValue(c: char): (d: nat)
    requires IsDigit(c)
    ensures d < 10
  {
    (c as int - '0' as int) as nat
  }

  /** The value of a non-empty string of decimal digits. */
  function DigitsValue(s: string): (n: nat)
    requires forall i :: 0 <= i < |s| ==> IsDigit(s[i])
    decreases |s|
  {
    if s == [] then 0 else 10 * DigitsValue(s[..|s| - 1]) + DigitValue(s[|s| - 1])
  }

  function Pow10(k: nat): (p: nat)
    ensures p >= 1
  {
    if k == 0 then 1 else 10 * Pow10(k - 1)
  }

  function AllDigits(s: string): bool { forall i :: 0 <= i < |s| ==> IsDigit(s[i]) }

  /** The unsigned decimal `digits[.digits]` or `.digits`, as float() reads it. */
  function UnsignedDecimal(s: string): (r: Option<real>)
    ensures r.Some? ==> r.value >= 0.0
  {
    if |s| == 0 then None
    else if AllDigits(s) then Some(DigitsValue(s) as real)
    else
      var k := DotIndex(s);
      if k < |s| && AllDigits(s[..k]) && AllDigits(s[k + 1..]) && |s| > 1 then
        Some(DigitsValue(s[..k]) as real + DigitsValue(s[k + 1..]) as real / Pow10(|s| - k - 1) as real)
      else None
  }

  /** Index of the first '.' in `s`, or |s| when there is none. */
  function DotIndex(s: string): (k: nat)
    ensures k <= |s|
    ensures k < |s| ==> s[k] == '.'
    ensures forall j :: 0 <= j < k ==> s[j] != '.'
  {
    if s == [] then 0 else if s[0] == '.' then 0 else 1 + DotIndex(s[1..])
  }

  function TrimSpace(s: string): (t: string)
    ensures |t| <= |s|
    ensures |t| > 0 ==> !IsSpace(t[0]) && !IsSpace(t[|t| - 1])
    decreases |s|
  {
    if |s| > 0 && IsSpace(s[0]) then TrimSpace(s[1..])
    else if |s| > 0 && IsSpace(s[|s| - 1]) then TrimSpace(s[..|s| - 1])
    else s
  }

  /** The real number `float(s)` gives for a plain decimal string such as
      " -7.5 " (surrounding whitespace, an optional sign, digits with at most
      one point); None for every string this model treats as non-numeric. */
  function ParseDecimal(s: string): (r: Option<real>)
  {
    var t := TrimSpace(s);
    if |t| > 0 && t[0] == '-' then
      match UnsignedDecimal(t[1..])
      case Some(x) => Some(-x)
      case None => None
    else if |t| > 0 && t[0] == '+' then UnsignedDecimal(t[1..])
    else UnsignedDecimal(t)
  }

  /** Python's `float(v)` on a decoded JSON value. */
  function ToFloat(v: Value): (r: FloatResult)
    ensures v.Num? ==> r == Converted(v.x)
    ensures v.BigInt? <==> r.Overflow?
    ensures v.Null? || v.List? || v.Obj? ==> r.Invalid?
  {
    match v
    case Num(x) => Converted(x)
    case Bool(b) => Converted(if b then 1.0 else 0.0)
    case BigInt => Overflow
    case Str(s) => (match ParseDecimal(s) case Some(x) => Converted(x) case None => Invalid)
    case _ => Invalid
  }

  /** The number a value contributes to Python's `sum`, or None when `sum`
      raises (None, strings, lists, objects). An integer too large for a
      float is treated as raising too, at the sum or the division after it;
      over-large integers that cancel in the exact integer sum are not
      distinguished. */
  function AsNumber(v: Value): (r: Option<real>)
    ensures v.Num? ==> r == Some(v.x)
    ensures (v.Null? || v.Str? || v.List? || v.Obj? || v.BigInt?) ==> r.None?
  {
    match v
    case Num(x) => Some(x)
    case Bool(b) => Some(if b then 1.0 else 0.0)
    case _ => None
  }

  /** Decimal text of an integer, as Python's `str(n)` gives it. */
  function IntToString(n: int): (s: string)
    ensures |s| > 0
  {
    if n < 0 then "-" + NatToString(-n) else NatToString(n)
  }

  function NatToString(n: nat): (s: string)
    ensures |s| > 0
    ensures AllDigits(s)
    ensures |s| > 1 ==> s[0] != '0'
    decreases n
  {
    if n < 10 then [DigitChar(n)] else NatToString(n / 10) + [DigitChar(n % 10)]
  }

  function DigitChar(d: nat): (c: char)
    requires d < 10
    ensures IsDigit(c) && DigitValue(c) == d
  {
    ('0' as int + d) as char
  }

  /** Reading back the digits `str(n)` wrote gives `n`. */
  lemma {:induction false} NatToStringRoundTrip(n: nat)
    ensures DigitsValue(NatToString(n)) == n
    decreases n
  {
    var s := NatToString(n);
    if n >= 10 {
      NatToStringRoundTrip(n / 10);
      assert s[..|s| - 1] == NatToString(n / 10);
    }
  }

  /** `float(str(n))` is `n`: the decimal reader and writer agree. */
  lemma ParseDecimalOfNat(n: nat)
    ensures ParseDecimal(NatToString(n)) == Some(n as real)
  {
    var s := NatToString(n);
    NatToStringRoundTrip(n);
    TrimNoSpace(s);
  }

  lemma TrimNoSpace(s: string)
    requires AllDigits(s)
    ensures TrimSpace(s) == s
  {
    if |s| > 0 {
      assert !IsSpace(s[0]) && !IsSpace(s[|s| - 1]);
    }
  }
}
