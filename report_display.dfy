/** The figures the report page and the interview page derive for display:
    the star rating and percentage of a score, and the running interview
    time. */
module ReportDisplay {

  import opened Json
  import opened Rounding
  import Persistence

  /** The star symbols as the page's source text spells them: each literal
      is three characters (U+201A U+00F2 U+00D6 filled, U+201A U+00F2 U+00DC
      empty), the Mac Roman reading of the UTF-8 bytes of a black and a white
      star. */
  const FilledStar: string := "\U{201A}\U{00F2}\U{00D6}"
  const EmptyStar: string := "\U{201A}\U{00F2}\U{00DC}"

  /** `min(5, max(0, round(score * 5 / 10)))`, with Python's half-even
      `round`. */
  function Stars(score: real): (n: int)
    ensures 0 <= n <= 5
    ensures 0.0 <= score <= 10.0 ==> -0.5 <= n as real - score / 2.0 <= 0.5
  {
    var k := RoundHalfEven(score * 5.0 / 10.0);
    if k > 5 then 5 else if k < 0 then 0 else k
  }

  /** A middling 5.0 gets two stars, not three: 2.5 rounds to even. A score
      of 7.0 gets four (3.5 rounds up to even), and the scale ends map to its
      ends. */
  lemma StarExamples()
    ensures Stars(5.0) == 2
    ensures Stars(7.0) == 4
    ensures Stars(3.0) == 2
    ensures Stars(0.0) == 0 && Stars(10.0) == 5
  {
    RoundHalfEvenUnique(2.5, 2);
    RoundHalfEvenUnique(3.5, 4);
    RoundHalfEvenUnique(1.5, 2);
    RoundHalfEvenUnique(0.0, 0);
    RoundHalfEvenUnique(5.0, 5);
  }

  /** A higher score never gets fewer stars. */
  lemma StarsMonotone(a: real, b: real)
    requires a <= b
    ensures Stars(a) <= Stars(b)
  {
  }

  /** The symbol for one place of the star line. */
  function Symbol(filled: bool): (sym: string)
    ensures |sym| == 3
  {
    if filled then FilledStar else EmptyStar
  }

  /** The `i`-th three-character symbol of a star line. */
  function SymbolAt(line: string, i: nat): string
    requires 3 * i + 3 <= |line|
  {
    line[3 * i..3 * i + 3]
  }

  /** The star line: five symbols, filled for the first `starScore` places,
      fifteen characters in all. */
  method StarLine(starScore: int) returns (line: string)
    ensures |line| == 15
    ensures forall i: nat :: i < 5 ==> SymbolAt(line, i) == Symbol(i < starScore)
  {
    line := "";
    for i := 0 to 5
      invariant |line| == 3 * i
      invariant forall j: nat :: j < i ==> SymbolAt(line, j) == Symbol(j < starScore)
    {
      var next := line + Symbol(i < starScore);
      forall j: nat | j < i ensures SymbolAt(next, j) == SymbolAt(line, j) {
        assert next[..3 * i] == line;
      }
      assert SymbolAt(next, i) == Symbol(i < starScore) by {
        assert next[3 * i..] == Symbol(i < starScore);
      }
      line := next;
    }
  }

  /** The number of filled symbols in a line of whole symbols. */
  function FilledCount(line: string): (n: nat)
    requires |line| % 3 == 0
    ensures 3 * n <= |line|
    decreases |line|
  {
    if line == [] then 0
    else FilledCount(line[..|line| - 3]) + (if line[|line| - 3..] == FilledStar then 1 else 0)
  }

  /** A line of `k` symbols whose first `n` are filled, with `0 <= n <= 5`
      as `Stars` gives, shows exactly `n` filled stars, every one before
      every empty one. */
  lemma {:induction false} StarLineShowsStars(line: string, k: nat, n: int)
    requires |line| == 3 * k && 0 <= n <= k
    requires forall i: nat :: i < k ==> SymbolAt(line, i) == Symbol(i < n)
    ensures FilledCount(line) == n
    ensures forall i: nat, j: nat :: i < j < k && SymbolAt(line, j) == FilledStar ==> SymbolAt(line, i) == FilledStar
    decreases k
  {
    if k > 0 {
      var init := line[..|line| - 3];
      forall i: nat | i < k - 1 ensures SymbolAt(init, i) == Symbol(i < n) {
        assert SymbolAt(init, i) == SymbolAt(line, i);
      }
      assert line[|line| - 3..] == SymbolAt(line, k - 1);
      assert FilledStar != EmptyStar by {
        assert FilledStar[2] != EmptyStar[2];
      }
      if n == k {
        StarLineShowsStars(init, k - 1, n - 1);
      } else {
        StarLineShowsStars(init, k - 1, n);
      }
    }
  }

  /** Python's `int(x)`: truncation toward zero. */
  function Truncate(x: real): (k: int)
    ensures x >= 0.0 ==> 0 <= k && k as real <= x < k as real + 1.0
    ensures x < 0.0 ==> k <= 0 && k as real - 1.0 < x <= k as real
  {
    if x >= 0.0 then x.Floor else -((-x).Floor)
  }

  /** `int(score * 100 / 10)`. */
  function Percentage(score: real): (p: int)
    ensures 0.0 <= score <= 10.0 ==> 0 <= p <= 100
    ensures score >= 0.0 ==> p as real <= score * 10.0 < p as real + 1.0
  {
    Truncate(score * 100.0 / 10.0)
  }

  /** 6.7 shows as 67 % and 10 as 100 % (on exact reals). */
  lemma PercentageOfTenths()
    ensures Percentage(6.7) == 67
    ensures Percentage(10.0) == 100
  {
  }

  /** `format_elapsed_time`: the whole seconds split by `divmod`, shown as
      "Hh Mm Ss" from an hour on and "Mm Ss" below. */
  function FormatElapsed(seconds: real): string {
    var (h, m, s) := Persistence.Split(Truncate(seconds));
    if h > 0 then IntToString(h) + "h " + IntToString(m) + "m " + IntToString(s) + "s"
    else IntToString(m) + "m " + IntToString(s) + "s"
  }

  /** For the whole `t` seconds elapsed, the time shows the hours `t / 3600`
      exactly when there is at least one, then the minutes and seconds left
      over, each below 60. */
  lemma FormatElapsedShows(seconds: real)
    requires seconds >= 0.0
    ensures var t := Truncate(seconds);
      && (t >= 3600 ==>
            FormatElapsed(seconds) ==
            IntToString(t / 3600) + "h " + IntToString(t % 3600 / 60) + "m " + IntToString(t % 60) + "s")
      && (t < 3600 ==> FormatElapsed(seconds) == IntToString(t / 60) + "m " + IntToString(t % 60) + "s")
      && 0 <= t % 3600 / 60 < 60 && 0 <= t % 60 < 60
  {
    var t := Truncate(seconds);
    var q := t / 3600;
    var r := t % 3600;
    assert t == q * 3600 + r && 0 <= r < 3600;
    assert t / 60 == q * 60 + r / 60 by {
      assert t == (q * 60 + r / 60) * 60 + r % 60;
    }
    assert (t / 60) / 60 == q;
    assert (t / 60) % 60 == r / 60;
  }

  /** An hour, two minutes and five seconds and a fraction show in full; a
      time below an hour shows no hours. */
  lemma FormatElapsedExamples()
    ensures FormatElapsed(3725.9) == "1h 2m 5s"
    ensures FormatElapsed(59.0) == "0m 59s"
  {
    assert Truncate(3725.9) == 3725;
    assert Persistence.Split(3725) == (1, 2, 5);
    assert IntToString(1) == "1" && IntToString(2) == "2" && IntToString(5) == "5";
    assert Persistence.Split(59) == (0, 0, 59);
    assert IntToString(0) == "0";
    assert IntToString(59) == "59" by {
      assert NatToString(59) == NatToString(5) + [DigitChar(9)];
    }
  }
}
