/**
 * Reading the number of hours out of a duration text such as "1.5 hours":
 * the first match of the pattern `[\d.]+` followed by `parseFloat`.
 */
module Duration {

  import opened Wrappers

  predicate IsDigit(c: char) { '0' <= c <= '9' }

  /** The character class `[\d.]`: ASCII digits (no Unicode flag) and the dot. */
  predicate IsNumeric(c: char) { IsDigit(c) || c == '.' }

  predicate AllDigits(s: string) { forall j :: 0 <= j < |s| ==> IsDigit(s[j]) }

  predicate AllNumeric(s: string) { forall j :: 0 <= j < |s| ==> IsNumeric(s[j]) }

  /** The outcome of reading a duration. */
  datatype Reading =
    | Hours(value: real)  // a number was read
    | NoMatch             // the pattern matched nothing: indexing the null match throws
    | NotANumber          // the match holds no digit where one is needed: parseFloat yields NaN

  /** The first position at or after `i` whose character is in `[\d.]`, or `|s|`. */
  function RunStart(s: string, i: nat): (k: nat)
    requires i <= |s|
    ensures i <= k <= |s|
    ensures forall j :: i <= j < k ==> !IsNumeric(s[j])
    ensures k < |s| ==> IsNumeric(s[k])
    decreases |s| - i
  {
    if i == |s| || IsNumeric(s[i]) then i else RunStart(s, i + 1)
  }

  /** The end of the longest run of characters satisfying `inClass` that starts at `i`. */
  function Span(s: string, i: nat, inClass: char -> bool): (e: nat)
    requires i <= |s|
    ensures i <= e <= |s|
    ensures forall j :: i <= j < e ==> inClass(s[j])
    ensures e == |s| || !inClass(s[e])
    decreases |s| - i
  {
    if i == |s| || !inClass(s[i]) then i else Span(s, i + 1, inClass)
  }

  /**
   * `run` occurs at position `k` of `s` as the leftmost, longest match of `[\d.]+`:
   * nothing before it is in the class, all of it is, and the character after it is not.
   */
  ghost predicate LeftmostLongest(s: string, k: nat, run: string)
  {
    && |run| > 0
    && k + |run| <= |s|
    && s[k..k + |run|] == run
    && (forall j :: 0 <= j < k ==> !IsNumeric(s[j]))
    && (forall j :: 0 <= j < |run| ==> IsNumeric(run[j]))
    && (k + |run| == |s| || !IsNumeric(s[k + |run|]))
  }

  /** `s.match(/[\d.]+/)`: the first match, or nothing when no character is in the class. */
  function FirstMatch(s: string): (m: Option<string>)
    ensures m.None? <==> forall j :: 0 <= j < |s| ==> !IsNumeric(s[j])
    ensures m.Some? ==> exists k :: 0 <= k <= |s| && LeftmostLongest(s, k, m.value)
  {
    var k := RunStart(s, 0);
    if k == |s| then None
    else
      var e := Span(s, k, IsNumeric);
      assert s[k..e][0] == s[k];
      assert LeftmostLongest(s, k, s[k..e]);
      Some(s[k..e])
  }

  /** The leftmost-longest match is unique, so `FirstMatch` is fully determined by its contract. */
  lemma LeftmostLongestUnique(s: string, k1: nat, r1: string, k2: nat, r2: string)
    requires LeftmostLongest(s, k1, r1) && LeftmostLongest(s, k2, r2)
    ensures k1 == k2 && r1 == r2
  {
    assert forall j :: k1 <= j < k1 + |r1| ==> IsNumeric(s[j]) by {
      forall j | k1 <= j < k1 + |r1| ensures IsNumeric(s[j]) {
        assert s[k1..k1 + |r1|][j - k1] == s[j];
      }
    }
    assert forall j :: k2 <= j < k2 + |r2| ==> IsNumeric(s[j]) by {
      forall j | k2 <= j < k2 + |r2| ensures IsNumeric(s[j]) {
        assert s[k2..k2 + |r2|][j - k2] == s[j];
      }
    }
    assert IsNumeric(s[k1]) && IsNumeric(s[k2]);
    assert |r1| == |r2|;
  }

  function Pow10(n: nat): (p: nat)
    ensures p >= 1
  {
    if n == 0 then 1 else 10 * Pow10(n - 1)
  }

  function DigitValue(c: char): (r: nat)
    requires IsDigit(c)
  {
    (c as int - '0' as int) as nat
  }

  /** The value of a string of decimal digits, most significant first; 0 for the empty string. */
  function DigitsValue(ds: string): (r: nat)
    requires AllDigits(ds)
  {
    if |ds| == 0 then 0 else 10 * DigitsValue(ds[..|ds| - 1]) + DigitValue(ds[|ds| - 1])
  }

  /**
   * `parseFloat` applied to a string made only of digits and dots: the longest prefix
   * of the form `digits [. digits]` with at least one digit is read, the rest ignored.
   */
  function ParseDecimal(run: string): (r: Reading)
    requires AllNumeric(run)
    ensures r != NoMatch
    ensures r.NotANumber? <==> |run| == 0 || (run[0] == '.' && (|run| == 1 || !IsDigit(run[1])))
    ensures r.Hours? ==> r.value >= 0.0
  {
    var n := Span(run, 0, IsDigit);
    assert AllDigits(run[..n]);
    if n < |run| && run[n] == '.' then
      var m := Span(run, n + 1, IsDigit);
      var frac := run[n + 1..m];
      assert AllDigits(frac);
      if n == 0 && m == n + 1 then NotANumber
      else
        var f := DigitsValue(frac) as real / Pow10(|frac|) as real;
        assert f >= 0.0;
        Hours(DigitsValue(run[..n]) as real + f)
    else if n == 0 then NotANumber
    else Hours(DigitsValue(run[..n]) as real)
  }

  /** `parseFloat(duration.match(/[\d.]+/)[0])`. */
  function ParseDuration(duration: string): (r: Reading)
    ensures r.NoMatch? <==> forall j :: 0 <= j < |duration| ==> !IsNumeric(duration[j])
    ensures r.Hours? ==> r.value >= 0.0
  {
    match FirstMatch(duration)
    case None => NoMatch
    case Some(run) =>
      assert AllNumeric(run) by {
        var k :| 0 <= k <= |duration| && LeftmostLongest(duration, k, run);
      }
      ParseDecimal(run)
  }

  function DigitChar(d: nat): (c: char)
    requires d < 10
    ensures IsDigit(c) && DigitValue(c) == d
  {
    ('0' as int + d) as char
  }

  /** The decimal numeral of `n`, without leading zeros. */
  function Numeral(n: nat): (s: string)
    ensures |s| > 0 && AllDigits(s)
    ensures DigitsValue(s) == n
  {
    if n < 10 then [DigitChar(n)]
    else
      var s := Numeral(n / 10) + [DigitChar(n % 10)];
      assert s[..|s| - 1] == Numeral(n / 10);
      s
  }

  /** A numeral with an optional decimal part, such as `2` or `1.5`. */
  function Decimal(whole: nat, frac: string): (r: string)
  {
    Numeral(whole) + (if |frac| == 0 then "" else "." + frac)
  }

  /** How a schedule writes a duration: some text, a decimal, a unit. */
  function Render(lead: string, whole: nat, frac: string, unit: string): (r: string)
  {
    lead + Decimal(whole, frac) + unit
  }

  lemma {:induction false} RunStartAt(s: string, i: nat, k: nat)
    requires i <= k < |s|
    requires forall j :: i <= j < k ==> !IsNumeric(s[j])
    requires IsNumeric(s[k])
    ensures RunStart(s, i) == k
    decreases k - i
  {
    if i < k {
      RunStartAt(s, i + 1, k);
    }
  }

  lemma {:induction false} SpanAt(s: string, i: nat, e: nat, inClass: char -> bool)
    requires i <= e <= |s|
    requires forall j :: i <= j < e ==> inClass(s[j])
    requires e == |s| || !inClass(s[e])
    ensures Span(s, i, inClass) == e
    decreases e - i
  {
    if i < e {
      SpanAt(s, i + 1, e, inClass);
    }
  }

  /** A run of `[\d.]` between text outside the class is what the pattern matches. */
  lemma {:induction false} MatchBetween(lead: string, run: string, unit: string)
    requires forall j :: 0 <= j < |lead| ==> !IsNumeric(lead[j])
    requires |run| > 0 && AllNumeric(run)
    requires |unit| == 0 || !IsNumeric(unit[0])
    ensures FirstMatch(lead + run + unit) == Some(run)
  {
    var s := lead + run + unit;
    var e := |lead| + |run|;
    assert forall j :: 0 <= j < |lead| ==> s[j] == lead[j];
    assert forall j :: |lead| <= j < e ==> s[j] == run[j - |lead|];
    assert e < |s| ==> s[e] == unit[0];
    RunStartAt(s, 0, |lead|);
    SpanAt(s, |lead|, e, IsNumeric);
    assert s[|lead|..e] == run;
  }

  /** parseFloat reads a numeral with an optional decimal part as its exact value. */
  lemma {:induction false} ParseNumeral(whole: nat, frac: string)
    requires AllDigits(frac)
    ensures AllNumeric(Decimal(whole, frac))
    ensures ParseDecimal(Decimal(whole, frac))
         == Hours(whole as real + DigitsValue(frac) as real / Pow10(|frac|) as real)
  {
    if |frac| == 0 {
      ParseWhole(whole);
    } else {
      ParseFraction(whole, frac);
    }
  }

  /** A numeral without a decimal point reads as its value. */
  lemma {:induction false} ParseWhole(whole: nat)
    ensures AllNumeric(Numeral(whole))
    ensures ParseDecimal(Numeral(whole)) == Hours(whole as real)
  {
    var a := Numeral(whole);
    assert a[..|a|] == a;
    SpanAt(a, 0, |a|, IsDigit);
  }

  /** A numeral, a point and a non-empty run of digits read as whole plus fraction. */
  lemma {:induction false} ParseFraction(whole: nat, frac: string)
    requires AllDigits(frac) && |frac| > 0
    ensures AllNumeric(Decimal(whole, frac))
    ensures ParseDecimal(Decimal(whole, frac))
         == Hours(whole as real + DigitsValue(frac) as real / Pow10(|frac|) as real)
  {
    var a := Numeral(whole);
    var run := Decimal(whole, frac);
    assert run[..|a|] == a;
    assert run[|a|] == '.';
    assert forall j :: |a| < j < |run| ==> run[j] == frac[j - |a| - 1];
    SpanAt(run, 0, |a|, IsDigit);
    SpanAt(run, |a| + 1, |run|, IsDigit);
    assert run[|a| + 1..|run|] == frac;
  }

  /**
   * Reading a rendered duration gives back the number it was rendered from,
   * whatever non-numeric text surrounds it.
   */
  lemma {:induction false} ParseRendered(lead: string, whole: nat, frac: string, unit: string)
    requires forall j :: 0 <= j < |lead| ==> !IsNumeric(lead[j])
    requires AllDigits(frac)
    requires |unit| == 0 || !IsNumeric(unit[0])
    ensures ParseDuration(Render(lead, whole, frac, unit))
         == Hours(whole as real + DigitsValue(frac) as real / Pow10(|frac|) as real)
  {
    ParseNumeral(whole, frac);
    MatchBetween(lead, Decimal(whole, frac), unit);
  }

  /** The two duration texts of the fallback schedule read as 2 and 1.5 hours. */
  lemma ParseTwoHours()
    ensures ParseDuration("2 hours") == Hours(2.0)
  {
    assert Numeral(2) == "2";
    assert Decimal(2, "") == "2";
    assert Render("", 2, "", " hours") == "2 hours";
    ParseRendered("", 2, "", " hours");
  }

  lemma RenderOneAndAHalf()
    ensures Render("", 1, "5", " hours") == "1.5 hours"
  {
    assert Numeral(1) == "1";
    assert Decimal(1, "5") == "1.5";
  }

  lemma ValueOneAndAHalf()
    ensures AllDigits("5")
    ensures 1 as real + DigitsValue("5") as real / Pow10(|"5"|) as real == 1.5
  {
    assert DigitsValue("5") == 5 && Pow10(1) == 10;
  }

  lemma ParseOneAndAHalfHours()
    ensures ParseDuration("1.5 hours") == Hours(1.5)
  {
    RenderOneAndAHalf();
    ValueOneAndAHalf();
    ParseRendered("", 1, "5", " hours");
  }

}
