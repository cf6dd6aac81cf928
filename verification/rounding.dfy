/**
 * `Math.round((part / whole) * 100)`, the rounded percentage every view shows,
 * over exact numbers.
 */
module Rounding {

  import opened Wrappers

  /** `Math.round`: the nearest integer, a half rounded up. */
  function Round(x: real): (r: int)
    ensures r as real - 0.5 <= x < r as real + 0.5
  {
    (x + 0.5).Floor
  }

  /** An integer within half of `x` (half below included) is `Round(x)`. */
  lemma RoundUnique(x: real, n: int)
    requires n as real - 0.5 <= x < n as real + 0.5
    ensures Round(x) == n
  {
  }

  /**
   * The rounded percentage `part / whole` stands for. A zero `whole` gives a
   * value that is not a finite number (`NaN`, or `Infinity` for a non-zero part),
   * modelled as `None`.
   */
  function Percentage(part: real, whole: real): (p: Option<int>)
    ensures p.Some? <==> whole != 0.0
    ensures p.Some? ==> p.value as real - 0.5 <= 100.0 * part / whole < p.value as real + 0.5
  {
    if whole == 0.0 then None else Some(Round(100.0 * part / whole))
  }

  /** A share of a positive whole rounds to a percentage between 0 and 100. */
  lemma PercentageBounds(part: real, whole: real)
    requires 0.0 <= part <= whole && whole > 0.0
    ensures Percentage(part, whole).Some?
    ensures 0 <= Percentage(part, whole).value <= 100
  {
    var x := 100.0 * part / whole;
    assert 0.0 <= x <= 100.0 by {
      assert x * whole == 100.0 * part;
    }
  }

  /** The whole of a positive quantity is 100 %, none of it is 0 %. */
  lemma PercentageEnds(whole: real)
    requires whole > 0.0
    ensures Percentage(whole, whole) == Some(100)
    ensures Percentage(0.0, whole) == Some(0)
  {
    assert 100.0 * whole / whole == 100.0;
    RoundUnique(100.0, 100);
    RoundUnique(0.0, 0);
  }

  /** The percentage of `completed` out of `total` topics. */
  function CountPercentage(completed: nat, total: nat): (r: Option<int>)
  {
    Percentage(completed as real, total as real)
  }

  lemma CastMul(a: int, b: int)
    ensures (a * b) as real == (a as real) * (b as real)
  {
  }

  lemma MulMono(a: real, b: real, k: real)
    requires k > 0.0
    ensures a <= b <==> a * k <= b * k
    ensures a < b <==> a * k < b * k
  {
  }

  /** With a positive total the rounded percentage is the integer `(200·c + t) div (2·t)`. */
  lemma CountPercentageFormula(c: nat, t: nat)
    requires t > 0
    ensures CountPercentage(c, t) == Some((200 * c + t) / (2 * t))
  {
    var q := (200 * c + t) / (2 * t);
    assert 2 * t * q <= 200 * c + t < 2 * t * q + 2 * t;
    var T, C, Q := t as real, c as real, q as real;
    CastMul(2 * t, q);
    assert 2.0 * T * Q <= 200.0 * C + T < 2.0 * T * Q + 2.0 * T;
    var x := 100.0 * C / T;
    assert x * (2.0 * T) == 200.0 * C;
    assert (Q - 0.5) * (2.0 * T) == 2.0 * T * Q - T;
    assert (Q + 0.5) * (2.0 * T) == 2.0 * T * Q + T;
    MulMono(Q - 0.5, x, 2.0 * T);
    MulMono(x, Q + 0.5, 2.0 * T);
    assert Q - 0.5 <= x < Q + 0.5;
    RoundUnique(x, q);
  }

  lemma FullShare(C: real, T: real)
    requires 0.0 <= C <= T && T > 0.0
    ensures 99.5 <= 100.0 * C / T <==> 199.0 * T <= 200.0 * C
    ensures 100.0 * C / T <= 100.0
  {
    var x := 100.0 * C / T;
    assert x * T == 100.0 * C;
    MulMono(99.5, x, T);
    MulMono(x, 100.0, T);
    assert x * T <= 100.0 * T;
  }

  lemma NoShare(C: real, T: real)
    requires 0.0 <= C && T > 0.0
    ensures 100.0 * C / T < 0.5 <==> 200.0 * C < T
    ensures 0.0 <= 100.0 * C / T
  {
  }

  lemma CountPercentageFull(c: nat, t: nat)
    requires 0 < t && c <= t
    ensures CountPercentage(c, t).Some?
    ensures CountPercentage(c, t).value == 100 <==> 200 * c >= 199 * t
  {
    FullShare(c as real, t as real);
    if 200 * c >= 199 * t {
      RoundUnique(100.0 * (c as real) / (t as real), 100);
    }
  }

  lemma CountPercentageNone(c: nat, t: nat)
    requires 0 < t
    ensures CountPercentage(c, t).Some?
    ensures CountPercentage(c, t).value == 0 <==> 200 * c < t
  {
    NoShare(c as real, t as real);
    if 200 * c < t {
      RoundUnique(100.0 * (c as real) / (t as real), 0);
    }
  }

  /**
   * With `completed <= total` the percentage lies in 0..100; it is 100 exactly when
   * at least 99.5 % is done, and 0 exactly when less than 0.5 % is done.
   */
  lemma CountPercentageExtremes(c: nat, t: nat)
    requires 0 < t && c <= t
    ensures CountPercentage(c, t).Some?
    ensures 0 <= CountPercentage(c, t).value <= 100
    ensures CountPercentage(c, t).value == 100 <==> 200 * c >= 199 * t
    ensures CountPercentage(c, t).value == 0 <==> 200 * c < t
  {
    PercentageBounds(c as real, t as real);
    CountPercentageFull(c, t);
    CountPercentageNone(c, t);
  }

  /**
   * Below 200 topics the rounded percentage is 100 exactly when every topic is done
   * and 0 exactly when none is.
   */
  lemma SmallCountPercentage(c: nat, t: nat)
    requires 0 < t < 200 && c <= t
    ensures CountPercentage(c, t).value == 100 <==> c == t
    ensures CountPercentage(c, t).value == 0 <==> c == 0
  {
    CountPercentageExtremes(c, t);
  }

  /** From 200 topics on, rounding shows 100 with one topic open and 0 with one done. */
  lemma LargeCountPercentage()
    ensures CountPercentage(199, 200) == Some(100)
    ensures CountPercentage(1, 201) == Some(0)
  {
    CountPercentageFormula(199, 200);
    CountPercentageFormula(1, 201);
  }
}
