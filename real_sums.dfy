/**
 * Finite sums and natural powers over `real`: the `reduce((a, b) => a + b, 0)`
 * and `Math.pow(x, n)` of the source, stated once for every module.
 */
module RealSums {

  /** The sum of the first `c` entries of `s`, accumulated from the front as `reduce` does. */
  function SumTo(s: seq<real>, c: nat): real
    requires c <= |s|
  {
    if c == 0 then 0.0 else SumTo(s, c - 1) + s[c - 1]
  }

  /** The sum of all entries of `s`. */
  function Sum(s: seq<real>): real
  {
    SumTo(s, |s|)
  }

  predicate NonNegative(s: seq<real>)
  {
    forall i :: 0 <= i < |s| ==> 0.0 <= s[i]
  }

  /** `Math.pow(x, n)` for a natural exponent. */
  function Pow(x: real, n: nat): real
  {
    if n == 0 then 1.0 else x * Pow(x, n - 1)
  }

  function Min(a: int, b: int): int
  {
    if a <= b then a else b
  }

  function Max(a: int, b: int): int
  {
    if a <= b then b else a
  }

  /** A sum of nonnegative entries is nonnegative. */
  lemma {:induction false} SumToNonNegative(s: seq<real>, c: nat)
    requires c <= |s| && NonNegative(s)
    ensures 0.0 <= SumTo(s, c)
  {
    if c > 0 {
      SumToNonNegative(s, c - 1);
    }
  }

  /** A sum of nonnegative entries is at least any one of its terms. */
  lemma {:induction false} SumToAtLeastTerm(s: seq<real>, c: nat, i: nat)
    requires i < c <= |s| && NonNegative(s)
    ensures s[i] <= SumTo(s, c)
  {
    if i == c - 1 {
      SumToNonNegative(s, c - 1);
    } else {
      SumToAtLeastTerm(s, c - 1, i);
    }
  }

  /** Sums of nonnegative entries vanish exactly when every summed entry does. */
  lemma {:induction false} SumToZeroIffAllZero(s: seq<real>, c: nat)
    requires c <= |s| && NonNegative(s)
    ensures SumTo(s, c) == 0.0 <==> forall i :: 0 <= i < c ==> s[i] == 0.0
  {
    if c > 0 {
      SumToZeroIffAllZero(s, c - 1);
      SumToNonNegative(s, c - 1);
    }
  }

  /** Scaling every entry scales the sum. */
  lemma {:induction false} SumToScale(s: seq<real>, t: seq<real>, a: real, c: nat)
    requires |s| == |t| && c <= |s|
    requires forall i :: 0 <= i < |s| ==> t[i] == a * s[i]
    ensures SumTo(t, c) == a * SumTo(s, c)
  {
    if c > 0 {
      SumToScale(s, t, a, c - 1);
    }
  }

  /** The sum of entrywise differences is the difference of the sums. */
  lemma {:induction false} SumToDifference(s: seq<real>, t: seq<real>, u: seq<real>, c: nat)
    requires c <= |s| && c <= |t| && c <= |u|
    requires forall i :: 0 <= i < c ==> u[i] == s[i] - t[i]
    ensures SumTo(u, c) == SumTo(s, c) - SumTo(t, c)
  {
    if c > 0 {
      SumToDifference(s, t, u, c - 1);
    }
  }

  /** a x = b y, kept as one named fact so that callers can pass it on without redoing the products. */
  predicate EqualProducts(a: real, x: real, b: real, y: real)
  {
    a * x == b * y
  }

  /** Every entry of `s` multiplied by `a`. */
  function Scale(a: real, s: seq<real>): (t: seq<real>)
    ensures |t| == |s|
    ensures forall i :: 0 <= i < |s| ==> t[i] == a * s[i]
  {
    seq(|s|, i requires 0 <= i < |s| => a * s[i])
  }

  lemma SumOfScale(a: real, s: seq<real>)
    ensures Sum(Scale(a, s)) == a * Sum(s)
  {
    SumToScale(s, Scale(a, s), a, |s|);
  }

  /** Summing a sequence shifted by one drops its first entry. */
  lemma {:induction false} SumToShift(s: seq<real>, t: seq<real>, c: nat)
    requires c < |t| && c <= |s|
    requires forall i :: 0 <= i < c ==> s[i] == t[i + 1]
    ensures SumTo(s, c) == SumTo(t, c + 1) - t[0]
  {
    if c > 0 {
      SumToShift(s, t, c - 1);
    }
  }

  /** Sums are monotone in their entries. */
  lemma {:induction false} SumToMonotone(s: seq<real>, t: seq<real>, c: nat)
    requires c <= |s| && c <= |t|
    requires forall i :: 0 <= i < c ==> s[i] <= t[i]
    ensures SumTo(s, c) <= SumTo(t, c)
  {
    if c > 0 {
      SumToMonotone(s, t, c - 1);
    }
  }

  /** Sums are strictly monotone when one summed entry is strictly smaller. */
  lemma {:induction false} SumToStrictlyMonotone(s: seq<real>, t: seq<real>, c: nat, j: nat)
    requires j < c <= |s| && c <= |t|
    requires forall i :: 0 <= i < c ==> s[i] <= t[i]
    requires s[j] < t[j]
    ensures SumTo(s, c) < SumTo(t, c)
  {
    if j == c - 1 {
      SumToMonotone(s, t, c - 1);
    } else {
      SumToStrictlyMonotone(s, t, c - 1, j);
    }
  }

  /** Sums only depend on the summed entries. */
  lemma {:induction false} SumToAgree(s: seq<real>, t: seq<real>, c: nat)
    requires c <= |s| && c <= |t|
    requires forall i :: 0 <= i < c ==> s[i] == t[i]
    ensures SumTo(s, c) == SumTo(t, c)
  {
    if c > 0 {
      SumToAgree(s, t, c - 1);
    }
  }

  /** A sum of `c` copies of `x`. */
  lemma {:induction false} SumToConstant(s: seq<real>, x: real, c: nat)
    requires c <= |s|
    requires forall i :: 0 <= i < |s| ==> s[i] == x
    ensures SumTo(s, c) == (c as real) * x
  {
    if c > 0 {
      SumToConstant(s, x, c - 1);
    }
  }

  /** One more factor: x^(n+1) = x * x^n. */
  lemma PowSucc(x: real, n: nat)
    ensures Pow(x, n + 1) == x * Pow(x, n)
  {
  }

  /** Powers of a number in [0, 1] stay in [0, 1] and do not increase with the exponent. */
  lemma {:induction false} PowUnitInterval(x: real, n: nat)
    requires 0.0 <= x <= 1.0
    ensures 0.0 <= Pow(x, n) <= 1.0
    ensures Pow(x, n + 1) <= Pow(x, n)
  {
    if n > 0 {
      PowUnitInterval(x, n - 1);
      ScaleByUnit(x, Pow(x, n - 1));
    }
    ScaleByUnit(x, Pow(x, n));
  }

  /** Multiplying a number in [0, 1] by x in [0, 1] keeps it in [0, 1] and does not increase it. */
  lemma ScaleByUnit(x: real, y: real)
    requires 0.0 <= x <= 1.0 && 0.0 <= y
    ensures 0.0 <= x * y <= y
  {
    assert y - x * y == (1.0 - x) * y;
  }

  /** Powers of a nonnegative number are nonnegative. */
  lemma {:induction false} PowNonNegative(x: real, n: nat)
    requires 0.0 <= x
    ensures 0.0 <= Pow(x, n)
  {
    if n > 0 {
      PowNonNegative(x, n - 1);
    }
  }

  /** Powers of a positive number are positive. */
  lemma {:induction false} PowPositive(x: real, n: nat)
    requires 0.0 < x
    ensures 0.0 < Pow(x, n)
  {
    if n > 0 {
      PowPositive(x, n - 1);
    }
  }

  // ---------------------------------------------------------------------------
  // Small facts of real arithmetic, kept apart so that each proof sees few terms
  // ---------------------------------------------------------------------------

  lemma DivNonNegative(a: real, b: real)
    requires 0.0 <= a && 0.0 < b
    ensures 0.0 <= a / b
  {
  }

  lemma DivPositive(a: real, b: real)
    requires 0.0 < a && 0.0 < b
    ensures 0.0 < a / b
  {
  }

  lemma MulNonNegative(a: real, b: real)
    requires 0.0 <= a && 0.0 <= b
    ensures 0.0 <= a * b
  {
  }

  lemma MulPositive(a: real, b: real)
    requires 0.0 < a && 0.0 < b
    ensures 0.0 < a * b
  {
  }

  lemma ReciprocalOfAtLeastOne(d: real)
    requires 1.0 <= d
    ensures 0.0 < 1.0 / d <= 1.0
  {
  }

  lemma ReciprocalAntitone(d1: real, d2: real)
    requires 0.0 < d2 < d1
    ensures 1.0 / d1 < 1.0 / d2
  {
    assert (1.0 / d1) * d1 == 1.0 && (1.0 / d2) * d2 == 1.0;
    MulPositive(1.0 / d1, d1 - d2);
  }

  lemma MulStrictlyMonotone(a1: real, a2: real, b1: real, b2: real)
    requires 0.0 <= a1 < a2 && 0.0 < b1 < b2
    ensures a1 * b1 < a2 * b2
  {
    MulNonNegative(a1, b2 - b1);
    MulPositive(a2 - a1, b2);
  }

  lemma MulDivCancel(a: real, b: real)
    requires b != 0.0
    ensures b * (a / b) == a
  {
  }

  /** Cancelling a common factor c from the denominator: c * (r a / (c f) * p) == r * (a / f * p). */
  lemma CancelCommonFactor(c: real, r: real, a: real, f: real, p: real)
    requires c != 0.0 && f != 0.0
    ensures c * ((r * a) / (c * f) * p) == r * (a / f * p)
  {
    assert (r * a) / (c * f) == (r * (a / f)) / c;
  }
}
