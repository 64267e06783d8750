/**
 * Propagation of a distribution through a transition matrix (markov.js): one
 * step `next[j] += curr[i] * P[i][j]`, the trajectory S0, S1, ..., S_pasos and
 * the fixed 300-step power iteration from the uniform vector.
 */
module MarkovChain {
  import RealSums
  import MarkovRows

  /** The terms v[i] * P[i][j], i = 0..n-1, of entry j of the next vector. */
  function Column(v: seq<real>, p: seq<seq<real>>, j: nat): (c: seq<real>)
    requires MarkovRows.IsSquare(p, |v|) && j < |v|
    ensures |c| == |v|
  {
    seq(|v|, i requires 0 <= i < |v| => v[i] * p[i][j])
  }

  /** The vector-matrix product v P. */
  function Step(v: seq<real>, p: seq<seq<real>>): (w: seq<real>)
    requires MarkovRows.IsSquare(p, |v|)
    ensures |w| == |v|
  {
    seq(|v|, j requires 0 <= j < |v| => RealSums.Sum(Column(v, p, j)))
  }

  /** v P^t. */
  function Iterate(v: seq<real>, p: seq<seq<real>>, t: nat): (w: seq<real>)
    requires MarkovRows.IsSquare(p, |v|)
    ensures |w| == |v|
  {
    if t == 0 then v else Step(Iterate(v, p, t - 1), p)
  }

  /**
   * One step as the source computes it: `next` starts at zeros and row i of
   * the matrix adds curr[i] * P[i][j] to every next[j].
   */
  method MultiplyVector(curr: seq<real>, p: seq<seq<real>>) returns (next: seq<real>)
    requires MarkovRows.IsSquare(p, |curr|)
    ensures next == Step(curr, p)
  {
    var n := |curr|;
    var acc := new real[n](_ => 0.0);
    for i := 0 to n
      invariant forall j :: 0 <= j < n ==> acc[j] == RealSums.SumTo(Column(curr, p, j), i)
    {
      for j := 0 to n
        invariant forall k :: 0 <= k < j ==> acc[k] == RealSums.SumTo(Column(curr, p, k), i + 1)
        invariant forall k :: j <= k < n ==> acc[k] == RealSums.SumTo(Column(curr, p, k), i)
      {
        acc[j] := acc[j] + curr[i] * p[i][j];
      }
    }
    next := acc[..];
  }

  // ---------------------------------------------------------------------------
  // Mass: a step weights every row sum by the current probability
  // ---------------------------------------------------------------------------

  /** The weights v[i] * sum(P[i]). */
  function RowMasses(v: seq<real>, p: seq<seq<real>>): (w: seq<real>)
    requires MarkovRows.IsSquare(p, |v|)
    ensures |w| == |v|
  {
    seq(|v|, i requires 0 <= i < |v| => v[i] * RealSums.Sum(p[i]))
  }

  /** The next vector after only the first c rows have been added in. */
  function PartialStep(v: seq<real>, p: seq<seq<real>>, c: nat): (w: seq<real>)
    requires MarkovRows.IsSquare(p, |v|) && c <= |v|
    ensures |w| == |v|
  {
    seq(|v|, j requires 0 <= j < |v| => RealSums.SumTo(Column(v, p, j), c))
  }

  lemma {:induction false} PartialStepMass(v: seq<real>, p: seq<seq<real>>, c: nat)
    requires MarkovRows.IsSquare(p, |v|) && c <= |v|
    ensures RealSums.Sum(PartialStep(v, p, c)) == RealSums.SumTo(RowMasses(v, p), c)
  {
    var n := |v|;
    if c == 0 {
      RealSums.SumToConstant(PartialStep(v, p, 0), 0.0, n);
    } else {
      PartialStepMass(v, p, c - 1);
      var before, after, row := PartialStep(v, p, c - 1), PartialStep(v, p, c), RealSums.Scale(v[c - 1], p[c - 1]);
      forall j | 0 <= j < n
        ensures before[j] == after[j] - row[j]
      {
        assert Column(v, p, j)[c - 1] == v[c - 1] * p[c - 1][j];
      }
      RealSums.SumToDifference(after, row, before, n);
      RealSums.SumOfScale(v[c - 1], p[c - 1]);
    }
  }

  /** sum(v P) = sum over i of v[i] * sum(P[i]). */
  lemma StepMass(v: seq<real>, p: seq<seq<real>>)
    requires MarkovRows.IsSquare(p, |v|)
    ensures RealSums.Sum(Step(v, p)) == RealSums.Sum(RowMasses(v, p))
  {
    PartialStepMass(v, p, |v|);
    assert PartialStep(v, p, |v|) == Step(v, p);
  }

  /** A step of a nonnegative vector through a nonnegative matrix is nonnegative. */
  lemma StepNonNegative(v: seq<real>, p: seq<seq<real>>)
    requires MarkovRows.IsSquare(p, |v|) && RealSums.NonNegative(v) && forall i :: 0 <= i < |v| ==> RealSums.NonNegative(p[i])
    ensures RealSums.NonNegative(Step(v, p))
  {
    var w := Step(v, p);
    forall j | 0 <= j < |v|
      ensures 0.0 <= w[j]
    {
      var c := Column(v, p, j);
      forall i | 0 <= i < |v|
        ensures 0.0 <= c[i]
      {
        RealSums.MulNonNegative(v[i], p[i][j]);
      }
      RealSums.SumToNonNegative(c, |v|);
    }
  }

  /** Every row sum of P lies in [lo, hi]. */
  predicate RowSumsWithin(p: seq<seq<real>>, lo: real, hi: real)
  {
    forall i :: 0 <= i < |p| ==> lo <= RealSums.Sum(p[i]) <= hi
  }

  lemma WeightBounds(x: real, lo: real, hi: real, s: real)
    requires 0.0 <= x && lo <= s <= hi
    ensures lo * x <= x * s <= hi * x
  {
    RealSums.MulNonNegative(x, s - lo);
    RealSums.MulNonNegative(x, hi - s);
  }

  /** With row sums in [lo, hi] a step scales the mass of a nonnegative vector by a factor in [lo, hi]. */
  lemma StepMassBounds(v: seq<real>, p: seq<seq<real>>, lo: real, hi: real)
    requires MarkovRows.IsSquare(p, |v|) && RealSums.NonNegative(v) && RowSumsWithin(p, lo, hi)
    ensures lo * RealSums.Sum(v) <= RealSums.Sum(Step(v, p)) <= hi * RealSums.Sum(v)
  {
    var masses, low, high := RowMasses(v, p), RealSums.Scale(lo, v), RealSums.Scale(hi, v);
    forall i | 0 <= i < |v|
      ensures low[i] <= masses[i] <= high[i]
    {
      WeightBounds(v[i], lo, hi, RealSums.Sum(p[i]));
    }
    RealSums.SumToMonotone(low, masses, |v|);
    RealSums.SumToMonotone(masses, high, |v|);
    RealSums.SumOfScale(lo, v);
    RealSums.SumOfScale(hi, v);
    StepMass(v, p);
  }

  /** Through a nonnegative matrix every iterate of a nonnegative vector is nonnegative. */
  lemma {:induction false} IterateNonNegative(v: seq<real>, p: seq<seq<real>>, t: nat)
    requires MarkovRows.IsSquare(p, |v|) && forall i :: 0 <= i < |v| ==> RealSums.NonNegative(p[i])
    requires RealSums.NonNegative(v)
    ensures RealSums.NonNegative(Iterate(v, p, t))
  {
    if t > 0 {
      IterateNonNegative(v, p, t - 1);
      StepNonNegative(Iterate(v, p, t - 1), p);
    }
  }

  /** y is x scaled by a factor in [lo, hi]. */
  predicate Between(lo: real, hi: real, x: real, y: real)
  {
    lo * x <= y <= hi * x
  }

  /** One step of the iteration scales its mass by a factor in [lo, hi]. */
  lemma MassStep(v: seq<real>, p: seq<seq<real>>, t: nat, lo: real, hi: real)
    requires MarkovRows.IsSquare(p, |v|) && forall i :: 0 <= i < |v| ==> RealSums.NonNegative(p[i])
    requires RealSums.NonNegative(v) && RowSumsWithin(p, lo, hi)
    ensures Between(lo, hi, RealSums.Sum(Iterate(v, p, t)), RealSums.Sum(Iterate(v, p, t + 1)))
  {
    IterateNonNegative(v, p, t);
    StepMassBounds(Iterate(v, p, t), p, lo, hi);
  }

  /** The interval step: from a <= x <= b and lo x <= y <= hi x it follows that lo a <= y <= hi b. */
  lemma PowerBounds(lo: real, hi: real, a: real, b: real, x: real, y: real, la: real, hb: real)
    requires 0.0 <= lo <= hi && a <= x <= b && lo * x <= y <= hi * x
    requires la == lo * a && hb == hi * b
    ensures la <= y <= hb
  {
    RealSums.MulNonNegative(lo, x - a);
    RealSums.MulNonNegative(hi, b - x);
  }

  /** A value within [lo^t, hi^t] scaled by a factor in [lo, hi] lies within [lo^(t+1), hi^(t+1)]. */
  lemma GeometricStep(lo: real, hi: real, t: nat, x: real, y: real)
    requires 0.0 <= lo <= hi && RealSums.Pow(lo, t) <= x <= RealSums.Pow(hi, t) && Between(lo, hi, x, y)
    ensures RealSums.Pow(lo, t + 1) <= y <= RealSums.Pow(hi, t + 1)
  {
    RealSums.PowSucc(lo, t);
    RealSums.PowSucc(hi, t);
    PowerBounds(lo, hi, RealSums.Pow(lo, t), RealSums.Pow(hi, t), x, y, RealSums.Pow(lo, t + 1), RealSums.Pow(hi, t + 1));
  }

  /** m[i + 1] is m[i] scaled by a factor in [lo, hi]. */
  predicate ScaledWithin(m: seq<real>, i: nat, lo: real, hi: real)
    requires i + 1 < |m|
  {
    Between(lo, hi, m[i], m[i + 1])
  }

  /** Masses m[0] = 1, each one a factor in [lo, hi] times the one before, lie in [lo^t, hi^t]. */
  lemma {:induction false} GeometricBounds(m: seq<real>, lo: real, hi: real, t: nat)
    requires t < |m| && m[0] == 1.0 && 0.0 <= lo <= hi
    requires forall i :: 0 <= i < |m| - 1 ==> ScaledWithin(m, i, lo, hi)
    ensures RealSums.Pow(lo, t) <= m[t] <= RealSums.Pow(hi, t)
  {
    if t > 0 {
      GeometricBounds(m, lo, hi, t - 1);
      assert ScaledWithin(m, t - 1, lo, hi);
      GeometricStep(lo, hi, t - 1, m[t - 1], m[t]);
    }
  }

  /** The masses of the first iterates. */
  function Masses(v: seq<real>, p: seq<seq<real>>, t: nat): (m: seq<real>)
    requires MarkovRows.IsSquare(p, |v|)
    ensures |m| == t + 1
  {
    seq(t + 1, i requires 0 <= i <= t => RealSums.Sum(Iterate(v, p, i)))
  }

  lemma MassesScaledWithin(v: seq<real>, p: seq<seq<real>>, t: nat, i: nat, lo: real, hi: real)
    requires MarkovRows.IsSquare(p, |v|) && forall k :: 0 <= k < |v| ==> RealSums.NonNegative(p[k])
    requires RealSums.NonNegative(v) && RowSumsWithin(p, lo, hi) && i < t
    ensures ScaledWithin(Masses(v, p, t), i, lo, hi)
  {
    var m := Masses(v, p, t);
    assert m[i] == RealSums.Sum(Iterate(v, p, i)) && m[i + 1] == RealSums.Sum(Iterate(v, p, i + 1));
    MassStep(v, p, i, lo, hi);
  }

  /**
   * Starting from a probability vector, t steps through a nonnegative matrix
   * with row sums in [lo, hi] leave a vector whose mass lies in [lo^t, hi^t];
   * for a stochastic matrix (lo = hi = 1) the mass stays 1.
   */
  lemma IterateMassBounds(v: seq<real>, p: seq<seq<real>>, t: nat, lo: real, hi: real)
    requires MarkovRows.IsSquare(p, |v|) && forall i :: 0 <= i < |v| ==> RealSums.NonNegative(p[i])
    requires MarkovRows.IsDistribution(v) && 0.0 <= lo <= hi && RowSumsWithin(p, lo, hi)
    ensures RealSums.Pow(lo, t) <= RealSums.Sum(Iterate(v, p, t)) <= RealSums.Pow(hi, t)
  {
    var masses := Masses(v, p, t);
    forall i | 0 <= i < t
      ensures ScaledWithin(masses, i, lo, hi)
    {
      MassesScaledWithin(v, p, t, i, lo, hi);
    }
    GeometricBounds(masses, lo, hi, t);
  }

  /** Through a stochastic matrix every iterate of a probability vector is a probability vector. */
  lemma IterateIsDistribution(v: seq<real>, p: seq<seq<real>>, t: nat)
    requires MarkovRows.IsSquare(p, |v|) && forall i :: 0 <= i < |v| ==> MarkovRows.IsDistribution(p[i])
    requires MarkovRows.IsDistribution(v)
    ensures MarkovRows.IsDistribution(Iterate(v, p, t))
  {
    IterateNonNegative(v, p, t);
    IterateMassBounds(v, p, t, 1.0, 1.0);
    PowOfOne(t);
  }

  lemma {:induction false} PowOfOne(t: nat)
    ensures RealSums.Pow(1.0, t) == 1.0
  {
    if t > 0 {
      PowOfOne(t - 1);
    }
  }

  // ---------------------------------------------------------------------------
  // The trajectory and the stationary estimate
  // ---------------------------------------------------------------------------

  /** `states`: S0 followed by one vector per step. */
  method Trajectory(s0: seq<real>, p: seq<seq<real>>, steps: nat) returns (states: seq<seq<real>>)
    requires MarkovRows.IsSquare(p, |s0|)
    ensures |states| == steps + 1 && states[0] == s0
    ensures forall t :: 0 <= t <= steps ==> states[t] == Iterate(s0, p, t)
  {
    states := [s0];
    var curr := s0;
    for step := 1 to steps + 1
      invariant |states| == step && curr == Iterate(s0, p, step - 1)
      invariant forall t :: 0 <= t < step ==> states[t] == Iterate(s0, p, t)
    {
      var next := MultiplyVector(curr, p);
      states := states + [next];
      curr := next;
    }
  }

  /** The number of power iterations of the stationary estimate. */
  const StationaryIterations: nat := 300

  /** `pi` starts uniform and is multiplied by P exactly 300 times. */
  method Stationary(p: seq<seq<real>>, n: nat) returns (pi: seq<real>)
    requires MarkovRows.IsSquare(p, n)
    ensures pi == Iterate(MarkovRows.Uniform(n), p, StationaryIterations)
  {
    pi := MarkovRows.Uniform(n);
    for t := 0 to StationaryIterations
      invariant pi == Iterate(MarkovRows.Uniform(n), p, t)
    {
      pi := MultiplyVector(pi, p);
    }
  }
}
