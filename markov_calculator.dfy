/**
 * The "calculate" action of the Markov-chain calculator (markov.js): input
 * checks, trajectory, stationary estimate, and the reading of the last vector
 * (dominant state, apparent convergence, the application case shown).
 */
module MarkovCalculator {
  import Wrappers
  import RealSums
  import MarkovRows
  import MarkovChain

  // ---------------------------------------------------------------------------
  // Reading the last vector
  // ---------------------------------------------------------------------------

  /** `Math.max(...s)`. */
  function MaxOf(s: seq<real>): (m: real)
    requires 1 <= |s|
    ensures forall i :: 0 <= i < |s| ==> s[i] <= m
    ensures exists i :: 0 <= i < |s| && s[i] == m
  {
    if |s| == 1 then s[0]
    else
      var rest := MaxOf(s[1..]);
      assert forall i :: 1 <= i < |s| ==> s[i] == s[1..][i - 1];
      if s[0] >= rest then s[0] else rest
  }

  /** `s.indexOf(x)`: the first position holding x, or -1. */
  function IndexOf(s: seq<real>, x: real): (i: int)
    ensures -1 <= i < |s|
    ensures i == -1 <==> forall k :: 0 <= k < |s| ==> s[k] != x
    ensures 0 <= i ==> s[i] == x && forall k :: 0 <= k < i ==> s[k] != x
  {
    if |s| == 0 then -1
    else if s[0] == x then 0
    else
      var j := IndexOf(s[1..], x);
      assert forall k :: 1 <= k < |s| ==> s[k] == s[1..][k - 1];
      if j == -1 then -1 else j + 1
  }

  /** The dominant state, numbered from 1: `last.indexOf(Math.max(...last)) + 1`. */
  function Dominant(last: seq<real>): (d: int)
    requires 1 <= |last|
    ensures 1 <= d <= |last|
    ensures forall i :: 0 <= i < |last| ==> last[i] <= last[d - 1]
    ensures forall i :: 0 <= i < d - 1 ==> last[i] < last[d - 1]
  {
    IndexOf(last, MaxOf(last)) + 1
  }

  /** The tolerance 0.02 of the convergence reading. */
  const ConvergenceTolerance: real := 0.02

  /** `Math.abs(v - w) < 0.02`. */
  predicate Close(v: real, w: real)
  {
    MarkovRows.Abs(v - w) < ConvergenceTolerance
  }

  /** `last.every((v, i) => Math.abs(v - pi[i]) < 0.02)`. */
  predicate Converged(last: seq<real>, pi: seq<real>)
    requires |last| <= |pi|
    ensures Converged(last, pi) <==>
      forall i :: 0 <= i < |last| ==> pi[i] - ConvergenceTolerance < last[i] < pi[i] + ConvergenceTolerance
  {
    forall i :: 0 <= i < |last| ==> Close(last[i], pi[i])
  }

  /**
   * What a converged reading says about the whole vector: every state lies
   * within 0.02 of the estimate, so the total masses differ by at most 0.02 n.
   */
  lemma ConvergedMassesClose(last: seq<real>, pi: seq<real>)
    requires |last| == |pi| && Converged(last, pi)
    ensures MarkovRows.Abs(RealSums.Sum(last) - RealSums.Sum(pi)) <= ConvergenceTolerance * (|last| as real)
  {
    var n := |last|;
    var d := seq(n, i requires 0 <= i < n => last[i] - pi[i]);
    var hi := seq(n, i => ConvergenceTolerance);
    var lo := seq(n, i => -ConvergenceTolerance);
    forall i | 0 <= i < n
      ensures lo[i] <= d[i] <= hi[i]
    {
      assert Close(last[i], pi[i]);
    }
    RealSums.SumToDifference(last, pi, d, n);
    RealSums.SumToMonotone(d, hi, n);
    RealSums.SumToMonotone(lo, d, n);
    RealSums.SumToConstant(hi, ConvergenceTolerance, n);
    RealSums.SumToConstant(lo, -ConvergenceTolerance, n);
  }

  /** The four texts of `casos` and the fallback for a dominant state beyond the fourth. */
  datatype Application =
    | Retention      // state 1: users stay or come back
    | Navigation     // state 2: frequent changes of state
    | Equilibrium    // state 3: a stable distribution
    | LowActivity    // state 4: drift towards inactivity
    | General        // no entry in `casos`

  /** `casos[dominant] || fallback`. */
  function ApplicationFor(dominant: int): (a: Application)
    ensures a == General <==> dominant < 1 || 4 < dominant
  {
    if dominant == 1 then Retention
    else if dominant == 2 then Navigation
    else if dominant == 3 then Equilibrium
    else if dominant == 4 then LowActivity
    else General
  }

  /** The fallback text is shown exactly when the dominant state is the fifth or later. */
  lemma GeneralOnlyBeyondFourthState(last: seq<real>)
    requires 1 <= |last|
    ensures ApplicationFor(Dominant(last)) == General <==> 4 < Dominant(last)
    ensures |last| <= 4 ==> ApplicationFor(Dominant(last)) != General
  {
  }

  // ---------------------------------------------------------------------------
  // The calculation
  // ---------------------------------------------------------------------------

  datatype MarkovResult = MarkovResult(
    matrix: seq<seq<real>>,     // P after the row check
    states: seq<seq<real>>,     // S0 (normalised), S1, ..., S_pasos
    pi: seq<real>,              // the 300-step estimate
    dominant: int,
    converged: bool,
    application: Application)

  /** What the calculator returns: its analysis, or the first input it refused. */
  type Outcome = Wrappers.Result<MarkovResult, MarkovRows.MarkovError>

  /** Every input entry is nonnegative. */
  predicate EntriesValid(p: seq<seq<real>>)
  {
    forall i :: 0 <= i < |p| ==> RealSums.NonNegative(p[i])
  }

  /** Every row is within tolerance or approved for normalisation. */
  predicate RowsAccepted(p: seq<seq<real>>, approve: seq<bool>)
    requires |approve| == |p|
  {
    forall i :: 0 <= i < |p| ==> MarkovRows.Accepted(p[i], approve[i])
  }

  /**
   * The calculate handler. `numStates` and `numSteps` are the parsed inputs,
   * `p` and `s0` the entries of the grid generated for the clamped number of
   * states, and `approve[i]` the answer to the confirmation for row i.
   */
  method Calculate(numStates: int, numSteps: int, p: seq<seq<real>>, s0: seq<real>, approve: seq<bool>) returns (r: Outcome)
    requires MarkovRows.IsSquare(p, MarkovRows.ClampStates(numStates)) && |s0| == MarkovRows.ClampStates(numStates)
    requires |approve| == MarkovRows.ClampStates(numStates)
    ensures r.Err? && r.error.InvalidEntry? ==>
      var (i, j) := (r.error.row, r.error.col);
      i < |p| && j < |p[i]| && p[i][j] < 0.0 &&
      (forall k :: 0 <= k < i ==> RealSums.NonNegative(p[k])) && RealSums.NonNegative(p[i][..j])
    ensures r.Err? && r.error.RowRejected? ==>
      var i := r.error.row;
      EntriesValid(p) && i < |p| && !MarkovRows.Accepted(p[i], approve[i]) &&
      forall k :: 0 <= k < i ==> MarkovRows.Accepted(p[k], approve[k])
    ensures r.Err? && r.error.InvalidInitialEntry? ==>
      var i := r.error.index;
      EntriesValid(p) && RowsAccepted(p, approve) &&
      i < |s0| && s0[i] < 0.0 && RealSums.NonNegative(s0[..i])
    ensures r.Err? && r.error.ZeroInitialVector? ==>
      EntriesValid(p) && RowsAccepted(p, approve) &&
      RealSums.NonNegative(s0) && forall i :: 0 <= i < |s0| ==> s0[i] == 0.0
    ensures r.Ok? ==>
      EntriesValid(p) && RowsAccepted(p, approve) && RealSums.NonNegative(s0) && RealSums.Sum(s0) != 0.0 &&
      var res := r.value;
      var steps := MarkovRows.ClampSteps(numSteps);
      Reports(res, steps) &&
      res.matrix == MarkovRows.CheckedMatrix(p) &&
      res.states[0] == RealSums.Scale(1.0 / RealSums.Sum(s0), s0)
  {
    var n := MarkovRows.ClampStates(numStates);
    var steps := MarkovRows.ClampSteps(numSteps);

    var bad := MarkovRows.FindNegativeEntry(p);
    if bad.Some? {
      return Wrappers.Err(MarkovRows.InvalidEntry(bad.value.0, bad.value.1));
    }

    var rows := new seq<real>[n](i requires 0 <= i < n => p[i]);
    var rejected := MarkovRows.CheckRows(rows, approve);
    if rejected.Some? {
      return Wrappers.Err(MarkovRows.RowRejected(rejected.value));
    }
    var matrix := rows[..];
    assert matrix == MarkovRows.CheckedMatrix(p);

    var badInitial := MarkovRows.FindNegative(s0);
    if badInitial.Some? {
      return Wrappers.Err(MarkovRows.InvalidInitialEntry(badInitial.value));
    }
    MarkovRows.NormalizeInitialIsDistribution(s0);
    var s0norm;
    match MarkovRows.NormalizeInitial(s0) {
      case Err(e) => return Wrappers.Err(e);
      case Ok(v) => s0norm := v;
    }

    var res := Analyse(matrix, s0norm, steps);
    return Wrappers.Ok(res);
  }

  /**
   * What a successful calculation shows, in terms of its own matrix and first
   * vector: the trajectory of `steps` steps, the estimate after
   * StationaryIterations steps from the uniform vector, and the reading of the
   * last vector of the trajectory against that estimate.
   */
  predicate Reports(res: MarkovResult, steps: nat)
  {
    |res.states| == steps + 1 && 1 <= |res.matrix| && MarkovRows.IsSquare(res.matrix, |res.states[0]|) &&
    (forall t :: 0 <= t <= steps ==> res.states[t] == MarkovChain.Iterate(res.states[0], res.matrix, t)) &&
    res.pi == MarkovChain.Iterate(MarkovRows.Uniform(|res.matrix|), res.matrix, MarkovChain.StationaryIterations) &&
    res.dominant == Dominant(res.states[steps]) &&
    (res.converged <==> Converged(res.states[steps], res.pi)) &&
    res.application == ApplicationFor(res.dominant)
  }

  /** The part of the handler after the checks: trajectory, estimate and reading. */
  method Analyse(matrix: seq<seq<real>>, start: seq<real>, steps: nat) returns (res: MarkovResult)
    requires 1 <= |start| && MarkovRows.IsSquare(matrix, |start|)
    ensures Reports(res, steps) && res.matrix == matrix && res.states[0] == start
  {
    var states := MarkovChain.Trajectory(start, matrix, steps);
    var pi := MarkovChain.Stationary(matrix, |start|);
    var last := states[steps];
    var dominant := Dominant(last);
    res := MarkovResult(matrix, states, pi, dominant, Converged(last, pi), ApplicationFor(dominant));
  }

  // ---------------------------------------------------------------------------
  // What the results are
  // ---------------------------------------------------------------------------

  lemma ToleranceBounds(row: seq<real>)
    requires MarkovRows.WithinTolerance(row)
    ensures 1.0 - MarkovRows.Tolerance <= RealSums.Sum(row) <= 1.0 + MarkovRows.Tolerance
  {
  }

  /**
   * After the row check, t steps from a probability vector give a nonnegative
   * vector whose entries sum to within (1 -+ 1e-6)^t of 1: rows kept for being
   * within the tolerance let the mass drift by at most that factor per step.
   */
  lemma CheckedIterateNearlyDistribution(p: seq<seq<real>>, n: nat, v: seq<real>, t: nat)
    requires 1 <= n && MarkovRows.IsSquare(p, n) && EntriesValid(p) && |v| == n && MarkovRows.IsDistribution(v)
    ensures RealSums.NonNegative(MarkovChain.Iterate(v, MarkovRows.CheckedMatrix(p), t))
    ensures RealSums.Pow(1.0 - MarkovRows.Tolerance, t) <= RealSums.Sum(MarkovChain.Iterate(v, MarkovRows.CheckedMatrix(p), t)) <= RealSums.Pow(1.0 + MarkovRows.Tolerance, t)
  {
    var m := MarkovRows.CheckedMatrix(p);
    MarkovRows.CheckedMatrixNearlyStochastic(p, n);
    forall i | 0 <= i < n
      ensures 1.0 - MarkovRows.Tolerance <= RealSums.Sum(m[i]) <= 1.0 + MarkovRows.Tolerance
    {
      ToleranceBounds(m[i]);
    }
    MarkovChain.IterateNonNegative(v, m, t);
    MarkovChain.IterateMassBounds(v, m, t, 1.0 - MarkovRows.Tolerance, 1.0 + MarkovRows.Tolerance);
  }

  /** Rows that sum exactly to 1 pass the check unchanged. */
  lemma CheckedMatrixKeepsStochastic(p: seq<seq<real>>)
    requires forall i :: 0 <= i < |p| ==> RealSums.Sum(p[i]) == 1.0
    ensures MarkovRows.CheckedMatrix(p) == p
  {
  }

  /**
   * For a calculation that succeeds on an exactly stochastic matrix every
   * vector of the trajectory and the stationary estimate is a probability vector.
   */
  lemma ExactTrajectoryIsDistribution(p: seq<seq<real>>, n: nat, s0: seq<real>, t: nat)
    requires 1 <= n && MarkovRows.IsSquare(p, n) && |s0| == n
    requires forall i :: 0 <= i < n ==> MarkovRows.IsDistribution(p[i])
    requires RealSums.NonNegative(s0) && RealSums.Sum(s0) != 0.0
    ensures MarkovRows.IsDistribution(MarkovChain.Iterate(RealSums.Scale(1.0 / RealSums.Sum(s0), s0), MarkovRows.CheckedMatrix(p), t))
    ensures MarkovRows.IsDistribution(MarkovChain.Iterate(MarkovRows.Uniform(n), MarkovRows.CheckedMatrix(p), MarkovChain.StationaryIterations))
  {
    CheckedMatrixKeepsStochastic(p);
    MarkovRows.NormalizeInitialIsDistribution(s0);
    MarkovChain.IterateIsDistribution(RealSums.Scale(1.0 / RealSums.Sum(s0), s0), p, t);
    MarkovRows.UniformIsDistribution(n);
    MarkovChain.IterateIsDistribution(MarkovRows.Uniform(n), p, MarkovChain.StationaryIterations);
  }
}
