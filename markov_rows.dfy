/**
 * Input handling of the Markov-chain calculator (markov.js): the clamps on the
 * number of states and steps, the rejection of negative entries, the row-sum
 * check with its optional normalisation, and the normalisation of the initial
 * vector S0.
 */
module MarkovRows {
  import Wrappers
  import RealSums

  datatype MarkovError =
    | InvalidEntry(row: nat, col: nat)   // "Valor inválido en P[row+1,col+1]"
    | RowRejected(row: nat)              // the user declined to normalise this row
    | InvalidInitialEntry(index: nat)    // "Valor inválido en S0[index+1]"
    | ZeroInitialVector                  // "El vector inicial no puede ser todo ceros."

  /** A (row, column) position in the matrix. */
  type Position = (nat, nat)

  /** `Math.min(8, Math.max(2, x))`: the number of states. */
  function ClampStates(x: int): (n: nat)
    ensures 2 <= n <= 8
    ensures 2 <= x <= 8 ==> n == x
  {
    RealSums.Min(8, RealSums.Max(2, x))
  }

  /** `Math.min(10, Math.max(1, x))`: the number of steps. */
  function ClampSteps(x: int): (n: nat)
    ensures 1 <= n <= 10
    ensures 1 <= x <= 10 ==> n == x
  {
    RealSums.Min(10, RealSums.Max(1, x))
  }

  /** An n-by-n matrix given as a sequence of rows. */
  predicate IsSquare(p: seq<seq<real>>, n: nat)
  {
    |p| == n && forall i :: 0 <= i < n ==> |p[i]| == n
  }

  /** A probability vector: nonnegative entries summing to 1. */
  predicate IsDistribution(v: seq<real>)
  {
    RealSums.NonNegative(v) && RealSums.Sum(v) == 1.0
  }

  // ---------------------------------------------------------------------------
  // First negative entry: the validation loops stop at the first bad value
  // ---------------------------------------------------------------------------

  /** The scan of one vector: the index of its first negative entry, if any. */
  method FindNegative(s: seq<real>) returns (r: Wrappers.Option<nat>)
    ensures r.None? <==> RealSums.NonNegative(s)
    ensures r.Some? ==> r.value < |s| && s[r.value] < 0.0 && RealSums.NonNegative(s[..r.value])
  {
    for i := 0 to |s|
      invariant RealSums.NonNegative(s[..i])
    {
      if s[i] < 0.0 {
        return Wrappers.Some(i);
      }
      assert s[..i + 1] == s[..i] + [s[i]];
    }
    assert s[..|s|] == s;
    return Wrappers.None;
  }

  /** The row-major scan of the matrix entries: the first negative P[i][j], if any. */
  method FindNegativeEntry(p: seq<seq<real>>) returns (r: Wrappers.Option<Position>)
    ensures r.None? <==> forall i :: 0 <= i < |p| ==> RealSums.NonNegative(p[i])
    ensures r.Some? ==>
      var (i, j) := r.value;
      i < |p| && j < |p[i]| && p[i][j] < 0.0 &&
      (forall k :: 0 <= k < i ==> RealSums.NonNegative(p[k])) && RealSums.NonNegative(p[i][..j])
  {
    for i := 0 to |p|
      invariant forall k :: 0 <= k < i ==> RealSums.NonNegative(p[k])
    {
      var bad := FindNegative(p[i]);
      if bad.Some? {
        return Wrappers.Some((i, bad.value));
      }
    }
    return Wrappers.None;
  }

  // ---------------------------------------------------------------------------
  // Row normalisation
  // ---------------------------------------------------------------------------

  /** The uniform row 1/n, ..., 1/n. */
  function Uniform(n: nat): (u: seq<real>)
    ensures |u| == n
  {
    seq(n, i requires 0 <= i < n => 1.0 / (n as real))
  }

  /** `row.map(v => v / s)` for the row sum s. */
  function DivideBy(row: seq<real>, s: real): (r: seq<real>)
    requires s != 0.0
    ensures |r| == |row|
  {
    seq(|row|, j requires 0 <= j < |row| => row[j] / s)
  }

  /** A zero-sum row becomes uniform; any other row is divided by its sum. */
  function NormalizeRow(row: seq<real>): (r: seq<real>)
    ensures |r| == |row|
    ensures RealSums.Sum(row) == 0.0 ==> r == Uniform(|row|)
    ensures RealSums.Sum(row) != 0.0 ==> r == RealSums.Scale(1.0 / RealSums.Sum(row), row)
    ensures 1 <= |row| ==> RealSums.Sum(r) == 1.0
  {
    var s := RealSums.Sum(row);
    if s == 0.0 then
      assert 1 <= |row| ==> RealSums.Sum(Uniform(|row|)) == 1.0 by {
        if 1 <= |row| { UniformIsDistribution(|row|); }
      }
      Uniform(|row|)
    else
      DivideByScales(row, s);
      RealSums.SumOfScale(1.0 / s, row);
      assert (1.0 / s) * s == 1.0;
      DivideBy(row, s)
  }

  lemma UniformIsDistribution(n: nat)
    requires 1 <= n
    ensures IsDistribution(Uniform(n))
  {
    var u := Uniform(n);
    RealSums.DivPositive(1.0, n as real);
    RealSums.SumToConstant(u, 1.0 / (n as real), n);
    RealSums.MulDivCancel(1.0, n as real);
  }

  lemma DivideByScales(row: seq<real>, s: real)
    requires s != 0.0
    ensures DivideBy(row, s) == RealSums.Scale(1.0 / s, row)
  {
    var d, t := DivideBy(row, s), RealSums.Scale(1.0 / s, row);
    forall j | 0 <= j < |row|
      ensures d[j] == t[j]
    {
      assert row[j] / s == (1.0 / s) * row[j];
    }
  }

  /** Normalising a nonempty row of nonnegative entries yields a probability vector. */
  lemma NormalizeRowIsDistribution(row: seq<real>)
    requires 1 <= |row| && RealSums.NonNegative(row)
    ensures IsDistribution(NormalizeRow(row))
  {
    var s := RealSums.Sum(row);
    if s == 0.0 {
      UniformIsDistribution(|row|);
    } else {
      RealSums.SumToNonNegative(row, |row|);
      var r := NormalizeRow(row);
      forall j | 0 <= j < |row|
        ensures 0.0 <= r[j]
      {
        RealSums.DivNonNegative(row[j], s);
      }
    }
  }

  /** A row that already sums to 1 is left as it is. */
  lemma NormalizeRowKeepsDistribution(row: seq<real>)
    requires RealSums.Sum(row) == 1.0
    ensures NormalizeRow(row) == row
  {
  }

  /** Normalising twice is normalising once. */
  lemma NormalizeRowIdempotent(row: seq<real>)
    requires 1 <= |row|
    ensures NormalizeRow(NormalizeRow(row)) == NormalizeRow(row)
  {
    NormalizeRowKeepsDistribution(NormalizeRow(row));
  }

  /** The "normalise rows" button: every row of the matrix normalised. */
  function NormalizeMatrix(p: seq<seq<real>>): (r: seq<seq<real>>)
    ensures |r| == |p|
    ensures forall i :: 0 <= i < |p| ==> r[i] == NormalizeRow(p[i])
    ensures forall i :: 0 <= i < |p| ==> |r[i]| == |p[i]|
    ensures forall i :: 0 <= i < |p| && 1 <= |p[i]| ==> RealSums.Sum(r[i]) == 1.0
  {
    seq(|p|, i requires 0 <= i < |p| => NormalizeRow(p[i]))
  }

  /** After the button every row of a nonnegative square matrix is a probability vector. */
  lemma NormalizeMatrixIsStochastic(p: seq<seq<real>>, n: nat)
    requires 1 <= n && IsSquare(p, n) && forall i :: 0 <= i < n ==> RealSums.NonNegative(p[i])
    ensures IsSquare(NormalizeMatrix(p), n)
    ensures forall i :: 0 <= i < n ==> IsDistribution(NormalizeMatrix(p)[i])
  {
    forall i | 0 <= i < n
      ensures IsDistribution(NormalizeMatrix(p)[i])
    {
      NormalizeRowIsDistribution(p[i]);
    }
  }

  // ---------------------------------------------------------------------------
  // The row-sum check of the calculation
  // ---------------------------------------------------------------------------

  /** The tolerance 1e-6 on a row sum. */
  const Tolerance: real := 0.000001

  function Abs(x: real): real
  {
    if x < 0.0 then -x else x
  }

  /** `Math.abs(s - 1) > 1e-6` is false. */
  predicate WithinTolerance(row: seq<real>)
  {
    Abs(RealSums.Sum(row) - 1.0) <= Tolerance
  }

  /** A row within tolerance is kept; any other row, once approved, is normalised. */
  function CheckedRow(row: seq<real>): (r: seq<real>)
    ensures |r| == |row|
    ensures WithinTolerance(row) ==> r == row
    ensures !WithinTolerance(row) ==> r == NormalizeRow(row)
    ensures 1 <= |row| ==> WithinTolerance(r)
  {
    if WithinTolerance(row) then row else NormalizeRow(row)
  }

  /** Rows of a nonnegative matrix that pass the check are nonnegative and sum to 1 within tolerance. */
  lemma CheckedRowNearlyStochastic(row: seq<real>)
    requires 1 <= |row| && RealSums.NonNegative(row)
    ensures RealSums.NonNegative(CheckedRow(row)) && WithinTolerance(CheckedRow(row))
    ensures !WithinTolerance(row) ==> RealSums.Sum(CheckedRow(row)) == 1.0
  {
    if !WithinTolerance(row) {
      NormalizeRowIsDistribution(row);
    }
  }

  /** Row i may stay as it is or is approved for normalisation. */
  predicate Accepted(row: seq<real>, approved: bool)
  {
    WithinTolerance(row) || approved
  }

  /**
   * The row check on the matrix P in place: rows outside the tolerance are
   * normalised when `approve[i]` (the answer to the confirmation for row i)
   * is true, and the check stops at the first row whose normalisation is
   * declined, leaving that row and the rows after it untouched.
   */
  method CheckRows(p: array<seq<real>>, approve: seq<bool>) returns (rejected: Wrappers.Option<nat>)
    requires |approve| == p.Length
    modifies p
    ensures rejected.None? ==> forall i :: 0 <= i < p.Length ==> Accepted(old(p[i]), approve[i])
    ensures rejected.None? ==> forall i :: 0 <= i < p.Length ==> p[i] == CheckedRow(old(p[i]))
    ensures rejected.Some? ==>
      var r := rejected.value;
      r < p.Length && !Accepted(old(p[r]), approve[r]) &&
      (forall i :: 0 <= i < r ==> Accepted(old(p[i]), approve[i]) && p[i] == CheckedRow(old(p[i]))) &&
      (forall i :: r <= i < p.Length ==> p[i] == old(p[i]))
  {
    for i := 0 to p.Length
      invariant forall k :: 0 <= k < i ==> Accepted(old(p[k]), approve[k]) && p[k] == CheckedRow(old(p[k]))
      invariant forall k :: i <= k < p.Length ==> p[k] == old(p[k])
    {
      if !WithinTolerance(p[i]) {
        if approve[i] {
          p[i] := NormalizeRow(p[i]);
        } else {
          return Wrappers.Some(i);
        }
      }
    }
    return Wrappers.None;
  }

  /** The rows after a successful check. */
  function CheckedMatrix(p: seq<seq<real>>): (r: seq<seq<real>>)
    ensures |r| == |p|
  {
    seq(|p|, i requires 0 <= i < |p| => CheckedRow(p[i]))
  }

  /** After a successful check every row is nonnegative and sums to 1 within the tolerance. */
  lemma CheckedMatrixNearlyStochastic(p: seq<seq<real>>, n: nat)
    requires 1 <= n && IsSquare(p, n) && forall i :: 0 <= i < n ==> RealSums.NonNegative(p[i])
    ensures IsSquare(CheckedMatrix(p), n)
    ensures forall i :: 0 <= i < n ==> RealSums.NonNegative(CheckedMatrix(p)[i]) && WithinTolerance(CheckedMatrix(p)[i])
  {
    forall i | 0 <= i < n
      ensures RealSums.NonNegative(CheckedMatrix(p)[i]) && WithinTolerance(CheckedMatrix(p)[i])
    {
      CheckedRowNearlyStochastic(p[i]);
    }
  }

  // ---------------------------------------------------------------------------
  // The initial vector
  // ---------------------------------------------------------------------------

  /** `S0.map(x => x / sumS0)`, refused when the sum is 0. */
  function NormalizeInitial(s0: seq<real>): (r: Wrappers.Result<seq<real>, MarkovError>)
    ensures r.Err? <==> RealSums.Sum(s0) == 0.0
    ensures r.Ok? ==> |r.value| == |s0|
  {
    var s := RealSums.Sum(s0);
    if s == 0.0 then Wrappers.Err(ZeroInitialVector) else Wrappers.Ok(DivideBy(s0, s))
  }

  /**
   * For nonnegative S0: the zero-sum refusal happens exactly for the all-zero
   * vector, and otherwise the result is a probability vector proportional to S0.
   */
  lemma NormalizeInitialIsDistribution(s0: seq<real>)
    requires RealSums.NonNegative(s0)
    ensures NormalizeInitial(s0).Err? <==> forall i :: 0 <= i < |s0| ==> s0[i] == 0.0
    ensures NormalizeInitial(s0).Ok? ==>
      IsDistribution(NormalizeInitial(s0).value) &&
      NormalizeInitial(s0).value == RealSums.Scale(1.0 / RealSums.Sum(s0), s0)
  {
    RealSums.SumToZeroIffAllZero(s0, |s0|);
    if RealSums.Sum(s0) != 0.0 {
      assert 1 <= |s0|;
      NormalizeRowIsDistribution(s0);
      DivideByScales(s0, RealSums.Sum(s0));
    }
  }
}
