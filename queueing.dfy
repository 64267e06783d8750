/**
 * The closed-form queueing formulas of teoriaColas.js: the iterative factorial,
 * M/M/1 and M/M/k (Erlang C) metrics and their truncated P(n) tables.
 */
module Queueing {
  import Wrappers
  import RealSums

  // ---------------------------------------------------------------------------
  // Helpers shared by the click handlers
  // ---------------------------------------------------------------------------

  /** n!, where every n < 2 gives 1. */
  function Fact(n: nat): (r: nat)
    ensures 1 <= r
  {
    if n < 2 then 1 else n * Fact(n - 1)
  }

  /** The helper `factorial`: 1 below 2, otherwise the product 2 * 3 * ... * n built in a loop. */
  method Factorial(n: int) returns (f: nat)
    ensures 1 <= f
    ensures n < 2 ==> f == 1
    ensures 2 <= n ==> f == Fact(n) && f == n * Fact(n - 1)
  {
    if n < 2 {
      return 1;
    }
    f := 1;
    for i := 2 to n + 1
      invariant f == Fact(i - 1)
    {
      f := f * i;
    }
  }

  /**
   * `Math.max(1, Math.floor(Number(x) || 1))`: how the handlers read a server
   * count or a population size from a numeric input.
   */
  function ClampToPositiveInteger(x: real): (k: nat)
    ensures 1 <= k
    ensures 1.0 <= x ==> k as real <= x < k as real + 1.0
    ensures x < 2.0 ==> k == 1
  {
    if x.Floor < 1 then 1 else x.Floor
  }

  datatype QueueError =
    | InvalidParameters              // "Parámetros inválidos"
    | Unstable(utilisation: real)    // lambda >= mu, or rho / k >= 1

  // ---------------------------------------------------------------------------
  // M/M/1
  // ---------------------------------------------------------------------------

  /** Little's law: the mean number n in a part of the system is the arrival rate times the mean time spent there. */
  predicate LittlesLaw(n: real, rate: real, time: real)
  {
    n == rate * time
  }

  datatype MM1Metrics = MM1Metrics(rho: real, L: real, Lq: real, W: real, Wq: real)

  /** The arithmetic facts behind the M/M/1 closed forms. */
  lemma MM1Algebra(lam: real, mu: real, rho: real)
    requires 0.0 < mu && lam < mu && rho == lam / mu
    ensures 1.0 - rho == (mu - lam) / mu && 0.0 < 1.0 - rho
    ensures rho / (1.0 - rho) == lam * (1.0 / (mu - lam))
    ensures rho * rho / (1.0 - rho) == lam * (rho / (mu - lam))
    ensures rho / (1.0 - rho) == rho * rho / (1.0 - rho) + rho
    ensures 1.0 / (mu - lam) == rho / (mu - lam) + 1.0 / mu
  {
    var d := mu - lam;
    assert rho * mu == lam;
    assert (1.0 - rho) * mu == d;
    assert rho / (1.0 - rho) == lam / d by {
      assert rho * d == lam * (1.0 - rho);
    }
    assert rho * rho / (1.0 - rho) == lam * rho / d by {
      assert rho * rho * d == lam * rho * (1.0 - rho);
    }
    assert rho * rho + rho * (1.0 - rho) == rho;
    assert rho * mu + d == mu;
  }

  /** The M/M/1 formulas of the handler once both of its guards have passed. */
  function MM1Formulas(lam: real, mu: real): (m: MM1Metrics)
    requires 0.0 < mu && lam < mu
    ensures m.rho * mu == lam && m.rho < 1.0
    ensures m.L == m.Lq + m.rho
    ensures LittlesLaw(m.L, lam, m.W) && LittlesLaw(m.Lq, lam, m.Wq)
    ensures m.W == m.Wq + 1.0 / mu
  {
    var rho := lam / mu;
    MM1Algebra(lam, mu, rho);
    MM1Metrics(rho, rho / (1.0 - rho), rho * rho / (1.0 - rho), 1.0 / (mu - lam), rho / (mu - lam))
  }

  /** What the M/M/1 handler returns: the metrics or the reason it refused. */
  type MM1Outcome = Wrappers.Result<MM1Metrics, QueueError>

  /** The M/M/1 handler as written: only mu <= 0 and lambda >= mu are rejected. */
  function MM1AsWritten(lam: real, mu: real): (r: MM1Outcome)
    ensures r.Ok? <==> 0.0 < mu && lam < mu
    ensures mu <= 0.0 ==> r == Wrappers.Err(InvalidParameters)
    ensures 0.0 < mu <= lam ==> r.Err? && r.error.Unstable?
  {
    if mu <= 0.0 then Wrappers.Err(InvalidParameters)
    else if lam >= mu then Wrappers.Err(Unstable(lam / mu))
    else Wrappers.Ok(MM1Formulas(lam, mu))
  }

  /**
   * The M/M/1 handler with a negative arrival rate rejected as invalid, as the
   * finite-source solver of the same file does.
   */
  function MM1(lam: real, mu: real): (r: MM1Outcome)
    ensures r.Ok? <==> 0.0 <= lam < mu
    ensures r.Ok? ==> 0.0 <= r.value.rho < 1.0
    ensures 0.0 <= lam ==> r == MM1AsWritten(lam, mu)
    ensures lam < 0.0 ==> r == Wrappers.Err(InvalidParameters)
  {
    if mu <= 0.0 || lam < 0.0 then Wrappers.Err(InvalidParameters)
    else if lam >= mu then Wrappers.Err(Unstable(lam / mu))
    else Wrappers.Ok(MM1Formulas(lam, mu))
  }

  /**
   * The as-written guard lets a negative arrival rate through: lambda = -0.5,
   * mu = 1 is accepted and its table starts 1.5, -0.75, a negative "probability".
   */
  lemma MM1NegativeArrivalAccepted()
    ensures MM1AsWritten(-0.5, 1.0).Ok?
    ensures MM1Probability(-0.5, 1) == -0.75
    ensures MM1(-0.5, 1.0) == Wrappers.Err(InvalidParameters)
  {
    assert RealSums.Pow(-0.5, 1) == -0.5;
  }

  /** Index of the last state of the M/M/1 P(n) table. */
  const MM1LastState: nat := 12

  /** The geometric law (1 - rho) * rho^n for n = 0..12. */
  function MM1Distribution(rho: real): (p: seq<real>)
    ensures |p| == MM1LastState + 1
    ensures forall n :: 0 <= n < |p| ==> p[n] == MM1Probability(rho, n)
    ensures p[0] == 1.0 - rho
    ensures forall n :: 0 < n < |p| ==> p[n] == rho * p[n - 1]
  {
    var p := seq(MM1LastState + 1, n requires 0 <= n => MM1Probability(rho, n));
    GeometricSteps(rho, p);
    p
  }

  /** P(n) of the M/M/1 table. */
  function MM1Probability(rho: real, n: nat): (p: real)
    ensures 0.0 <= rho < 1.0 ==> 0.0 <= p <= 1.0
  {
    assert 0.0 <= rho < 1.0 ==> 0.0 <= (1.0 - rho) * RealSums.Pow(rho, n) <= 1.0 by {
      if 0.0 <= rho < 1.0 {
        RealSums.PowUnitInterval(rho, n);
        RealSums.ScaleByUnit(1.0 - rho, RealSums.Pow(rho, n));
      }
    }
    (1.0 - rho) * RealSums.Pow(rho, n)
  }

  lemma GeometricSteps(rho: real, p: seq<real>)
    requires forall n :: 0 <= n < |p| ==> p[n] == MM1Probability(rho, n)
    ensures 0 < |p| ==> p[0] == 1.0 - rho
    ensures forall n :: 0 < n < |p| ==> p[n] == rho * p[n - 1]
  {
    forall n | 0 < n < |p|
      ensures p[n] == rho * p[n - 1]
    {
      GeometricStep(rho, n);
    }
  }

  lemma GeometricStep(rho: real, n: nat)
    requires 0 < n
    ensures MM1Probability(rho, n) == rho * MM1Probability(rho, n - 1)
  {
    var x := RealSums.Pow(rho, n - 1);
    assert RealSums.Pow(rho, n) == rho * x;
    assert (1.0 - rho) * (rho * x) == rho * ((1.0 - rho) * x);
  }

  /** The first c entries of the table hold mass 1 - rho^c. */
  lemma {:induction false} MM1PrefixMass(rho: real, p: seq<real>, c: nat)
    requires c <= |p|
    requires forall n :: 0 <= n < |p| ==> p[n] == MM1Probability(rho, n)
    ensures RealSums.SumTo(p, c) == 1.0 - RealSums.Pow(rho, c)
  {
    if c > 0 {
      MM1PrefixMass(rho, p, c - 1);
      var x := RealSums.Pow(rho, c - 1);
      assert p[c - 1] == (1.0 - rho) * x;
      assert RealSums.Pow(rho, c) == rho * x;
      assert 1.0 - x + (1.0 - rho) * x == 1.0 - rho * x;
    }
  }

  /** For rho in [0, 1), P(n) lies in [0, 1] and P(n + 1) <= P(n). */
  lemma MM1ProbabilityBounds(rho: real, n: nat)
    requires 0.0 <= rho < 1.0
    ensures 0.0 <= MM1Probability(rho, n) <= 1.0
    ensures MM1Probability(rho, n + 1) <= MM1Probability(rho, n)
  {
    GeometricStep(rho, n + 1);
    RealSums.ScaleByUnit(rho, MM1Probability(rho, n));
  }

  /**
   * For a utilisation in [0, 1) every entry of the table is a probability, the
   * entries do not increase with n, and the truncated table misses exactly rho^13.
   */
  lemma MM1DistributionIsTruncatedLaw(rho: real)
    requires 0.0 <= rho < 1.0
    ensures var p := MM1Distribution(rho);
      && (forall n :: 0 <= n < |p| ==> 0.0 <= p[n] <= 1.0)
      && (forall n :: 0 < n < |p| ==> p[n] <= p[n - 1])
      && RealSums.Sum(p) == 1.0 - RealSums.Pow(rho, MM1LastState + 1)
  {
    var p := MM1Distribution(rho);
    forall n | 0 <= n < |p|
      ensures 0.0 <= p[n] <= 1.0
    {
      MM1ProbabilityBounds(rho, n);
    }
    forall n | 0 < n < |p|
      ensures p[n] <= p[n - 1]
    {
      MM1ProbabilityBounds(rho, n - 1);
    }
    MM1PrefixMass(rho, p, MM1LastState + 1);
  }

  /** Raising lambda towards mu strictly increases both L and W. */
  lemma MM1CongestionGrowsWithArrivals(lambda1: real, lambda2: real, mu: real)
    requires 0.0 <= lambda1 < lambda2 < mu
    ensures MM1(lambda1, mu).Ok? && MM1(lambda2, mu).Ok?
    ensures MM1(lambda1, mu).value.L < MM1(lambda2, mu).value.L
    ensures MM1(lambda1, mu).value.W < MM1(lambda2, mu).value.W
  {
    var m1, m2 := MM1Formulas(lambda1, mu), MM1Formulas(lambda2, mu);
    RealSums.ReciprocalAntitone(mu - lambda1, mu - lambda2);
    assert 0.0 < m1.W by {
      RealSums.DivPositive(1.0, mu - lambda1);
    }
    RealSums.MulStrictlyMonotone(lambda1, lambda2, m1.W, m2.W);
  }

  /** The defaults the M/M/1 form resets to (lambda = 0.6, mu = 1.0). */
  lemma MM1DefaultExample()
    ensures MM1(0.6, 1.0) == Wrappers.Ok(MM1Metrics(0.6, 1.5, 0.9, 2.5, 1.5))
  {
  }

  // ---------------------------------------------------------------------------
  // M/M/k (Erlang C)
  // ---------------------------------------------------------------------------

  /** rho^n / n!. */
  function ErlangTerm(rho: real, n: nat): real
  {
    RealSums.Pow(rho, n) / (Fact(n) as real)
  }

  /** Sum over n < k of rho^n / n!. */
  function ErlangSum(rho: real, k: nat): (s: real)
    ensures 0.0 <= rho ==> 0.0 <= s
  {
    assert 0.0 <= rho && 0 < k ==> 0.0 <= ErlangTerm(rho, k - 1) by {
      if 0.0 <= rho && 0 < k {
        RealSums.PowNonNegative(rho, k - 1);
        RealSums.DivNonNegative(RealSums.Pow(rho, k - 1), Fact(k - 1) as real);
      }
    }
    if k == 0 then 0.0 else ErlangSum(rho, k - 1) + ErlangTerm(rho, k - 1)
  }

  lemma {:induction false} ErlangSumAtLeastOne(rho: real, k: nat)
    requires 0.0 <= rho && 1 <= k
    ensures 1.0 <= ErlangSum(rho, k)
  {
    if k > 1 {
      ErlangSumAtLeastOne(rho, k - 1);
      RealSums.PowNonNegative(rho, k - 1);
      RealSums.DivNonNegative(RealSums.Pow(rho, k - 1), Fact(k - 1) as real);
    }
  }

  /** rho^k / (k! (1 - rho/k)): the geometric tail of the states where all k servers are busy. */
  function ErlangTail(rho: real, k: nat): (t: real)
    requires 1 <= k && rho / (k as real) < 1.0
    ensures 0.0 <= rho ==> 0.0 <= t
  {
    var gap := 1.0 - rho / (k as real);
    RealSums.MulPositive(Fact(k) as real, gap);
    assert 0.0 <= rho ==> 0.0 <= RealSums.Pow(rho, k) / ((Fact(k) as real) * gap) by {
      if 0.0 <= rho {
        RealSums.PowNonNegative(rho, k);
        RealSums.DivNonNegative(RealSums.Pow(rho, k), (Fact(k) as real) * gap);
      }
    }
    RealSums.Pow(rho, k) / ((Fact(k) as real) * gap)
  }

  /** The denominator of p0: the partial Erlang sum plus the tail. */
  function ErlangNormaliser(rho: real, k: nat): (d: real)
    requires 1 <= k && rho / (k as real) < 1.0
    ensures 0.0 <= rho ==> 1.0 <= d
  {
    assert 0.0 <= rho ==> 1.0 <= ErlangSum(rho, k) by {
      if 0.0 <= rho { ErlangSumAtLeastOne(rho, k); }
    }
    ErlangSum(rho, k) + ErlangTail(rho, k)
  }

  datatype MMkMetrics = MMkMetrics(
    rho: real, rhoPerServer: real, p0: real, L: real, Lq: real, W: Wrappers.Option<real>, Wq: Wrappers.Option<real>)

  /** What the M/M/k handler returns: the metrics, or the reason it refused. */
  type MMkOutcome = Wrappers.Result<MMkMetrics, QueueError>

  /** Lq = p0 rho^k (rho/k) / (k! (1 - rho/k)^2), the mean queue length of Erlang C. */
  function ErlangQueueLength(rho: real, k: nat, p0: real): (lq: real)
    requires 1 <= k && 0.0 <= rho && rho / (k as real) < 1.0 && 0.0 <= p0
    ensures 0.0 <= lq
  {
    var rhoPerServer := rho / (k as real);
    var gap := 1.0 - rhoPerServer;
    RealSums.DivNonNegative(rho, k as real);
    RealSums.PowNonNegative(rho, k);
    RealSums.MulNonNegative(p0, RealSums.Pow(rho, k));
    RealSums.MulNonNegative(p0 * RealSums.Pow(rho, k), rhoPerServer);
    RealSums.PowPositive(gap, 2);
    RealSums.MulPositive(Fact(k) as real, RealSums.Pow(gap, 2));
    RealSums.DivNonNegative(p0 * RealSums.Pow(rho, k) * rhoPerServer, (Fact(k) as real) * RealSums.Pow(gap, 2));
    (p0 * RealSums.Pow(rho, k) * rhoPerServer) / ((Fact(k) as real) * RealSums.Pow(gap, 2))
  }

  /** Little's law for a queue whose service adds 1/mu to the wait: L = Lq + rho = lambda W. */
  lemma LittleLawWithService(lam: real, mu: real, rho: real, lq: real, wq: real, w: real)
    requires 0.0 < mu && rho == lam / mu && lam != 0.0
    requires wq == lq / lam && w == wq + 1.0 / mu
    ensures LittlesLaw(lq, lam, wq) && LittlesLaw(lq + rho, lam, w)
  {
  }

  /** The metrics record for given rho, rho/k, p0 and Lq, with the waits by Little's law when lambda > 0. */
  function WithWaits(lam: real, mu: real, rho: real, rhoPerServer: real, p0: real, lq: real): (m: MMkMetrics)
    requires 0.0 < mu && 0.0 <= lam && rho == lam / mu
    ensures m.rho == rho && m.rhoPerServer == rhoPerServer && m.p0 == p0
    ensures m.Lq == lq && m.L == lq + rho
    ensures m.Wq.Some? <==> 0.0 < lam
    ensures m.W.Some? <==> 0.0 < lam
    ensures m.Wq.Some? ==> LittlesLaw(m.Lq, lam, m.Wq.value) && m.W.value == m.Wq.value + 1.0 / mu
    ensures m.W.Some? ==> LittlesLaw(m.L, lam, m.W.value)
  {
    if lam == 0.0 then
      MMkMetrics(rho, rhoPerServer, p0, lq + rho, lq, Wrappers.None, Wrappers.None)
    else
      var wq := lq / lam;
      var w := wq + 1.0 / mu;
      LittleLawWithService(lam, mu, rho, lq, wq, w);
      MMkMetrics(rho, rhoPerServer, p0, lq + rho, lq, Wrappers.Some(w), Wrappers.Some(wq))
  }

  /** p0 = 1 / (partial Erlang sum + tail), the probability that the system is empty. */
  function ErlangIdle(rho: real, k: nat): (p0: real)
    requires 1 <= k && 0.0 <= rho && rho / (k as real) < 1.0
    ensures 0.0 < p0 <= 1.0
  {
    RealSums.ReciprocalOfAtLeastOne(ErlangNormaliser(rho, k));
    1.0 / ErlangNormaliser(rho, k)
  }

  /** The Erlang C formulas of the handler once its guards have passed. */
  function MMkFormulas(lam: real, mu: real, k: nat): (m: MMkMetrics)
    requires 1 <= k && 0.0 < mu && 0.0 <= lam && lam / mu / (k as real) < 1.0
    ensures m.rho == lam / mu && m.rhoPerServer == m.rho / (k as real)
    ensures 0.0 <= m.rhoPerServer < 1.0
    ensures 0.0 < m.p0 <= 1.0
    ensures 0.0 <= m.Lq && m.L == m.Lq + m.rho
    ensures m.Wq.Some? <==> 0.0 < lam
    ensures m.W.Some? <==> 0.0 < lam
    ensures m.Wq.Some? ==> LittlesLaw(m.Lq, lam, m.Wq.value) && m.W.value == m.Wq.value + 1.0 / mu
    ensures m.W.Some? ==> LittlesLaw(m.L, lam, m.W.value)
  {
    var rho := lam / mu;
    RealSums.DivNonNegative(lam, mu);
    RealSums.DivNonNegative(rho, k as real);
    var p0 := ErlangIdle(rho, k);
    WithWaits(lam, mu, rho, rho / (k as real), p0, ErlangQueueLength(rho, k, p0))
  }

  /**
   * Three servers at rate 1 with arrivals at rate 2: rho = 2, rho/k = 2/3,
   * p0 = 1/(1 + 2 + 2 + 4) = 1/9, Lq = 8/9, L = 26/9, Wq = 4/9 and W = 13/9.
   */
  lemma MMkExample()
    ensures MMk(2.0, 1.0, 3) == Wrappers.Ok(MMkMetrics(
      2.0, 2.0 / 3.0, 1.0 / 9.0, 26.0 / 9.0, 8.0 / 9.0, Wrappers.Some(13.0 / 9.0), Wrappers.Some(4.0 / 9.0)))
  {
    assert RealSums.Pow(2.0, 1) == 2.0;
    assert RealSums.Pow(2.0, 2) == 4.0;
    assert RealSums.Pow(2.0, 3) == 8.0;
    assert Fact(2) == 2 && Fact(3) == 6;
    assert ErlangSum(2.0, 3) == 5.0;
    assert ErlangTail(2.0, 3) == 4.0;
    assert ErlangNormaliser(2.0, 3) == 9.0;
    assert RealSums.Pow(1.0 / 3.0, 2) == 1.0 / 9.0;
  }

  /** The M/M/k metrics for an already clamped server count k. */
  function MMk(lam: real, mu: real, k: nat): (r: MMkOutcome)
    requires 1 <= k
    ensures r.Ok? <==> 0.0 < mu && 0.0 <= lam && lam / mu / (k as real) < 1.0
    ensures (mu <= 0.0 || lam < 0.0) ==> r == Wrappers.Err(InvalidParameters)
    ensures 0.0 < mu && 0.0 <= lam && 1.0 <= lam / mu / (k as real) ==>
      r == Wrappers.Err(Unstable(lam / mu / (k as real)))
  {
    if mu <= 0.0 || lam < 0.0 then Wrappers.Err(InvalidParameters)
    else if lam / mu / (k as real) >= 1.0 then Wrappers.Err(Unstable(lam / mu / (k as real)))
    else Wrappers.Ok(MMkFormulas(lam, mu, k))
  }

  /** (a / d) * p0: one entry of the M/M/k table, a traffic power over its denominator scaled by p0. */
  function Scaled(a: real, d: real, p0: real): real
    requires d != 0.0
  {
    (a / d) * p0
  }

  /**
   * Dividing the numerator's extra factor rho by the denominator's extra factor c
   * turns the next entry into rho / c times the current one.
   */
  lemma ScaledStep(c: real, rho: real, a: real, a1: real, d: real, d1: real, p0: real)
    requires c != 0.0 && d != 0.0 && a1 == rho * a && d1 == c * d
    ensures c * Scaled(a1, d1, p0) == rho * Scaled(a, d, p0)
  {
    RealSums.CancelCommonFactor(c, rho, a, d, p0);
  }

  /** k! * k^(n - k), the denominator of P(n) once all k servers are busy. */
  function BusyDenominator(k: nat, n: nat): (d: real)
    requires 1 <= k <= n
    ensures 0.0 < d
  {
    RealSums.PowPositive(k as real, n - k);
    RealSums.MulPositive(Fact(k) as real, RealSums.Pow(k as real, n - k));
    (Fact(k) as real) * RealSums.Pow(k as real, n - k)
  }

  lemma BusyDenominatorStep(k: nat, n: nat)
    requires 1 <= k <= n
    ensures BusyDenominator(k, n + 1) == (k as real) * BusyDenominator(k, n)
    ensures n == k ==> BusyDenominator(k, n) == Fact(k) as real
  {
    var f, b := Fact(k) as real, RealSums.Pow(k as real, n - k);
    assert RealSums.Pow(k as real, n + 1 - k) == (k as real) * b;
    assert f * ((k as real) * b) == (k as real) * (f * b);
  }

  lemma FactStepReal(n: nat)
    ensures Fact(n + 1) as real == ((n + 1) as real) * (Fact(n) as real)
  {
    var f := Fact(n);
    assert Fact(n + 1) == (n + 1) * f;
  }

  /** Entry n of the M/M/k table: rho^n / n! * p0 up to k, rho^n / (k! k^(n-k)) * p0 beyond. */
  function MMkProbability(rho: real, k: nat, p0: real, n: nat): (pn: real)
    requires 1 <= k
    ensures n == 0 ==> pn == p0
    ensures 0.0 <= rho && 0.0 <= p0 ==> 0.0 <= pn
  {
    assert 0.0 <= rho && 0.0 <= p0 ==> 0.0 <= Scaled(RealSums.Pow(rho, n), if n <= k then Fact(n) as real else BusyDenominator(k, n), p0) by {
      if 0.0 <= rho && 0.0 <= p0 {
        RealSums.PowNonNegative(rho, n);
        var d := if n <= k then Fact(n) as real else BusyDenominator(k, n);
        RealSums.DivNonNegative(RealSums.Pow(rho, n), d);
        RealSums.MulNonNegative(RealSums.Pow(rho, n) / d, p0);
      }
    }
    if n <= k then Scaled(RealSums.Pow(rho, n), Fact(n) as real, p0)
    else Scaled(RealSums.Pow(rho, n), BusyDenominator(k, n), p0)
  }

  /**
   * The table solves the M/M/k balance equations: the flow rho * P(n) up from
   * state n equals the flow min(n + 1, k) * P(n + 1) down from state n + 1.
   * In particular both branches of the table agree at n = k.
   */
  lemma MMkBalance(rho: real, k: nat, p0: real, n: nat)
    requires 1 <= k
    ensures MMkProbability(rho, k, p0, 0) == p0
    ensures (RealSums.Min(n + 1, k) as real) * MMkProbability(rho, k, p0, n + 1) == rho * MMkProbability(rho, k, p0, n)
  {
    if n + 1 <= k {
      MMkBalanceBelowK(rho, k, p0, n);
    } else {
      MMkBalanceFromK(rho, k, p0, n);
    }
  }

  lemma MMkBalanceBelowK(rho: real, k: nat, p0: real, n: nat)
    requires 1 <= k && n + 1 <= k
    ensures ((n + 1) as real) * MMkProbability(rho, k, p0, n + 1) == rho * MMkProbability(rho, k, p0, n)
  {
    FactStepReal(n);
    ScaledStep((n + 1) as real, rho, RealSums.Pow(rho, n), RealSums.Pow(rho, n + 1), Fact(n) as real, Fact(n + 1) as real, p0);
  }

  lemma MMkBalanceFromK(rho: real, k: nat, p0: real, n: nat)
    requires 1 <= k <= n
    ensures (k as real) * MMkProbability(rho, k, p0, n + 1) == rho * MMkProbability(rho, k, p0, n)
  {
    BusyDenominatorStep(k, n);
    ScaledStep(k as real, rho, RealSums.Pow(rho, n), RealSums.Pow(rho, n + 1), BusyDenominator(k, n), BusyDenominator(k, n + 1), p0);
  }

  /**
   * The states below k carry p0 times the partial Erlang sum: the sum that the
   * handler puts into p0's denominator is the mass of those table entries over p0.
   */
  lemma {:induction false} MMkHeadMass(rho: real, k: nat, p0: real, p: seq<real>, c: nat)
    requires 1 <= k && c <= k && c <= |p|
    requires forall n :: 0 <= n < |p| ==> p[n] == MMkProbability(rho, k, p0, n)
    ensures RealSums.SumTo(p, c) == p0 * ErlangSum(rho, c)
  {
    var terms := seq(c, n requires 0 <= n < c => ErlangTerm(rho, n));
    var head := p[..c];
    forall n | 0 <= n < c
      ensures head[n] == p0 * terms[n]
    {
      MMkHeadEntry(rho, k, p0, n, p[n]);
    }
    RealSums.SumToScale(terms, head, p0, c);
    ErlangSumOfTerms(rho, terms, c);
    RealSums.SumToAgree(head, p, c);
  }

  lemma MMkHeadEntry(rho: real, k: nat, p0: real, n: nat, x: real)
    requires 1 <= k && n <= k && x == MMkProbability(rho, k, p0, n)
    ensures x == p0 * ErlangTerm(rho, n)
  {
  }

  /** The partial Erlang sum is the sum of the first c terms rho^n / n!. */
  lemma {:induction false} ErlangSumOfTerms(rho: real, terms: seq<real>, c: nat)
    requires c <= |terms| && forall n :: 0 <= n < c ==> terms[n] == ErlangTerm(rho, n)
    ensures RealSums.SumTo(terms, c) == ErlangSum(rho, c)
  {
    if c > 0 {
      ErlangSumOfTerms(rho, terms, c - 1);
    }
  }

  /** The guard of the M/M/k handler as written: mu > 0 and rho / k < 1, with no check on lambda. */
  function MMkAcceptsAsWritten(lam: real, mu: real, k: nat): (ok: bool)
    requires 1 <= k
    ensures ok <==> 0.0 < mu && lam / mu / (k as real) < 1.0
    ensures ok && 0.0 <= lam <==> MMk(lam, mu, k).Ok?
  {
    0.0 < mu && !(lam / mu / (k as real) >= 1.0)
  }

  /**
   * lambda = -3, mu = 1, k = 2 passes the as-written guard, and the normaliser
   * 1 - 3 + 9 / (2 * 2.5) = -0.2 makes p0 = -5; the corrected MMk rejects it.
   */
  lemma MMkNegativeArrivalAccepted()
    ensures MMkAcceptsAsWritten(-3.0, 1.0, 2)
    ensures ErlangNormaliser(-3.0, 2) == -0.2
    ensures MMk(-3.0, 1.0, 2) == Wrappers.Err(InvalidParameters)
  {
    assert RealSums.Pow(-3.0, 1) == -3.0;
    assert RealSums.Pow(-3.0, 2) == 9.0;
    assert ErlangSum(-3.0, 2) == -2.0;
    assert ErlangTail(-3.0, 2) == 1.8;
  }

  /** The loop that accumulates the partial Erlang sum, one factorial per term. */
  method ErlangPartialSum(rho: real, k: nat) returns (sum: real)
    ensures sum == ErlangSum(rho, k)
  {
    sum := 0.0;
    for n := 0 to k
      invariant sum == ErlangSum(rho, n)
    {
      var f := Factorial(n);
      sum := sum + RealSums.Pow(rho, n) / (f as real);
    }
  }

  lemma ScaledAgrees(a: real, d: real, e: real, p0: real)
    requires d == e && e != 0.0
    ensures (a / d) * p0 == Scaled(a, e, p0)
  {
  }

  lemma BusyDenominatorIs(k: nat, n: nat, fk: nat, d: real)
    requires 1 <= k < n && fk == Fact(k) && d == (fk as real) * RealSums.Pow(k as real, n - k)
    ensures d == BusyDenominator(k, n)
  {
  }

  /** One pass of the table loop: P(n) by the branch the handler takes for n. */
  method MMkEntry(rho: real, k: nat, p0: real, n: nat) returns (pn: real)
    requires 1 <= k
    ensures pn == MMkProbability(rho, k, p0, n)
  {
    if n <= k {
      var fn := Factorial(n);
      pn := (RealSums.Pow(rho, n) / (fn as real)) * p0;
    } else {
      var fk := Factorial(k);
      var d := (fk as real) * RealSums.Pow(k as real, n - k);
      BusyDenominatorIs(k, n, fk, d);
      pn := (RealSums.Pow(rho, n) / d) * p0;
      ScaledAgrees(RealSums.Pow(rho, n), d, BusyDenominator(k, n), p0);
    }
  }

  /** The loop that pushes P(0), ..., P(k + 8). */
  method MMkDistributionTable(rho: real, k: nat, p0: real) returns (p: seq<real>)
    requires 1 <= k
    ensures |p| == k + 9
    ensures forall n :: 0 <= n < |p| ==> p[n] == MMkProbability(rho, k, p0, n)
  {
    p := [];
    for n := 0 to k + 9
      invariant |p| == n
      invariant forall i :: 0 <= i < n ==> p[i] == MMkProbability(rho, k, p0, i)
    {
      var pn := MMkEntry(rho, k, p0, n);
      p := p + [pn];
    }
  }

  /** The Erlang C metrics as the handler computes them, once its guards have passed. */
  method ErlangCMetrics(lam: real, mu: real, k: nat) returns (m: MMkMetrics)
    requires 1 <= k && 0.0 < mu && 0.0 <= lam && lam / mu / (k as real) < 1.0
    ensures m == MMkFormulas(lam, mu, k)
  {
    var rho := lam / mu;
    var rhoPerServer := rho / (k as real);
    RealSums.DivNonNegative(lam, mu);
    var sum := ErlangPartialSum(rho, k);
    var last := ErlangTail(rho, k);
    assert sum + last == ErlangNormaliser(rho, k);
    var p0 := 1.0 / (sum + last);
    var Lq := ErlangQueueLength(rho, k, p0);
    var L := Lq + rho;
    var Wq := if lam == 0.0 then Wrappers.None else Wrappers.Some(Lq / lam);
    var W := if lam == 0.0 then Wrappers.None else Wrappers.Some(Lq / lam + 1.0 / mu);
    m := MMkMetrics(rho, rhoPerServer, p0, L, Lq, W, Wq);
  }

  /** The metrics of the M/M/k click handler with its P(n) table. */
  type MMkReport = (MMkMetrics, seq<real>)
  type HandlerOutcome = Wrappers.Result<MMkReport, QueueError>

  /** The M/M/k click handler: clamp k, guard, Erlang C metrics and the P(n) table. */
  method MMkHandler(lam: real, mu: real, kInput: real) returns (r: HandlerOutcome)
    ensures var k := ClampToPositiveInteger(kInput);
      match MMk(lam, mu, k)
      case Err(e) => r == Wrappers.Err(e)
      case Ok(m) =>
        (r.Ok? && r.value.0 == m && |r.value.1| == k + 9 &&
         forall n :: 0 <= n < |r.value.1| ==> r.value.1[n] == MMkProbability(m.rho, k, m.p0, n))
  {
    var k := ClampToPositiveInteger(kInput);
    if mu <= 0.0 || lam < 0.0 {
      return Wrappers.Err(InvalidParameters);
    }
    var rho := lam / mu;
    var rhoPerServer := rho / (k as real);
    if rhoPerServer >= 1.0 {
      return Wrappers.Err(Unstable(rhoPerServer));
    }
    var m := ErlangCMetrics(lam, mu, k);
    var p := MMkDistributionTable(m.rho, k, m.p0);
    r := Wrappers.Ok((m, p));
  }

  /** With one server the tail is rho / (1 - rho). */
  lemma SingleServerTail(rho: real)
    requires 0.0 <= rho < 1.0
    ensures ErlangTail(rho, 1) == rho / (1.0 - rho)
  {
    assert RealSums.Pow(rho, 1) == rho;
    assert rho / (1 as real) == rho;
  }

  /** With one server p0 is 1 - rho, the idle probability of M/M/1. */
  lemma SingleServerIdle(rho: real)
    requires 0.0 <= rho < 1.0
    ensures 1.0 / ErlangNormaliser(rho, 1) == 1.0 - rho
  {
    SingleServerTail(rho);
    assert ErlangSum(rho, 1) == 1.0;
    var g := 1.0 - rho;
    assert (1.0 + rho / g) * g == 1.0;
  }

  /** With one server and p0 = 1 - rho the Erlang C queue length is rho^2 / (1 - rho). */
  lemma SingleServerQueue(rho: real)
    requires 0.0 <= rho < 1.0
    ensures ErlangQueueLength(rho, 1, 1.0 - rho) == rho * rho / (1.0 - rho)
  {
    var g := 1.0 - rho;
    assert RealSums.Pow(rho, 1) == rho;
    assert rho / (1 as real) == rho;
    assert RealSums.Pow(g, 1) == g;
    assert RealSums.Pow(g, 2) == g * g;
    assert (g * rho * rho) / (g * g) == rho * rho / g;
  }

  /** Two mean times that give the same mean number at the same nonzero rate are equal. */
  lemma SameTime(n: real, rate: real, t1: real, t2: real)
    requires rate != 0.0 && LittlesLaw(n, rate, t1) && LittlesLaw(n, rate, t2)
    ensures t1 == t2
  {
    assert rate * (t1 - t2) == 0.0;
  }

  /** With one server the Erlang C formulas give back the M/M/1 metrics. */
  lemma MMkSingleServerIsMM1(lam: real, mu: real)
    requires 0.0 <= lam < mu
    ensures MMk(lam, mu, 1).Ok? && MM1(lam, mu).Ok?
    ensures var c, s := MMk(lam, mu, 1).value, MM1(lam, mu).value;
      && c.rhoPerServer == s.rho && c.L == s.L && c.Lq == s.Lq && c.p0 == 1.0 - s.rho
      && (0.0 < lam ==> c.W == Wrappers.Some(s.W) && c.Wq == Wrappers.Some(s.Wq))
  {
    var rho := lam / mu;
    assert rho / (1 as real) == rho;
    RealSums.DivNonNegative(lam, mu);
    var s := MM1Formulas(lam, mu);
    var c := MMkFormulas(lam, mu, 1);
    assert MMk(lam, mu, 1) == Wrappers.Ok(c);
    SingleServerIdle(rho);
    assert c.p0 == 1.0 - rho;
    SingleServerQueue(rho);
    assert c.Lq == s.Lq;
    if 0.0 < lam {
      SameTime(c.Lq, lam, c.Wq.value, s.Wq);
    }
  }

}
