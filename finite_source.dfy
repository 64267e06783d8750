/**
 * The finite-population birth-death solver `computeFiniteSourceMMk` of
 * teoriaColas.js (the M/M/k/M/M queue, M/M/1/M/M when k = 1) and the
 * three-way congestion label chosen for its results.
 */
module FiniteSource {
  import Wrappers
  import RealSums
  import Queueing

  datatype FiniteSourceError =
    | PopulationNotPositiveInteger   // "M_total debe ser entero >= 1"
    | ServersNotPositiveInteger      // "k debe ser entero >= 1"
    | InvalidArrivalRate             // "lambda inválida"
    | InvalidServiceRate             // "mu inválida"

  /** `Number.isInteger(x) && x >= 1`. */
  predicate IsPositiveInteger(x: real)
    ensures IsPositiveInteger(x) <==> Queueing.ClampToPositiveInteger(x) as real == x
  {
    x.Floor as real == x && 1.0 <= x
  }

  /** Population size M, server count k, arrival rate per source and service rate. */
  datatype Params = Params(m: nat, k: nat, lam: real, mu: real)
  {
    /** What the guards of the solver let through. */
    predicate Valid()
    {
      1 <= m && 1 <= k && 0.0 <= lam && 0.0 < mu
    }
  }

  /** lambda_i = (M - i) * lambda: the arrival rate while i of the M sources are in the system. */
  function ArrivalRate(q: Params, i: nat): real
  {
    ((q.m - i) as real) * q.lam
  }

  /** mu_n = min(n, k) * mu: the service rate with n in the system and at most k servers busy. */
  function ServiceRate(q: Params, n: nat): (s: real)
    requires q.Valid() && 1 <= n
    ensures 0.0 < s
  {
    RealSums.MulPositive(RealSums.Min(n, q.k) as real, q.mu);
    (RealSums.Min(n, q.k) as real) * q.mu
  }

  /** lambda_(n-1) / mu_n, the factor from state n - 1 to state n. */
  function Factor(q: Params, n: nat): real
    requires q.Valid() && 1 <= n
  {
    ArrivalRate(q, n - 1) / ServiceRate(q, n)
  }

  /** ratios[n] = prod over i < n of lambda_i / mu_(i+1), with ratios[0] = 1. */
  function Ratio(q: Params, n: nat): real
    requires q.Valid() && n <= q.m
  {
    if n == 0 then 1.0 else Ratio(q, n - 1) * Factor(q, n)
  }

  /** Every ratio of a valid population is nonnegative. */
  lemma {:induction false} RatioNonNegative(q: Params, n: nat)
    requires q.Valid() && n <= q.m
    ensures 0.0 <= Ratio(q, n)
  {
    if n > 0 {
      RatioNonNegative(q, n - 1);
      RealSums.MulNonNegative((q.m - (n - 1)) as real, q.lam);
      RealSums.DivNonNegative(ArrivalRate(q, n - 1), ServiceRate(q, n));
      RealSums.MulNonNegative(Ratio(q, n - 1), Factor(q, n));
    }
  }

  /** The `ratios` array: ratios[0..M]. */
  function Ratios(q: Params): (r: seq<real>)
    requires q.Valid()
    ensures |r| == q.m + 1
  {
    seq(q.m + 1, n requires 0 <= n <= q.m => Ratio(q, n))
  }

  /** The ratios are nonnegative and start at 1, so they sum to at least 1. */
  lemma RatiosSumAtLeastOne(q: Params)
    requires q.Valid()
    ensures RealSums.NonNegative(Ratios(q)) && Ratios(q)[0] == 1.0
    ensures 1.0 <= RealSums.Sum(Ratios(q))
  {
    var r := Ratios(q);
    forall n | 0 <= n < |r|
      ensures 0.0 <= r[n]
    {
      RatioNonNegative(q, n);
    }
    RealSums.SumToAtLeastTerm(r, |r|, 0);
  }

  /** p0 = 1 / sum(ratios). */
  function P0(q: Params): (p0: real)
    requires q.Valid()
    ensures 0.0 < p0 <= 1.0
  {
    RatiosSumAtLeastOne(q);
    RealSums.ReciprocalOfAtLeastOne(RealSums.Sum(Ratios(q)));
    1.0 / RealSums.Sum(Ratios(q))
  }

  /** Entry n of p is c times ratios[n]. */
  predicate ProportionalAt(q: Params, p: seq<real>, c: real, n: nat)
    requires q.Valid() && n <= q.m && n < |p|
  {
    p[n] == c * Ratio(q, n)
  }

  /** p[n] = p0 * ratios[n] for n = 0..M. */
  function Distribution(q: Params): (p: seq<real>)
    requires q.Valid()
    ensures |p| == q.m + 1
    ensures forall n :: 0 <= n <= q.m ==> ProportionalAt(q, p, P0(q), n)
  {
    seq(q.m + 1, n requires 0 <= n <= q.m => P0(q) * Ratio(q, n))
  }

  /** The entries n * p[n] whose sum is L. */
  function InSystem(p: seq<real>): (w: seq<real>)
    ensures |w| == |p|
  {
    seq(|p|, n requires 0 <= n < |p| => (n as real) * p[n])
  }

  /** The entries max(0, n - k) * p[n] whose sum is Lq. */
  function InQueue(p: seq<real>, k: nat): (w: seq<real>)
    ensures |w| == |p|
  {
    seq(|p|, n requires 0 <= n < |p| => (RealSums.Max(0, n - k) as real) * p[n])
  }

  /** The entries lambda_n * p[n] whose sum over n < M is the effective arrival rate. */
  function ArrivalFlows(q: Params, p: seq<real>): (w: seq<real>)
    ensures |w| == |p|
  {
    seq(|p|, n requires 0 <= n < |p| => ArrivalRate(q, n) * p[n])
  }

  /** The object returned by the solver; W and Wq are None where the source yields Infinity. */
  datatype FiniteSourceResult = FiniteSourceResult(
    p: seq<real>, L: real, Lq: real, lambdaEff: real, W: Wrappers.Option<real>, Wq: Wrappers.Option<real>, pBlock: real)

  /** What the solver returns: its metrics, or the first guard that refused. */
  type Outcome = Wrappers.Result<FiniteSourceResult, FiniteSourceError>

  /** L = sum of n * p[n]. */
  function MeanInSystem(q: Params): (l: real)
    requires q.Valid()
    ensures 0.0 <= l <= q.m as real
  {
    DistributionIsProbability(q);
    QueueWithinSystem(Distribution(q), q.k);
    SystemWithinPopulation(Distribution(q), q.m);
    RealSums.Sum(InSystem(Distribution(q)))
  }

  /** Lq = sum of max(0, n - k) * p[n]. */
  function MeanInQueue(q: Params): (lq: real)
    requires q.Valid()
    ensures 0.0 <= lq <= MeanInSystem(q)
  {
    DistributionIsProbability(q);
    QueueWithinSystem(Distribution(q), q.k);
    RealSums.Sum(InQueue(Distribution(q), q.k))
  }

  /** rate = lambda (M - L): every source not in the system arrives at rate lambda. */
  predicate ArrivalsFromOutside(rate: real, lam: real, m: nat, l: real)
  {
    rate == lam * (m as real - l)
  }

  /** lambda_eff = sum over n = 0..M-1 of (M - n) * lambda * p[n]. */
  function EffectiveArrivalRate(q: Params): (r: real)
    requires q.Valid()
    ensures 0.0 <= r
    ensures r == 0.0 <==> q.lam == 0.0
  {
    DistributionIsProbability(q);
    assert ProportionalAt(q, Distribution(q), P0(q), 0);
    FlowSign(q, Distribution(q));
    RealSums.SumTo(ArrivalFlows(q, Distribution(q)), q.m)
  }

  /** The solver once its guards have passed. */
  function Solve(q: Params): (r: FiniteSourceResult)
    requires q.Valid()
    ensures r.p == Distribution(q) && r.L == MeanInSystem(q) && r.Lq == MeanInQueue(q)
    ensures r.lambdaEff == EffectiveArrivalRate(q)
    ensures |r.p| == q.m + 1 && r.pBlock == r.p[q.m]
    ensures r.W.Some? <==> 0.0 < r.lambdaEff
    ensures r.Wq.Some? <==> 0.0 < r.lambdaEff
  {
    var L, Lq, lambdaEff := MeanInSystem(q), MeanInQueue(q), EffectiveArrivalRate(q);
    var W := if lambdaEff > 0.0 then Wrappers.Some(L / lambdaEff) else Wrappers.None;
    var Wq := if lambdaEff > 0.0 then Wrappers.Some(Lq / lambdaEff) else Wrappers.None;
    FiniteSourceResult(Distribution(q), L, Lq, lambdaEff, W, Wq, Distribution(q)[q.m])
  }

  /** `computeFiniteSourceMMk(M_total, k, lambda, mu)`: the four guards in order, then the solver. */
  function FiniteSourceModel(mTotal: real, k: real, lam: real, mu: real): (r: Outcome)
    ensures r.Ok? <==> IsPositiveInteger(mTotal) && IsPositiveInteger(k) && 0.0 <= lam && 0.0 < mu
    ensures !IsPositiveInteger(mTotal) ==> r == Wrappers.Err(PopulationNotPositiveInteger)
    ensures IsPositiveInteger(mTotal) && !IsPositiveInteger(k) ==> r == Wrappers.Err(ServersNotPositiveInteger)
    ensures IsPositiveInteger(mTotal) && IsPositiveInteger(k) && lam < 0.0 ==> r == Wrappers.Err(InvalidArrivalRate)
    ensures IsPositiveInteger(mTotal) && IsPositiveInteger(k) && 0.0 <= lam && mu <= 0.0 ==> r == Wrappers.Err(InvalidServiceRate)
    ensures r.Ok? ==> r.value == Solve(Params(mTotal.Floor, k.Floor, lam, mu))
  {
    if !IsPositiveInteger(mTotal) then Wrappers.Err(PopulationNotPositiveInteger)
    else if !IsPositiveInteger(k) then Wrappers.Err(ServersNotPositiveInteger)
    else if !(0.0 <= lam) then Wrappers.Err(InvalidArrivalRate)
    else if !(0.0 < mu) then Wrappers.Err(InvalidServiceRate)
    else Wrappers.Ok(Solve(Params(mTotal.Floor, k.Floor, lam, mu)))
  }

  // ---------------------------------------------------------------------------
  // The solver as the source runs it: arrays filled in loops
  // ---------------------------------------------------------------------------

  /** The `ratios` array, filled from ratios[0] = 1 by ratios[n] = ratios[n - 1] * lambda_(n-1) / mu_n. */
  method RatiosTable(q: Params) returns (ratios: array<real>)
    requires q.Valid()
    ensures fresh(ratios) && ratios[..] == Ratios(q)
  {
    ratios := new real[q.m + 1](_ => 1.0);
    for n := 1 to q.m + 1
      invariant ratios[0] == 1.0
      invariant forall i {:trigger ratios[i]} :: 0 <= i < n ==> ratios[i] == Ratio(q, i)
    {
      var lambdaI := ArrivalRate(q, n - 1);
      var muN := ServiceRate(q, n);
      RatioStep(q, n, ratios[n - 1], lambdaI, muN);
      ratios[n] := ratios[n - 1] * (lambdaI / muN);
    }
  }

  lemma RatioStep(q: Params, n: nat, prev: real, lambdaI: real, muN: real)
    requires q.Valid() && 1 <= n <= q.m
    requires prev == Ratio(q, n - 1) && lambdaI == ArrivalRate(q, n - 1) && muN == ServiceRate(q, n)
    ensures prev * (lambdaI / muN) == Ratio(q, n)
  {
  }

  /** `a.reduce((x, y) => x + y, 0)`. */
  method SumArray(a: array<real>) returns (s: real)
    ensures s == RealSums.Sum(a[..])
  {
    s := 0.0;
    for n := 0 to a.Length
      invariant s == RealSums.SumTo(a[..], n)
    {
      s := s + a[n];
    }
  }

  /** The `p` array: p[0] = p0 = 1 / sum(ratios), then p[n] = p0 * ratios[n]. */
  method DistributionTable(q: Params, ratios: array<real>) returns (p: array<real>)
    requires q.Valid() && ratios[..] == Ratios(q)
    ensures fresh(p) && p[..] == Distribution(q)
  {
    var sumRatios := SumArray(ratios);
    RatiosSumAtLeastOne(q);
    var p0 := 1.0 / sumRatios;
    p := FillDistribution(ratios, p0);
    DistributionScalesRatios(q);
  }

  /** The loop that writes p[0] = p0 and p[n] = p0 * ratios[n] for n = 1..M. */
  method FillDistribution(ratios: array<real>, p0: real) returns (p: array<real>)
    requires 1 <= ratios.Length && ratios[0] == 1.0
    ensures fresh(p) && p[..] == RealSums.Scale(p0, ratios[..])
  {
    p := new real[ratios.Length](_ => 0.0);
    p[0] := p0;
    for n := 1 to ratios.Length
      invariant p[0] == p0
      invariant forall i :: 1 <= i < n ==> p[i] == p0 * ratios[i]
    {
      p[n] := p0 * ratios[n];
    }
    ghost var a, t := ratios[..], RealSums.Scale(p0, ratios[..]);
    forall i | 0 <= i < p.Length
      ensures p[i] == t[i]
    {
      if i == 0 {
        assert t[0] == p0 * a[0] == p0;
      }
    }
    assert p[..] == t;
  }

  /** p is the ratios scaled by p0. */
  lemma DistributionScalesRatios(q: Params)
    requires q.Valid()
    ensures Distribution(q) == RealSums.Scale(P0(q), Ratios(q))
  {
    var p, s := Distribution(q), RealSums.Scale(P0(q), Ratios(q));
    forall n | 0 <= n <= q.m
      ensures p[n] == s[n]
    {
      assert ProportionalAt(q, p, P0(q), n);
    }
  }

  /** L and Lq accumulated in one pass over p. */
  method Occupancy(p: array<real>, k: nat) returns (l: real, lq: real)
    ensures l == RealSums.Sum(InSystem(p[..])) && lq == RealSums.Sum(InQueue(p[..], k))
  {
    l, lq := 0.0, 0.0;
    for n := 0 to p.Length
      invariant l == RealSums.SumTo(InSystem(p[..]), n)
      invariant lq == RealSums.SumTo(InQueue(p[..], k), n)
    {
      l := l + (n as real) * p[n];
      lq := lq + (RealSums.Max(0, n - k) as real) * p[n];
    }
  }

  /** lambda_eff accumulated over n = 0..M-1. */
  method EffectiveRateLoop(q: Params, p: array<real>) returns (lambdaEff: real)
    requires p.Length == q.m + 1
    ensures lambdaEff == RealSums.SumTo(ArrivalFlows(q, p[..]), q.m)
  {
    lambdaEff := 0.0;
    for n := 0 to q.m
      invariant lambdaEff == RealSums.SumTo(ArrivalFlows(q, p[..]), n)
    {
      lambdaEff := lambdaEff + ((q.m - n) as real * q.lam) * p[n];
    }
  }

  /**
   * `computeFiniteSourceMMk` step by step: the guards, the `ratios` and `p`
   * arrays, the accumulations and the Infinity cases of W and Wq.
   */
  method ComputeFiniteSource(mTotal: real, k: real, lam: real, mu: real) returns (r: Outcome)
    ensures r == FiniteSourceModel(mTotal, k, lam, mu)
  {
    if !IsPositiveInteger(mTotal) {
      return Wrappers.Err(PopulationNotPositiveInteger);
    }
    if !IsPositiveInteger(k) {
      return Wrappers.Err(ServersNotPositiveInteger);
    }
    if !(0.0 <= lam) {
      return Wrappers.Err(InvalidArrivalRate);
    }
    if !(0.0 < mu) {
      return Wrappers.Err(InvalidServiceRate);
    }
    var q := Params(mTotal.Floor, k.Floor, lam, mu);
    var ratios := RatiosTable(q);
    var p := DistributionTable(q, ratios);
    var l, lq := Occupancy(p, q.k);
    var lambdaEff := EffectiveRateLoop(q, p);
    var w := if lambdaEff > 0.0 then Wrappers.Some(l / lambdaEff) else Wrappers.None;
    var wq := if lambdaEff > 0.0 then Wrappers.Some(lq / lambdaEff) else Wrappers.None;
    return Wrappers.Ok(FiniteSourceResult(p[..], l, lq, lambdaEff, w, wq, p[q.m]));
  }

  // ---------------------------------------------------------------------------
  // Properties of the stationary distribution
  // ---------------------------------------------------------------------------

  /** p is a probability vector: every entry is nonnegative and the entries sum to 1. */
  lemma DistributionIsProbability(q: Params)
    requires q.Valid()
    ensures RealSums.NonNegative(Distribution(q))
    ensures RealSums.Sum(Distribution(q)) == 1.0
  {
    var p, r := Distribution(q), Ratios(q);
    RatiosSumAtLeastOne(q);
    forall n | 0 <= n < |p|
      ensures 0.0 <= p[n]
    {
      RatioNonNegative(q, n);
      RealSums.MulNonNegative(P0(q), Ratio(q, n));
    }
    RealSums.SumToScale(r, p, P0(q), |p|);
    RealSums.MulDivCancel(1.0, RealSums.Sum(r));
  }

  /**
   * One balance equation from the ratio recursion: with r1 = r * (a / s),
   * p = p0 * r and p1 = p0 * r1, the flows agree: s * p1 = a * p.
   */
  lemma BalanceStep(s: real, a: real, f: real, r: real, r1: real, p0: real, d: real, d1: real)
    requires s != 0.0 && f == a / s && r1 == r * f
    requires d == p0 * r && d1 == p0 * r1
    ensures RealSums.EqualProducts(s, d1, a, d)
  {
    assert s * f == a;
    assert s * (p0 * r1) == a * (p0 * r);
  }

  /**
   * The distribution solves the birth-death balance equations: the flow
   * lambda_n * p[n] up from state n equals the flow mu_(n+1) * p[n+1] down.
   */
  lemma DetailedBalance(q: Params, n: nat)
    requires q.Valid() && n < q.m
    ensures BalanceAt(q, Distribution(q), n)
  {
    ScaledRatiosBalance(q, Distribution(q), P0(q), n);
  }

  /** Any p proportional to the ratios satisfies the balance equation between states n and n + 1. */
  lemma ScaledRatiosBalance(q: Params, p: seq<real>, c: real, n: nat)
    requires q.Valid() && |p| == q.m + 1 && n < q.m
    requires ProportionalAt(q, p, c, n) && ProportionalAt(q, p, c, n + 1)
    ensures BalanceAt(q, p, n)
  {
    RatioRecurrence(q, n + 1);
    BalanceStep(ServiceRate(q, n + 1), ArrivalRate(q, n), Factor(q, n + 1), Ratio(q, n), Ratio(q, n + 1), c, p[n], p[n + 1]);
  }

  /** ratios[n] = ratios[n - 1] * lambda_(n-1) / mu_n. */
  lemma RatioRecurrence(q: Params, n: nat)
    requires q.Valid() && 1 <= n <= q.m
    ensures Ratio(q, n) == Ratio(q, n - 1) * Factor(q, n)
    ensures Factor(q, n) == ArrivalRate(q, n - 1) / ServiceRate(q, n)
  {
  }

  lemma ScaleMonotone(a: real, b: real, x: real)
    requires a <= b && 0.0 <= x
    ensures a * x <= b * x
  {
    RealSums.MulNonNegative(b - a, x);
  }

  /** Entrywise: 0 <= max(0, n - k) x <= n x for x >= 0. */
  lemma QueueEntryBounds(n: nat, k: nat, x: real, a: real, b: real)
    requires 0.0 <= x && a == (RealSums.Max(0, n - k) as real) * x && b == (n as real) * x
    ensures 0.0 <= a <= b
  {
    RealSums.MulNonNegative(RealSums.Max(0, n - k) as real, x);
    ScaleMonotone(RealSums.Max(0, n - k) as real, n as real, x);
  }

  /** Entrywise: n x <= M x for x >= 0 and n <= M. */
  lemma SystemEntryBound(n: nat, m: nat, x: real, b: real, c: real)
    requires n <= m && 0.0 <= x && b == (n as real) * x && c == (m as real) * x
    ensures b <= c
  {
    ScaleMonotone(n as real, m as real, x);
  }

  /** For any nonnegative p: 0 <= sum of max(0, n - k) p[n] <= sum of n p[n]. */
  lemma QueueWithinSystem(p: seq<real>, k: nat)
    requires RealSums.NonNegative(p)
    ensures 0.0 <= RealSums.Sum(InQueue(p, k)) <= RealSums.Sum(InSystem(p))
  {
    var inQueue, inSystem := InQueue(p, k), InSystem(p);
    forall n | 0 <= n < |p|
      ensures 0.0 <= inQueue[n] <= inSystem[n]
    {
      QueueEntryBounds(n, k, p[n], inQueue[n], inSystem[n]);
    }
    RealSums.SumToNonNegative(inQueue, |p|);
    RealSums.SumToMonotone(inQueue, inSystem, |p|);
  }

  /** For a probability vector p[0..M]: the mean sum of n p[n] is at most M. */
  lemma SystemWithinPopulation(p: seq<real>, m: nat)
    requires |p| == m + 1 && RealSums.NonNegative(p) && RealSums.Sum(p) == 1.0
    ensures RealSums.Sum(InSystem(p)) <= m as real
  {
    var inSystem, all := InSystem(p), RealSums.Scale(m as real, p);
    forall n | 0 <= n < |p|
      ensures inSystem[n] <= all[n]
    {
      SystemEntryBound(n, m, p[n], inSystem[n], all[n]);
    }
    RealSums.SumToMonotone(inSystem, all, |p|);
    RealSums.SumOfScale(m as real, p);
    TimesOne(m as real, RealSums.Sum(p));
  }

  lemma TimesOne(a: real, x: real)
    requires x == 1.0
    ensures a * x == a
  {
  }

  // ---------------------------------------------------------------------------
  // The effective arrival rate and Little's law
  // ---------------------------------------------------------------------------

  /** The entries min(n, k) * p[n] whose sum is the mean number of busy servers. */
  function BusyServers(p: seq<real>, k: nat): (w: seq<real>)
    ensures |w| == |p|
  {
    seq(|p|, n requires 0 <= n < |p| => (RealSums.Min(n, k) as real) * p[n])
  }

  lemma BusyEntry(n: nat, k: nat, x: real, a: real, b: real, c: real)
    requires a == (n as real) * x && b == (RealSums.Max(0, n - k) as real) * x && c == (RealSums.Min(n, k) as real) * x
    ensures c == a - b
  {
    assert (RealSums.Min(n, k) as real) == (n as real) - (RealSums.Max(0, n - k) as real);
  }

  /** L - Lq is the mean number of busy servers: n = max(0, n - k) + min(n, k). */
  lemma OccupancySplit(p: seq<real>, k: nat)
    ensures RealSums.Sum(BusyServers(p, k)) == RealSums.Sum(InSystem(p)) - RealSums.Sum(InQueue(p, k))
  {
    var busy, inSystem, inQueue := BusyServers(p, k), InSystem(p), InQueue(p, k);
    forall n | 0 <= n < |p|
      ensures busy[n] == inSystem[n] - inQueue[n]
    {
      BusyEntry(n, k, p[n], inSystem[n], inQueue[n], busy[n]);
    }
    RealSums.SumToDifference(inSystem, inQueue, busy, |p|);
  }

  lemma FlowEntry(mu: real, s: real, a: real, y: real, b: real)
    requires s == a * mu && b == a * y
    ensures s * y == mu * b
  {
  }

  /** The balance equation between states n and n + 1: mu_(n+1) p[n+1] = lambda_n p[n]. */
  predicate BalanceAt(q: Params, p: seq<real>, n: nat)
    requires q.Valid() && |p| == q.m + 1 && n < q.m
  {
    RealSums.EqualProducts(ServiceRate(q, n + 1), p[n + 1], ArrivalRate(q, n), p[n])
  }

  /** p satisfies every balance equation of the birth-death chain. */
  predicate Balanced(q: Params, p: seq<real>)
    requires q.Valid() && |p| == q.m + 1
  {
    forall n :: 0 <= n < q.m ==> BalanceAt(q, p, n)
  }

  /** Under the balance equations the upward flow from state n equals the service flow out of state n + 1. */
  lemma BalancedEntry(q: Params, p: seq<real>, n: nat)
    requires q.Valid() && |p| == q.m + 1 && Balanced(q, p) && n < q.m
    ensures ArrivalFlows(q, p)[n] == RealSums.Scale(q.mu, BusyServers(p, q.k))[n + 1]
  {
    var s, a := ServiceRate(q, n + 1), ArrivalRate(q, n);
    assert BalanceAt(q, p, n);
    FlowEntry(q.mu, s, RealSums.Min(n + 1, q.k) as real, p[n + 1], BusyServers(p, q.k)[n + 1]);
  }

  /** The arrival flow over n < M is mu times the mean number of busy servers. */
  predicate FlowsBalance(q: Params, p: seq<real>)
    requires q.m <= |p|
  {
    RealSums.SumTo(ArrivalFlows(q, p), q.m) == q.mu * RealSums.Sum(BusyServers(p, q.k))
  }

  /** Any p that satisfies the balance equations has arrival flow mu times its mean busy servers. */
  lemma BalancedFlow(q: Params, p: seq<real>)
    requires q.Valid() && |p| == q.m + 1 && Balanced(q, p)
    ensures FlowsBalance(q, p)
  {
    var busy := BusyServers(p, q.k);
    var served := RealSums.Scale(q.mu, busy);
    forall n | 0 <= n < q.m
      ensures ArrivalFlows(q, p)[n] == served[n + 1]
    {
      BalancedEntry(q, p, n);
    }
    RealSums.SumToShift(ArrivalFlows(q, p), served, q.m);
    assert served[0] == 0.0;
    RealSums.SumOfScale(q.mu, busy);
  }

  lemma DistributionBalanced(q: Params)
    requires q.Valid()
    ensures Balanced(q, Distribution(q))
  {
    forall n | 0 <= n < q.m
      ensures BalanceAt(q, Distribution(q), n)
    {
      DetailedBalance(q, n);
    }
  }

  /**
   * Summing the balance equations: the effective arrival rate equals mu times
   * the mean number of busy servers.
   */
  lemma FlowBalance(q: Params)
    requires q.Valid()
    ensures EffectiveArrivalRate(q) == q.mu * RealSums.Sum(BusyServers(Distribution(q), q.k))
  {
    DistributionBalanced(q);
    BalancedFlow(q, Distribution(q));
    assert EffectiveArrivalRate(q) == RealSums.SumTo(ArrivalFlows(q, Distribution(q)), q.m);
  }

  /** The entries (M - n) * p[n]: the mean number of sources outside the system. */
  function Outside(p: seq<real>, m: nat): (w: seq<real>)
    ensures |w| == |p|
  {
    seq(|p|, n requires 0 <= n < |p| => ((m - n) as real) * p[n])
  }

  lemma OutsideEntry(m: nat, n: nat, x: real, u: real, w: real, d: real)
    requires u == (m as real) * x && w == (n as real) * x && d == ((m - n) as real) * x
    ensures d == u - w
  {
  }

  /** For a probability vector: sum of (M - n) p[n] = M - L. */
  lemma OutsideSum(p: seq<real>, m: nat)
    requires RealSums.Sum(p) == 1.0
    ensures RealSums.Sum(Outside(p, m)) == m as real - RealSums.Sum(InSystem(p))
  {
    var outside, all, inSystem := Outside(p, m), RealSums.Scale(m as real, p), InSystem(p);
    forall n | 0 <= n < |p|
      ensures outside[n] == all[n] - inSystem[n]
    {
      OutsideEntry(m, n, p[n], all[n], inSystem[n], outside[n]);
    }
    RealSums.SumToDifference(all, inSystem, outside, |p|);
    RealSums.SumOfScale(m as real, p);
    TimesOne(m as real, RealSums.Sum(p));
  }

  lemma FlowEntryOutside(lam: real, a: real, x: real, f: real, d: real)
    requires f == (a * lam) * x && d == a * x
    ensures f == lam * d
  {
  }

  /** For any probability vector p[0..M]: the arrival flow over n < M is lambda (M - L). */
  lemma FlowIsLambdaTimesIdle(q: Params, p: seq<real>)
    requires |p| == q.m + 1 && RealSums.Sum(p) == 1.0
    ensures ArrivalsFromOutside(RealSums.SumTo(ArrivalFlows(q, p), q.m), q.lam, q.m, RealSums.Sum(InSystem(p)))
  {
    var flows, outside := ArrivalFlows(q, p), Outside(p, q.m);
    forall n | 0 <= n < |p|
      ensures flows[n] == q.lam * outside[n]
    {
      FlowEntryOutside(q.lam, (q.m - n) as real, p[n], flows[n], outside[n]);
    }
    RealSums.SumToScale(outside, flows, q.lam, |p|);
    assert flows[q.m] == 0.0;
    OutsideSum(p, q.m);
  }

  /** lambda_eff = lambda (M - L): every source not in the system arrives at rate lambda. */
  lemma EffectiveRateIdentity(q: Params)
    requires q.Valid()
    ensures ArrivalsFromOutside(EffectiveArrivalRate(q), q.lam, q.m, MeanInSystem(q))
  {
    var p := Distribution(q);
    DistributionIsProbability(q);
    FlowIsLambdaTimesIdle(q, p);
  }

  /** For a probability vector with p[0] > 0 and M >= 1, the mean sum of n p[n] is below M. */
  lemma SystemBelowPopulation(p: seq<real>, m: nat)
    requires 1 <= m && |p| == m + 1 && RealSums.NonNegative(p) && RealSums.Sum(p) == 1.0 && 0.0 < p[0]
    ensures RealSums.Sum(InSystem(p)) < m as real
  {
    var inSystem, all := InSystem(p), RealSums.Scale(m as real, p);
    forall n | 0 <= n < |p|
      ensures inSystem[n] <= all[n]
    {
      SystemEntryBound(n, m, p[n], inSystem[n], all[n]);
    }
    RealSums.MulPositive(m as real, p[0]);
    RealSums.SumToStrictlyMonotone(inSystem, all, |p|, 0);
    RealSums.SumOfScale(m as real, p);
    TimesOne(m as real, RealSums.Sum(p));
  }

  /** p[0] = p0 > 0: the system is empty with positive probability, so L < M. */
  lemma MeanBelowPopulation(q: Params)
    requires q.Valid()
    ensures Distribution(q)[0] == P0(q)
    ensures MeanInSystem(q) < q.m as real
  {
    DistributionIsProbability(q);
    SystemBelowPopulation(Distribution(q), q.m);
  }

  /** Entry n of the arrival flows is nonnegative, and entry 0 is positive when lambda > 0 and p[0] > 0. */
  lemma FlowEntrySign(q: Params, p: seq<real>, n: nat)
    requires q.Valid() && |p| == q.m + 1 && RealSums.NonNegative(p) && n <= q.m
    ensures 0.0 <= ArrivalFlows(q, p)[n]
    ensures n == 0 && 0.0 < q.lam && 0.0 < p[0] ==> 0.0 < ArrivalFlows(q, p)[n]
  {
    RealSums.MulNonNegative((q.m - n) as real, q.lam);
    RealSums.MulNonNegative(ArrivalRate(q, n), p[n]);
    if n == 0 && 0.0 < q.lam && 0.0 < p[0] {
      RealSums.MulPositive(q.m as real, q.lam);
      RealSums.MulPositive(ArrivalRate(q, 0), p[0]);
    }
  }

  /** For a nonnegative p with p[0] > 0 the arrival flow is nonnegative, and zero exactly when lambda = 0. */
  lemma FlowSign(q: Params, p: seq<real>)
    requires q.Valid() && |p| == q.m + 1 && RealSums.NonNegative(p) && 0.0 < p[0]
    ensures 0.0 <= RealSums.SumTo(ArrivalFlows(q, p), q.m)
    ensures RealSums.SumTo(ArrivalFlows(q, p), q.m) == 0.0 <==> q.lam == 0.0
  {
    var flows := ArrivalFlows(q, p);
    forall n | 0 <= n < |flows|
      ensures 0.0 <= flows[n]
    {
      FlowEntrySign(q, p, n);
    }
    RealSums.SumToNonNegative(flows, q.m);
    if q.lam == 0.0 {
      RealSums.SumToZeroIffAllZero(flows, q.m);
    } else {
      FlowEntrySign(q, p, 0);
      RealSums.SumToAtLeastTerm(flows, q.m, 0);
    }
  }


  /** Dividing L and Lq by lambda_eff = mu (L - Lq) gives times that obey Little's law and differ by 1/mu. */
  lemma WaitsFromMeans(l: real, lq: real, e: real, mu: real, b: real, w: real, wq: real)
    requires 0.0 < e && 0.0 < mu && e == mu * b && b == l - lq
    requires w == l / e && wq == lq / e
    ensures Queueing.LittlesLaw(l, e, w) && Queueing.LittlesLaw(lq, e, wq)
    ensures w == wq + 1.0 / mu
  {
    RealSums.MulDivCancel(l, e);
    RealSums.MulDivCancel(lq, e);
    assert w - wq == b / e;
    assert b / e == b / (mu * b);
  }

  /**
   * Little's law for the finite-source results: W and Wq are finite exactly when
   * lambda > 0, and then L = lambda_eff W, Lq = lambda_eff Wq and W = Wq + 1/mu.
   */
  lemma LittleLaw(q: Params)
    requires q.Valid()
    ensures Solve(q).W.Some? <==> 0.0 < q.lam
    ensures Solve(q).Wq.Some? <==> 0.0 < q.lam
    ensures Solve(q).W.Some? ==>
      var r := Solve(q);
      Queueing.LittlesLaw(r.L, r.lambdaEff, r.W.value) &&
      Queueing.LittlesLaw(r.Lq, r.lambdaEff, r.Wq.value) &&
      r.W.value == r.Wq.value + 1.0 / q.mu
  {
    var r := Solve(q);
    var p := Distribution(q);
    assert r.L == MeanInSystem(q) && r.Lq == MeanInQueue(q) && r.lambdaEff == EffectiveArrivalRate(q);
    if r.W.Some? {
      FlowBalance(q);
      OccupancySplit(p, q.k);
      WaitsFromMeans(r.L, r.Lq, r.lambdaEff, q.mu, RealSums.Sum(BusyServers(p, q.k)), r.W.value, r.Wq.value);
    }
  }

  // ---------------------------------------------------------------------------
  // Special cases
  // ---------------------------------------------------------------------------

  /** With one server, busy-server mass is everything but the empty state. */
  lemma {:induction false} SingleServerBusy(p: seq<real>, c: nat)
    requires 1 <= c <= |p|
    ensures RealSums.SumTo(BusyServers(p, 1), c) == RealSums.SumTo(p, c) - p[0]
  {
    var busy := BusyServers(p, 1);
    if c == 1 {
      assert busy[0] == 0.0;
    } else {
      SingleServerBusy(p, c - 1);
      assert busy[c - 1] == p[c - 1];
    }
  }

  /** M/M/1/M/M (k = 1): Lq = L - (1 - p0). */
  lemma SingleServerQueue(q: Params)
    requires q.Valid() && q.k == 1
    ensures MeanInQueue(q) == MeanInSystem(q) - (1.0 - P0(q))
  {
    DistributionIsProbability(q);
    MeanBelowPopulation(q);
    SingleServerBusy(Distribution(q), q.m + 1);
    OccupancySplit(Distribution(q), 1);
  }

  /** With at least as many servers as sources nobody ever waits: Lq = 0. */
  lemma NoQueueWithEnoughServers(q: Params)
    requires q.Valid() && q.m <= q.k
    ensures MeanInQueue(q) == 0.0
  {
    var inQueue := InQueue(Distribution(q), q.k);
    forall n | 0 <= n < |inQueue|
      ensures inQueue[n] == 0.0
    {
      assert RealSums.Max(0, n - q.k) == 0;
    }
    RealSums.SumToConstant(inQueue, 0.0, |inQueue|);
  }

  lemma SingleSourceAlgebra(lam: real, mu: real, f: real, total: real, p0: real, p1: real)
    requires 0.0 <= lam && 0.0 < mu && f == lam / mu
    requires total == 1.0 + f && p0 == 1.0 / total && p1 == p0 * f
    ensures p0 == mu / (lam + mu) && p1 == lam / (lam + mu)
  {
    assert total == (lam + mu) / mu;
  }

  /**
   * A single source (M = 1) alternates between thinking and being served:
   * p = [mu / (lambda + mu), lambda / (lambda + mu)], L = P_block and Lq = 0.
   */
  lemma SingleSource(q: Params)
    requires q.Valid() && q.m == 1
    ensures Distribution(q) == [q.mu / (q.lam + q.mu), q.lam / (q.lam + q.mu)]
    ensures MeanInSystem(q) == q.lam / (q.lam + q.mu)
    ensures MeanInQueue(q) == 0.0
  {
    var r := Ratios(q);
    assert Factor(q, 1) == q.lam / q.mu;
    assert r[0] == 1.0 && r[1] == 1.0 * Factor(q, 1);
    assert RealSums.SumTo(r, 1) == r[0];
    assert RealSums.Sum(r) == 1.0 + Factor(q, 1);
    var p := Distribution(q);
    assert p[1] == P0(q) * r[1];
    SingleSourceAlgebra(q.lam, q.mu, Factor(q, 1), RealSums.Sum(r), P0(q), p[1]);
    var inSystem := InSystem(p);
    assert inSystem[0] == 0.0 && inSystem[1] == 1.0 * p[1];
    assert RealSums.SumTo(inSystem, 1) == 0.0;
    NoQueueWithEnoughServers(q);
  }

  lemma {:induction false} NoArrivalRatio(q: Params, n: nat)
    requires q.Valid() && q.lam == 0.0 && 1 <= n <= q.m
    ensures Ratio(q, n) == 0.0
  {
    assert ArrivalRate(q, n - 1) == 0.0;
  }

  lemma {:induction false} NoArrivalRatioSum(r: seq<real>, c: nat)
    requires 1 <= c <= |r| && r[0] == 1.0
    requires forall n :: 1 <= n < |r| ==> r[n] == 0.0
    ensures RealSums.SumTo(r, c) == 1.0
  {
    if c > 1 {
      NoArrivalRatioSum(r, c - 1);
    }
  }

  /** Without arrivals (lambda = 0) the system stays empty: p = [1, 0, ..., 0] and L = Lq = lambda_eff = 0. */
  lemma NoArrivals(q: Params)
    requires q.Valid() && q.lam == 0.0
    ensures Distribution(q)[0] == 1.0
    ensures forall n :: 1 <= n <= q.m ==> Distribution(q)[n] == 0.0
    ensures MeanInSystem(q) == 0.0 && MeanInQueue(q) == 0.0 && EffectiveArrivalRate(q) == 0.0
    ensures Solve(q).W.None? && Solve(q).Wq.None? && Solve(q).pBlock == 0.0
  {
    var r, p := Ratios(q), Distribution(q);
    forall n | 1 <= n < |r|
      ensures r[n] == 0.0
    {
      NoArrivalRatio(q, n);
    }
    NoArrivalRatioSum(r, |r|);
    assert P0(q) == 1.0;
    var inSystem, inQueue := InSystem(p), InQueue(p, q.k);
    forall n | 0 <= n < |p|
      ensures inSystem[n] == 0.0 && inQueue[n] == 0.0
    {
      if n > 0 {
        assert p[n] == 1.0 * r[n];
      }
    }
    RealSums.SumToConstant(inSystem, 0.0, |p|);
    RealSums.SumToConstant(inQueue, 0.0, |p|);
  }

  lemma SingleSourceExampleRates(l: real, e: real)
    requires l == 1.0 / 3.0 && e == 0.5 * (1.0 - l)
    ensures e == 1.0 / 3.0 && l / e == 1.0 && 0.0 / e == 0.0
  {
  }

  /** One source, one server, lambda = 0.5, mu = 1: p = [2/3, 1/3], W = 1 and Wq = 0. */
  lemma SingleSourceExample()
    ensures FiniteSourceModel(1.0, 1.0, 0.5, 1.0) ==
      Wrappers.Ok(FiniteSourceResult([2.0 / 3.0, 1.0 / 3.0], 1.0 / 3.0, 0.0, 1.0 / 3.0, Wrappers.Some(1.0), Wrappers.Some(0.0), 1.0 / 3.0))
  {
    var q := Params(1, 1, 0.5, 1.0);
    assert (1.0).Floor == 1;
    SingleSource(q);
    EffectiveRateIdentity(q);
    SingleSourceExampleRates(MeanInSystem(q), EffectiveArrivalRate(q));
  }

  // ---------------------------------------------------------------------------
  // The congestion label of renderFiniteUI
  // ---------------------------------------------------------------------------

  datatype Congestion =
    | HighBlocking    // P_block >= 0.2: many sources are turned away
    | Congested       // Lq > 0.5: a significant average queue
    | LowCongestion   // neither

  /** What a click handler returns: the metrics with their label, or the guard that refused. */
  type Report = (FiniteSourceResult, Congestion)
  type HandlerOutcome = Wrappers.Result<Report, FiniteSourceError>

  /** The label rule: blocking is checked before the queue length. */
  function Classify(pBlock: real, lq: real): (c: Congestion)
    ensures c == HighBlocking <==> 0.2 <= pBlock
    ensures c == Congested <==> pBlock < 0.2 && 0.5 < lq
    ensures c == LowCongestion <==> pBlock < 0.2 && lq <= 0.5
  {
    if pBlock >= 0.2 then HighBlocking
    else if lq > 0.5 then Congested
    else LowCongestion
  }

  /** The label of a solver result. */
  function Label(r: FiniteSourceResult): (c: Congestion)
    ensures c == HighBlocking <==> 0.2 <= r.pBlock
    ensures c == Congested <==> r.pBlock < 0.2 && 0.5 < r.Lq
  {
    Classify(r.pBlock, r.Lq)
  }

  /** Without arrivals the system is labelled low-congestion. */
  lemma NoArrivalsLowCongestion(q: Params)
    requires q.Valid() && q.lam == 0.0
    ensures Label(Solve(q)) == LowCongestion
  {
    NoArrivals(q);
  }

  /** With enough servers for every source the label is never "congested". */
  lemma EnoughServersNeverCongested(q: Params)
    requires q.Valid() && q.m <= q.k
    ensures Label(Solve(q)) != Congested
  {
    NoQueueWithEnoughServers(q);
  }

  lemma BlockingThreshold(lam: real, mu: real)
    requires 0.0 <= lam && 0.0 < mu
    ensures lam / (lam + mu) >= 0.2 <==> mu <= 4.0 * lam
  {
    var b := lam / (lam + mu);
    assert b * (lam + mu) == lam;
  }

  /** A single source is high-blocking exactly when mu <= 4 lambda, and otherwise low-congestion. */
  lemma SingleSourceLabel(q: Params)
    requires q.Valid() && q.m == 1
    ensures Label(Solve(q)) == if q.mu <= 4.0 * q.lam then HighBlocking else LowCongestion
  {
    SingleSource(q);
    BlockingThreshold(q.lam, q.mu);
  }

  // ---------------------------------------------------------------------------
  // The two click handlers
  // ---------------------------------------------------------------------------

  /**
   * The M/M/k/M/M handler: k and M are clamped to integers >= 1, the solver runs
   * and its result is labelled. Only the rate guards can still fail.
   */
  function FiniteSourceHandler(lam: real, mu: real, kInput: real, mInput: real): (r: HandlerOutcome)
    ensures r.Ok? <==> 0.0 <= lam && 0.0 < mu
    ensures r.Err? ==> r.error == (if lam < 0.0 then InvalidArrivalRate else InvalidServiceRate)
    ensures r.Ok? ==>
      var q := Params(Queueing.ClampToPositiveInteger(mInput), Queueing.ClampToPositiveInteger(kInput), lam, mu);
      r.value == (Solve(q), Label(Solve(q)))
  {
    var k := Queueing.ClampToPositiveInteger(kInput);
    var m := Queueing.ClampToPositiveInteger(mInput);
    assert (k as real).Floor == k && (m as real).Floor == m;
    match FiniteSourceModel(m as real, k as real, lam, mu)
    case Err(e) => Wrappers.Err(e)
    case Ok(res) => Wrappers.Ok((res, Label(res)))
  }

  /**
   * The M/M/1/M/M handler: the same solver with k = 1, where the queue is
   * everyone in the system except the one in service: Lq = L - (1 - p[0]).
   */
  function SingleServerHandler(lam: real, mu: real, mInput: real): (r: HandlerOutcome)
    ensures r.Ok? <==> 0.0 <= lam && 0.0 < mu
    ensures r.Err? ==> r.error == (if lam < 0.0 then InvalidArrivalRate else InvalidServiceRate)
    ensures r.Ok? ==> r.value.0 == Solve(Params(Queueing.ClampToPositiveInteger(mInput), 1, lam, mu))
    ensures r.Ok? ==> |r.value.0.p| == Queueing.ClampToPositiveInteger(mInput) + 1
    ensures r.Ok? ==> r.value.0.Lq == r.value.0.L - (1.0 - r.value.0.p[0])
    ensures r.Ok? ==> r.value.1 == Label(r.value.0)
  {
    var m := Queueing.ClampToPositiveInteger(mInput);
    assert (m as real).Floor == m && (1.0).Floor == 1;
    assert Queueing.ClampToPositiveInteger(1.0) == 1;
    var r := FiniteSourceHandler(lam, mu, 1.0, mInput);
    assert r.Ok? ==> r.value.0.Lq == r.value.0.L - (1.0 - r.value.0.p[0]) by {
      if r.Ok? {
        SingleServerQueue(Params(m, 1, lam, mu));
        MeanBelowPopulation(Params(m, 1, lam, mu));
      }
    }
    r
  }
}
