# Verified model of the numeric core of Modelos-Probabilisticos

This project models, in Dafny, the numeric core of two browser calculators.

- **Queueing theory** (`js/teoriaColas.js`):
  - the iterative factorial;
  - the M/M/1 closed forms and their P(n) table for n = 0..12;
  - the M/M/k (Erlang C) metrics, their stability guard and their P(n) table for n = 0..k+8;
  - the finite-population birth-death solver `computeFiniteSourceMMk`, called by the M/M/1/M/M handler (k = 1) and the M/M/k/M/M handler;
  - the three-way congestion label picked from P_block and Lq.
- **Markov chains** (`js/markov.js`):
  - row normalisation of the transition matrix;
  - the entry checks;
  - the row check, which normalises a row only when the user approves;
  - normalisation of the initial vector;
  - the trajectory S0, S1, …, S_pasos computed with `next[j] += curr[i] * P[i][j]`;
  - the 300-step power iteration from the uniform vector;
  - the dominant state, the "apparent convergence" reading and the case chosen for the application text.

All arithmetic is over Dafny's `real`. A JavaScript `Infinity` or `NaN` that the code produces on purpose becomes `None`: W and Wq when λ_eff = 0, and the M/M/k Wq = Lq/λ together with W = Wq + 1/μ when λ = 0. Errors raised through `alert` or `throw` become `Result` errors, one constructor per message. The `confirm` answer for row i becomes the boolean `approve[i]`.

Modules:

| file | module | contents |
|---|---|---|
| `wrappers.dfy` | `Wrappers` | `Option`, `Result` |
| `real_sums.dfy` | `RealSums` | prefix sums `SumTo`/`Sum`, `Scale`, `Pow`, arithmetic helpers |
| `queueing.dfy` | `Queueing` | factorial, input clamp, M/M/1, M/M/k, their P(n) tables, Little's law |
| `finite_source.dfy` | `FiniteSource` | `computeFiniteSourceMMk` as a function (`FiniteSourceModel`, `Solve`) and as the loops of the source (`ComputeFiniteSource`), its properties, the label, the two handlers |
| `markov_rows.dfy` | `MarkovRows` | clamps, entry checks, row and initial-vector normalisation, the row check on the array of rows |
| `markov_chain.dfy` | `MarkovChain` | one step (function `Step` and the double loop `MultiplyVector`), iterates, mass bounds, trajectory, stationary estimate |
| `markov_calculator.dfy` | `MarkovCalculator` | the calculate handler, dominant state, convergence reading, application case |

## Model

| member | source | states |
|---|---|---|
| Queueing.Fact | js/teoriaColas.js:31 | n! (1 for every n < 2) is at least 1 |
| Queueing.Factorial | js/teoriaColas.js:31 | the loop returns 1 below 2, otherwise Fact(n) = n · Fact(n − 1); always ≥ 1 |
| Queueing.ClampToPositiveInteger | js/teoriaColas.js:102 | the server/population input is read as an integer ≥ 1; it is the floor of any input ≥ 1, and 1 for any input < 2 |
| Queueing.MM1Formulas | js/teoriaColas.js:55-59 | for 0 < μ and λ < μ: ρμ = λ, ρ < 1, L = Lq + ρ, L = λW, Lq = λWq and W = Wq + 1/μ |
| Queueing.MM1AsWritten | js/teoriaColas.js:52-59 | the handler's guards as written: accepted iff 0 < μ and λ < μ; μ ≤ 0 is "invalid parameters", λ ≥ μ > 0 is "unstable" |
| Queueing.MM1NegativeArrivalAccepted | js/teoriaColas.js:52-53 | λ = −0.5, μ = 1 passes the written guards and gives P(1) = −0.75; the corrected MM1 rejects it |
| Queueing.MM1 | js/teoriaColas.js:52-59 | accepted iff 0 ≤ λ < μ, then 0 ≤ ρ < 1; agrees with the written handler on every λ ≥ 0; negative λ is "invalid parameters" |
| Queueing.MM1Distribution | js/teoriaColas.js:74-76 | exactly 13 entries; entry n is (1 − ρ)ρⁿ; p[0] = 1 − ρ and each entry is ρ times the previous one |
| Queueing.MM1PrefixMass | js/teoriaColas.js:76 | the first c entries of the geometric law sum to 1 − ρᶜ |
| Queueing.MM1Probability | js/teoriaColas.js:76 | for 0 ≤ ρ < 1 the bar (1 − ρ)ρⁿ lies in [0, 1] |
| Queueing.MM1ProbabilityBounds | js/teoriaColas.js:76 | for 0 ≤ ρ < 1 every (1 − ρ)ρⁿ lies in [0, 1] and does not increase with n |
| Queueing.MM1DistributionIsTruncatedLaw | js/teoriaColas.js:74-76 | the 13 bars lie in [0, 1], are non-increasing and sum to 1 − ρ¹³ |
| Queueing.MM1CongestionGrowsWithArrivals | js/teoriaColas.js:55-59 | with μ fixed, a larger λ < μ gives strictly larger L and W |
| Queueing.MM1DefaultExample | js/teoriaColas.js:55-59 | the default inputs λ = 0.6, μ = 1 give ρ = 0.6, L = 1.5, Lq = 0.9, W = 2.5, Wq = 1.5 |
| Queueing.ErlangSum | js/teoriaColas.js:116-117 | the partial sum of ρⁿ/n! is nonnegative for ρ ≥ 0 |
| Queueing.ErlangSumAtLeastOne | js/teoriaColas.js:116-117 | the partial sum of ρⁿ/n! for n < k is at least 1 when ρ ≥ 0 |
| Queueing.ErlangTail | js/teoriaColas.js:118 | the term ρᵏ/(k!(1 − ρ/k)) is nonnegative for ρ ≥ 0 |
| Queueing.ErlangNormaliser | js/teoriaColas.js:116-119 | the denominator sum + last of p0 is at least 1 for ρ ≥ 0 |
| Queueing.ErlangIdle | js/teoriaColas.js:119 | p0 = 1/(sum + last) lies in (0, 1] |
| Queueing.ErlangQueueLength | js/teoriaColas.js:121 | the Erlang C queue length Lq is nonnegative |
| Queueing.WithWaits | js/teoriaColas.js:122-124 | L = Lq + ρ; Wq and W exist iff λ > 0, and then Lq = λWq, L = λW and W = Wq + 1/μ |
| Queueing.MMkFormulas | js/teoriaColas.js:105-124 | ρ = λ/μ, ρ/k ∈ [0, 1), p0 ∈ (0, 1], 0 ≤ Lq, L = Lq + ρ, and Little's law for both waits when λ > 0 |
| Queueing.MMkExample | js/teoriaColas.js:103-124 | λ = 2, μ = 1, k = 3 gives ρ = 2, ρ/k = 2/3, p0 = 1/9, Lq = 8/9, L = 26/9, Wq = 4/9 and W = 13/9, fixing the Erlang C sum, tail and Lq for a multi-server case |
| Queueing.MMk | js/teoriaColas.js:103-113 | accepted iff 0 < μ, 0 ≤ λ and ρ/k < 1; μ ≤ 0 or λ < 0 is "invalid parameters"; otherwise ρ/k ≥ 1 is "unstable" and carries ρ/k |
| Queueing.MMkAcceptsAsWritten | js/teoriaColas.js:103-108 | the written guards accept iff 0 < μ and ρ/k < 1; with λ ≥ 0 added this is exactly when MMk succeeds |
| Queueing.MMkNegativeArrivalAccepted | js/teoriaColas.js:103-119 | λ = −3, μ = 1, k = 2 passes the written guards and makes the p0 denominator −0.2; the corrected MMk rejects it |
| Queueing.BusyDenominator | js/teoriaColas.js:143 | the denominator k!·k^(n−k) of a state beyond k is positive |
| Queueing.MMkProbability | js/teoriaColas.js:141-143 | P(0) = p0, and every P(n) is nonnegative for ρ ≥ 0 and p0 ≥ 0 |
| Queueing.BusyDenominatorStep | js/teoriaColas.js:143 | k!·k^(n−k) grows by a factor k per state and equals k! at n = k, so the two branches of P(n) agree there |
| Queueing.MMkBalance | js/teoriaColas.js:140-145 | P(0) = p0 and min(n+1, k)·P(n+1) = ρ·P(n): the table satisfies the M/M/k balance equations |
| Queueing.MMkHeadMass | js/teoriaColas.js:116-119 | the first c ≤ k table entries sum to p0 times the Erlang partial sum used for p0 |
| Queueing.ErlangPartialSum | js/teoriaColas.js:116-117 | the accumulation loop computes the partial sum of ρⁿ/n! for n < k |
| Queueing.MMkEntry | js/teoriaColas.js:141-143 | one entry of the table, by the branch n ≤ k or n > k, is the probability of state n |
| Queueing.MMkDistributionTable | js/teoriaColas.js:137-145 | the push loop yields k + 9 entries, entry n being the probability of state n |
| Queueing.ErlangCMetrics | js/teoriaColas.js:115-124 | the statements of the handler compute the metrics MMkFormulas describes |
| Queueing.MMkHandler | js/teoriaColas.js:99-145 | with k clamped: the MMk error is returned as is, otherwise the metrics and the k + 9 entry table |
| Queueing.MMkSingleServerIsMM1 | js/teoriaColas.js:105-124 | with k = 1 the Erlang C metrics coincide with the M/M/1 ones (ρ, L, Lq, p0 = 1 − ρ, W and Wq) |
| FiniteSource.IsPositiveInteger | js/teoriaColas.js:241-242 | x passes the integer guard iff clamping x to an integer ≥ 1 leaves it unchanged |
| FiniteSource.ServiceRate | js/teoriaColas.js:252 | the rate min(n, k)μ out of state n is positive |
| FiniteSource.Ratios | js/teoriaColas.js:249-254 | the ratios table has one entry per state n = 0..M |
| FiniteSource.RatioNonNegative | js/teoriaColas.js:249-254 | every product of rate ratios is nonnegative |
| FiniteSource.RatiosSumAtLeastOne | js/teoriaColas.js:247-256 | ratios[0] = 1, all ratios are nonnegative, and their sum is at least 1 |
| FiniteSource.P0 | js/teoriaColas.js:257 | p0 = 1/sum(ratios) lies in (0, 1] |
| FiniteSource.Distribution | js/teoriaColas.js:256-259 | M + 1 entries, each p[n] = p0·ratios[n] |
| FiniteSource.DistributionIsProbability | js/teoriaColas.js:256-259 | every p[n] is nonnegative and Σp = 1 |
| FiniteSource.DetailedBalance | js/teoriaColas.js:250-259 | μ_{n+1}·p[n+1] = λ_n·p[n] for every n < M (birth-death balance) |
| FiniteSource.DistributionBalanced | js/teoriaColas.js:250-259 | the whole table satisfies detailed balance |
| FiniteSource.BalancedFlow | js/teoriaColas.js:264-267 | for any balanced table, the arrival flows sum to μ times the mean number of busy servers |
| FiniteSource.FlowBalance | js/teoriaColas.js:264-267 | λ_eff = μ·E[min(n, k)]: effective arrivals equal departures |
| FiniteSource.EffectiveRateIdentity | js/teoriaColas.js:264-267 | λ_eff = λ(M − L): arrivals come from the sources outside the system |
| FiniteSource.EffectiveArrivalRate | js/teoriaColas.js:264-267 | λ_eff ≥ 0, and λ_eff = 0 iff λ = 0 |
| FiniteSource.MeanInSystem | js/teoriaColas.js:261 | 0 ≤ L ≤ M |
| FiniteSource.MeanInQueue | js/teoriaColas.js:262 | 0 ≤ Lq ≤ L |
| FiniteSource.QueueWithinSystem | js/teoriaColas.js:261-262 | for a nonnegative table, 0 ≤ Σ max(0, n − k)p[n] ≤ Σ n·p[n] |
| FiniteSource.SystemWithinPopulation | js/teoriaColas.js:261 | for a probability table on 0..M, L ≤ M |
| FiniteSource.MeanBelowPopulation | js/teoriaColas.js:261 | p[0] = p0 > 0, so L < M strictly |
| FiniteSource.OccupancySplit | js/teoriaColas.js:261-262 | L − Lq is the mean number of busy servers E[min(n, k)] |
| FiniteSource.LittleLaw | js/teoriaColas.js:269-270 | W and Wq are finite iff λ > 0, and then L = λ_eff·W, Lq = λ_eff·Wq and W = Wq + 1/μ |
| FiniteSource.Solve | js/teoriaColas.js:256-271 | the vector is Distribution, L, Lq and λ_eff are the means the property lemmas are about, M + 1 probabilities, P_block = p[M], and W, Wq present iff λ_eff > 0 |
| FiniteSource.FiniteSourceModel | js/teoriaColas.js:240-283 | succeeds iff M and k are integers ≥ 1, λ ≥ 0 and μ > 0; each failing guard, checked in order, gives its own error; success is the solved model |
| FiniteSource.RatiosTable | js/teoriaColas.js:246-254 | the loop fills ratios with the products of λ_{n−1}/μ_n |
| FiniteSource.SumArray | js/teoriaColas.js:256 | the reduce computes the sum of the array |
| FiniteSource.DistributionTable | js/teoriaColas.js:256-259 | the p array equals the distribution |
| FiniteSource.FillDistribution | js/teoriaColas.js:258-259 | writing p[0] = p0 and p[n] = p0·ratios[n] gives the ratios scaled by p0 |
| FiniteSource.DistributionScalesRatios | js/teoriaColas.js:256-259 | the distribution is the ratios scaled by 1/sum(ratios) |
| FiniteSource.Occupancy | js/teoriaColas.js:261-262 | the two reduces compute Σ n·p[n] and Σ max(0, n − k)p[n] |
| FiniteSource.EffectiveRateLoop | js/teoriaColas.js:264-267 | the loop computes Σ_{n<M} (M − n)λ·p[n] |
| FiniteSource.ComputeFiniteSource | js/teoriaColas.js:240-283 | the imperative solver returns exactly what FiniteSourceModel describes |
| FiniteSource.SingleServerQueue | js/teoriaColas.js:261-262 | with one server, Lq = L − (1 − p0) |
| FiniteSource.NoQueueWithEnoughServers | js/teoriaColas.js:262 | with M ≤ k nobody ever waits: Lq = 0 |
| FiniteSource.SingleSource | js/teoriaColas.js:246-262 | with M = 1, p = [μ/(λ+μ), λ/(λ+μ)], L = λ/(λ+μ) and Lq = 0 |
| FiniteSource.NoArrivals | js/teoriaColas.js:246-271 | with λ = 0 all mass is in state 0, L = Lq = λ_eff = 0, W and Wq are infinite, and P_block = 0 |
| FiniteSource.SingleSourceExample | js/teoriaColas.js:240-283 | M = 1, k = 1, λ = 0.5, μ = 1 gives p = [2/3, 1/3], L = 1/3, Lq = 0, λ_eff = 1/3, W = 1, Wq = 0 and P_block = 1/3 |
| FiniteSource.Classify | js/teoriaColas.js:309-318 | high blocking iff P_block ≥ 0.2; congested iff P_block < 0.2 and Lq > 0.5; low congestion iff P_block < 0.2 and Lq ≤ 0.5 |
| FiniteSource.Label | js/teoriaColas.js:309-318 | the label of a result is high blocking iff its P_block ≥ 0.2, and congested iff P_block < 0.2 and Lq > 0.5 |
| FiniteSource.NoArrivalsLowCongestion | js/teoriaColas.js:309-318 | with λ = 0 the label is low congestion |
| FiniteSource.EnoughServersNeverCongested | js/teoriaColas.js:309-318 | with M ≤ k the label is never "congested" |
| FiniteSource.SingleSourceLabel | js/teoriaColas.js:309-318 | with M = 1 the label is high blocking iff μ ≤ 4λ, and low congestion otherwise |
| FiniteSource.FiniteSourceHandler | js/teoriaColas.js:204-211 | with M and k clamped, the handler fails only on λ < 0 or μ ≤ 0 (with that error); otherwise it shows the solved model and its label |
| FiniteSource.SingleServerHandler | js/teoriaColas.js:168-174 | k = 1: fails iff λ < 0 or μ ≤ 0, with the arrival-rate error when λ < 0 and the service-rate error otherwise; on success the result is Solve with M clamped, k = 1, λ and μ, so it has M + 1 probabilities and Lq = L − (1 − p0), and the label is that of the result |
| MarkovRows.ClampStates | js/markov.js:130 | the number of states is within 2..8 and unchanged inside that range |
| MarkovRows.ClampSteps | js/markov.js:131 | the number of steps is within 1..10 and unchanged inside that range |
| MarkovRows.FindNegativeEntry | js/markov.js:134-140 | reports the first negative entry in row-major order, or none iff every entry is nonnegative |
| MarkovRows.FindNegative | js/markov.js:155-158 | reports the first negative entry of S0, or none iff S0 is nonnegative |
| MarkovRows.UniformIsDistribution | js/markov.js:107 | the uniform vector 1/n is a probability vector |
| MarkovRows.DivideByScales | js/markov.js:109 | dividing each entry by s is scaling by 1/s |
| MarkovRows.NormalizeRow | js/markov.js:105-110 | same length; a zero-sum row becomes the uniform row 1/n, any other row with sum s becomes the row scaled by 1/s; a nonempty row comes out summing to 1 |
| MarkovRows.NormalizeRowIsDistribution | js/markov.js:105-110 | a nonnegative row normalises to a probability vector |
| MarkovRows.NormalizeRowKeepsDistribution | js/markov.js:105-110 | a row already summing to 1 is left unchanged |
| MarkovRows.NormalizeRowIdempotent | js/markov.js:105-110 | normalising twice is the same as normalising once |
| MarkovRows.NormalizeMatrix | js/markov.js:102-112 | row i becomes NormalizeRow(p[i]), so every row keeps its length and every nonempty row comes out summing to 1 |
| MarkovRows.NormalizeMatrixIsStochastic | js/markov.js:102-112 | the normalise button turns a nonnegative square matrix into a row-stochastic one |
| MarkovRows.CheckedRow | js/markov.js:143-148 | same length; a row within the tolerance is kept as it is, any other row becomes NormalizeRow of it; every nonempty row comes out within the tolerance |
| MarkovRows.CheckedRowNearlyStochastic | js/markov.js:143-148 | after the check a nonnegative row is within 1e-6 of summing to 1, and sums to exactly 1 if it was normalised |
| MarkovRows.CheckRows | js/markov.js:142-151 | with no rejection every row was accepted and now holds its checked form; otherwise it reports the first unaccepted row, the rows before it are checked and the rest are untouched |
| MarkovRows.CheckedMatrixNearlyStochastic | js/markov.js:142-151 | the checked matrix is square, nonnegative, and each row sum is within the tolerance |
| MarkovRows.NormalizeInitial | js/markov.js:160-162 | fails iff ΣS0 = 0; otherwise a vector of the same length |
| MarkovRows.NormalizeInitialIsDistribution | js/markov.js:160-162 | for a nonnegative S0: rejected iff all zero, otherwise S0/ΣS0, a probability vector |
| MarkovChain.Step | js/markov.js:168-171 | one step through an n × n matrix maps a vector of n states to a vector of n states |
| MarkovChain.Iterate | js/markov.js:167-178 | t steps keep the number of states |
| MarkovChain.MultiplyVector | js/markov.js:168-171 | the double loop `next[j] += curr[i]·P[i][j]` computes the vector-matrix product Step |
| MarkovChain.StepMass | js/markov.js:168-171 | the mass of the next vector is Σ curr[i]·sum(P[i]) |
| MarkovChain.StepNonNegative | js/markov.js:168-171 | a step keeps a nonnegative vector nonnegative through a nonnegative matrix |
| MarkovChain.StepMassBounds | js/markov.js:168-171 | with row sums in [lo, hi] a step scales the mass by a factor in [lo, hi] |
| MarkovChain.IterateNonNegative | js/markov.js:167-174 | every iterate stays nonnegative |
| MarkovChain.IterateMassBounds | js/markov.js:167-174 | from a probability vector, t steps leave a mass within [loᵗ, hiᵗ] |
| MarkovChain.IterateIsDistribution | js/markov.js:167-178 | through a row-stochastic matrix every iterate of a probability vector is a probability vector |
| MarkovChain.Trajectory | js/markov.js:164-174 | pasos + 1 vectors, the first is S0norm, and vector t is S0norm after t steps |
| MarkovChain.Stationary | js/markov.js:176-178 | π is the uniform vector after exactly 300 steps |
| MarkovCalculator.MaxOf | js/markov.js:229 | the maximum is at least every entry and is one of them |
| MarkovCalculator.IndexOf | js/markov.js:230 | the first position holding x, or −1 iff x is absent |
| MarkovCalculator.Dominant | js/markov.js:229-230 | the state (numbered from 1) is in range, holds a largest entry, and every earlier entry is strictly smaller |
| MarkovCalculator.Converged | js/markov.js:231 | converged iff every state is within 0.02 of the estimate, strictly |
| MarkovCalculator.ApplicationFor | js/markov.js:261 | the general text is chosen iff the state is outside 1..4 |
| MarkovCalculator.ConvergedMassesClose | js/markov.js:231 | a converged reading, every state within 0.02 of the estimate, puts the total masses within 0.02 n of each other |
| MarkovCalculator.GeneralOnlyBeyondFourthState | js/markov.js:244-261 | the fallback application text is shown iff the dominant state is beyond the fourth, so never with ≤ 4 states |
| MarkovCalculator.Analyse | js/markov.js:164-183 | the trajectory, the 300-step estimate, the dominant state, the convergence reading and the application case of a checked matrix |
| MarkovCalculator.Calculate | js/markov.js:129-183 | errors in the source's order: first negative entry, first rejected row, first negative S0 entry, all-zero S0; on success the checked matrix, S0norm = S0/ΣS0 and the analysis above |
| MarkovCalculator.CheckedIterateNearlyDistribution | js/markov.js:142-174 | after the row check, t steps from a probability vector give a nonnegative vector with mass within [(1 − 1e-6)ᵗ, (1 + 1e-6)ᵗ] |
| MarkovCalculator.CheckedMatrixKeepsStochastic | js/markov.js:142-151 | a matrix whose rows sum exactly to 1 passes the check unchanged |
| MarkovCalculator.ExactTrajectoryIsDistribution | js/markov.js:160-178 | for an exactly stochastic matrix every trajectory vector and the estimate π are probability vectors |

## Left out

- The DOM is not modelled: reading inputs, `innerHTML` rendering, tabs, reset buttons, scrolling, the example loader and the auto-demo on `load`. The text of the messages and explanations is reduced to error constructors, the `Congestion` label and the `Application` case.
- Chart.js, the PNG download and the CSV export are not modelled. They are I/O and foreign libraries.
- `alert` is not modelled: it becomes an error result. `confirm` becomes the `approve` parameter, one answer per row.
- `math.multiply` (js/markov.js:177) is a library call. It is modelled as the vector-matrix product `Step`, the same product the trajectory loop computes.
- Floating-point behaviour is not modelled. This covers:
  - rounding and `toFixed`;
  - overflow of `factorial` for large k;
  - `isFinite` checks, which always hold over `real`;
  - `NaN` inputs.
  The `|| 1`, `|| 0` and `|| 3` fallbacks for empty or unparsable inputs are therefore not modelled either. The clamps take a number already read.
- The values written back into the grid with `toFixed(6)` are not modelled. This happens in the normalise button and in the row check.
- `Infinity` (W, Wq when λ_eff = 0) and `NaN` become `None`. The `NaN` is the M/M/k Wq = Lq/λ = 0/0 when λ = 0 (js/teoriaColas.js:123), and with it W = Wq + 1/μ (js/teoriaColas.js:124).
- Nothing is claimed about whether 300 power iterations reach a fixed point. The source never checks this, and it does not hold in general.
- The trajectory vectors of an arbitrary accepted matrix are only bounded: MarkovCalculator.CheckedIterateNearlyDistribution. A row within the 1e-6 tolerance is kept as it is, so its vectors need not sum exactly to 1. The exact statement is made for exactly stochastic matrices.
- `Math.pow` with a natural exponent is the recursive `Pow`. Entry values read from the grid are given as reals, so `parseFloat` is not modelled.

## Findings

| source | as written | input that shows it | evidently intended | confidence | as-written member | corrected member |
|---|---|---|---|---|---|---|
| js/teoriaColas.js:52-53 | the M/M/1 guards reject only μ ≤ 0 and λ ≥ μ, so a negative arrival rate is accepted | λ = −0.5, μ = 1: ρ = −0.5 and the bar P(1) = (1 − ρ)ρ = −0.75 | reject λ < 0, as `computeFiniteSourceMMk` does at js/teoriaColas.js:243 | not executed | Queueing.MM1AsWritten, Queueing.MM1NegativeArrivalAccepted | Queueing.MM1 |
| js/teoriaColas.js:103-108 | the M/M/k guards reject only μ ≤ 0 and ρ/k ≥ 1, so a negative arrival rate is accepted | λ = −3, μ = 1, k = 2: ρ/k = −1.5 passes, sum + last = −0.2 and p0 = −5 | reject λ < 0 | not executed | Queueing.MMkAcceptsAsWritten, Queueing.MMkNegativeArrivalAccepted | Queueing.MMk |
