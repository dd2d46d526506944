# A/B/n testing simulation engine — Dafny model

This project models the deterministic decision logic of `simulation_engine.py`,
an engine that simulates A/B/n experiments and compares two procedures for
stopping them:

- **Peeking on a proxy metric** (`PeekingProxyMethod`). Every day it runs a
  one-sided two-proportion z-test of each challenger's conversion rate against
  the control `A`. It stops at the first challenger whose p-value is below
  0.05.
- **A profit-driven Bayesian framework** (`BayesianFramework`). It keeps a
  Beta-Binomial posterior for the conversion rate and a Normal-Inverse-Gamma
  posterior for the order value, and treats revenue per visitor (RPV) as
  their product. It stops as soon as some arm's expected loss, measured
  against the per-draw best arm, falls below a threshold epsilon.

Every random draw and foreign statistical call of the engine is an
explicit input of the model:

- the binomial conversion count and the Gamma order values of
  `add_visitors` are one sequence of order values per arm per day, whose
  length is the count;
- the z-test (`proportions_ztest`, deterministic statsmodels code) is an
  oracle that returns a p-value or an exception;
- the posterior samples come from a `Sampler` function that receives each
  arm's posterior parameters.

With those inputs fixed, every operation is a pure function over `real`.

Modules, one per file:

| module | file | models |
|---|---|---|
| `Results` | results.dfy | `Option` and `Result` |
| `Seqs` | seqs.dfy | generic sequence facts the proofs share (no counterpart in the source) |
| `Stats` | stats.dfy | numpy/pandas helpers (sum, mean, squared deviations, row maximum) and the first minimum that Python's built-in `min` returns |
| `Variants` | variants.dfy | `Variant.__init__`, `add_visitors`, the name-keyed dict `{v.name: v}` |
| `Methodology` | methodology.dfy | the `(is_stopped, decision, stop_day)` state, its initial value, decision labels |
| `Peeking` | peeking.dfy | `PeekingProxyMethod.run_check` |
| `Bayesian` | bayesian.dfy | `BayesianFramework.run_check`: posteriors, RPV draws, expected loss, stopping rule |
| `Simulation` | simulation.dfy | the day loop of `Simulation.run_single_simulation` |

The dict both procedures hold is `{v.name: v for v in variants}`. It is
modelled as a sequence of arms with distinct names:

- a name keeps the position of its first occurrence;
- the name maps to the last arm that carries it.

This is what a Python dict built by that comprehension does. When the names
are distinct, the dict is the arm list itself (`Variants.DictOfDistinct`).
The dict holds references to the same arm objects the loop grows, so the
model rebuilds it from the grown arms every day.

Two behaviours of the source deserve a note:

- A standard deviation of zero makes `gamma_scale` zero (line 41), so
  `true_aov / gamma_scale` on line 42 raises `ZeroDivisionError`. A
  `true_aov` of zero raises it already on line 41. `Variants.NewVariant`
  fails in exactly these two cases.
- The model covers the day loop through the daily checks (lines 218-224).
  The rest of the loop body (the daily log and any early exit) and the
  function's return value are not modelled. The modelled loop runs all
  `max_days` days. `Simulation.EarlyExitIsUnobservable` proves that leaving
  the loop once both procedures have stopped would change neither
  procedure's decision nor its stop day.

## Model

| member | source | states |
|---|---|---|
| Variants.NewVariant | simulation_engine.py:35-47 | Construction fails exactly when `true_aov` or the standard deviation is zero, the two `ZeroDivisionError` cases. On success the Gamma has the configured mean (`shape * scale == true_aov`) and variance (`shape * scale^2 == sd^2`), both parameters are positive for a positive mean, the counters are zero, the history is empty, and the data invariant holds. |
| Variants.AddVisitors | simulation_engine.py:49-61 | Visitors grow by exactly `n` and conversions by exactly the drawn count. The drawn order values are appended after an unchanged history. Name, truth and Gamma parameters are untouched. |
| Variants.AddVisitorsKeepsWf | simulation_engine.py:49-61 | A draw with at most `n` conversions and positive order values keeps three things true: conversions never exceed visitors, there is one order value per conversion, and every value is positive. |
| Variants.Find | simulation_engine.py:94 | The position found is the first entry with the name, and there is none exactly when no entry carries it. |
| Variants.Lookup | simulation_engine.py:94 | `dict.get(name)` finds a value exactly when some entry has that name, and the value carries that name. |
| Variants.LastNamed | simulation_engine.py:69 | The reference meaning of the comprehension: the last arm with a name. It exists exactly when some arm has the name. |
| Variants.Insert | simulation_engine.py:69 | Dict assignment keeps names distinct, maps the assigned name to the new arm, and leaves every other key's value unchanged. Every existing key keeps its position. The dict grows by one entry exactly when the key is new, and the new entry goes last. |
| Variants.DictOf | simulation_engine.py:69 | The dict built from the arms has distinct keys and at most as many entries as arms, and every lookup returns the last arm carrying that name. The keys are in order of first occurrence among the arms, which fixes the iteration order of lines 98 and 181-186. Every entry is one of the arms, so it keeps their data invariant, and a non-empty arm list gives a non-empty dict. |
| Variants.DictOfDistinct | simulation_engine.py:69 | With distinct names, the dict is the arm list in its original order. |
| Variants.EntryIsFound | simulation_engine.py:94 | With distinct names, looking up an entry's own name returns that entry. |
| Methodology.LabelInjective | simulation_engine.py:193-196 | The stored decision strings ("N/A (Timed Out)", "Declared '<name>' winner", "Stopped for Futility") are pairwise distinct, and two winner strings are equal only for equal names. |
| Methodology.Conclude | simulation_engine.py:140-196 | A stopped procedure is left exactly as it is. A running one without a conclusion is unchanged. A running one with a conclusion is stopped on the given day with that decision. |
| Methodology.RunChecks | simulation_engine.py:218-224 | A procedure checked on consecutive days: once stopped it stays exactly as it is, and a procedure still running at the end is the one that started. |
| Methodology.RunChecksFirstConclusion | simulation_engine.py:218-224 | A running procedure stops exactly when some day's check concludes. It then stops on the first such day, with that day's decision, and no earlier day concluded. |
| Methodology.RunChecksSplit | simulation_engine.py:218-224 | Checking over two consecutive stretches of days is checking over their concatenation. |
| Methodology.ChecksEarlyExit | simulation_engine.py:218-224 | Once a procedure has stopped, later days leave its decision and stop day unchanged, so ending the loop early is unobservable. |
| Peeking.ScanFrom | simulation_engine.py:98-120 | The challenger loop returns the first position from `i` whose arm is significant, and no earlier position is significant. An arm is significant when it is not `A`, both arms have at least 5 conversions, its rate is strictly above the control's, and the test returns p < 0.05. Without a result, no position from `i` is significant: skipped guards and raised tests only move the loop on. |
| Peeking.PeekingRule | simulation_engine.py:94-120 | A conclusion is reached exactly when the control `A` exists, has visitors, and some challenger is significant. The conclusion declares the first significant challenger the winner. |
| Peeking.PeekingCheck | simulation_engine.py:86-120 | A stopped procedure is frozen. A running one stops exactly when the rule concludes, and otherwise is unchanged. A stop happens on the check's day, declares a winner other than `A`, and stores exactly the decision `PeekingRule` reaches on the dict. |
| Peeking.ScanIgnoresLaterArms | simulation_engine.py:113-117 | The loop returns at the first significant challenger, so arms after it never influence the outcome. |
| Bayesian.ConversionPosterior | simulation_engine.py:147-148 | `alpha` is one plus the conversions and `alpha + beta` is two plus the visitors, so `beta` is one plus the non-converting visitors. Both are at least 1 under the data invariant. |
| Bayesian.ConversionPosteriorShrinks | simulation_engine.py:147-148 | The posterior mean `alpha / (alpha + beta)` lies strictly inside (0, 1), between the observed rate and the prior mean 1/2. |
| Bayesian.ShrinkTowardsHalf | simulation_engine.py:147-148 | For `0 <= c <= n` with `n > 0`, `(1 + c) / (2 + n)` lies strictly inside (0, 1) and between `c / n` and 1/2. |
| Bayesian.ValuePosterior | simulation_engine.py:152-163 | With at least two conversions: `n_k = 1 + k` and `alpha_k = 1 + k/2`. `n_k mu_k` is the prior total plus `k` times the sample mean, `mu_k` lies between 100 and the sample mean and is positive, and `beta_k >= 1 + ssd/2 >= 1`. |
| Bayesian.PosteriorMeanBetween | simulation_engine.py:160-161 | `(100 + k xBar) / (1 + k)` is a weighted average of 100 and `xBar`: it lies between them and is positive for a positive `xBar`. |
| Bayesian.ShrinkageTermNonNegative | simulation_engine.py:163 | The shrinkage term of `beta_k` is never negative. |
| Bayesian.ValueModelOf | simulation_engine.py:152-171 | The order-value draws come from the Student-t posterior exactly when there are at least two conversions. Its parameters are those of the Normal-Inverse-Gamma update: `df = 2 alpha_k > 3`, location `mu_k > 0`, and squared scale `beta_k / (alpha_k n_k) > 0`. Otherwise the draws come from the normal with location 100 and scale 50. |
| Bayesian.Loss | simulation_engine.py:178-182 | The per-draw loss is never negative, and it is zero exactly when the arm attains that draw's maximum. |
| Bayesian.LossColumn | simulation_engine.py:182 | One loss per draw. Each loss is non-negative, and it is zero exactly when the arm's RPV is the largest in that row. |
| Bayesian.ExpectedLoss | simulation_engine.py:180-183 | The expected loss is never negative, and S times it is the sum of the per-draw losses. |
| Bayesian.ExpectedLossZeroIff | simulation_engine.py:178-183 | An arm's expected loss is zero exactly when it is best, or tied best, on every draw. |
| Bayesian.ExpectedLosses | simulation_engine.py:180-183 | One expected loss per arm, in dict order, each the mean of that arm's loss column. Each is non-negative, and it is zero exactly when the arm's RPV is the largest on every draw. |
| Stats.FirstArgMin | simulation_engine.py:186 | `min(..., key=...)` picks a position of minimal value, and every earlier position has a strictly larger one. |
| Bayesian.FirstMinLossUnique | simulation_engine.py:186 | Exactly one arm satisfies that description, so the choice is well defined. |
| Bayesian.BayesRule | simulation_engine.py:185-196 | The rule concludes exactly when some arm's expected loss is below epsilon, and the conclusion concerns the first arm of minimum expected loss. It concludes futility exactly when that arm is `A`; otherwise it declares that arm the winner. |
| Bayesian.BayesianCheck | simulation_engine.py:135-196 | A stopped procedure is frozen. A running one stops exactly when some arm's expected loss over the sampled RPV table is below epsilon, and otherwise is unchanged. A stop happens on the check's day, with a real decision, and stores exactly the decision `BayesRule` reaches on that table. |
| Bayesian.LoneArmConcludes | simulation_engine.py:186-196 | With a single arm every loss is zero, so any positive epsilon concludes at once. The conclusion is futility exactly when that arm is `A`. |
| Stats.RowMax | simulation_engine.py:178 | The per-draw maximum bounds every cell of the row and equals one of them. |
| Stats.Mean | simulation_engine.py:156 | The mean of positive order values is positive. |
| Stats.MeanBounds | simulation_engine.py:156 | The mean lies between any lower and upper bound of the values. |
| Stats.SumNonNegative | simulation_engine.py:183 | Summing non-negative losses gives a non-negative total. |
| Stats.SumZeroIff | simulation_engine.py:183 | A sum of non-negative losses is zero exactly when every loss is zero. |
| Stats.SquaredDeviationsNonNegative | simulation_engine.py:157 | `ssd` is never negative. |
| Simulation.DailyVisitors | simulation_engine.py:219 | Floor division: the per-arm share times the arm count fits within the budget, so fewer visitors than there are arms go unused. |
| Simulation.BuildVariants | simulation_engine.py:210 | Building the arms fails exactly when some configuration fails. Otherwise it yields one arm per configuration, in order, each the construction of that configuration. |
| Simulation.Grow | simulation_engine.py:220-221 | Each arm keeps its name and position, gains exactly the day's share of visitors, gains one conversion per value in its draw, and appends those values to its revenues. When every draw fits the share, every arm keeps its data invariant. |
| Simulation.GrowDays | simulation_engine.py:218-221 | Growth over any number of days keeps the arm count, the names and the data invariant. |
| Simulation.GrowDaysVisitors | simulation_engine.py:218-221 | After `D` days every arm has exactly `D` times the daily share of visitors more, and no more conversions than visitors. |
| Simulation.RunDay | simulation_engine.py:218-224 | One day: every arm gets the share before the checks, and names and the data invariant are kept. Each procedure then runs its check on the dict of the grown arms, with the day's number, the z-test and the day's posterior draws. A stopped procedure stays frozen. Each procedure stays in a reachable state: running and timed out, or stopped with a real decision on a day from 1 to today. |
| Simulation.StagesAt | simulation_engine.py:218-221 | Entry `k` of the day-by-day arm states is the arms grown by the first `k + 1` days' draws. |
| Simulation.PeekingOutcomesAt | simulation_engine.py:218-223 | The peeking verdict for day `k + 1` is `PeekingRule` on the dict of the arms grown by the first `k + 1` days. |
| Simulation.BayesOutcomesAt | simulation_engine.py:218-224 | The Bayesian verdict for day `k + 1` is `BayesRule` on the RPV table drawn that day from the dict of the arms grown by the first `k + 1` days. |
| Simulation.RunDays | simulation_engine.py:218-224 | Over consecutive days, the arms evolve as the draws alone dictate, whatever the procedures decide. Each procedure's state is its previous state run through that procedure's verdicts on the successively grown arms, one verdict per day. Each procedure stays reachable. |
| Simulation.RunSingleSimulation | simulation_engine.py:206-224 | The trial fails exactly when an arm cannot be constructed, or when there are no arms and at least one day, where the visitor split divides by zero. Otherwise the arms are the built arms grown by every day. Each procedure's final state is the initial state run through its daily verdicts, so it either timed out or stopped with a decision on a day from 1 to `max_days`. |
| Simulation.EarlyExitIsUnobservable | simulation_engine.py:218-224 | Ending the loop once both procedures have concluded gives the same decisions and stop days as running the remaining days. |

Definitions without a contract of their own. Each one is what the
source computes; the members above state their properties:

- Methodology.Label (simulation_engine.py:72, 115, 194, 196): the decision strings. LabelInjective and the rows that store a Decision cover them.
- Bayesian.DecisionFor (simulation_engine.py:193-196): the control means futility and any other arm means a win. BayesRule states what it yields.
- Peeking.Rate, Peeking.Tested and Peeking.Significant (simulation_engine.py:103-113): the guards and the p-value test of one challenger. ScanFrom and PeekingRule state the scan built from them.
- Bayesian.DrawsOf (simulation_engine.py:149, 168, 171): the sampler applied to one arm's two posteriors. ConversionPosterior and ValueModelOf state the posteriors.
- Bayesian.RpvMatrix (simulation_engine.py:173-177): the revenue-per-visitor table, cell by cell. LossColumn, ExpectedLosses and BayesRule state what is derived from it.
- Stats.Sum and Stats.SquaredDeviations (simulation_engine.py:156-157): the numpy reductions. SumNonNegative, SumZeroIff, MeanBounds and SquaredDeviationsNonNegative state their properties.
- Simulation.Stages, Simulation.PeekingOutcomes, Simulation.BayesVerdict and Simulation.BayesOutcomes (simulation_engine.py:218-224): the arms after each day and the procedures' verdicts on them. StagesAt, PeekingOutcomesAt and BayesOutcomesAt state them day by day.

## Left out

- Random sampling is replaced by explicit inputs. This covers `np.random.binomial`, `np.random.gamma`, `np.random.beta`, `sps.t.rvs` and `sps.norm.rvs`: these are calls into numpy and scipy and have no deductive content. The model only requires draws from the distributions' supports: at most `n` conversions, positive order values, and S posterior draws per arm.
- The source takes every draw from numpy's one global random stream. A stopped `BayesianFramework` returns at lines 140-141 without taking its 2·S·|arms| samples, so in the source the later days' binomial and Gamma values depend on whether it stopped. The model abstracts the shared stream: each day's draws are inputs, and every statement about the loop holds for all draws. So "the arms evolve as the draws alone dictate" is a statement about the model's inputs, not about numpy's stream.
- `proportions_ztest` is an oracle from the four counts to a p-value or an exception. Its numerics are statsmodels code.
- Bayesian.ValueModelOf: keeps the Student-t scale squared (`beta_k / (alpha_k n_k)`). The square root is a floating-point library call and is not modelled.
- Floating point: all arithmetic is on `real`. NaN p-values, overflow of numpy's integer counters and rounding in means and sums are not modelled.
- numpy's own parameter checks in `add_visitors` are not modelled. numpy raises for a conversion rate outside [0, 1] or for a negative Gamma shape or scale, which a negative `true_aov` produces. The model instead requires the draws to lie in the supports.
- Bayesian.BayesianCheck: the sample count is the engine's fixed S = 20000 (`Bayesian.DefaultSamples`). The degenerate S = 0, where pandas would average an empty column, is excluded. An empty dict is excluded too (`requires |d| > 0`, also on `Bayesian.BayesRule`). With no arms, the source builds an empty DataFrame, and `min` over the empty `expected_losses` raises `ValueError` at line 186. The day loop never reaches that call, because line 219 already divides by `len(variants)`, which `Simulation.RunSingleSimulation` models as a failure.
- The methodologies' display names ("Peeking (Proxy)", "Bayesian Framework") and the `log_daily` diagnostic log are presentation only.
- Simulation.RunSingleSimulation: returns the final arms and both procedures' states rather than the source's return value. The source's return statement is not part of this model.
- `run_multiple_simulations` and the aggregation of trials into summaries are not part of this model.
- tqdm progress reporting is presentation only.
- The case-study scripts (`run_case_study_1.py`, `run_case_study_2.py` and `run_case_study_3.py`) hold scenario literals and printing only.
- Statistical claims about scenario outcomes, such as false-positive rates, are probabilistic, not deductive.
