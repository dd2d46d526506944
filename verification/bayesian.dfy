/** The profit-driven Bayesian procedure (class `BayesianFramework`): a
    Beta-Binomial posterior for the conversion rate, a Normal-Inverse-Gamma
    posterior for the order value, revenue-per-visitor draws as their
    product, and an expected-loss stopping rule. The random draws themselves
    are supplied by a `Sampler`. */
module Bayesian {
  import opened Results
  import opened Stats
  import opened Variants
  import opened Methodology

  // Fixed prior of the order-value model: mean, pseudo-count, shape, scale.
  const PriorMean: real := 100.0
  const PriorCount: real := 1.0
  const PriorShape: real := 1.0
  const PriorScale: real := 1.0

  // The wide normal used for the order value with fewer than two conversions.
  const FallbackLoc: real := 100.0
  const FallbackScale: real := 50.0

  /** The Monte Carlo sample count the engine constructs the procedure with. */
  const DefaultSamples: nat := 20000

  /** Construction parameters: the loss threshold and the sample count S. */
  datatype Framework = Framework(epsilon: real, samples: nat)

  /** Beta(alpha, beta) posterior of the conversion rate. */
  datatype BetaParams = BetaParams(alpha: real, beta: real)

  /** Normal-Inverse-Gamma posterior parameters of the order value. */
  datatype NigParams = NigParams(muK: real, nK: real, alphaK: real, betaK: real)

  /** The distribution the order-value draws come from: the Student-t
      marginal of the posterior mean (its scale kept squared, since the
      square root is not modelled), or the wide fallback normal. */
  datatype ValueModel =
    | StudentT(df: real, loc: real, scaleSq: real)
    | WideNormal(loc: real, scale: real)

  /** Conjugate update of a flat Beta(1, 1) prior with the arm's binomial
      data. */
  function ConversionPosterior(v: Variant): (r: BetaParams)
    ensures r.alpha == 1.0 + v.conversions as real
    ensures r.alpha >= 1.0
    ensures r.alpha + r.beta == 2.0 + v.visitors as real
    ensures Wf(v) ==> r.beta >= 1.0
  {
    BetaParams(1.0 + v.conversions as real, 1.0 + (v.visitors as real - v.conversions as real))
  }

  /** The posterior mean of the conversion rate is pulled from the observed
      rate towards the prior mean 1/2, and stays strictly inside (0, 1). */
  lemma ConversionPosteriorShrinks(v: Variant)
    requires Wf(v) && v.visitors > 0
    ensures var b := ConversionPosterior(v);
      var pm := b.alpha / (b.alpha + b.beta);
      var rate := v.conversions as real / v.visitors as real;
      && 0.0 < pm < 1.0
      && ((rate <= pm <= 0.5) || (0.5 <= pm <= rate))
  {
    ShrinkTowardsHalf(v.conversions as real, v.visitors as real);
  }

  /** (1 + c) / (2 + n) lies strictly inside (0, 1) and between c / n and 1/2. */
  lemma ShrinkTowardsHalf(c: real, n: real)
    requires 0.0 <= c <= n && n > 0.0
    ensures var pm := (1.0 + c) / (2.0 + n);
      && 0.0 < pm < 1.0
      && ((c / n <= pm <= 0.5) || (0.5 <= pm <= c / n))
  {
    var pm := (1.0 + c) / (2.0 + n);
    var rate := c / n;
    QuotientTimesDivisor(1.0 + c, 2.0 + n);
    QuotientTimesDivisor(c, n);
    assert (2.0 * pm - 1.0) * (2.0 + n) == 2.0 * c - n;
    assert (rate - pm) * (n * (2.0 + n)) == 2.0 * c - n;
    FactorSign(2.0 * pm - 1.0, 2.0 + n);
    FactorSign(rate - pm, n * (2.0 + n));
    FactorSign(pm, 2.0 + n);
    FactorSign(1.0 - pm, 2.0 + n);
    assert (1.0 - pm) * (2.0 + n) == 1.0 + n - c;
  }

  /** The sign of a product with a positive factor is the sign of the other
      factor. */
  lemma FactorSign(a: real, b: real)
    requires b > 0.0
    ensures a * b > 0.0 ==> a > 0.0
    ensures a * b < 0.0 ==> a < 0.0
    ensures a * b == 0.0 ==> a == 0.0
  {
  }

  /** Normal-Inverse-Gamma update of the fixed prior with the `k >= 2`
      recorded order values, through their mean and squared deviations. */
  function ValuePosterior(v: Variant): (r: NigParams)
    requires Wf(v) && v.conversions > 1
    ensures r.nK == PriorCount + v.conversions as real
    ensures 2.0 * r.alphaK == 2.0 + v.conversions as real
    ensures r.nK * r.muK == PriorCount * PriorMean + v.conversions as real * Mean(v.conversionRevenues)
    ensures (PriorMean <= r.muK <= Mean(v.conversionRevenues)) || (Mean(v.conversionRevenues) <= r.muK <= PriorMean)
    ensures r.muK > 0.0
    ensures r.betaK >= PriorScale + 0.5 * SquaredDeviations(v.conversionRevenues, Mean(v.conversionRevenues))
    ensures r.betaK >= 1.0
  {
    var k := v.conversions as real;
    var xBar := Mean(v.conversionRevenues);
    var ssd := SquaredDeviations(v.conversionRevenues, xBar);
    SquaredDeviationsNonNegative(v.conversionRevenues, xBar);
    var muK := (PriorCount * PriorMean + k * xBar) / (PriorCount + k);
    var nK := PriorCount + k;
    var alphaK := PriorShape + k / 2.0;
    var gap := xBar - PriorMean;
    var betaK := PriorScale + 0.5 * ssd + (k * PriorCount / (PriorCount + k)) * 0.5 * (gap * gap);
    PosteriorMeanBetween(k, xBar);
    ShrinkageTermNonNegative(k, gap);
    NigParams(muK, nK, alphaK, betaK)
  }

  /** The posterior mean (100 + k xBar) / (1 + k) is a weighted average of
      the prior mean and the sample mean. */
  lemma PosteriorMeanBetween(k: real, xBar: real)
    requires k > 0.0 && xBar > 0.0
    ensures var muK := (PriorCount * PriorMean + k * xBar) / (PriorCount + k);
      && muK * (PriorCount + k) == PriorCount * PriorMean + k * xBar
      && ((PriorMean <= muK <= xBar) || (xBar <= muK <= PriorMean))
      && muK > 0.0
  {
    var nK := PriorCount + k;
    var muK := (PriorCount * PriorMean + k * xBar) / nK;
    QuotientTimesDivisor(PriorCount * PriorMean + k * xBar, nK);
    assert (muK - PriorMean) * nK == k * (xBar - PriorMean);
    assert (xBar - muK) * nK == xBar - PriorMean;
    FactorSign(muK - PriorMean, nK);
    FactorSign(xBar - muK, nK);
    FactorSign(muK, nK);
    FactorSign(xBar - PriorMean, k);
  }

  /** The shrinkage term k n0 / (n0 + k) (xBar - mu0)^2 / 2 of beta_k is never
      negative. */
  lemma ShrinkageTermNonNegative(k: real, gap: real)
    requires k > 0.0
    ensures (k * PriorCount / (PriorCount + k)) * 0.5 * (gap * gap) >= 0.0
  {
    QuotientNonNegative(k * PriorCount, PriorCount + k);
    assert gap * gap >= 0.0;
  }

  /** The order-value posterior the draws come from: the Student-t marginal
      with `df = 2 alpha_k`, location `mu_k` and squared scale
      `beta_k / (alpha_k n_k)` when there are at least two conversions,
      otherwise the wide normal centred at 100. */
  function ValueModelOf(v: Variant): (r: ValueModel)
    requires Wf(v)
    ensures r.StudentT? <==> v.conversions > 1
    ensures r.StudentT? ==> r.df > 3.0 && r.loc > 0.0 && r.scaleSq > 0.0
    ensures r.StudentT? ==>
      var p := ValuePosterior(v);
      && r.df == 2.0 * p.alphaK
      && r.loc == p.muK
      && r.scaleSq * (p.alphaK * p.nK) == p.betaK
    ensures r.WideNormal? ==> r.loc == FallbackLoc && r.scale == FallbackScale
  {
    if v.conversions > 1 then
      var p := ValuePosterior(v);
      QuotientTimesDivisor(p.betaK, p.alphaK * p.nK);
      StudentT(2.0 * p.alphaK, p.muK, p.betaK / (p.alphaK * p.nK))
    else
      WideNormal(FallbackLoc, FallbackScale)
  }

  /** S draws of the conversion rate and S draws of the order value. */
  datatype Draws = Draws(conv: seq<real>, value: seq<real>)

  /** The random source: for the arm at a dictionary position and its two
      posteriors, the draws taken from them. */
  type Sampler = (nat, BetaParams, ValueModel) -> Draws

  /** Every call of the sampler yields S draws of each kind. */
  ghost predicate SamplerShape(sample: Sampler, samples: nat) {
    forall i, b, m :: |sample(i, b, m).conv| == samples && |sample(i, b, m).value| == samples
  }

  /** The draws for the arm at position `j`, from its own posteriors. */
  function DrawsOf(d: seq<Variant>, sample: Sampler, j: nat): Draws
    requires j < |d| && AllWf(d)
  {
    sample(j, ConversionPosterior(d[j]), ValueModelOf(d[j]))
  }

  /** `rows` rows of `cols` reals each. */
  predicate IsMatrix(m: seq<seq<real>>, rows: nat, cols: nat) {
    |m| == rows && forall s :: 0 <= s < |m| ==> |m[s]| == cols
  }

  /** The S x |arms| matrix of revenue-per-visitor draws: row `s`, column `j`
      is the product of arm `j`'s `s`-th conversion-rate draw and `s`-th
      order-value draw (the DataFrame of `rpd_samples`). */
  function RpvMatrix(d: seq<Variant>, sample: Sampler, samples: nat): (m: seq<seq<real>>)
    requires AllWf(d) && SamplerShape(sample, samples)
    ensures IsMatrix(m, samples, |d|)
    ensures forall s, j :: 0 <= s < samples && 0 <= j < |d| ==>
      m[s][j] == DrawsOf(d, sample, j).conv[s] * DrawsOf(d, sample, j).value[s]
  {
    seq(samples, s requires 0 <= s < samples =>
      seq(|d|, j requires 0 <= j < |d| =>
        DrawsOf(d, sample, j).conv[s] * DrawsOf(d, sample, j).value[s]))
  }

  /** Loss of choosing arm `j` on one draw: the shortfall from that draw's
      best arm. Never negative, and zero exactly for an arm attaining the
      draw's maximum. */
  function Loss(row: seq<real>, j: nat): (r: real)
    requires j < |row|
    ensures r >= 0.0
    ensures r == 0.0 <==> forall k :: 0 <= k < |row| ==> row[k] <= row[j]
  {
    RowMax(row) - row[j]
  }

  /** Per-draw losses of arm `j` over all rows: one per draw, never
      negative, and zero on exactly the draws where arm `j` is best. */
  function LossColumn(m: seq<seq<real>>, cols: nat, j: nat): (c: seq<real>)
    requires IsMatrix(m, |m|, cols) && j < cols
    ensures |c| == |m|
    ensures forall s :: 0 <= s < |m| ==> c[s] >= 0.0
    ensures forall s :: 0 <= s < |m| ==> (c[s] == 0.0 <==> forall k :: 0 <= k < cols ==> m[s][k] <= m[s][j])
  {
    seq(|m|, s requires 0 <= s < |m| => Loss(m[s], j))
  }

  /** Expected loss of arm `j`: the mean of its per-draw losses, so never
      negative. */
  function ExpectedLoss(m: seq<seq<real>>, cols: nat, j: nat): (r: real)
    requires |m| > 0 && IsMatrix(m, |m|, cols) && j < cols
    ensures r >= 0.0
    ensures r * |m| as real == Sum(LossColumn(m, cols, j))
  {
    var c := LossColumn(m, cols, j);
    SumNonNegative(c);
    QuotientNonNegative(Sum(c), |m| as real);
    QuotientTimesDivisor(Sum(c), |m| as real);
    Sum(c) / |m| as real
  }

  /** Zero expected loss means being the best arm on every single draw, and
      conversely. */
  lemma ExpectedLossZeroIff(m: seq<seq<real>>, cols: nat, j: nat)
    requires |m| > 0 && IsMatrix(m, |m|, cols) && j < cols
    ensures ExpectedLoss(m, cols, j) == 0.0 <==>
      forall s, k :: 0 <= s < |m| && 0 <= k < cols ==> m[s][k] <= m[s][j]
  {
    var c := LossColumn(m, cols, j);
    var r := ExpectedLoss(m, cols, j);
    FactorSign(r, |m| as real);
    assert r == 0.0 <==> Sum(c) == 0.0;
    SumZeroIff(c);
    if r == 0.0 {
      forall s, k | 0 <= s < |m| && 0 <= k < cols
        ensures m[s][k] <= m[s][j]
      {
        assert c[s] == 0.0;
        assert Loss(m[s], j) == 0.0;
      }
    }
    if forall s, k :: 0 <= s < |m| && 0 <= k < cols ==> m[s][k] <= m[s][j] {
      forall s | 0 <= s < |m|
        ensures c[s] == 0.0
      {
        assert forall k :: 0 <= k < |m[s]| ==> m[s][k] <= m[s][j];
        assert Loss(m[s], j) == 0.0;
      }
    }
  }

  /** The expected loss of every arm, in dictionary order: never negative,
      and zero exactly for an arm that is best on every draw. */
  function ExpectedLosses(m: seq<seq<real>>, cols: nat): (ls: seq<real>)
    requires |m| > 0 && IsMatrix(m, |m|, cols)
    ensures |ls| == cols
    ensures forall j :: 0 <= j < cols ==> ls[j] == ExpectedLoss(m, cols, j)
    ensures forall j :: 0 <= j < cols ==> ls[j] >= 0.0
    ensures forall j :: 0 <= j < cols ==>
      (ls[j] == 0.0 <==> forall s, k :: 0 <= s < |m| && 0 <= k < cols ==> m[s][k] <= m[s][j])
  {
    var ls := seq(cols, j requires 0 <= j < cols => ExpectedLoss(m, cols, j));
    assert forall j :: 0 <= j < cols ==>
      (ls[j] == 0.0 <==> forall s, k :: 0 <= s < |m| && 0 <= k < cols ==> m[s][k] <= m[s][j])
    by {
      forall j | 0 <= j < cols
        ensures ls[j] == 0.0 <==> forall s, k :: 0 <= s < |m| && 0 <= k < cols ==> m[s][k] <= m[s][j]
      {
        ExpectedLossZeroIff(m, cols, j);
      }
    }
    ls
  }

  /** Arm `i` is where Python's `min` lands: its expected loss is minimal
      and every earlier arm's is strictly larger. */
  predicate IsFirstMinLoss(m: seq<seq<real>>, cols: nat, i: int)
    requires |m| > 0 && IsMatrix(m, |m|, cols)
  {
    && 0 <= i < cols
    && (forall j :: 0 <= j < cols ==> ExpectedLoss(m, cols, i) <= ExpectedLoss(m, cols, j))
    && (forall j :: 0 <= j < i ==> ExpectedLoss(m, cols, j) > ExpectedLoss(m, cols, i))
  }

  /** Python's `min` lands on one arm only. */
  lemma FirstMinLossUnique(m: seq<seq<real>>, cols: nat, i: int)
    requires |m| > 0 && IsMatrix(m, |m|, cols) && IsFirstMinLoss(m, cols, i)
    ensures forall i' :: IsFirstMinLoss(m, cols, i') ==> i' == i
  {
    forall i' | IsFirstMinLoss(m, cols, i')
      ensures i' == i
    {
      assert ExpectedLoss(m, cols, i) <= ExpectedLoss(m, cols, i');
      assert ExpectedLoss(m, cols, i') <= ExpectedLoss(m, cols, i);
    }
  }

  /** The conclusion for the arm with the minimum expected loss. */
  function DecisionFor(name: string): Decision {
    if name == ControlName then Futility else Winner(name)
  }

  /** The stopping rule over a matrix of draws: stop exactly when some arm's
      expected loss is below epsilon; the conclusion concerns the first arm
      of minimum expected loss, futility when it is the control. */
  function BayesRule(epsilon: real, d: seq<Variant>, m: seq<seq<real>>): (r: Option<Decision>)
    requires |d| > 0 && |m| > 0 && IsMatrix(m, |m|, |d|)
    ensures r.Some? <==> exists j :: 0 <= j < |d| && ExpectedLoss(m, |d|, j) < epsilon
    ensures r.Some? ==>
      exists i :: IsFirstMinLoss(m, |d|, i) && r.value == DecisionFor(d[i].name)
    ensures r.Some? ==> (r.value == Futility <==> exists i :: IsFirstMinLoss(m, |d|, i) && d[i].name == ControlName)
  {
    var losses := ExpectedLosses(m, |d|);
    var i := FirstArgMin(losses);
    assert IsFirstMinLoss(m, |d|, i);
    FirstMinLossUnique(m, |d|, i);
    if losses[i] < epsilon then Some(DecisionFor(d[i].name)) else None
  }

  /** `BayesianFramework.run_check(day)` with the day's sampler. */
  function BayesianCheck(f: Framework, s: MethodState, d: seq<Variant>, day: int, sample: Sampler): (r: MethodState)
    requires AllWf(d) && |d| > 0 && f.samples > 0 && SamplerShape(sample, f.samples)
    ensures s.isStopped ==> r == s
    ensures !r.isStopped ==> r == s
    ensures !s.isStopped ==>
      (r.isStopped <==> exists j :: 0 <= j < |d| && ExpectedLoss(RpvMatrix(d, sample, f.samples), |d|, j) < f.epsilon)
    ensures !s.isStopped && r.isStopped ==> r.stopDay == day && r.decision != TimedOut
    ensures !s.isStopped && r.isStopped ==>
      Some(r.decision) == BayesRule(f.epsilon, d, RpvMatrix(d, sample, f.samples))
  {
    Conclude(s, BayesRule(f.epsilon, d, RpvMatrix(d, sample, f.samples)), day)
  }

  /** With a single arm every loss is zero, so any positive epsilon stops
      the procedure at the first check; the lone arm is the control exactly
      when the conclusion is futility. */
  lemma LoneArmConcludes(epsilon: real, d: seq<Variant>, m: seq<seq<real>>)
    requires |d| == 1 && |m| > 0 && IsMatrix(m, |m|, 1)
    requires epsilon > 0.0
    ensures BayesRule(epsilon, d, m) == Some(DecisionFor(d[0].name))
  {
    ExpectedLossZeroIff(m, 1, 0);
    assert ExpectedLoss(m, 1, 0) == 0.0;
  }
}
