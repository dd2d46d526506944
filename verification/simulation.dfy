/** One end-to-end trial (`Simulation.run_single_simulation`): build the
    arms from the configuration, then for each day split the visitor budget
    evenly, grow every arm, and run the peeking check followed by the
    Bayesian check on the same arms. All randomness of a day is carried by
    its `DayDraws`. */
module Simulation {
  import opened Results
  import opened Seqs
  import opened Variants
  import opened Methodology
  import opened Peeking
  import opened Bayesian

  /** A scenario: its name, the arms' ground truth in order, the daily
      visitor budget and the Bayesian loss threshold. */
  datatype Config = Config(
    name: string,
    variants: seq<VariantConfig>,
    dailyTotalVisitors: nat,
    epsilon: real)

  /** Everything random about one day: the order values drawn for each arm
      (in configuration order; their count is the day's conversions) and the
      sampler the Bayesian check draws its posterior samples from. */
  datatype DayDraws = DayDraws(arrivals: seq<seq<real>>, sample: Sampler)

  /** The arms and the state of both procedures. */
  datatype Trial = Trial(variants: seq<Variant>, peeking: MethodState, bayesian: MethodState)

  /** Visitors each arm receives per day: the budget floor-divided by the
      number of arms, so at most `|arms| - 1` visitors of the budget go
      unused. */
  function DailyVisitors(c: Config): (n: nat)
    requires |c.variants| > 0
    ensures n * |c.variants| <= c.dailyTotalVisitors < (n + 1) * |c.variants|
  {
    c.dailyTotalVisitors / |c.variants|
  }

  /** `[Variant(**v) for v in config['variants']]`: fails when any arm's
      construction fails, and otherwise yields each arm, in order, freshly
      constructed from its configuration. */
  function BuildVariants(cs: seq<VariantConfig>): (r: Result<seq<Variant>, InitError>)
    ensures r.Success? <==> forall i :: 0 <= i < |cs| ==> NewVariant(cs[i]).Success?
    ensures r.Success? ==> |r.value| == |cs|
    ensures r.Success? ==> forall i :: 0 <= i < |cs| ==> r.value[i] == NewVariant(cs[i]).value
    decreases |cs|
  {
    if |cs| == 0 then Success([])
    else match NewVariant(cs[0])
      case Failure(e) => Failure(e)
      case Success(v) =>
        match BuildVariants(cs[1..])
        case Failure(e) =>
          assert forall i :: 1 <= i < |cs| ==> cs[1..][i - 1] == cs[i];
          Failure(e)
        case Success(rest) =>
          assert forall i :: 1 <= i < |cs| ==> cs[1..][i - 1] == cs[i];
          Success([v] + rest)
  }

  /** One day's arrivals: every arm, in order, gets `n` visitors and the
      conversions of its own draw. Draws from the distributions' supports
      keep every arm's data invariant. */
  function Grow(vs: seq<Variant>, n: nat, arrivals: seq<seq<real>>): (ws: seq<Variant>)
    requires |arrivals| == |vs|
    ensures |ws| == |vs|
    ensures forall i :: 0 <= i < |vs| ==>
      && ws[i].name == vs[i].name
      && ws[i].visitors == vs[i].visitors + n
      && ws[i].conversions == vs[i].conversions + |arrivals[i]|
      && ws[i].conversionRevenues == vs[i].conversionRevenues + arrivals[i]
    ensures AllWf(vs) && (forall i :: 0 <= i < |vs| ==> ArrivalDraw(n, arrivals[i])) ==> AllWf(ws)
  {
    var ws := seq(|vs|, i requires 0 <= i < |vs| => AddVisitors(vs[i], n, arrivals[i]));
    assert AllWf(vs) && (forall i :: 0 <= i < |vs| ==> ArrivalDraw(n, arrivals[i])) ==> AllWf(ws) by {
      if AllWf(vs) && (forall i :: 0 <= i < |vs| ==> ArrivalDraw(n, arrivals[i])) {
        forall i | 0 <= i < |vs|
          ensures Wf(ws[i])
        {
          AddVisitorsKeepsWf(vs[i], n, arrivals[i]);
        }
      }
    }
    ws
  }

  /** The day's draws come from the supports of their distributions and
      match the number of arms and the sample count. */
  ghost predicate DrawsFit(dd: DayDraws, arms: nat, daily: nat) {
    && |dd.arrivals| == arms
    && (forall i :: 0 <= i < arms ==> ArrivalDraw(daily, dd.arrivals[i]))
    && SamplerShape(dd.sample, DefaultSamples)
  }

  /** One iteration of the day loop: growth first, then the peeking check,
      then the Bayesian check, both on the same grown arms. */
  function RunDay(cfg: Config, t: Trial, day: int, dd: DayDraws, ztest: ZTestOracle): (r: Trial)
    requires |cfg.variants| > 0 && |t.variants| == |cfg.variants| && AllWf(t.variants)
    requires DrawsFit(dd, |t.variants|, DailyVisitors(cfg))
    ensures |r.variants| == |t.variants| && AllWf(r.variants)
    ensures forall i :: 0 <= i < |t.variants| ==>
      && r.variants[i].name == t.variants[i].name
      && r.variants[i].visitors == t.variants[i].visitors + DailyVisitors(cfg)
    ensures r.variants == Grow(t.variants, DailyVisitors(cfg), dd.arrivals)
    ensures r.peeking == PeekingCheck(t.peeking, DictOf(r.variants), day, ztest)
    ensures r.bayesian
         == BayesianCheck(Framework(cfg.epsilon, DefaultSamples), t.bayesian, DictOf(r.variants), day, dd.sample)
    ensures t.peeking.isStopped ==> r.peeking == t.peeking
    ensures t.bayesian.isStopped ==> r.bayesian == t.bayesian
    ensures day >= 1 && Reachable(t.peeking, day - 1) ==> Reachable(r.peeking, day)
    ensures day >= 1 && Reachable(t.bayesian, day - 1) ==> Reachable(r.bayesian, day)
  {
    var vs := Grow(t.variants, DailyVisitors(cfg), dd.arrivals);
    var d := DictOf(vs);
    Trial(
      vs,
      PeekingCheck(t.peeking, d, day, ztest),
      BayesianCheck(Framework(cfg.epsilon, DefaultSamples), t.bayesian, d, day, dd.sample))
  }

  ghost predicate AllDrawsFit(draws: seq<DayDraws>, arms: nat, daily: nat) {
    forall k :: 0 <= k < |draws| ==> DrawsFit(draws[k], arms, daily)
  }

  /** The arms can be grown by these days' draws: they satisfy the data
      invariant, and every day's draws fit them and the daily share `n`. */
  ghost predicate CanGrow(vs: seq<Variant>, n: nat, draws: seq<DayDraws>) {
    AllWf(vs) && AllDrawsFit(draws, |vs|, n)
  }

  /** The arms after the arrivals of the given days. With the draws given
      as inputs, growth reads nothing the procedures decide, so the arms'
      history is this function of the draws alone. */
  function GrowDays(vs: seq<Variant>, n: nat, draws: seq<DayDraws>): (ws: seq<Variant>)
    requires CanGrow(vs, n, draws)
    ensures |ws| == |vs| && AllWf(ws)
    ensures forall i :: 0 <= i < |vs| ==> ws[i].name == vs[i].name
    decreases |draws|
  {
    if |draws| == 0 then vs
    else
      var vs1 := Grow(vs, n, draws[0].arrivals);
      AllDrawsFitTail(draws, |vs|, n);
      GrowDays(vs1, n, draws[1..])
  }

  lemma AllDrawsFitTail(draws: seq<DayDraws>, arms: nat, daily: nat)
    requires |draws| > 0 && AllDrawsFit(draws, arms, daily)
    ensures AllDrawsFit(draws[1..], arms, daily)
  {
    forall k | 0 <= k < |draws[1..]|
      ensures DrawsFit(draws[1..][k], arms, daily)
    {
      assert draws[1..][k] == draws[k + 1];
    }
  }

  /** Each day adds exactly the daily share to every arm's visitors, and
      conversions never overtake visitors. */
  lemma {:induction false} GrowDaysVisitors(vs: seq<Variant>, n: nat, draws: seq<DayDraws>)
    requires CanGrow(vs, n, draws)
    ensures forall i :: 0 <= i < |vs| ==>
      && GrowDays(vs, n, draws)[i].visitors == vs[i].visitors + |draws| * n
      && GrowDays(vs, n, draws)[i].conversions <= GrowDays(vs, n, draws)[i].visitors
    decreases |draws|
  {
    if |draws| > 0 {
      var vs1 := Grow(vs, n, draws[0].arrivals);
      AllDrawsFitTail(draws, |vs|, n);
      GrowDaysVisitors(vs1, n, draws[1..]);
      assert |draws| * n == n + |draws[1..]| * n;
    }
  }

  /** The arms as each day's checks see them: entry `k` holds the arms after
      the arrivals of days `0..k`, that day's included. */
  function Stages(vs: seq<Variant>, n: nat, draws: seq<DayDraws>): (ss: seq<seq<Variant>>)
    requires CanGrow(vs, n, draws)
    ensures |ss| == |draws|
    ensures forall k :: 0 <= k < |ss| ==> |ss[k]| == |vs| && AllWf(ss[k])
    decreases |draws|
  {
    if |draws| == 0 then []
    else
      var vs1 := Grow(vs, n, draws[0].arrivals);
      AllDrawsFitTail(draws, |vs|, n);
      var rest := Stages(vs1, n, draws[1..]);
      assert forall k :: 1 <= k <= |rest| ==> ([vs1] + rest)[k] == rest[k - 1];
      [vs1] + rest
  }

  /** Day `k`'s arms are those grown by the first `k + 1` days: the checks of
      a day come after that day's arrivals. */
  lemma {:induction false} StagesAt(vs: seq<Variant>, n: nat, draws: seq<DayDraws>, k: nat)
    requires CanGrow(vs, n, draws) && k < |draws|
    ensures AllDrawsFit(draws[..k + 1], |vs|, n)
    ensures Stages(vs, n, draws)[k] == GrowDays(vs, n, draws[..k + 1])
    decreases k
  {
    var vs1 := Grow(vs, n, draws[0].arrivals);
    GrowDaysPrefix(vs, n, draws, k);
    AllDrawsFitTail(draws, |vs|, n);
    var rest := Stages(vs1, n, draws[1..]);
    assert Stages(vs, n, draws) == [vs1] + rest;
    if k == 0 {
      assert GrowDays(vs1, n, draws[1..][..k]) == vs1;
    } else {
      StagesAt(vs1, n, draws[1..], k - 1);
      ConsIndex(vs1, rest, k);
    }
  }

  /** Growth over the first `k + 1` days is the first day's growth followed
      by growth over the next `k` days. */
  lemma GrowDaysPrefix(vs: seq<Variant>, n: nat, draws: seq<DayDraws>, k: nat)
    requires CanGrow(vs, n, draws) && k < |draws|
    ensures AllDrawsFit(draws[..k + 1], |vs|, n)
    ensures AllWf(Grow(vs, n, draws[0].arrivals))
    ensures AllDrawsFit(draws[1..][..k], |vs|, n)
    ensures GrowDays(vs, n, draws[..k + 1])
         == GrowDays(Grow(vs, n, draws[0].arrivals), n, draws[1..][..k])
  {
    AllDrawsFitPrefix(draws, |vs|, n, k + 1);
    AllDrawsFitTail(draws, |vs|, n);
    AllDrawsFitPrefix(draws[1..], |vs|, n, k);
    assert draws[..k + 1][0] == draws[0];
    assert draws[..k + 1][1..] == draws[1..][..k];
  }

  /** The peeking rule's verdict on each day, on that day's arms through
      the name-keyed dict. */
  function PeekingOutcomes(vs: seq<Variant>, n: nat, draws: seq<DayDraws>, ztest: ZTestOracle)
    : (os: seq<Option<Decision>>)
    requires CanGrow(vs, n, draws)
    ensures |os| == |draws|
    decreases |draws|
  {
    if |draws| == 0 then []
    else
      var vs1 := Grow(vs, n, draws[0].arrivals);
      AllDrawsFitTail(draws, |vs|, n);
      [PeekingRule(DictOf(vs1), ztest)] + PeekingOutcomes(vs1, n, draws[1..], ztest)
  }

  /** The peeking rule as a function of one day's arms. */
  function PeekingOn(ztest: ZTestOracle): seq<Variant> --> Option<Decision> {
    (ws: seq<Variant>) requires AllWf(ws) => PeekingRule(DictOf(ws), ztest)
  }

  /** The peeking verdicts are the rule mapped over the days' arms. */
  lemma {:induction false} PeekingOutcomesAsMap(vs: seq<Variant>, n: nat, draws: seq<DayDraws>, ztest: ZTestOracle)
    requires CanGrow(vs, n, draws)
    ensures PeekingOutcomes(vs, n, draws, ztest) == MapSeq(Stages(vs, n, draws), PeekingOn(ztest))
    decreases |draws|
  {
    if |draws| > 0 {
      var vs1 := Grow(vs, n, draws[0].arrivals);
      AllDrawsFitTail(draws, |vs|, n);
      var ss1 := Stages(vs1, n, draws[1..]);
      assert Stages(vs, n, draws) == [vs1] + ss1;
      PeekingOutcomesAsMap(vs1, n, draws[1..], ztest);
      MapSeqCons(vs1, ss1, PeekingOn(ztest));
    }
  }

  /** Day `k`'s peeking verdict is the rule applied to the dict of the arms
      grown by days `0..k`, that day's growth included. */
  lemma PeekingOutcomesAt(vs: seq<Variant>, n: nat, draws: seq<DayDraws>, ztest: ZTestOracle, k: nat)
    requires CanGrow(vs, n, draws) && k < |draws|
    ensures AllDrawsFit(draws[..k + 1], |vs|, n)
    ensures PeekingOutcomes(vs, n, draws, ztest)[k]
         == PeekingRule(DictOf(GrowDays(vs, n, draws[..k + 1])), ztest)
  {
    PeekingOutcomesAsMap(vs, n, draws, ztest);
    StagesAt(vs, n, draws, k);
  }

  /** The Bayesian rule's verdict on grown arms `ws`: the rule applied to
      the RPV table the sampler draws from the dict of `ws`. */
  function BayesVerdict(epsilon: real, ws: seq<Variant>, sample: Sampler): Option<Decision>
    requires |ws| > 0 && AllWf(ws) && SamplerShape(sample, DefaultSamples)
  {
    var d := DictOf(ws);
    BayesRule(epsilon, d, RpvMatrix(d, sample, DefaultSamples))
  }

  /** The Bayesian rule's verdict on each day, on that day's arms and with
      that day's sampler. */
  function BayesOutcomes(epsilon: real, vs: seq<Variant>, n: nat, draws: seq<DayDraws>)
    : (os: seq<Option<Decision>>)
    requires |vs| > 0 && CanGrow(vs, n, draws)
    ensures |os| == |draws|
    decreases |draws|
  {
    if |draws| == 0 then []
    else
      var vs1 := Grow(vs, n, draws[0].arrivals);
      AllDrawsFitTail(draws, |vs|, n);
      [BayesVerdict(epsilon, vs1, draws[0].sample)] + BayesOutcomes(epsilon, vs1, n, draws[1..])
  }

  /** The Bayesian rule as a function of one day's arms and draws. */
  function BayesOn(epsilon: real): ((seq<Variant>, DayDraws)) --> Option<Decision> {
    (p: (seq<Variant>, DayDraws)) requires |p.0| > 0 && AllWf(p.0) && SamplerShape(p.1.sample, DefaultSamples) =>
      BayesVerdict(epsilon, p.0, p.1.sample)
  }

  /** The Bayesian verdicts are the rule mapped over the days' arms paired
      with the days' draws. */
  lemma {:induction false} BayesOutcomesAsMap(epsilon: real, vs: seq<Variant>, n: nat, draws: seq<DayDraws>)
    requires |vs| > 0 && CanGrow(vs, n, draws)
    ensures BayesOutcomes(epsilon, vs, n, draws) == MapSeq(Zip(Stages(vs, n, draws), draws), BayesOn(epsilon))
    decreases |draws|
  {
    if |draws| > 0 {
      var vs1 := Grow(vs, n, draws[0].arrivals);
      AllDrawsFitTail(draws, |vs|, n);
      var ss1 := Stages(vs1, n, draws[1..]);
      assert Stages(vs, n, draws) == [vs1] + ss1;
      ZipCons(vs1, ss1, draws);
      BayesOutcomesAsMap(epsilon, vs1, n, draws[1..]);
      MapSeqCons((vs1, draws[0]), Zip(ss1, draws[1..]), BayesOn(epsilon));
    }
  }

  /** Day `k`'s Bayesian verdict is the rule applied to that day's RPV
      table, sampled from the dict of the arms grown by days `0..k`. */
  lemma BayesOutcomesAt(epsilon: real, vs: seq<Variant>, n: nat, draws: seq<DayDraws>, k: nat)
    requires |vs| > 0 && CanGrow(vs, n, draws) && k < |draws|
    ensures AllDrawsFit(draws[..k + 1], |vs|, n)
    ensures BayesOutcomes(epsilon, vs, n, draws)[k]
         == BayesVerdict(epsilon, GrowDays(vs, n, draws[..k + 1]), draws[k].sample)
  {
    BayesOutcomesAsMap(epsilon, vs, n, draws);
    StagesAt(vs, n, draws, k);
  }

  lemma AllDrawsFitPrefix(draws: seq<DayDraws>, arms: nat, daily: nat, k: nat)
    requires k <= |draws| && AllDrawsFit(draws, arms, daily)
    ensures AllDrawsFit(draws[..k], arms, daily)
  {
    forall j | 0 <= j < k
      ensures DrawsFit(draws[..k][j], arms, daily)
    {
      assert draws[..k][j] == draws[j];
    }
  }

  /** The days `firstDay`, `firstDay + 1`, ... one per element of `draws`.
      The arms end as the draws alone grow them, and each procedure's state
      stays reachable. */
  function RunDays(cfg: Config, t: Trial, firstDay: int, draws: seq<DayDraws>, ztest: ZTestOracle): (r: Trial)
    requires |cfg.variants| > 0 && |t.variants| == |cfg.variants|
    requires CanGrow(t.variants, DailyVisitors(cfg), draws)
    ensures r.variants == GrowDays(t.variants, DailyVisitors(cfg), draws)
    ensures r.peeking
         == RunChecks(t.peeking, PeekingOutcomes(t.variants, DailyVisitors(cfg), draws, ztest), firstDay)
    ensures r.bayesian
         == RunChecks(t.bayesian, BayesOutcomes(cfg.epsilon, t.variants, DailyVisitors(cfg), draws), firstDay)
    ensures firstDay >= 1 && Reachable(t.peeking, firstDay - 1) ==>
      Reachable(r.peeking, firstDay - 1 + |draws|)
    ensures firstDay >= 1 && Reachable(t.bayesian, firstDay - 1) ==>
      Reachable(r.bayesian, firstDay - 1 + |draws|)
    decreases |draws|
  {
    if |draws| == 0 then t
    else
      var t1 := RunDay(cfg, t, firstDay, draws[0], ztest);
      AllDrawsFitTail(draws, |t.variants|, DailyVisitors(cfg));
      RunDays(cfg, t1, firstDay + 1, draws[1..], ztest)
  }

  /** `run_single_simulation(max_days)` for `max(max_days, 0)` days with the
      given draws. It fails exactly when some arm cannot be constructed, or
      when there are no arms and at least one day, whose visitor split then
      divides by zero. Otherwise the arms are the constructed arms grown by
      every day's arrivals, each procedure's state is its initial state run
      through that procedure's daily verdicts, and each is either still
      timed out or stopped on one of the simulated days. */
  function RunSingleSimulation(cfg: Config, maxDays: int, ztest: ZTestOracle, draws: seq<DayDraws>)
    : (r: Result<Trial, InitError>)
    requires |draws| == if maxDays > 0 then maxDays else 0
    requires |cfg.variants| > 0 ==> AllDrawsFit(draws, |cfg.variants|, DailyVisitors(cfg))
    ensures r.Failure? <==>
      || (exists i :: 0 <= i < |cfg.variants| && NewVariant(cfg.variants[i]).Failure?)
      || (|cfg.variants| == 0 && maxDays > 0)
    ensures r.Success? && |cfg.variants| == 0 ==> r.value == Trial([], Initial, Initial)
    ensures r.Success? && |cfg.variants| > 0 ==>
      && BuildVariants(cfg.variants).Success?
      && r.value.variants == GrowDays(BuildVariants(cfg.variants).value, DailyVisitors(cfg), draws)
      && r.value.peeking
         == RunChecks(Initial, PeekingOutcomes(BuildVariants(cfg.variants).value, DailyVisitors(cfg), draws, ztest), 1)
      && r.value.bayesian
         == RunChecks(Initial, BayesOutcomes(cfg.epsilon, BuildVariants(cfg.variants).value, DailyVisitors(cfg), draws), 1)
      && Reachable(r.value.peeking, |draws|)
      && Reachable(r.value.bayesian, |draws|)
  {
    match BuildVariants(cfg.variants)
    case Failure(e) => Failure(e)
    case Success(vs) =>
      if |vs| == 0 then
        if |draws| > 0 then Failure(ZeroDivision) else Success(Trial([], Initial, Initial))
      else
        Success(RunDays(cfg, Trial(vs, Initial, Initial), 1, draws, ztest))
  }

  /** Ending the day loop as soon as both procedures have concluded, after
      the days `done`, gives the same decisions and stop days as running the
      remaining days `rest` as well. */
  lemma {:induction false} EarlyExitIsUnobservable(
    cfg: Config, t: Trial, firstDay: int, done: seq<DayDraws>, rest: seq<DayDraws>, ztest: ZTestOracle)
    requires |cfg.variants| > 0 && |t.variants| == |cfg.variants|
    requires CanGrow(t.variants, DailyVisitors(cfg), done)
    requires CanGrow(t.variants, DailyVisitors(cfg), done + rest)
    requires RunDays(cfg, t, firstDay, done, ztest).peeking.isStopped
    requires RunDays(cfg, t, firstDay, done, ztest).bayesian.isStopped
    ensures RunDays(cfg, t, firstDay, done + rest, ztest).peeking == RunDays(cfg, t, firstDay, done, ztest).peeking
    ensures RunDays(cfg, t, firstDay, done + rest, ztest).bayesian == RunDays(cfg, t, firstDay, done, ztest).bayesian
    decreases |done|
  {
    if |done| == 0 {
      assert done + rest == rest by { ConcatEmpty(done, rest); }
    } else {
      ConcatTail(done, rest);
      var t1 := RunDay(cfg, t, firstDay, done[0], ztest);
      AllDrawsFitTail(done, |t.variants|, DailyVisitors(cfg));
      AllDrawsFitTail(done + rest, |t.variants|, DailyVisitors(cfg));
      EarlyExitIsUnobservable(cfg, t1, firstDay + 1, done[1..], rest, ztest);
    }
  }
}
