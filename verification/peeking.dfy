/** The repeated significance test on conversion rate (class
    `PeekingProxyMethod`): every day, compare each challenger with the
    control `A` and stop at the first one whose one-sided z-test p-value is
    below 0.05, without any multiple-comparison correction. */
module Peeking {
  import opened Results
  import opened Variants
  import opened Methodology

  /** Both arms need at least this many conversions before a test is run. */
  const MinConversions: nat := 5

  /** The significance level a p-value has to beat. */
  const SignificanceLevel: real := 0.05

  /** Outcome of `proportions_ztest(counts, nobs, alternative='larger')`:
      a p-value, or an exception the check swallows. */
  datatype ZTest = PValue(p: real) | Raised

  /** The two-proportion z-test as a deterministic function of
      (challenger conversions, control conversions, challenger visitors,
      control visitors). Its numerics are not modelled. */
  type ZTestOracle = (nat, nat, nat, nat) -> ZTest

  /** Observed conversion rate `conversions / visitors`. */
  function Rate(v: Variant): real
    requires v.visitors > 0
  {
    v.conversions as real / v.visitors as real
  }

  /** The challenger `v` passes every guard before the test: it is not the
      control, both arms have enough conversions, and its observed rate is
      strictly greater than the control's. (With the accumulated-data
      invariant, enough conversions already imply visitors.) */
  predicate Tested(v: Variant, control: Variant) {
    && v.name != ControlName
    && v.conversions >= MinConversions
    && control.conversions >= MinConversions
    && v.visitors > 0
    && control.visitors > 0
    && Rate(v) > Rate(control)
  }

  /** The challenger `v` passes the guards and the test returns a p-value
      below the significance level. */
  predicate Significant(v: Variant, control: Variant, ztest: ZTestOracle) {
    && Tested(v, control)
    && var t := ztest(v.conversions, control.conversions, v.visitors, control.visitors);
       t.PValue? && t.p < SignificanceLevel
  }

  /** The `for name, variant in variants.items()` loop from position `i`:
      the position of the first significant challenger, if any. A raised
      test, a skipped guard or a p-value at or above the level all move on
      to the next arm. */
  function ScanFrom(d: seq<Variant>, control: Variant, ztest: ZTestOracle, i: nat): (r: Option<nat>)
    requires i <= |d|
    requires AllWf(d) && Wf(control)
    ensures r.Some? ==> i <= r.value < |d| && Significant(d[r.value], control, ztest)
    ensures r.Some? ==> forall j :: i <= j < r.value ==> !Significant(d[j], control, ztest)
    ensures r.None? ==> forall j :: i <= j < |d| ==> !Significant(d[j], control, ztest)
    decreases |d| - i
  {
    if i == |d| then None
    else
      var v := d[i];
      if v.name == ControlName then ScanFrom(d, control, ztest, i + 1)
      else if v.conversions < MinConversions || control.conversions < MinConversions then
        ScanFrom(d, control, ztest, i + 1)
      else if Rate(v) > Rate(control) then
        match ztest(v.conversions, control.conversions, v.visitors, control.visitors)
        case Raised => ScanFrom(d, control, ztest, i + 1)
        case PValue(p) =>
          if p < SignificanceLevel then Some(i) else ScanFrom(d, control, ztest, i + 1)
      else ScanFrom(d, control, ztest, i + 1)
  }

  /** The stopping rule of one check on a running procedure: no conclusion
      without a control that has visitors, otherwise the first significant
      challenger is declared the winner. */
  function PeekingRule(d: seq<Variant>, ztest: ZTestOracle): (r: Option<Decision>)
    requires AllWf(d)
    ensures r.Some? <==>
      && Lookup(d, ControlName).Some?
      && Lookup(d, ControlName).value.visitors > 0
      && exists i :: 0 <= i < |d| && Significant(d[i], Lookup(d, ControlName).value, ztest)
    ensures r.Some? ==>
      exists i :: 0 <= i < |d| && r.value == Winner(d[i].name)
        && Significant(d[i], Lookup(d, ControlName).value, ztest)
        && forall j :: 0 <= j < i ==> !Significant(d[j], Lookup(d, ControlName).value, ztest)
  {
    match Lookup(d, ControlName)
    case None => None
    case Some(control) =>
      if control.visitors == 0 then None
      else match ScanFrom(d, control, ztest, 0)
        case None => None
        case Some(i) => Some(Winner(d[i].name))
  }

  /** `PeekingProxyMethod.run_check(day)`. */
  function PeekingCheck(s: MethodState, d: seq<Variant>, day: int, ztest: ZTestOracle): (r: MethodState)
    requires AllWf(d)
    ensures s.isStopped ==> r == s
    ensures !r.isStopped ==> r == s
    ensures !s.isStopped ==> (r.isStopped <==> PeekingRule(d, ztest).Some?)
    ensures !s.isStopped && r.isStopped ==>
      r.stopDay == day && r.decision.Winner? && r.decision.variant != ControlName
    ensures !s.isStopped && r.isStopped ==> Some(r.decision) == PeekingRule(d, ztest)
  {
    Conclude(s, PeekingRule(d, ztest), day)
  }

  /** The scan never looks past the first significant challenger: arms
      appended after it cannot change the outcome. */
  lemma {:induction false} ScanIgnoresLaterArms(
    d: seq<Variant>, rest: seq<Variant>, control: Variant, ztest: ZTestOracle, i: nat)
    requires i <= |d|
    requires AllWf(d) && AllWf(rest) && Wf(control)
    requires ScanFrom(d, control, ztest, i).Some?
    ensures AllWf(d + rest)
    ensures ScanFrom(d + rest, control, ztest, i) == ScanFrom(d, control, ztest, i)
    decreases |d| - i
  {
    assert forall k :: 0 <= k < |d| ==> (d + rest)[k] == d[k];
    assert forall k :: |d| <= k < |d + rest| ==> (d + rest)[k] == rest[k - |d|];
    if ScanFrom(d, control, ztest, i) != Some(i) {
      ScanIgnoresLaterArms(d, rest, control, ztest, i + 1);
    }
  }
}
