/** What every decision procedure shares (class `Methodology`): the
    stop/decision state, its initial value, and the decision labels. */
module Methodology {
  import opened Results
  import opened Seqs

  /** Both procedures treat the arm of this name as the control. */
  const ControlName: string := "A"

  /** The conclusion a procedure can reach. */
  datatype Decision = TimedOut | Winner(variant: string) | Futility

  /** The human-readable decision strings the engine stores. */
  function Label(d: Decision): string {
    match d
    case TimedOut => "N/A (Timed Out)"
    case Winner(name) => "Declared '" + name + "' winner"
    case Futility => "Stopped for Futility"
  }

  /** Distinct decisions have distinct labels, so the label alone tells which
      variant was declared the winner. */
  lemma LabelInjective(a: Decision, b: Decision)
    ensures Label(a) == Label(b) ==> a == b
  {
    if Label(a) == Label(b) {
      if a.Winner? && b.Winner? {
        var x, y := a.variant, b.variant;
        assert |x| == |Label(a)| - 18 == |y|;
        assert x == Label(a)[10..10 + |x|];
        assert y == Label(b)[10..10 + |y|];
      } else {
        assert Label(a)[0] == Label(b)[0];
      }
    }
  }

  /** `(is_stopped, decision, stop_day)`. */
  datatype MethodState = MethodState(isStopped: bool, decision: Decision, stopDay: int)

  /** The state a procedure is constructed in: running, timed out, day -1. */
  const Initial: MethodState := MethodState(false, TimedOut, -1)

  /** The states a procedure can be in after the checks of days 1 to
      `lastDay`: still the initial state, or stopped with a real decision on
      one of those days. */
  predicate Reachable(s: MethodState, lastDay: int) {
    if s.isStopped then s.decision != TimedOut && 1 <= s.stopDay <= lastDay
    else s == Initial
  }

  /** The effect of one `run_check(day)` whose stopping rule returned
      `outcome`: a stopped procedure is left alone, otherwise a conclusion
      stops it on `day`. */
  function Conclude(s: MethodState, outcome: Option<Decision>, day: int): (r: MethodState)
    ensures s.isStopped ==> r == s
    ensures outcome.None? ==> r == s
    ensures !s.isStopped && outcome.Some? ==>
      r.isStopped && r.decision == outcome.value && r.stopDay == day
  {
    if s.isStopped then s
    else match outcome
      case None => s
      case Some(d) => MethodState(true, d, day)
  }

  /** A procedure's state after `run_check` on the consecutive days
      `firstDay`, `firstDay + 1`, ..., the stopping rule of the check on day
      `firstDay + k` having returned `outcomes[k]`. A stopped procedure is
      never touched again; `RunChecksFirstConclusion` says when and how a
      running one stops. */
  function RunChecks(s: MethodState, outcomes: seq<Option<Decision>>, firstDay: int): (r: MethodState)
    ensures s.isStopped ==> r == s
    ensures !r.isStopped ==> r == s
    decreases |outcomes|
  {
    if |outcomes| == 0 then s
    else RunChecks(Conclude(s, outcomes[0], firstDay), outcomes[1..], firstDay + 1)
  }

  /** A running procedure stops exactly when some day's check concludes, and
      then on the first such day, with that day's decision. */
  lemma {:induction false} RunChecksFirstConclusion(s: MethodState, outcomes: seq<Option<Decision>>, firstDay: int)
    requires !s.isStopped
    ensures RunChecks(s, outcomes, firstDay).isStopped <==> exists k :: 0 <= k < |outcomes| && outcomes[k].Some?
    ensures RunChecks(s, outcomes, firstDay).isStopped ==>
      exists k :: 0 <= k < |outcomes|
        && outcomes[k] == Some(RunChecks(s, outcomes, firstDay).decision)
        && RunChecks(s, outcomes, firstDay).stopDay == firstDay + k
        && forall j :: 0 <= j < k ==> outcomes[j].None?
    decreases |outcomes|
  {
    if |outcomes| > 0 {
      var s1 := Conclude(s, outcomes[0], firstDay);
      var r := RunChecks(s, outcomes, firstDay);
      assert r == RunChecks(s1, outcomes[1..], firstDay + 1);
      if outcomes[0].Some? {
        assert r == s1;
      } else {
        assert s1 == s;
        RunChecksFirstConclusion(s, outcomes[1..], firstDay + 1);
        assert forall k :: 0 <= k < |outcomes| - 1 ==> outcomes[1..][k] == outcomes[k + 1];
        if r.isStopped {
          var k :| 0 <= k < |outcomes[1..]|
            && outcomes[1..][k] == Some(r.decision)
            && r.stopDay == firstDay + 1 + k
            && forall j :: 0 <= j < k ==> outcomes[1..][j].None?;
          assert outcomes[k + 1] == outcomes[1..][k];
        } else {
          assert forall k :: 0 <= k < |outcomes| ==> outcomes[k].None? by {
            forall k | 0 <= k < |outcomes|
              ensures outcomes[k].None?
            {
              if k > 0 { assert outcomes[k] == outcomes[1..][k - 1]; }
            }
          }
        }
      }
    }
  }

  /** Checks over two stretches of days compose. */
  lemma {:induction false} RunChecksSplit(
    s: MethodState, a: seq<Option<Decision>>, b: seq<Option<Decision>>, firstDay: int)
    ensures RunChecks(s, a + b, firstDay) == RunChecks(RunChecks(s, a, firstDay), b, firstDay + |a|)
    decreases |a|
  {
    if |a| == 0 {
      ConcatEmpty(a, b);
    } else {
      ConcatTail(a, b);
      RunChecksSplit(Conclude(s, a[0], firstDay), a[1..], b, firstDay + 1);
    }
  }

  /** Stopping the day loop once a procedure has concluded leaves its
      decision and stop day as running the remaining days would. */
  lemma ChecksEarlyExit(s: MethodState, a: seq<Option<Decision>>, b: seq<Option<Decision>>, firstDay: int)
    requires RunChecks(s, a, firstDay).isStopped
    ensures RunChecks(s, a + b, firstDay) == RunChecks(s, a, firstDay)
  {
    RunChecksSplit(s, a, b, firstDay);
  }
}
