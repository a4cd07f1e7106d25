/** The health of a process, judged from its activity and its error count. */
module ActivityHealths {
  import opened SpectrumTypes
  import opened Durations

  datatype Verdict = Unknown | Idle | Degraded | Healthy | Failed

  datatype Reason =
    | RecoveryUnproven | FatalError | Shutdown | CounterReset | NewErrors
    | InvalidActivityTime | NoRecentActivity | RecentActivity

  datatype Assessment = Assessment(
    verdict: Verdict, reason: Reason, newErrors: Option<nat>, reset: bool, windowMilliseconds: Option<int>)

  /** Times are nanoseconds of the steady clock. */
  datatype Observation = Observation(now: int, activity: Option<int>, errors: u64, final: bool)

  datatype Health = Health(errors: u64, previous: Option<int>, recoverySince: Option<int>, failed: bool)

  const INITIAL := Health(0, None, None, false)

  predicate Resets(h: Health, o: Observation) {
    h.previous.Some? && o.errors < h.errors
  }

  predicate Disturbs(h: Health, o: Observation) {
    Resets(h, o) || o.errors != h.errors
  }

  /** The verdict and its reason, and whether recovery ends with it. */
  function Judge(h: Health, o: Observation, interval: nat): (Verdict, Reason) {
    var since := if Disturbs(h, o) then Some(o.now) else h.recoverySince;
    if h.failed then (Failed, FatalError)
    else if o.final then (Unknown, Shutdown)
    else if Resets(h, o) then (Unknown, CounterReset)
    else if o.errors != h.errors then (Degraded, NewErrors)
    else if o.activity.Some? && o.activity.value > o.now then (Unknown, InvalidActivityTime)
    else if o.activity.None? || o.now - o.activity.value > 2 * interval * NANOSECONDS_PER_MILLISECOND
      then (Idle, NoRecentActivity)
    else if since.None? || (o.activity.value > since.value
                            && o.now - since.value >= interval * NANOSECONDS_PER_MILLISECOND)
      then (Healthy, RecentActivity)
    else (Unknown, RecoveryUnproven)
  }

  function Assess(h: Health, o: Observation, interval: nat): (Health, Assessment)
    requires WellFormed(h)
  {
    var (verdict, reason) := Judge(h, o, interval);
    var since := if Disturbs(h, o) then Some(o.now) else h.recoverySince;
    (Health(o.errors, Some(o.now), if verdict.Healthy? then None else since, h.failed),
     Assessment(verdict, reason, if Resets(h, o) then None else Some(o.errors - h.errors), Resets(h, o),
                if h.previous.Some? then Some(Truncated(o.now - h.previous.value, NANOSECONDS_PER_MILLISECOND)) else None))
  }

  /** Errors are counted from zero. */
  predicate WellFormed(h: Health) {
    h.previous.None? ==> h.errors == 0
  }

  class ActivityHealth {
    var errors: u64
    var previous: Option<int>
    var recoverySince: Option<int>
    var failed: bool

    function State(): Health
      reads this
    {
      Health(errors, previous, recoverySince, failed)
    }

    constructor ()
      ensures State() == INITIAL
    {
      errors, previous, recoverySince, failed := 0, None, None, false;
    }

    method AssessActivity(o: Observation, interval: nat) returns (a: Assessment)
      requires WellFormed(State())
      modifies this
      ensures WellFormed(State()) && (State(), a) == Assess(old(State()), o, interval)
    {
      var reset := previous.Some? && o.errors < errors;
      a := Assessment(Unknown, RecoveryUnproven, None, reset, None);
      if previous.Some? {
        a := a.(windowMilliseconds := Some(Truncated(o.now - previous.value, NANOSECONDS_PER_MILLISECOND)));
      }
      if !reset {
        a := a.(newErrors := Some(o.errors - errors));
      }
      var more := a.newErrors.Some? && a.newErrors.value > 0;
      if reset || more {
        recoverySince := Some(o.now);
      }
      errors := o.errors;
      previous := Some(o.now);
      var limit := interval * NANOSECONDS_PER_MILLISECOND;
      if failed {
        a := a.(verdict := Failed, reason := FatalError);
      } else if o.final {
        a := a.(reason := Shutdown);
      } else if reset {
        a := a.(reason := CounterReset);
      } else if more {
        a := a.(verdict := Degraded, reason := NewErrors);
      } else if o.activity.Some? && o.activity.value > o.now {
        a := a.(reason := InvalidActivityTime);
      } else if o.activity.None? || o.now - o.activity.value > 2 * limit {
        a := a.(verdict := Idle, reason := NoRecentActivity);
      } else if recoverySince.None?
                || (o.activity.value > recoverySince.value && o.now - recoverySince.value >= limit) {
        a := a.(verdict := Healthy, reason := RecentActivity);
        recoverySince := None;
      }
    }

    method Fail()
      modifies this`failed
      ensures State() == old(State()).(failed := true)
    {
      failed := true;
    }
  }

  // ----- Every run -----

  datatype Op = Assesses(o: Observation) | Fails

  function Run(ops: seq<Op>, interval: nat): (h: Health)
    ensures WellFormed(h)
  {
    if ops == [] then INITIAL
    else
      var before := Run(ops[..|ops| - 1], interval);
      match ops[|ops| - 1]
      case Assesses(o) => Assess(before, o, interval).0
      case Fails => before.(failed := true)
  }

  /** What was observed, in order. */
  function Observed(ops: seq<Op>): seq<Observation> {
    if ops == [] then []
    else
      var before := Observed(ops[..|ops| - 1]);
      if ops[|ops| - 1].Assesses? then before + [ops[|ops| - 1].o] else before
  }

  /** Neither the clock nor the time of the last activity runs backwards. */
  predicate Forward(seen: seq<Observation>) {
    forall i, j :: 0 <= i < j < |seen| ==>
      && seen[i].now <= seen[j].now
      && (seen[i].activity.Some? && seen[j].activity.Some? ==> seen[i].activity.value <= seen[j].activity.value)
  }

  function ErrorsAt(seen: seq<Observation>): u64 {
    if seen == [] then 0 else seen[|seen| - 1].errors
  }

  /** When the error count last changed. */
  function LastDisturbance(seen: seq<Observation>): Option<int> {
    if seen == [] then None
    else
      var (before, last) := (seen[..|seen| - 1], seen[|seen| - 1]);
      if last.errors != ErrorsAt(before) then Some(last.now) else LastDisturbance(before)
  }

  /** The last disturbance is a full interval old and there was activity since. */
  predicate Recovered(seen: seq<Observation>, k: int, interval: nat)
    requires 0 <= k < |seen| && LastDisturbance(seen).Some?
  {
    && seen[k].activity.Some? && seen[k].activity.value > LastDisturbance(seen).value
    && seen[k].now - LastDisturbance(seen).value >= interval * NANOSECONDS_PER_MILLISECOND
  }

  /** The state remembers the last disturbance until recovery from it was seen. */
  predicate Remembers(h: Health, seen: seq<Observation>, interval: nat) {
    && h.errors == ErrorsAt(seen)
    && h.previous == (if seen == [] then None else Some(seen[|seen| - 1].now))
    && (h.recoverySince.Some? ==> LastDisturbance(seen) == h.recoverySince)
    && (h.recoverySince.None? && LastDisturbance(seen).Some? ==>
          exists k :: 0 <= k < |seen| && Recovered(seen, k, interval))
  }

  lemma {:induction false} RunRemembers(ops: seq<Op>, interval: nat)
    ensures Remembers(Run(ops, interval), Observed(ops), interval)
  {
    if ops != [] {
      var before := ops[..|ops| - 1];
      RunRemembers(before, interval);
      if ops[|ops| - 1].Assesses? {
        OneMore(Run(before, interval), Observed(before), ops[|ops| - 1].o, interval);
        hide Assess, Remembers;
      }
    }
  }

  lemma OneMore(h: Health, seen: seq<Observation>, o: Observation, interval: nat)
    requires WellFormed(h) && Remembers(h, seen, interval)
    ensures Remembers(Assess(h, o, interval).0, seen + [o], interval)
  {
    var now := seen + [o];
    assert now[..|now| - 1] == seen;
    if !Disturbs(h, o) {
      assert LastDisturbance(now) == LastDisturbance(seen);
      if LastDisturbance(seen).Some? {
        if h.recoverySince.None? {
          var k :| 0 <= k < |seen| && Recovered(seen, k, interval);
          assert Recovered(now, k, interval);
        } else if Judge(h, o, interval).0.Healthy? {
          assert Recovered(now, |seen|, interval);
        }
      }
    } else {
      assert LastDisturbance(now) == Some(o.now);
    }
  }

  /** While time runs forward, an observation is judged healthy exactly when the process
      never failed and is not stopping, the error count did not just change, activity is at
      most two intervals old, and the last change of the count, if any, lies a full interval
      back and before the activity. */
  lemma HealthyExactly(ops: seq<Op>, o: Observation, interval: nat)
    requires Forward(Observed(ops) + [o])
    ensures
      var (h, seen) := (Run(ops, interval), Observed(ops));
      var s := LastDisturbance(seen + [o]);
      Assess(h, o, interval).1.verdict == Healthy
      <==>
      && Fails !in ops && !o.final && o.errors == ErrorsAt(seen)
      && o.activity.Some? && 0 <= o.now - o.activity.value <= 2 * interval * NANOSECONDS_PER_MILLISECOND
      && (s.Some? ==> o.activity.value > s.value && o.now - s.value >= interval * NANOSECONDS_PER_MILLISECOND)
  {
    var (h, seen) := (Run(ops, interval), Observed(ops));
    var now := seen + [o];
    RunRemembers(ops, interval);
    FailureLatches(ops, interval);
    assert now[..|now| - 1] == seen;
    if h.recoverySince.None? && LastDisturbance(seen).Some? {
      var k :| 0 <= k < |seen| && Recovered(seen, k, interval);
      assert now[k] == seen[k] && now[|seen|] == o;
    }
  }

  lemma {:induction false} FailureLatches(ops: seq<Op>, interval: nat)
    ensures Run(ops, interval).failed <==> Fails in ops
  {
    if ops != [] {
      FailureLatches(ops[..|ops| - 1], interval);
      assert ops == ops[..|ops| - 1] + [ops[|ops| - 1]];
    }
  }

  /** Activity is known, not from the future, and at most two intervals old. */
  predicate Recent(o: Observation, interval: nat) {
    o.activity.Some? && o.activity.value <= o.now && o.now - o.activity.value <= 2 * interval * NANOSECONDS_PER_MILLISECOND
  }

  /** Activity came after the last change of the count, which is a full interval old. */
  predicate Proven(seen: seq<Observation>, o: Observation, interval: nat) {
    var s := LastDisturbance(seen + [o]);
    s.Some? && o.activity.Some? ==>
      o.activity.value > s.value && o.now - s.value >= interval * NANOSECONDS_PER_MILLISECOND
  }

  /** What each verdict and reason says about everything that was observed. The first of these
      that applies is given: failure, shutdown, a count that fell, a count that rose, activity
      from the future, activity too old or never seen, recovery not yet proven. */
  lemma VerdictExplained(ops: seq<Op>, o: Observation, interval: nat)
    requires Forward(Observed(ops) + [o])
    ensures
      var (seen, a) := (Observed(ops), Assess(Run(ops, interval), o, interval).1);
      var before := ErrorsAt(seen);
      && (a.verdict, a.reason)
         == (if Fails in ops then (Failed, FatalError)
             else if o.final then (Unknown, Shutdown)
             else if o.errors < before then (Unknown, CounterReset)
             else if o.errors > before then (Degraded, NewErrors)
             else if o.activity.Some? && o.activity.value > o.now then (Unknown, InvalidActivityTime)
             else if !Recent(o, interval) then (Idle, NoRecentActivity)
             else if Proven(seen, o, interval) then (Healthy, RecentActivity)
             else (Unknown, RecoveryUnproven))
      && a.newErrors == (if o.errors < before then None else Some(o.errors - before)) && a.reset == (o.errors < before)
      && a.windowMilliseconds
         == (if seen == [] then None
             else Some((o.now - seen[|seen| - 1].now) / NANOSECONDS_PER_MILLISECOND))
  {
    hide *;
    var (h, seen) := (Run(ops, interval), Observed(ops));
    Memory(ops, interval);
    FailureLatches(ops, interval);
    HealthyExactly(ops, o, interval);
    InOrder(seen, o);
    ProvenIs(seen, o, interval);
    Explained(h, seen, o, interval);
  }

  /** The window is not negative, so that rounding towards zero is the plain quotient. */
  lemma InOrder(seen: seq<Observation>, o: Observation)
    requires Forward(seen + [o])
    ensures
      seen != [] ==>
        var window := o.now - seen[|seen| - 1].now;
        window >= 0 && Truncated(window, NANOSECONDS_PER_MILLISECOND) == window / NANOSECONDS_PER_MILLISECOND
  {
    if seen != [] {
      assert (seen + [o])[|seen| - 1] == seen[|seen| - 1] && (seen + [o])[|seen|] == o;
    }
  }

  lemma ProvenIs(seen: seq<Observation>, o: Observation, interval: nat)
    ensures
      Recent(o, interval)
      <==> o.activity.Some? && 0 <= o.now - o.activity.value <= 2 * interval * NANOSECONDS_PER_MILLISECOND
    ensures
      var s := LastDisturbance(seen + [o]);
      o.activity.Some? ==>
        (Proven(seen, o, interval)
         <==> (s.Some? ==> o.activity.value > s.value && o.now - s.value >= interval * NANOSECONDS_PER_MILLISECOND))
  {
    hide LastDisturbance;
  }

  /** One observation, given what the state remembers. */
  lemma Explained(h: Health, seen: seq<Observation>, o: Observation, interval: nat)
    requires WellFormed(h) && h.errors == ErrorsAt(seen)
    requires h.previous == if seen == [] then None else Some(seen[|seen| - 1].now)
    requires
      seen != [] ==>
        var window := o.now - seen[|seen| - 1].now;
        Truncated(window, NANOSECONDS_PER_MILLISECOND) == window / NANOSECONDS_PER_MILLISECOND
    requires
      Assess(h, o, interval).1.verdict == Healthy
      <==> !h.failed && !o.final && o.errors == ErrorsAt(seen) && Recent(o, interval) && Proven(seen, o, interval)
    ensures
      var (a, before) := (Assess(h, o, interval).1, ErrorsAt(seen));
      && (a.verdict, a.reason)
         == (if h.failed then (Failed, FatalError)
             else if o.final then (Unknown, Shutdown)
             else if o.errors < before then (Unknown, CounterReset)
             else if o.errors > before then (Degraded, NewErrors)
             else if o.activity.Some? && o.activity.value > o.now then (Unknown, InvalidActivityTime)
             else if !Recent(o, interval) then (Idle, NoRecentActivity)
             else if Proven(seen, o, interval) then (Healthy, RecentActivity)
             else (Unknown, RecoveryUnproven))
      && a.newErrors == (if o.errors < before then None else Some(o.errors - before)) && a.reset == (o.errors < before)
      && a.windowMilliseconds
         == (if seen == [] then None else Some((o.now - seen[|seen| - 1].now) / NANOSECONDS_PER_MILLISECOND))
  {
    hide Proven, Truncated;
  }

  lemma Memory(ops: seq<Op>, interval: nat)
    ensures
      var (h, seen) := (Run(ops, interval), Observed(ops));
      && WellFormed(h) && h.errors == ErrorsAt(seen)
      && h.previous == (if seen == [] then None else Some(seen[|seen| - 1].now))
  {
    RunRemembers(ops, interval);
  }

  /** Once failed, every verdict is failed. */
  lemma FailedForGood(before: seq<Op>, later: seq<Op>, o: Observation, interval: nat)
    ensures Assess(Run(before + [Fails] + later, interval), o, interval).1.verdict == Failed
  {
    FailureLatches(before + [Fails] + later, interval);
    assert (before + [Fails] + later)[|before|] == Fails;
  }
}
