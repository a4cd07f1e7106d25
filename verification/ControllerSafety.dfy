/** What holds of the processor's controller in every run. */
module ControllerSafety {
  import opened ControllerSteps

  function Bit(b: bool): nat {
    if b then 1 else 0
  }

  predicate SessionOk(s: Session) {
    && (s.started ==> s.configured) && (s.configured ==> s.status.Some?)
    && s.reconciled <= s.generation && (s.reconciled > 0 ==> s.status.Some?) && (s.connected ==> s.generation > 0)
  }

  // ----- What a step may do to one session -----

  /** Each count grows at most by what the session's flags allow. */
  predicate Accounted(m: Metrics, n: Metrics, s: Session, t: Session, coordinated: bool) {
    && m.bootChanges <= n.bootChanges && m.startsAdmitted <= n.startsAdmitted
    && n.configurations - m.configurations <= n.bootChanges - m.bootChanges + Bit(t.configured) - Bit(s.configured)
    && n.connections - m.connections <= Bit(t.reconciled > 0) - Bit(s.reconciled > 0)
    && n.connections + n.reconnects - m.connections - m.reconnects <= n.attempts - m.attempts
    && n.startsAdmitted - m.startsAdmitted <= n.startsSubmitted - m.startsSubmitted
    && (coordinated ==>
          n.startsAdmitted - m.startsAdmitted + Bit(!t.started) - Bit(!s.started) <= n.bootChanges - m.bootChanges)
  }

  /** A step of session `i`: the others, the coordination and the pause are left alone, and a
      controller told to stop stays stopped. */
  predicate StepOk(w: World, after: World, i: nat)
    requires i < |w.sessions|
  {
    && |after.sessions| == |w.sessions|
    && after.sessions == w.sessions[i := after.sessions[i]]
    && after.coordinated == w.coordinated && after.marked == w.marked && after.backoff == w.backoff
    && (w.stop ==> after.stop)
    && SessionOk(after.sessions[i])
    && Accounted(w.metrics, after.metrics, w.sessions[i], after.sessions[i], w.coordinated)
  }

  lemma StepTwice(a: World, b: World, c: World, i: nat)
    requires i < |a.sessions| && StepOk(a, b, i) && StepOk(b, c, i)
    ensures StepOk(a, c, i)
  {}

  lemma AskOk(w: World, i: nat, c: Command, e: CommandEnv)
    requires i < |w.sessions| && SessionOk(w.sessions[i])
    ensures
      var (after, ok) := Ask(w, i, c, e);
      && StepOk(w, after, i) && (ok ==> !after.stop)
      && after.sessions[i] == w.sessions[i].(sent := after.sessions[i].sent) && after.metrics == w.metrics
  {}

  /** Asking for a connection counts an attempt; being connected afterwards means that it is a new one. */
  function Asked(w: World, i: nat, e: ReconcileEnv): World
    requires i < |w.sessions|
  {
    Put(w.(metrics := w.metrics.(attempts := w.metrics.attempts + 1)), i,
        Drifted(w.sessions[i].(connected := false), e.waiting))
  }

  lemma AskedOk(w: World, i: nat, e: ReconcileEnv)
    requires i < |w.sessions| && SessionOk(w.sessions[i])
    ensures
      var (asked, s) := (Asked(w, i, e), w.sessions[i]);
      && StepOk(w, asked, i) && |asked.sessions| == |w.sessions|
      && asked == w.(sessions := asked.sessions, metrics := w.metrics.(attempts := w.metrics.attempts + 1))
      && asked.sessions == w.sessions[i := asked.sessions[i]]
      && asked.sessions[i] == s.(connected := asked.sessions[i].connected, generation := asked.sessions[i].generation)
      && (asked.sessions[i].connected ==> asked.sessions[i].generation > s.generation)
  {}

  lemma ReconcileOk(w: World, i: nat, e: ReconcileEnv)
    requires i < |w.sessions| && SessionOk(w.sessions[i])
    ensures StepOk(w, Reconcile(w, i, e).0, i)
    ensures Reconcile(w, i, e).1 ==> Reconcile(w, i, e).0.sessions[i].status.Some?
  {
    var asked := Asked(w, i, e);
    AskedOk(w, i, e);
    AskOk(asked, i, QueryStatus, e.query);
    var (queried, ok) := Ask(asked, i, QueryStatus, e.query);
    StepTwice(w, asked, queried, i);
    if asked.sessions[i].connected && e.after.Some? {
      ReconciledOk(w, asked, queried, i, e);
    }
    StepNothing(w, i);
    Failing(w, w, i);
    Failing(w, asked, i);
    Failing(w, queried, i);
    ReconcileCases(w, i, e);
    hide *;
  }

  /** Counting a failure is no step. */
  lemma Failing(w: World, after: World, i: nat)
    requires i < |w.sessions|
    ensures StepOk(w, after, i) ==> StepOk(w, StatusFailure(after), i) && StepOk(w, ProtocolFailure(after), i)
  {}

  lemma ReconcileCases(w: World, i: nat, e: ReconcileEnv)
    requires i < |w.sessions|
    ensures
      var (after, done) := Reconcile(w, i, e);
      var asked := Asked(w, i, e);
      var (queried, ok) := Ask(asked, i, QueryStatus, e.query);
      if done then e.after.Some? && asked.sessions[i].connected && after == Reconciled(queried, i, e.after.value, e)
      else after == StatusFailure(w) || after == asked || after == StatusFailure(asked) || after == ProtocolFailure(asked)
           || after == ProtocolFailure(queried)
  {
    hide Ask, Reconciled, Drifted, StatusFailure, ProtocolFailure, ShowsOwnership;
  }

  /** The last part of reconciling counts what the first part prepared. */
  lemma ReconciledOk(w: World, asked: World, queried: World, i: nat, e: ReconcileEnv)
    requires i < |w.sessions| == |asked.sessions| && SessionOk(w.sessions[i]) && e.after.Some?
    requires asked.sessions == w.sessions[i := asked.sessions[i]]
    requires asked == w.(sessions := asked.sessions, metrics := w.metrics.(attempts := w.metrics.attempts + 1))
    requires asked.sessions[i].generation > w.sessions[i].generation
    requires asked.sessions[i] == w.sessions[i].(connected := asked.sessions[i].connected, generation := asked.sessions[i].generation)
    requires StepOk(asked, queried, i) && queried.metrics == asked.metrics
    requires queried.sessions[i] == asked.sessions[i].(sent := queried.sessions[i].sent)
    ensures StepOk(w, Reconciled(queried, i, e.after.value, e), i)
    ensures Reconciled(queried, i, e.after.value, e).sessions[i].status.Some?
  {}

  lemma ConfigureOk(w: World, i: nat, e: ConfigureEnv)
    requires i < |w.sessions| && SessionOk(w.sessions[i]) && !w.sessions[i].configured && w.sessions[i].status.Some?
    ensures
      var (after, ok) := ConfigureRadio(w, i, e);
      StepOk(w, after, i) && (ok ==> after.sessions[i].configured)
  {
    var streaming := w.sessions[i].status.value.streaming;
    AskOk(w, i, Stop, e.stopping);
    StepNothing(w, i);
    var (stopped, quiet) := if streaming then Ask(w, i, Stop, e.stopping) else (w, true);
    var quiesced := if streaming then Put(stopped, i, Quiesced(stopped.sessions[i])) else stopped;
    QuiescedOk(w, stopped, i);
    AskOk(quiesced, i, Configure, e.configuring);
    var (sent, ok) := Ask(quiesced, i, Configure, e.configuring);
    StepTwice(w, quiesced, sent, i);
    Failing(w, stopped, i);
    Failing(w, sent, i);
    if ok {
      ConfiguredOk(w, sent, i);
    }
    ConfigureCases(w, i, e);
    hide Ask, Put, ProtocolFailure, ConfigureRadio, StepOk;
  }

  lemma QuiescedOk(w: World, stopped: World, i: nat)
    requires i < |w.sessions| == |stopped.sessions| && StepOk(w, stopped, i)
    ensures StepOk(w, Put(stopped, i, Quiesced(stopped.sessions[i])), i)
    ensures Quiesced(stopped.sessions[i]).configured == stopped.sessions[i].configured
    ensures Quiesced(stopped.sessions[i]).status.Some? == stopped.sessions[i].status.Some?
  {}

  function Finished(sent: World, i: nat): World
    requires i < |sent.sessions|
  {
    Put(sent.(metrics := sent.metrics.(configurations := sent.metrics.configurations + 1)), i,
        sent.sessions[i].(configured := true))
  }

  lemma ConfiguredOk(w: World, sent: World, i: nat)
    requires i < |w.sessions| == |sent.sessions| && StepOk(w, sent, i)
    requires !w.sessions[i].configured && !sent.sessions[i].configured && sent.sessions[i].status.Some?
    ensures StepOk(w, Finished(sent, i), i) && Finished(sent, i).sessions[i].configured
  {}

  lemma ConfigureCases(w: World, i: nat, e: ConfigureEnv)
    requires i < |w.sessions|
    ensures
      var streaming := w.sessions[i].status.Some? && w.sessions[i].status.value.streaming;
      var (stopped, quiet) := if streaming then Ask(w, i, Stop, e.stopping) else (w, true);
      var quiesced := if streaming then Put(stopped, i, Quiesced(stopped.sessions[i])) else stopped;
      var (sent, ok) := Ask(quiesced, i, Configure, e.configuring);
      ConfigureRadio(w, i, e)
      == if !quiet then (ProtocolFailure(stopped), false)
         else if !ok then (ProtocolFailure(sent), false)
         else (Finished(sent, i), true)
  {
    hide Ask, ProtocolFailure, Quiesced;
  }

  lemma RestartOk(w: World, i: nat, e: RestartEnv)
    requires i < |w.sessions| && SessionOk(w.sessions[i]) && w.sessions[i].configured && !w.sessions[i].started
    ensures
      var (after, ok) := Restart(w, i, e);
      StepOk(w, after, i) && after.sessions[i].configured
  {
    WaitedOk(w, i, e);
    var waited := Waited(w, i, e).0;
    hide *;
    FailedStart(w, w, i);
    FailedStart(w, waited, i);
    AdmittedStart(w, waited, i);
    RestartCases(w, i, e);
  }

  /** The start after its wait. */
  function Waited(w: World, i: nat, e: RestartEnv): (r: (World, bool))
    requires i < |w.sessions|
    ensures |r.0.sessions| == |w.sessions|
  {
    var sent := Send(w, i, Start(e.epoch));
    var submitted := sent.(metrics := sent.metrics.(startsSubmitted := sent.metrics.startsSubmitted + 1));
    if e.inTime then Wait(submitted, e.start.wait) else (submitted, false)
  }

  function WithStart(w: World, i: nat): World
    requires i < |w.sessions|
  {
    Put(w.(metrics := w.metrics.(startsAdmitted := w.metrics.startsAdmitted + 1)), i, w.sessions[i].(started := true))
  }

  lemma WaitedOk(w: World, i: nat, e: RestartEnv)
    requires i < |w.sessions| && SessionOk(w.sessions[i]) && w.sessions[i].configured && !w.sessions[i].started
    ensures StepOk(w, w, i) && StepOk(w, Waited(w, i, e).0, i)
    ensures Waited(w, i, e).0.sessions[i].configured && !Waited(w, i, e).0.sessions[i].started
    ensures Waited(w, i, e).0.metrics == w.metrics.(startsSubmitted := w.metrics.startsSubmitted + 1)
  {}

  lemma FailedStart(w: World, after: World, i: nat)
    requires i < |w.sessions| == |after.sessions| && StepOk(w, after, i) && after.sessions[i].configured
    ensures StepOk(w, ProtocolFailure(after), i) && ProtocolFailure(after).sessions[i].configured
  {}

  lemma AdmittedStart(w: World, after: World, i: nat)
    requires i < |w.sessions| == |after.sessions| && StepOk(w, after, i)
    requires after.sessions[i].configured && !after.sessions[i].started && !w.sessions[i].started
    requires after.metrics == w.metrics.(startsSubmitted := w.metrics.startsSubmitted + 1)
    ensures StepOk(w, WithStart(after, i), i) && WithStart(after, i).sessions[i].configured
  {}

  lemma RestartCases(w: World, i: nat, e: RestartEnv)
    requires i < |w.sessions|
    ensures
      var (waited, ok) := Waited(w, i, e);
      Restart(w, i, e)
      == if !e.start.sent then (ProtocolFailure(w), false)
         else if !ok then (ProtocolFailure(waited), false)
         else (WithStart(waited, i), true)
  {}

  lemma LivenessOk(w: World, i: nat, interval: int, e: LivenessEnv)
    requires i < |w.sessions| && SessionOk(w.sessions[i])
    ensures
      var after := Liveness(w, i, interval, e).0;
      StepOk(w, after, i) && after.sessions[i].configured == w.sessions[i].configured
  {
    AskOk(w, i, QueryStatus, e.query);
    hide Ask;
  }

  lemma ServeOk(w: World, i: nat, interval: int, e: VisitEnv)
    requires i < |w.sessions| && SessionOk(w.sessions[i]) && w.sessions[i].status.Some?
    ensures
      var (after, ok) := Serve(w, i, interval, e);
      StepOk(w, after, i) && (ok ==> after.sessions[i].configured)
  {
    StepNothing(w, i);
    if !w.sessions[i].configured {
      ConfigureOk(w, i, e.configure);
    }
    var (a, configured) := if !w.sessions[i].configured then ConfigureRadio(w, i, e.configure) else (w, true);
    var s := a.sessions[i];
    StepNothing(a, i);
    if a.coordinated && s.configured && !s.started {
      RestartOk(a, i, e.restart);
    }
    var (b, started) := if a.coordinated && s.configured && !s.started then Restart(a, i, e.restart) else (a, true);
    StepTwice(w, a, b, i);
    StepNothing(b, i);
    LivenessOk(b, i, interval, e.liveness);
    var (c, alive) := if b.sessions[i].configured then Liveness(b, i, interval, e.liveness) else (b, true);
    StepTwice(w, b, c, i);
    hide ConfigureRadio, Restart, Liveness, StepOk;
    assert Serve(w, i, interval, e) == (c, configured && started && alive);
  }

  lemma StepNothing(w: World, i: nat)
    requires i < |w.sessions| && SessionOk(w.sessions[i])
    ensures StepOk(w, w, i)
  {
    assert w.sessions == w.sessions[i := w.sessions[i]];
  }

  lemma DriftOk(w: World, i: nat, d: Drift)
    requires i < |w.sessions| && SessionOk(w.sessions[i])
    ensures
      var after := Put(w, i, Drifted(w.sessions[i], d));
      StepOk(w, after, i) && (!NeedsReconcile(after.sessions[i]) ==> after.sessions[i].status.Some?)
  {}

  lemma CountFailure(w: World, after: World, i: nat)
    requires i < |w.sessions| == |after.sessions| && StepOk(w, after, i)
    ensures StepOk(w, Put(after, i, after.sessions[i].(failures := after.sessions[i].failures + 1)), i)
  {}

  lemma VisitOk(w: World, i: nat, interval: int, e: VisitEnv)
    requires i < |w.sessions| && SessionOk(w.sessions[i])
    ensures
      var (after, ok) := Visit(w, i, interval, e);
      StepOk(w, after, i) && (ok ==> after.sessions[i].configured)
  {
    hide *;
    var looked := Put(w, i, Drifted(w.sessions[i], e.drift));
    DriftOk(w, i, e.drift);
    ReconcileOk(looked, i, e.reconcile);
    StepNothing(looked, i);
    var (owned, ok) := if NeedsReconcile(looked.sessions[i]) then Reconcile(looked, i, e.reconcile) else (looked, true);
    StepTwice(w, looked, owned, i);
    if ok {
      ServeOk(owned, i, interval, e);
      StepTwice(w, owned, Serve(owned, i, interval, e).0, i);
    } else {
      CountFailure(w, owned, i);
    }
    VisitIs(w, i, interval, e);
  }

  lemma VisitIs(w: World, i: nat, interval: int, e: VisitEnv)
    requires i < |w.sessions|
    ensures
      var looked := Put(w, i, Drifted(w.sessions[i], e.drift));
      var (owned, ok) := if NeedsReconcile(looked.sessions[i]) then Reconcile(looked, i, e.reconcile) else (looked, true);
      Visit(w, i, interval, e)
      == if !ok then (Put(owned, i, owned.sessions[i].(failures := owned.sessions[i].failures + 1)), false)
         else Serve(owned, i, interval, e)
  {
    hide Reconcile, Serve, Drifted, Put;
  }

  // ----- Every pass -----

  function Configured(w: World): nat
    requires |w.sessions| == RADIOS
  {
    Bit(w.sessions[0].configured) + Bit(w.sessions[1].configured) + Bit(w.sessions[2].configured) + Bit(w.sessions[3].configured)
  }

  function Known(w: World): nat
    requires |w.sessions| == RADIOS
  {
    Bit(w.sessions[0].reconciled > 0) + Bit(w.sessions[1].reconciled > 0)
    + Bit(w.sessions[2].reconciled > 0) + Bit(w.sessions[3].reconciled > 0)
  }

  function Waiting(w: World): nat
    requires |w.sessions| == RADIOS
  {
    Bit(!w.sessions[0].started) + Bit(!w.sessions[1].started) + Bit(!w.sessions[2].started) + Bit(!w.sessions[3].started)
  }

  /** Every configuration answers a first contact or a boot change, every first connection is
      some radio's first, and after the coordinated start every start answers a boot change. */
  predicate Inv(w: World) {
    && |w.sessions| == RADIOS
    && (forall i :: 0 <= i < RADIOS ==> SessionOk(w.sessions[i]))
    && w.metrics.configurations <= w.metrics.bootChanges + Configured(w)
    && w.metrics.connections <= Known(w)
    && w.metrics.connections + w.metrics.reconnects <= w.metrics.attempts
    && w.metrics.startsAdmitted <= w.metrics.startsSubmitted
    && (w.coordinated ==>
          && w.marked.0 <= w.metrics.startsAdmitted && w.marked.1 <= w.metrics.bootChanges
          && w.metrics.startsAdmitted - w.marked.0 + Waiting(w) <= w.metrics.bootChanges - w.marked.1)
  }

  /** A sum over the sessions changes by what one session changes. */
  lemma SumsChange(w: World, after: World, i: nat)
    requires |w.sessions| == |after.sessions| == RADIOS && i < RADIOS
    requires after.sessions == w.sessions[i := after.sessions[i]]
    ensures Configured(after) - Configured(w) == Bit(after.sessions[i].configured) - Bit(w.sessions[i].configured)
    ensures Known(after) - Known(w) == Bit(after.sessions[i].reconciled > 0) - Bit(w.sessions[i].reconciled > 0)
    ensures Waiting(after) - Waiting(w) == Bit(!after.sessions[i].started) - Bit(!w.sessions[i].started)
  {
    var (s, t) := (w.sessions, after.sessions);
    assert i != 0 ==> t[0] == s[0];
    assert i != 1 ==> t[1] == s[1];
    assert i != 2 ==> t[2] == s[2];
    assert i != 3 ==> t[3] == s[3];
    hide Bit;
    if i == 0 {
    } else if i == 1 {
    } else if i == 2 {
    } else {
      assert i == 3;
    }
  }

  lemma StepKeeps(w: World, after: World, i: nat)
    requires Inv(w) && i < RADIOS && StepOk(w, after, i)
    ensures Inv(after)
  {
    SumsChange(w, after, i);
    hide Configured, Known, Waiting, SessionOk, Bit;
    forall k | 0 <= k < RADIOS ensures SessionOk(after.sessions[k]) {
      assert SessionOk(w.sessions[k]);
    }
  }

  lemma StopKeeps(w: World, stop: bool)
    requires Inv(w)
    ensures Inv(w.(stop := stop))
  {}

  predicate AllConfigured(w: World) {
    forall k :: 0 <= k < |w.sessions| ==> w.sessions[k].configured
  }

  predicate ConfiguredBelow(w: World, i: nat)
    requires i <= |w.sessions|
  {
    forall k :: 0 <= k < i ==> w.sessions[k].configured
  }

  /** Visiting keeps the invariant; unless it was told to stop, a controller that found
      everything ready has configured every radio. */
  lemma {:induction false} VisitFromKeeps(w: World, i: nat, interval: int, visits: seq<VisitEnv>)
    requires Inv(w) && i <= |visits| == RADIOS
    ensures
      var (after, ready) := VisitFrom(w, i, interval, visits);
      && Inv(after) && after.coordinated == w.coordinated && after.backoff == w.backoff && (w.stop ==> after.stop)
      && (ready && !after.stop && ConfiguredBelow(w, i) ==> AllConfigured(after))
    decreases |visits| - i
  {
    if i < |visits| {
      var looked := w.(stop := w.stop || visits[i].stops);
      StopKeeps(w, looked.stop);
      SessionsOk(looked, i);
      VisitOk(looked, i, interval, visits[i]);
      var (visited, ok) := Visit(looked, i, interval, visits[i]);
      StepKeeps(looked, visited, i);
      StepFrame(looked, visited, i);
      VisitFromKeeps(visited, i + 1, interval, visits);
      hide Visit, Inv, StepOk;
    }
  }

  lemma SessionsOk(w: World, i: nat)
    requires Inv(w) && i < RADIOS
    ensures |w.sessions| == RADIOS && SessionOk(w.sessions[i])
  {}

  lemma StepFrame(w: World, after: World, i: nat)
    requires i < |w.sessions| && StepOk(w, after, i)
    ensures |after.sessions| == |w.sessions| && after.coordinated == w.coordinated && after.backoff == w.backoff
    ensures w.stop ==> after.stop
    ensures ConfiguredBelow(w, i) && after.sessions[i].configured ==> ConfiguredBelow(after, i + 1)
  {}

  // ----- Starting together -----

  /** The sessions are the same but for commands sent. */
  predicate OnlySent(w: World, after: World) {
    && |after.sessions| == |w.sessions|
    && (forall k :: 0 <= k < |w.sessions| ==> after.sessions[k] == w.sessions[k].(sent := after.sessions[k].sent))
    && after.coordinated == w.coordinated && after.marked == w.marked && after.backoff == w.backoff
    && after.metrics == w.metrics.(startsSubmitted := after.metrics.startsSubmitted,
                                   startsAdmitted := after.metrics.startsAdmitted,
                                   protocolFailures := after.metrics.protocolFailures)
  }

  /** The first start from `i` on that is refused, or the number of sessions. */
  function FirstRefused(e: CoordinateEnv, i: nat): (r: nat)
    requires i <= |e.starts|
    ensures i <= r <= |e.starts|
    ensures forall k :: i <= k < r ==> e.starts[k].sent
    ensures r < |e.starts| ==> !e.starts[r].sent
    decreases |e.starts| - i
  {
    if i == |e.starts| || !e.starts[i].sent then i else FirstRefused(e, i + 1)
  }

  /** A start is admitted before its deadline, and before the controller is told to stop. */
  predicate Admitted(stopped: bool, e: CoordinateEnv, i: nat)
    requires i < |e.starts| == |e.inTime|
  {
    e.inTime[i] && e.starts[i].wait.evidence && !e.starts[i].wait.stops && !stopped
  }

  /** The first start from `i` on that is not admitted, or the number of sessions. */
  function FirstLate(stopped: bool, e: CoordinateEnv, i: nat): (r: nat)
    requires i <= |e.starts| == |e.inTime|
    ensures i <= r <= |e.starts|
    ensures forall k :: i <= k < r ==> Admitted(stopped, e, k)
    ensures r < |e.starts| ==> !Admitted(stopped, e, r)
    decreases |e.starts| - i
  {
    if i == |e.starts| || !Admitted(stopped, e, i) then i else FirstLate(stopped, e, i + 1)
  }

  /** One start handed over. */
  function Submitted(w: World, i: nat, e: CoordinateEnv): World
    requires i < |w.sessions|
  {
    var sent := Send(w, i, Start(e.epoch));
    sent.(metrics := sent.metrics.(startsSubmitted := sent.metrics.startsSubmitted + 1))
  }

  lemma SubmitUnfolds(w: World, i: nat, e: CoordinateEnv)
    requires i < |w.sessions| == |e.starts| && e.starts[i].sent
    ensures
      var next := Submitted(w, i, e);
      && |next.sessions| == |w.sessions| && SubmitFrom(w, i, e) == SubmitFrom(next, i + 1, e)
      && OnlySent(w, next) && next.stop == w.stop
      && next.metrics == w.metrics.(startsSubmitted := w.metrics.startsSubmitted + 1)
      && forall k :: 0 <= k < |w.sessions| ==>
        next.sessions[k].sent == w.sessions[k].sent + (if k == i then [Start(e.epoch)] else [])
  {}

  lemma OnlySentOn(a: World, b: World, c: World)
    requires OnlySent(a, b) && OnlySent(b, c)
    ensures OnlySent(a, c)
  {}

  lemma {:induction false} SubmitOk(w: World, i: nat, e: CoordinateEnv)
    requires i <= |w.sessions| == |e.starts|
    ensures
      var (after, ok) := SubmitFrom(w, i, e);
      && OnlySent(w, after) && after.stop == w.stop && after.metrics.startsAdmitted == w.metrics.startsAdmitted
      && after.metrics.startsSubmitted >= w.metrics.startsSubmitted + (if ok then |w.sessions| - i else 0)
    decreases |w.sessions| - i
  {
    if i < |w.sessions| && e.starts[i].sent {
      var next := Submitted(w, i, e);
      SubmitUnfolds(w, i, e);
      SubmitOk(next, i + 1, e);
      OnlySentOn(w, next, SubmitFrom(w, i, e).0);
      hide *;
    }
  }

  /** The starts before the first refused one are sent. */
  lemma {:induction false} SubmitLog(w: World, i: nat, e: CoordinateEnv, k: nat)
    requires i <= |w.sessions| == |e.starts| && k < |w.sessions|
    ensures
      var (after, ok) := SubmitFrom(w, i, e);
      && (ok <==> FirstRefused(e, i) == |w.sessions|)
      && after.sessions[k].sent
         == w.sessions[k].sent + (if i <= k < FirstRefused(e, i) then [Start(e.epoch)] else [])
    decreases |w.sessions| - i
  {
    if i < |w.sessions| && e.starts[i].sent {
      SubmitUnfolds(w, i, e);
      SubmitLog(Submitted(w, i, e), i + 1, e, k);
      assert FirstRefused(e, i) == FirstRefused(e, i + 1);
      hide *;
    }
  }

  lemma {:induction false} CancelOk(w: World, j: nat, n: nat)
    requires j <= n <= |w.sessions|
    ensures
      var after := CancelFrom(w, j, n);
      && after == w.(sessions := after.sessions) && |after.sessions| == |w.sessions|
      && (forall k :: 0 <= k < |w.sessions| ==>
            after.sessions[k]
            == if j <= k < n then w.sessions[k].(sent := w.sessions[k].sent + [Cancel]) else w.sessions[k])
    decreases n - j
  {
    if j < n {
      CancelOk(Send(w, j, Cancel), j + 1, n);
    }
  }

  /** Below `m` the start was cancelled, from there on it was left standing. */
  predicate CancelledBelow(w: World, after: World, m: nat)
    requires |after.sessions| == |w.sessions|
  {
    forall k :: 0 <= k < |w.sessions| ==>
      after.sessions[k].sent == if k < m then w.sessions[k].sent + [Cancel] else w.sessions[k].sent
  }

  function OneAdmitted(w: World): World {
    w.(metrics := w.metrics.(startsAdmitted := w.metrics.startsAdmitted + 1))
  }

  /** The start of session `i` was not admitted. */
  function Late(w: World, i: nat, e: CoordinateEnv): World
    requires i < |e.starts| == |e.inTime|
  {
    ProtocolFailure(w.(stop := w.stop || (e.inTime[i] && e.starts[i].wait.stops)))
  }

  lemma AdmitUnfolds(w: World, i: nat, e: CoordinateEnv)
    requires i < |w.sessions| == |e.starts| == |e.inTime|
    ensures
      AdmitFrom(w, i, e)
      == if Admitted(w.stop, e, i) then AdmitFrom(OneAdmitted(w), i + 1, e)
         else (CancelFrom(Late(w, i, e), 0, i), false)
    ensures Admitted(w.stop, e, i) ==> !w.stop
    ensures
      && Late(w, i, e).sessions == w.sessions && (w.stop ==> Late(w, i, e).stop)
      && OnlySent(w, Late(w, i, e)) && Late(w, i, e).metrics == w.metrics.(protocolFailures := w.metrics.protocolFailures + 1)
  {
    hide CancelFrom;
  }

  lemma {:induction false} AdmitOk(w: World, i: nat, e: CoordinateEnv)
    requires i <= |w.sessions| == |e.starts| == |e.inTime|
    ensures
      var (after, ok) := AdmitFrom(w, i, e);
      && OnlySent(w, after) && (w.stop ==> after.stop) && after.metrics.startsSubmitted == w.metrics.startsSubmitted
      && 0 <= after.metrics.startsAdmitted - w.metrics.startsAdmitted <= |w.sessions| - i
      && (ok ==> after.sessions == w.sessions && (i < |w.sessions| ==> !after.stop))
    decreases |w.sessions| - i
  {
    if i < |w.sessions| {
      AdmitUnfolds(w, i, e);
      if Admitted(w.stop, e, i) {
        AdmitOk(OneAdmitted(w), i + 1, e);
        hide *;
      } else {
        CancelOk(Late(w, i, e), 0, i);
        hide Wait, CancelFrom, AdmitFrom, Admitted, Late;
      }
    }
  }

  lemma {:induction false} AdmitCancels(w: World, i: nat, e: CoordinateEnv)
    requires i <= |w.sessions| == |e.starts| == |e.inTime|
    ensures AdmitFrom(w, i, e).1 <==> FirstLate(w.stop, e, i) == |w.sessions|
    ensures !AdmitFrom(w, i, e).1 ==> CancelledBelow(w, AdmitFrom(w, i, e).0, FirstLate(w.stop, e, i))
    decreases |w.sessions| - i
  {
    if i < |w.sessions| {
      var (waited, ok) := if e.inTime[i] then Wait(w, e.starts[i].wait) else (w, false);
      assert ok <==> Admitted(w.stop, e, i);
      if ok {
        var next := waited.(metrics := waited.metrics.(startsAdmitted := waited.metrics.startsAdmitted + 1));
        AdmitCancels(next, i + 1, e);
      } else {
        CancelOk(ProtocolFailure(waited), 0, i);
      }
    }
  }

  /** The counters of both loops say how far they came. */
  lemma {:induction false} SubmitCounts(w: World, i: nat, e: CoordinateEnv)
    requires i <= |w.sessions| == |e.starts|
    ensures
      var (after, ok) := SubmitFrom(w, i, e);
      after.metrics == w.metrics.(startsSubmitted := w.metrics.startsSubmitted + (FirstRefused(e, i) - i),
                                  protocolFailures := w.metrics.protocolFailures + Bit(!ok))
    decreases |w.sessions| - i
  {
    if i < |w.sessions| && e.starts[i].sent {
      SubmitUnfolds(w, i, e);
      SubmitCounts(Submitted(w, i, e), i + 1, e);
      assert FirstRefused(e, i) == FirstRefused(e, i + 1);
      hide *;
    }
  }

  lemma {:induction false} AdmitCounts(w: World, i: nat, e: CoordinateEnv)
    requires i <= |w.sessions| == |e.starts| == |e.inTime|
    ensures
      var (after, ok) := AdmitFrom(w, i, e);
      after.metrics == w.metrics.(startsAdmitted := w.metrics.startsAdmitted + (FirstLate(w.stop, e, i) - i),
                                  protocolFailures := w.metrics.protocolFailures + Bit(!ok))
    decreases |w.sessions| - i
  {
    if i < |w.sessions| {
      AdmitUnfolds(w, i, e);
      if Admitted(w.stop, e, i) {
        AdmitCounts(OneAdmitted(w), i + 1, e);
        assert FirstLate(w.stop, e, i) == FirstLate(w.stop, e, i + 1);
        hide *;
      } else {
        CancelOk(Late(w, i, e), 0, i);
        hide Wait, CancelFrom, AdmitFrom, Admitted, Late;
      }
    }
  }

  lemma CoordinateCounts(w: World, e: CoordinateEnv)
    requires |w.sessions| == |e.starts| == |e.inTime| == RADIOS
    ensures
      var (after, ok) := Coordinate(w, e);
      var refused := FirstRefused(e, 0);
      after.metrics == w.metrics.(
        startsSubmitted := w.metrics.startsSubmitted + refused,
        startsAdmitted := w.metrics.startsAdmitted + (if refused < RADIOS then 0 else FirstLate(w.stop, e, 0)),
        protocolFailures := w.metrics.protocolFailures + Bit(!ok))
  {
    SubmitOk(w, 0, e);
    SubmitLog(w, 0, e, 0);
    SubmitCounts(w, 0, e);
    AdmitCounts(SubmitFrom(w, 0, e).0, 0, e);
    hide SubmitFrom, AdmitFrom, FirstRefused, FirstLate;
  }

  /** What a failed coordination appends to the commands of session `k`. With a submission
      refused, the starts before it were sent and stay; with all of them sent, those before
      the first one not admitted are cancelled and the others stay. */
  function LeftBehind(stopped: bool, e: CoordinateEnv, k: nat): seq<Command>
    requires k < |e.starts| == |e.inTime|
  {
    var refused := FirstRefused(e, 0);
    if refused < |e.starts| then (if k < refused then [Start(e.epoch)] else [])
    else if k < FirstLate(stopped, e, 0) then [Start(e.epoch), Cancel]
    else [Start(e.epoch)]
  }

  /** Coordination succeeds if and only if every start is sent and admitted in time without a
      stop; then all radios start at the same instant. Otherwise nothing is coordinated and
      every session is left with the commands above. */
  lemma CoordinateExact(w: World, e: CoordinateEnv)
    requires |w.sessions| == |e.starts| == |e.inTime| == RADIOS
    ensures
      var (after, ok) := Coordinate(w, e);
      && (ok <==> forall k :: 0 <= k < RADIOS ==> e.starts[k].sent && Admitted(w.stop, e, k))
      && (ok ==> after.coordinated && !after.stop)
      && (!ok ==> after.coordinated == w.coordinated)
      && (forall k :: 0 <= k < RADIOS ==>
            after.sessions[k]
            == if ok then w.sessions[k].(started := true, sent := w.sessions[k].sent + [Start(e.epoch)])
               else w.sessions[k].(sent := w.sessions[k].sent + LeftBehind(w.stop, e, k)))
  {
    SubmitOk(w, 0, e);
    forall k: nat | k < RADIOS
      ensures
        var (after, ok) := SubmitFrom(w, 0, e);
        && (ok <==> FirstRefused(e, 0) == RADIOS)
        && after.sessions[k].sent == w.sessions[k].sent + (if k < FirstRefused(e, 0) then [Start(e.epoch)] else [])
    {
      SubmitLog(w, 0, e, k);
    }
    var (submitted, sent) := SubmitFrom(w, 0, e);
    hide SubmitFrom, AdmitFrom;
    if sent {
      AdmitOk(submitted, 0, e);
      AdmitCancels(submitted, 0, e);
      var (admitted, ok) := AdmitFrom(submitted, 0, e);
      if !ok {
        forall k | 0 <= k < RADIOS
          ensures admitted.sessions[k] == w.sessions[k].(sent := w.sessions[k].sent + LeftBehind(w.stop, e, k))
        {
          CancelledLog(w.sessions[k].sent, e.epoch);
        }
      }
    }
  }

  lemma CancelledLog(sent: seq<Command>, epoch: int)
    ensures sent + [Start(epoch)] + [Cancel] == sent + [Start(epoch), Cancel]
  {}

  /** After a failed coordination some radio is left with a start that nobody cancelled if and
      only if the very first one was sent. */
  lemma StartLeftStanding(w: World, e: CoordinateEnv)
    requires |w.sessions| == |e.starts| == |e.inTime| == RADIOS && !Coordinate(w, e).1
    ensures
      var after := Coordinate(w, e).0;
      (exists k :: 0 <= k < RADIOS && after.sessions[k].sent == w.sessions[k].sent + [Start(e.epoch)])
      <==> e.starts[0].sent
  {
    CoordinateExact(w, e);
    var after := Coordinate(w, e).0;
    var (refused, late) := (FirstRefused(e, 0), FirstLate(w.stop, e, 0));
    hide Coordinate, FirstRefused, FirstLate;
    if e.starts[0].sent {
      var k := if refused < RADIOS then 0 else late;
      assert LeftBehind(w.stop, e, k) == [Start(e.epoch)];
      assert after.sessions[k].sent == w.sessions[k].sent + [Start(e.epoch)];
    } else {
      assert forall k :: 0 <= k < RADIOS ==> LeftBehind(w.stop, e, k) == [];
      assert forall k :: 0 <= k < RADIOS ==> after.sessions[k].sent == w.sessions[k].sent + [];
      assert forall k :: 0 <= k < RADIOS ==> |after.sessions[k].sent| == |w.sessions[k].sent|;
    }
  }

  lemma OnlySentKeeps(w: World, after: World)
    requires Inv(w) && !w.coordinated && OnlySent(w, after) && after.metrics.startsAdmitted <= after.metrics.startsSubmitted
    ensures Inv(after) && (AllConfigured(w) ==> AllConfigured(after))
  {
    forall k | 0 <= k < RADIOS ensures SessionOk(after.sessions[k]) {
      assert SessionOk(w.sessions[k]);
    }
  }

  lemma AllStartedKeeps(w: World)
    requires Inv(w) && AllConfigured(w)
    ensures Inv(AllStarted(w))
  {
    forall k | 0 <= k < RADIOS ensures SessionOk(AllStarted(w).sessions[k]) {
      assert SessionOk(w.sessions[k]);
    }
  }

  lemma CoordinateKeeps(w: World, e: CoordinateEnv)
    requires Inv(w) && !w.coordinated && |e.starts| == |e.inTime| == RADIOS && (w.stop || AllConfigured(w))
    ensures
      var (after, ok) := Coordinate(w, e);
      Inv(after) && after.backoff == w.backoff && (w.stop ==> after.stop)
  {
    SubmitOk(w, 0, e);
    var (submitted, sent) := SubmitFrom(w, 0, e);
    OnlySentKeeps(w, submitted);
    if sent {
      AdmitOk(submitted, 0, e);
      var (admitted, ok) := AdmitFrom(submitted, 0, e);
      OnlySentKeeps(submitted, admitted);
      if ok {
        AllStartedKeeps(admitted);
      }
    }
    hide SubmitFrom, AdmitFrom, Inv;
  }

  // ----- Every run -----

  lemma PassKeeps(w: World, interval: int, maximum: int, e: PassEnv)
    requires Inv(w) && e.Complete()
    ensures Inv(Pass(w, interval, maximum, e)) && (w.stop ==> Pass(w, interval, maximum, e).stop)
  {
    VisitFromKeeps(w, 0, interval, e.visits);
    var (visited, ready) := VisitFrom(w, 0, interval, e.visits);
    assert ConfiguredBelow(w, 0);
    if ready && !visited.coordinated {
      CoordinateKeeps(visited, e.coordinate);
    }
    hide VisitFrom, Coordinate, AllConfigured;
    var after := Pass(w, interval, maximum, e);
    var before := if ready && !visited.coordinated then Coordinate(visited, e.coordinate).0 else visited;
    CountersKeep(before, after);
  }

  lemma CountersKeep(w: World, after: World)
    requires Inv(w)
    requires after == w.(metrics := w.metrics.(protocolFailures := after.metrics.protocolFailures), backoff := after.backoff)
    ensures Inv(after)
  {}

  /** The loop ends when it finds that the controller was told to stop. */
  ghost function Run(interval: int, maximum: int, passes: seq<PassEnv>): (w: World)
    requires forall p :: p in passes ==> p.Complete()
    ensures Inv(w)
  {
    if passes == [] then Fresh()
    else
      var before := Run(interval, maximum, passes[..|passes| - 1]);
      PassKeeps(before, interval, maximum, passes[|passes| - 1]);
      if before.stop then before else Pass(before, interval, maximum, passes[|passes| - 1])
  }

  /** Whatever the radios and the network do, and whenever the controller is told to stop:
      a started radio is configured; there are at most four configurations besides those
      after boot changes; at most four first connections; every connection has an attempt;
      and once coordinated, no more starts are admitted than boots changed. */
  lemma ControllerBounds(interval: int, maximum: int, passes: seq<PassEnv>)
    requires forall p :: p in passes ==> p.Complete()
    ensures
      var w := Run(interval, maximum, passes);
      && (forall i :: 0 <= i < RADIOS ==> w.sessions[i].started ==> w.sessions[i].configured)
      && w.metrics.configurations <= RADIOS + w.metrics.bootChanges
      && w.metrics.connections <= RADIOS
      && w.metrics.connections + w.metrics.reconnects <= w.metrics.attempts
      && w.metrics.startsAdmitted <= w.metrics.startsSubmitted
      && (w.coordinated ==> w.metrics.startsAdmitted - w.marked.0 <= w.metrics.bootChanges - w.marked.1)
  {
    var w := Run(interval, maximum, passes);
    forall i | 0 <= i < RADIOS ensures w.sessions[i].started ==> w.sessions[i].configured {
      assert SessionOk(w.sessions[i]);
    }
    hide Run;
  }

  /** The pause doubles after every pass that was not all well, up to the maximum, and is
      short again after one that was. */
  lemma {:induction false} PauseBounded(interval: int, maximum: int, passes: seq<PassEnv>)
    requires maximum > 0 && forall p :: p in passes ==> p.Complete()
    ensures 0 < Run(interval, maximum, passes).backoff
    ensures Run(interval, maximum, passes).backoff <= if maximum > FIRST_BACKOFF then maximum else FIRST_BACKOFF
  {
    if passes != [] {
      var (shorter, e) := (passes[..|passes| - 1], passes[|passes| - 1]);
      assert e in passes;
      PauseBounded(interval, maximum, shorter);
      PassPause(Run(interval, maximum, shorter), interval, maximum, e);
      hide Pass, Inv;
    }
  }

  lemma PassPause(w: World, interval: int, maximum: int, e: PassEnv)
    requires Inv(w) && e.Complete()
    ensures Pass(w, interval, maximum, e).backoff in {FIRST_BACKOFF, NextBackoff(w.backoff, maximum)}
  {
    VisitFromKeeps(w, 0, interval, e.visits);
    var (visited, ready) := VisitFrom(w, 0, interval, e.visits);
    assert ConfiguredBelow(w, 0);
    if ready && !visited.coordinated {
      CoordinateKeeps(visited, e.coordinate);
    }
    hide VisitFrom, Coordinate, AllConfigured, Inv;
  }

  /** The session keeps its flags and sends at most one status query. */
  predicate Quiet(before: Session, after: Session) {
    && (before.configured ==> after.configured) && (before.started ==> after.started)
    && (after.sent == before.sent || after.sent == before.sent + [QueryStatus])
  }

  lemma QuietReconcile(w: World, i: nat, e: ReconcileEnv)
    requires i < |w.sessions| && SessionOk(w.sessions[i])
    ensures
      var after := Reconcile(w, i, e).0;
      && after.metrics.bootChanges >= w.metrics.bootChanges
      && (after.metrics.bootChanges == w.metrics.bootChanges ==> Quiet(w.sessions[i], after.sessions[i]))
  {
    hide Reconcile, Asked, Ask, Reconciled, StepOk;
    var asked := Asked(w, i, e);
    AskedOk(w, i, e);
    AskOk(asked, i, QueryStatus, e.query);
    AskSends(asked, i, QueryStatus, e.query);
    var queried := Ask(asked, i, QueryStatus, e.query).0;
    assert Quiet(w.sessions[i], asked.sessions[i]) && Quiet(w.sessions[i], queried.sessions[i]);
    assert asked.metrics.bootChanges == queried.metrics.bootChanges == w.metrics.bootChanges;
    if e.after.Some? {
      QuietReconciled(queried, i, e.after.value, e);
    }
    ReconcileCases(w, i, e);
  }

  lemma AskSends(w: World, i: nat, c: Command, e: CommandEnv)
    requires i < |w.sessions|
    ensures
      var after := Ask(w, i, c, e).0;
      after.sessions[i].sent == w.sessions[i].sent || after.sessions[i].sent == w.sessions[i].sent + [c]
  {}

  lemma QuietReconciled(w: World, i: nat, after: Status, e: ReconcileEnv)
    requires i < |w.sessions|
    ensures
      var r := Reconciled(w, i, after, e);
      && r.metrics.bootChanges >= w.metrics.bootChanges
      && (r.metrics.bootChanges == w.metrics.bootChanges ==>
            && r.sessions[i].sent == w.sessions[i].sent
            && r.sessions[i].configured == w.sessions[i].configured && r.sessions[i].started == w.sessions[i].started)
  {}

  lemma QuietServe(w: World, i: nat, interval: int, e: VisitEnv)
    requires i < |w.sessions| && w.sessions[i].configured && w.sessions[i].started
    ensures
      var after := Serve(w, i, interval, e).0;
      after.metrics.bootChanges == w.metrics.bootChanges && Quiet(w.sessions[i], after.sessions[i])
  {
    hide ConfigureRadio, Restart;
  }

  /** A visit to a radio that is configured and started, and did not boot again, sends it
      nothing but status queries, however often the connection was lost. */
  lemma QuietReconnect(w: World, i: nat, interval: int, e: VisitEnv)
    requires i < |w.sessions| && SessionOk(w.sessions[i]) && w.sessions[i].started
    requires Visit(w, i, interval, e).0.metrics.bootChanges == w.metrics.bootChanges
    ensures
      var (before, after) := (w.sessions[i], Visit(w, i, interval, e).0.sessions[i]);
      && after.configured && after.started
      && (|| after.sent == before.sent || after.sent == before.sent + [QueryStatus]
          || after.sent == before.sent + [QueryStatus, QueryStatus])
  {
    var looked := Put(w, i, Drifted(w.sessions[i], e.drift));
    var (owned, ok) := if NeedsReconcile(looked.sessions[i]) then Reconcile(looked, i, e.reconcile) else (looked, true);
    DriftOk(w, i, e.drift);
    QuietDrift(w, i, e.drift);
    QuietReconcile(looked, i, e.reconcile);
    VisitIs(w, i, interval, e);
    if owned.sessions[i].configured && owned.sessions[i].started {
      QuietServe(owned, i, interval, e);
    }
    ReconcileOk(looked, i, e.reconcile);
    StepNothing(looked, i);
    assert StepOk(looked, owned, i);
    if ok {
      ServeOk(owned, i, interval, e);
      BootsGrow(owned, Serve(owned, i, interval, e).0, i);
    }
    hide Visit, Reconcile, Serve, Drifted, StepOk, NeedsReconcile;
  }

  lemma BootsGrow(w: World, after: World, i: nat)
    requires i < |w.sessions| && StepOk(w, after, i)
    ensures w.metrics.bootChanges <= after.metrics.bootChanges
  {}

  lemma QuietDrift(w: World, i: nat, d: Drift)
    requires i < |w.sessions|
    ensures
      var (before, after) := (w.sessions[i], Put(w, i, Drifted(w.sessions[i], d)));
      && after.metrics == w.metrics && after.sessions[i].sent == before.sent
      && after.sessions[i].configured == before.configured && after.sessions[i].started == before.started
  {}
}
