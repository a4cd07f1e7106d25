/** What each step of the processor's controller does, and when it succeeds. */
module ControllerEffects {
  import opened SpectrumTypes
  import opened ControllerSteps
  import opened ControllerSafety

  /** Reconciling succeeds if and only if the radio reported ready, a new connection came up,
      the second snapshot shows the same boot and association and an active slot of a new
      generation, the command floor was raised, and the radio answered a status query before
      the controller was told to stop. */
  lemma ReconcileSucceeds(w: World, i: nat, e: ReconcileEnv)
    requires i < |w.sessions|
    ensures
      Reconcile(w, i, e).1
      <==>
      && e.before.Some? && e.before.value.ready
      && e.progressed && e.waiting.connections > 0 && e.waiting.connected
      && e.after.Some? && e.after.value.bootId == e.before.value.bootId
      && e.after.value.association == e.before.value.association
      && e.after.value.active && e.after.value.generation.Some? && e.after.value.generation != e.before.value.generation
      && e.resumed && e.query.sent && e.query.wait.evidence && !e.query.wait.stops && !w.stop
  {
    hide Reconciled, StatusFailure, ProtocolFailure;
  }

  /** The radio and the connection are remembered; a changed boot, and nothing else, clears
      what was configured and started. */
  predicate Remembered(w: World, after: World, i: nat, status: Status, now: int)
    requires i < |w.sessions| == |after.sessions|
  {
    var (s, t) := (w.sessions[i], after.sessions[i]);
    var booted := s.status.Some? && s.status.value.bootId != status.bootId;
    && t.status == Some(status) && t.reconciled == t.generation && t.failures == 0 && t.lastLiveness == now
    && (t.configured <==> s.configured && !booted) && (t.started <==> s.started && !booted)
    && after.metrics.bootChanges == w.metrics.bootChanges + Bit(booted)
    && after.metrics.connections == w.metrics.connections + Bit(t.generation <= 1)
    && after.metrics.reconnects == w.metrics.reconnects + Bit(t.generation > 1)
  }

  /** Nothing is remembered that was not before. */
  predicate NothingNew(w: World, after: World, i: nat)
    requires i < |w.sessions| == |after.sessions|
  {
    var (s, t) := (w.sessions[i], after.sessions[i]);
    && t == s.(connected := t.connected, generation := t.generation, sent := t.sent)
    && after.metrics.bootChanges == w.metrics.bootChanges && after.metrics.connections == w.metrics.connections
    && after.metrics.reconnects == w.metrics.reconnects
  }

  lemma ReconcileRemembers(w: World, i: nat, e: ReconcileEnv)
    requires i < |w.sessions|
    ensures
      var (after, ok) := Reconcile(w, i, e);
      if ok then e.after.Some? && Remembered(w, after, i, e.after.value, e.now) else NothingNew(w, after, i)
  {
    var asked := Asked(w, i, e);
    AskedShape(w, i, e);
    AskShape(asked, i, QueryStatus, e.query);
    var queried := Ask(asked, i, QueryStatus, e.query).0;
    FailureShape(w, w, i);
    FailureShape(w, asked, i);
    FailureShape(w, queried, i);
    if e.after.Some? {
      ReconciledShape(w, queried, i, e.after.value, e);
    }
    ReconcileCases(w, i, e);
    hide *;
  }

  lemma FailureShape(w: World, after: World, i: nat)
    requires i < |w.sessions| == |after.sessions|
    requires NothingNew(w, after, i)
    ensures |StatusFailure(after).sessions| == |ProtocolFailure(after).sessions| == |after.sessions|
    ensures NothingNew(w, StatusFailure(after), i) && NothingNew(w, ProtocolFailure(after), i)
  {}

  lemma AskedShape(w: World, i: nat, e: ReconcileEnv)
    requires i < |w.sessions|
    ensures
      var (asked, s) := (Asked(w, i, e), w.sessions[i]);
      && |asked.sessions| == |w.sessions|
      && asked.sessions[i] == s.(connected := asked.sessions[i].connected, generation := asked.sessions[i].generation)
      && asked.metrics == w.metrics.(attempts := w.metrics.attempts + 1)
  {}

  lemma AskShape(w: World, i: nat, c: Command, e: CommandEnv)
    requires i < |w.sessions|
    ensures
      var (after, ok) := Ask(w, i, c, e);
      && after.sessions == w.sessions[i := after.sessions[i]] && after.metrics == w.metrics
      && after.sessions[i]
         == w.sessions[i].(sent := if e.sent then w.sessions[i].sent + [c] else w.sessions[i].sent)
      && (ok <==> e.sent && e.wait.evidence && !e.wait.stops && !w.stop)
  {}

  lemma ReconciledShape(w: World, queried: World, i: nat, after: Status, e: ReconcileEnv)
    requires i < |w.sessions| == |queried.sessions| && NothingNew(w, queried, i)
    ensures Remembered(w, Reconciled(queried, i, after, e), i, after, e.now)
  {}

  /** A radio known to be streaming is told to stop first, and is configured only once it
      said that it did. */
  lemma ConfigureQuiesces(w: World, i: nat, e: ConfigureEnv)
    requires i < |w.sessions| && w.sessions[i].status.Some? && w.sessions[i].status.value.streaming
    ensures
      var (after, ok) := ConfigureRadio(w, i, e);
      var (s, t) := (w.sessions[i], after.sessions[i]);
      var quiet := e.stopping.sent && e.stopping.wait.evidence && !e.stopping.wait.stops && !w.stop;
      && t.sent == s.sent + (if e.stopping.sent then [Stop] else [])
                   + (if quiet && e.configuring.sent then [Configure] else [])
      && (ok ==> quiet && e.configuring.sent && t.configured)
      && (t.status.Some? && (t.status.value.streaming <==> !quiet))
  {
    AskShape(w, i, Stop, e.stopping);
    var stopped := Ask(w, i, Stop, e.stopping).0;
    var quiesced := Put(stopped, i, Quiesced(stopped.sessions[i]));
    AskShape(quiesced, i, Configure, e.configuring);
    var sent := Ask(quiesced, i, Configure, e.configuring).0;
    ConfigureCases(w, i, e);
    hide Ask, ConfigureRadio;
    assert stopped.sessions[i].sent == stopped.sessions[i].sent + [];
  }

  /** A radio that is not is configured at once. */
  lemma ConfigureDirectly(w: World, i: nat, e: ConfigureEnv)
    requires i < |w.sessions| && !(w.sessions[i].status.Some? && w.sessions[i].status.value.streaming)
    ensures
      var (after, ok) := ConfigureRadio(w, i, e);
      var (s, t) := (w.sessions[i], after.sessions[i]);
      && t.sent == (if e.configuring.sent then s.sent + [Configure] else s.sent) && t.status == s.status
      && (ok <==> e.configuring.sent && e.configuring.wait.evidence && !e.configuring.wait.stops && !w.stop)
      && t.configured == (s.configured || ok)
      && after.metrics.configurations == w.metrics.configurations + Bit(ok)
      && after.metrics.protocolFailures == w.metrics.protocolFailures + Bit(!ok)
  {
    AskShape(w, i, Configure, e.configuring);
    ConfigureCases(w, i, e);
    hide Ask, ConfigureRadio;
  }

  /** A restart is asked for at most once, and the session is started exactly when the radio
      accepted it in time. */
  lemma RestartAdmits(w: World, i: nat, e: RestartEnv)
    requires i < |w.sessions| && !w.sessions[i].started
    ensures
      var (after, ok) := Restart(w, i, e);
      var (s, t) := (w.sessions[i], after.sessions[i]);
      && (ok <==> e.start.sent && e.inTime && e.start.wait.evidence && !e.start.wait.stops && !w.stop)
      && t.started == ok
      && t.sent == (if e.start.sent then s.sent + [Start(e.epoch)] else s.sent)
      && after.metrics.startsAdmitted == w.metrics.startsAdmitted + Bit(ok)
      && after.metrics.startsSubmitted == w.metrics.startsSubmitted + Bit(e.start.sent)
      && after.metrics.protocolFailures == w.metrics.protocolFailures + Bit(!ok)
  {}

  /** A radio that was quiet for the interval is asked for its status. One that does not answer
      loses its connection, and whatever the transport does then, the next visit reconciles. */
  lemma LivenessForcesReconcile(w: World, i: nat, interval: int, e: LivenessEnv, d: Drift)
    requires i < |w.sessions| && SessionOk(w.sessions[i])
    ensures
      var (after, ok) := Liveness(w, i, interval, e);
      && (e.now - w.sessions[i].lastLiveness < interval ==> after == w && ok)
      && (!ok ==> NeedsReconcile(Drifted(after.sessions[i], d)))
      && after.sessions[i].configured == w.sessions[i].configured && after.sessions[i].started == w.sessions[i].started
  {
    AskOk(w, i, QueryStatus, e.query);
    hide Ask, SessionOk, Accounted;
  }
}
