/** What a turn of the controller does for a radio it owns: set it up, start it again, and ask
    whether it lives. */
module ControllerService {
  import opened ControllerSteps
  import opened ControllerSafety
  import opened ControllerEffects

  /** A command was sent and its evidence came before the controller was told to stop. */
  predicate Answered(c: CommandEnv) {
    c.sent && c.wait.evidence && !c.wait.stops
  }

  predicate Streaming(u: Session) {
    u.status.Some? && u.status.value.streaming
  }

  /** A radio that streams must have stopped first. */
  predicate Quieted(u: Session, e: ConfigureEnv) {
    Streaming(u) ==> Answered(e.stopping)
  }

  predicate SetUp(u: Session, e: ConfigureEnv) {
    u.configured || (Quieted(u, e) && Answered(e.configuring))
  }

  function SetupLog(u: Session, e: ConfigureEnv): seq<Command> {
    if u.configured then []
    else (if Streaming(u) && e.stopping.sent then [Stop] else [])
         + (if Quieted(u, e) && e.configuring.sent then [Configure] else [])
  }

  /** The others have been started together, and this radio is not streaming with them. */
  predicate Straggles(u: Session, coordinated: bool) {
    coordinated && !u.started
  }

  predicate Admits(e: RestartEnv) {
    Answered(e.start) && e.inTime
  }

  /** The controller is told to stop while it waits for the start. */
  predicate StopsWaiting(u: Session, coordinated: bool, e: RestartEnv) {
    Straggles(u, coordinated) && e.start.sent && e.inTime && e.start.wait.stops
  }

  /** The radio was quiet for the interval. */
  predicate Due(u: Session, interval: int, e: LivenessEnv) {
    e.now - u.lastLiveness >= interval
  }

  /** The turn of a session that is owned. A radio that is not set up gets its configuration;
      once it is set up, it is started when the others were and it was not, and asked for its
      status when it was quiet for the interval. */
  predicate Served(u: Session, t: Session, ready: bool, coordinated: bool, interval: int, e: VisitEnv) {
    && (t.configured <==> SetUp(u, e.configure))
    && if !SetUp(u, e.configure) then
         !ready && t.started == u.started && t.sent == u.sent + SetupLog(u, e.configure)
       else
         var (restarts, due) := (Straggles(u, coordinated), Due(u, interval, e.liveness));
         var lives := Answered(e.liveness.query) && !StopsWaiting(u, coordinated, e.restart);
         && t.started == (u.started || (restarts && Admits(e.restart)))
         && t.sent == u.sent + SetupLog(u, e.configure)
                      + (if restarts && e.restart.start.sent then [Start(e.restart.epoch)] else [])
                      + (if due && e.liveness.query.sent then [QueryStatus] else [])
         && (ready <==> (restarts ==> Admits(e.restart)) && (due ==> lives))
         && t.lastLiveness == (if due && lives then e.liveness.later else u.lastLiveness)
         && (due && !lives ==> !t.connected)
  }

  /** What such a turn counts. */
  predicate Tallied(m: Metrics, n: Metrics, u: Session, coordinated: bool, interval: int, e: VisitEnv) {
    var ready := SetUp(u, e.configure);
    var (restarts, due) := (ready && Straggles(u, coordinated), ready && Due(u, interval, e.liveness));
    var lives := Answered(e.liveness.query) && !StopsWaiting(u, coordinated, e.restart);
    n == m.(configurations := m.configurations + Bit(!u.configured && ready),
            startsSubmitted := m.startsSubmitted + Bit(restarts && e.restart.start.sent),
            startsAdmitted := m.startsAdmitted + Bit(restarts && Admits(e.restart)),
            protocolFailures := m.protocolFailures + Bit(!ready) + Bit(restarts && !Admits(e.restart)) + Bit(due && !lives))
  }

  // ----- The parts of a turn -----

  /** What configuring leaves behind. */
  predicate ConfiguredAs(w: World, after: World, ok: bool, i: nat, e: ConfigureEnv)
    requires i < |w.sessions| == |after.sessions|
  {
    var (s, t) := (w.sessions[i], after.sessions[i]);
    && (ok <==> SetUp(s, e)) && t.configured == ok && after.coordinated == w.coordinated && (ok ==> !after.stop)
    && t.sent == s.sent + SetupLog(s, e)
    && t.started == s.started && t.lastLiveness == s.lastLiveness && t.connected == s.connected
    && after.metrics == w.metrics.(configurations := w.metrics.configurations + Bit(ok),
                                   protocolFailures := w.metrics.protocolFailures + Bit(!ok))
  }

  lemma ConfigurePart(w: World, i: nat, e: ConfigureEnv)
    requires i < |w.sessions| && !w.stop && !w.sessions[i].configured
    ensures ConfiguredAs(w, ConfigureRadio(w, i, e).0, ConfigureRadio(w, i, e).1, i, e)
  {
    hide *;
    if Streaming(w.sessions[i]) {
      ConfigureStreaming(w, i, e);
    } else {
      ConfigureIdle(w, i, e);
    }
  }

  lemma ConfigureIdle(w: World, i: nat, e: ConfigureEnv)
    requires i < |w.sessions| && !w.stop && !w.sessions[i].configured && !Streaming(w.sessions[i])
    ensures ConfiguredAs(w, ConfigureRadio(w, i, e).0, ConfigureRadio(w, i, e).1, i, e)
  {
    hide Ask, ConfigureRadio, Answered;
    AskPart(w, i, Configure, e.configuring);
    StopFlag(e.configuring);
    ConfigureCases(w, i, e);
  }

  lemma ConfigureStreaming(w: World, i: nat, e: ConfigureEnv)
    requires i < |w.sessions| && !w.stop && !w.sessions[i].configured && Streaming(w.sessions[i])
    ensures ConfiguredAs(w, ConfigureRadio(w, i, e).0, ConfigureRadio(w, i, e).1, i, e)
  {
    hide Ask, ConfigureRadio, Answered;
    AskPart(w, i, Stop, e.stopping);
    StopFlag(e.stopping);
    var (stopped, quiet) := Ask(w, i, Stop, e.stopping);
    if quiet {
      var quiesced := Put(stopped, i, Quiesced(stopped.sessions[i]));
      AskPart(quiesced, i, Configure, e.configuring);
      StopFlag(e.configuring);
      LogTwice(w.sessions[i].sent, e);
    }
    ConfigureCases(w, i, e);
  }

  lemma LogTwice(sent: seq<Command>, e: ConfigureEnv)
    ensures sent + [Stop] + [Configure] == sent + ([Stop] + [Configure])
    ensures sent + [Stop] + [] == sent + ([Stop] + [])
  {}

  lemma StopFlag(c: CommandEnv)
    ensures Answered(c) ==> c.sent && !c.wait.stops
  {}

  lemma AskPart(w: World, i: nat, c: Command, e: CommandEnv)
    requires i < |w.sessions|
    ensures
      var (after, ok) := Ask(w, i, c, e);
      && after == w.(sessions := w.sessions[i := after.sessions[i]], stop := w.stop || (e.sent && e.wait.stops))
      && after.sessions[i] == w.sessions[i].(sent := w.sessions[i].sent + (if e.sent then [c] else []))
      && (ok <==> Answered(e) && !w.stop)
  {}

  lemma RestartPart(w: World, i: nat, e: RestartEnv)
    requires i < |w.sessions| && !w.stop && !w.sessions[i].started
    ensures
      var (after, ok) := Restart(w, i, e);
      var (s, t) := (w.sessions[i], after.sessions[i]);
      && (ok <==> Admits(e)) && (after.stop <==> e.start.sent && e.inTime && e.start.wait.stops)
      && t == s.(started := ok, sent := s.sent + (if e.start.sent then [Start(e.epoch)] else []))
      && after.metrics == w.metrics.(startsSubmitted := w.metrics.startsSubmitted + Bit(e.start.sent),
                                     startsAdmitted := w.metrics.startsAdmitted + Bit(ok),
                                     protocolFailures := w.metrics.protocolFailures + Bit(!ok))
  {}

  lemma LivenessPart(w: World, i: nat, interval: int, e: LivenessEnv)
    requires i < |w.sessions|
    ensures
      var (after, ok) := Liveness(w, i, interval, e);
      var (s, t, lives) := (w.sessions[i], after.sessions[i], Answered(e.query) && !w.stop);
      && (ok <==> (Due(s, interval, e) ==> lives))
      && t.configured == s.configured && t.started == s.started
      && t.sent == s.sent + (if Due(s, interval, e) && e.query.sent then [QueryStatus] else [])
      && t.lastLiveness == (if Due(s, interval, e) && lives then e.later else s.lastLiveness)
      && (Due(s, interval, e) && !lives ==> !t.connected)
      && after.metrics == w.metrics.(protocolFailures := w.metrics.protocolFailures + Bit(!ok))
  {
    AskPart(w, i, QueryStatus, e.query);
    hide Ask;
  }

  lemma ServePart(w: World, i: nat, interval: int, e: VisitEnv)
    requires i < |w.sessions| && !w.stop
    ensures Served(w.sessions[i], Serve(w, i, interval, e).0.sessions[i], Serve(w, i, interval, e).1, w.coordinated, interval, e)
  {
    hide ConfigureRadio, Restart, Liveness, SetupLog, SetUp, Answered, Admits, StopsWaiting, Due, Streaming, Quieted;
    var u := w.sessions[i];
    var setup := SetupLog(u, e.configure);
    NothingToSetUp(u, e.configure);
    if !u.configured {
      ConfigurePart(w, i, e.configure);
    }
    var a := if u.configured then w else ConfigureRadio(w, i, e.configure).0;
    assert a.sessions[i].sent == u.sent + setup;
    var restarts := Straggles(a.sessions[i], a.coordinated) && a.sessions[i].configured;
    if restarts {
      RestartPart(a, i, e.restart);
    }
    var b := if restarts then Restart(a, i, e.restart).0 else a;
    StopsIs(u, w.coordinated, e.restart);
    LivenessPart(b, i, interval, e.liveness);
    DueIs(u, b.sessions[i], interval, e.liveness);
  }

  lemma ServeCounted(w: World, i: nat, interval: int, e: VisitEnv)
    requires i < |w.sessions| && !w.stop
    ensures Tallied(w.metrics, Serve(w, i, interval, e).0.metrics, w.sessions[i], w.coordinated, interval, e)
  {
    hide ConfigureRadio, Restart, Liveness, SetupLog, SetUp, Answered, Admits, StopsWaiting, Due, Streaming, Quieted;
    var u := w.sessions[i];
    NothingToSetUp(u, e.configure);
    if !u.configured {
      ConfigurePart(w, i, e.configure);
    }
    var a := if u.configured then w else ConfigureRadio(w, i, e.configure).0;
    var restarts := Straggles(a.sessions[i], a.coordinated) && a.sessions[i].configured;
    if restarts {
      RestartPart(a, i, e.restart);
    }
    var b := if restarts then Restart(a, i, e.restart).0 else a;
    StopsIs(u, w.coordinated, e.restart);
    LivenessPart(b, i, interval, e.liveness);
    DueIs(u, b.sessions[i], interval, e.liveness);
  }

  lemma NothingToSetUp(u: Session, e: ConfigureEnv)
    ensures u.configured ==> SetUp(u, e) && SetupLog(u, e) == [] && u.sent + [] == u.sent
  {}

  lemma StopsIs(u: Session, coordinated: bool, e: RestartEnv)
    ensures StopsWaiting(u, coordinated, e) <==> Straggles(u, coordinated) && e.start.sent && e.inTime && e.start.wait.stops
  {}

  lemma DueIs(u: Session, v: Session, interval: int, e: LivenessEnv)
    requires u.lastLiveness == v.lastLiveness
    ensures Due(u, interval, e) <==> Due(v, interval, e)
  {}

  // ----- A turn -----

  /** Nothing happened to the connection the session was reconciled on. */
  predicate StillOwned(s: Session, d: Drift) {
    s.connected && s.generation == s.reconciled && d.connections == 0 && d.connected
  }

  /** The session after a successful reconcile: it asked for the radio's status, and only a
      changed boot clears what was configured and started. */
  predicate Reconnected(s: Session, u: Session, e: ReconcileEnv)
    requires e.after.Some?
  {
    var booted := s.status.Some? && s.status.value.bootId != e.after.value.bootId;
    && u.sent == s.sent + [QueryStatus] && u.status == e.after && u.lastLiveness == e.now
    && (u.configured <==> s.configured && !booted) && (u.started <==> s.started && !booted)
  }

  /** Every turn of a controller that was not told to stop: a session still owned is served at
      once, another one when it could be reconciled. */
  lemma TurnServes(w: World, i: nat, interval: int, e: VisitEnv)
    requires i < |w.sessions| && SessionOk(w.sessions[i]) && !w.stop
    ensures
      var (after, ready) := Visit(w, i, interval, e);
      var (s, t) := (w.sessions[i], after.sessions[i]);
      var (owned, ok) := Reconcile(Put(w, i, Drifted(s, e.drift)), i, e.reconcile);
      if StillOwned(s, e.drift) then
        && Served(s, t, ready, w.coordinated, interval, e)
        && Tallied(w.metrics, after.metrics, s, w.coordinated, interval, e)
      else if ok then
        && e.reconcile.after.Some? && Reconnected(s, owned.sessions[i], e.reconcile)
        && Served(owned.sessions[i], t, ready, w.coordinated, interval, e)
        && Tallied(owned.metrics, after.metrics, owned.sessions[i], w.coordinated, interval, e)
      else
        && after.metrics == owned.metrics
        && !ready && t.configured == s.configured && t.started == s.started && t.failures == s.failures + 1
        && (t.sent == s.sent || t.sent == s.sent + [QueryStatus])
  {
    hide *;
    var (s, looked) := (w.sessions[i], Put(w, i, Drifted(w.sessions[i], e.drift)));
    TurnCases(w, i, interval, e);
    var (owned, ok) := Reconcile(looked, i, e.reconcile);
    if StillOwned(s, e.drift) {
      ServePart(w, i, interval, e);
      ServeCounted(w, i, interval, e);
    } else {
      ReconcilePart(looked, i, e.reconcile);
      SameSession(s, looked.sessions[i], owned.sessions[i], e.reconcile);
      if ok {
        ServePart(owned, i, interval, e);
        ServeCounted(owned, i, interval, e);
      } else {
        FailureCounted(owned, i);
      }
    }
  }

  lemma TurnCases(w: World, i: nat, interval: int, e: VisitEnv)
    requires i < |w.sessions| && SessionOk(w.sessions[i])
    ensures
      var (s, looked) := (w.sessions[i], Put(w, i, Drifted(w.sessions[i], e.drift)));
      var (owned, ok) := Reconcile(looked, i, e.reconcile);
      && looked.stop == w.stop && looked.coordinated == w.coordinated
      && looked.sessions[i] == s.(connected := looked.sessions[i].connected, generation := looked.sessions[i].generation)
      && Visit(w, i, interval, e)
         == if StillOwned(s, e.drift) then Serve(w, i, interval, e)
            else if ok then Serve(owned, i, interval, e)
            else (Put(owned, i, owned.sessions[i].(failures := owned.sessions[i].failures + 1)), false)
  {
    var looked := Put(w, i, Drifted(w.sessions[i], e.drift));
    NeedsIs(w.sessions[i], e.drift);
    VisitIs(w, i, interval, e);
    assert StillOwned(w.sessions[i], e.drift) ==> looked == w;
    hide Visit, Serve, Reconcile, NeedsReconcile, StillOwned, Drifted, SessionOk;
  }

  lemma SameSession(s: Session, looked: Session, u: Session, e: ReconcileEnv)
    requires looked == s.(connected := looked.connected, generation := looked.generation)
    ensures e.after.Some? && Reconnected(looked, u, e) ==> Reconnected(s, u, e)
  {}

  lemma FailureCounted(w: World, i: nat)
    requires i < |w.sessions|
    ensures
      var after := Put(w, i, w.sessions[i].(failures := w.sessions[i].failures + 1));
      after.metrics == w.metrics && after.sessions[i] == w.sessions[i].(failures := w.sessions[i].failures + 1)
  {}

  lemma NeedsIs(s: Session, d: Drift)
    requires SessionOk(s)
    ensures NeedsReconcile(Drifted(s, d)) <==> !StillOwned(s, d)
    ensures StillOwned(s, d) ==> Drifted(s, d) == s
    ensures Drifted(s, d) == s.(connected := Drifted(s, d).connected, generation := Drifted(s, d).generation)
  {}

  lemma ReconcilePart(w: World, i: nat, e: ReconcileEnv)
    requires i < |w.sessions| && !w.stop
    ensures
      var (after, ok) := Reconcile(w, i, e);
      var (s, t) := (w.sessions[i], after.sessions[i]);
      if ok then e.after.Some? && Reconnected(s, t, e) && !after.stop && after.coordinated == w.coordinated
      else t == s.(connected := t.connected, generation := t.generation, sent := t.sent)
           && (t.sent == s.sent || t.sent == s.sent + [QueryStatus])
  {
    var asked := Asked(w, i, e);
    AskedShape(w, i, e);
    AskPart(asked, i, QueryStatus, e.query);
    ReconcileCases(w, i, e);
    hide Ask, Reconcile;
  }

  /** What reconciling counts: an attempt when the radio reported ready, a status failure when it
      did not or when the second report does not show the ownership, and a protocol failure
      when the rest of it fails. */
  lemma ReconcileCounted(w: World, i: nat, e: ReconcileEnv)
    requires i < |w.sessions|
    ensures
      var ((after, ok), m) := (Reconcile(w, i, e), w.metrics);
      var ready := e.before.Some? && e.before.value.ready;
      var connected := ready && e.progressed && e.waiting.connections > 0 && e.waiting.connected;
      var shows := connected && e.after.Some? && e.after.value.bootId == e.before.value.bootId
                   && e.after.value.association == e.before.value.association && e.after.value.active
                   && e.after.value.generation.Some? && e.after.value.generation != e.before.value.generation;
      && after.metrics.attempts == m.attempts + Bit(ready)
      && after.metrics.statusFailures == m.statusFailures + Bit(!ready) + Bit(connected && !shows)
      && after.metrics.protocolFailures == m.protocolFailures + Bit(shows && !ok)
  {
    var asked := Asked(w, i, e);
    AskPart(asked, i, QueryStatus, e.query);
    ReconcileCases(w, i, e);
    hide Ask, Reconcile;
  }

  /** So, once the radios were started together, a turn that ends ready leaves its radio set up and started. */
  lemma ReadyMeansStarted(w: World, i: nat, interval: int, e: VisitEnv)
    requires i < |w.sessions| && SessionOk(w.sessions[i]) && !w.stop && w.coordinated
    ensures
      var (after, ready) := Visit(w, i, interval, e);
      ready ==> after.sessions[i].configured && after.sessions[i].started
  {
    TurnServes(w, i, interval, e);
    hide Visit, Reconcile, Drifted, SetUp, Admits;
  }

  predicate StartedBelow(w: World, i: nat)
    requires i <= |w.sessions|
  {
    forall k :: 0 <= k < i ==> w.sessions[k].started
  }

  /** And a pass that finds everything ready, without being told to stop, leaves every radio started. */
  lemma {:induction false} ReadyPassStarted(w: World, i: nat, interval: int, visits: seq<VisitEnv>)
    requires Inv(w) && i <= |visits| == RADIOS && w.coordinated
    ensures
      var (after, ready) := VisitFrom(w, i, interval, visits);
      ready && !after.stop && StartedBelow(w, i) ==> StartedBelow(after, RADIOS)
    decreases |visits| - i
  {
    if i < |visits| {
      var looked := w.(stop := w.stop || visits[i].stops);
      if !looked.stop {
        StopKeeps(w, looked.stop);
        SessionsOk(looked, i);
        VisitOk(looked, i, interval, visits[i]);
        ReadyMeansStarted(looked, i, interval, visits[i]);
        var (visited, ok) := Visit(looked, i, interval, visits[i]);
        StepKeeps(looked, visited, i);
        StepFrame(looked, visited, i);
        StartedFrame(looked, visited, i);
        ReadyPassStarted(visited, i + 1, interval, visits);
      }
      hide Visit, Inv, StepOk;
    }
  }

  lemma StartedFrame(w: World, after: World, i: nat)
    requires i < |w.sessions| && StepOk(w, after, i)
    ensures |after.sessions| == |w.sessions|
    ensures StartedBelow(w, i) && after.sessions[i].started ==> StartedBelow(after, i + 1)
  {}

  // ----- A pass -----

  /** Every start is sent, and admitted in time without a stop. */
  predicate AllAdmitted(w: World, e: CoordinateEnv)
    requires |e.starts| == |e.inTime| == RADIOS
  {
    forall k :: 0 <= k < RADIOS ==> e.starts[k].sent && Admitted(w.stop, e, k)
  }

  /** A pass starts the radios together exactly when the visits found everything ready and this
      was not done before; it pauses for 100 ms when all is well, and else twice as long as
      the last time, up to the maximum. */
  lemma PassOutcome(w: World, interval: int, maximum: int, e: PassEnv)
    requires Inv(w) && e.Complete()
    ensures
      var ((visited, served), after) := (VisitFrom(w, 0, interval, e.visits), Pass(w, interval, maximum, e));
      var starting := served && !w.coordinated;
      && (after.coordinated <==> w.coordinated || (served && AllAdmitted(visited, e.coordinate)))
      && (!starting ==> after.sessions == visited.sessions)
      && (starting ==> after.sessions == Coordinate(visited, e.coordinate).0.sessions)
      && (starting && after.coordinated ==> forall k :: 0 <= k < RADIOS ==>
            after.sessions[k]
            == visited.sessions[k].(started := true, sent := visited.sessions[k].sent + [Start(e.coordinate.epoch)]))
      && after.metrics.protocolFailures
         == visited.metrics.protocolFailures + Bit(starting && !after.coordinated) + multiset(e.progresses)[false]
      && after.backoff == (if served && after.coordinated && (forall p :: p in e.progresses ==> p) then 100
                           else if w.backoff * 2 < maximum then w.backoff * 2 else maximum)
  {
    hide VisitFrom, Coordinate, AllConfigured, Inv, Failures, Admitted, Pass, NextBackoff, ControllerSafety.LeftBehind;
    NoneBelow(w);
    VisitFromKeeps(w, 0, interval, e.visits);
    var (visited, served) := VisitFrom(w, 0, interval, e.visits);
    NoFailures(e.progresses);
    if served && !visited.coordinated {
      CoordinateExact(visited, e.coordinate);
      CoordinateCounts(visited, e.coordinate);
      CoordinateKeeps(visited, e.coordinate);
    }
    PassIs(w, interval, maximum, e);
  }

  lemma NoneBelow(w: World)
    requires Inv(w)
    ensures |w.sessions| == RADIOS && ConfiguredBelow(w, 0)
  {}

  lemma PassIs(w: World, interval: int, maximum: int, e: PassEnv)
    requires |w.sessions| == RADIOS && e.Complete()
    ensures
      var (visited, served) := VisitFrom(w, 0, interval, e.visits);
      var starting := served && !visited.coordinated;
      var (met, together) := if starting then Coordinate(visited, e.coordinate) else (visited, served);
      var (after, failed) := (Pass(w, interval, maximum, e), Failures(e.progresses));
      && after.sessions == met.sessions && after.coordinated == met.coordinated
      && after.metrics.protocolFailures == met.metrics.protocolFailures + failed
      && after.backoff == (if together && failed == 0 then 100
                           else if met.backoff * 2 < maximum then met.backoff * 2 else maximum)
  {
    hide VisitFrom, Coordinate, Failures;
  }

  lemma {:induction false} NoFailures(progresses: seq<bool>)
    ensures Failures(progresses) == 0 <==> forall p :: p in progresses ==> p
    ensures Failures(progresses) == multiset(progresses)[false]
  {
    if progresses != [] {
      var n := |progresses| - 1;
      NoFailures(progresses[..n]);
      assert progresses == progresses[..n] + [progresses[n]];
    }
    assert false in progresses <==> multiset(progresses)[false] > 0;
    assert (forall p :: p in progresses ==> p) <==> false !in progresses;
  }
}
