/** How the processor's controller reconciles with four radios, configures them and
    starts them together: every step, with what the radios and the network answer as input. */
module ControllerSteps {
  import opened SpectrumTypes

  const RADIOS := 4
  const FIRST_BACKOFF := 100

  // ----- Inputs -----

  /** A status snapshot, as the radio's status port reports it. */
  datatype Status = Status(
    bootId: nat, ready: bool, active: bool, generation: Option<u64>, streaming: bool, admittedId: u32, association: u64)

  /** What the transport did since it was last looked at: new connections, and whether it is connected now. */
  datatype Drift = Drift(connections: nat, connected: bool)

  /** Whether the controller was told to stop before a wait, and whether the wait saw its evidence. */
  datatype WaitEnv = WaitEnv(stops: bool, evidence: bool)

  datatype CommandEnv = CommandEnv(sent: bool, wait: WaitEnv)

  datatype ReconcileEnv = ReconcileEnv(
    before: Option<Status>, waiting: Drift, progressed: bool, after: Option<Status>, resumed: bool,
    query: CommandEnv, during: Drift, now: int)

  datatype ConfigureEnv = ConfigureEnv(stopping: CommandEnv, configuring: CommandEnv)

  datatype RestartEnv = RestartEnv(epoch: int, inTime: bool, start: CommandEnv)

  datatype LivenessEnv = LivenessEnv(now: int, query: CommandEnv, later: int)

  datatype VisitEnv = VisitEnv(
    stops: bool, drift: Drift, reconcile: ReconcileEnv, configure: ConfigureEnv, restart: RestartEnv, liveness: LivenessEnv)

  datatype CoordinateEnv = CoordinateEnv(epoch: int, starts: seq<CommandEnv>, inTime: seq<bool>)

  datatype PassEnv = PassEnv(visits: seq<VisitEnv>, coordinate: CoordinateEnv, progresses: seq<bool>) {
    predicate Complete() {
      && |visits| == RADIOS && |progresses| == RADIOS
      && |coordinate.starts| == RADIOS && |coordinate.inTime| == RADIOS
    }
  }

  // ----- State -----

  datatype Command = QueryStatus | Stop | Configure | Start(epoch: int) | Cancel

  /** A session, the part of its transport it looks at, and the commands it sent. */
  datatype Session = Session(
    connected: bool, generation: nat, reconciled: nat, status: Option<Status>, lastLiveness: int, failures: nat,
    configured: bool, started: bool, sent: seq<Command>)

  const NEW_SESSION := Session(false, 0, 0, None, 0, 0, false, false, [])

  datatype Metrics = Metrics(
    attempts: nat, connections: nat, reconnects: nat, statusFailures: nat, protocolFailures: nat,
    configurations: nat, startsSubmitted: nat, startsAdmitted: nat, bootChanges: nat)

  /** `marked` holds the admitted starts and the boot changes at the moment of coordination. */
  datatype World = World(
    sessions: seq<Session>, metrics: Metrics, coordinated: bool, stop: bool, backoff: int, marked: (nat, nat))

  const NO_METRICS := Metrics(0, 0, 0, 0, 0, 0, 0, 0, 0)

  function Fresh(): World {
    World(seq(RADIOS, i => NEW_SESSION), NO_METRICS, false, false, FIRST_BACKOFF, (0, 0))
  }

  // ----- Steps -----

  function Drifted(s: Session, d: Drift): Session {
    if d.connections == 0 then s.(connected := s.connected && d.connected)
    else s.(connected := d.connected, generation := s.generation + d.connections)
  }

  function Put(w: World, i: nat, s: Session): (after: World)
    requires i < |w.sessions|
    ensures |after.sessions| == |w.sessions|
  {
    w.(sessions := w.sessions[i := s])
  }

  function Send(w: World, i: nat, c: Command): (after: World)
    requires i < |w.sessions|
    ensures |after.sessions| == |w.sessions|
  {
    Put(w, i, w.sessions[i].(sent := w.sessions[i].sent + [c]))
  }

  function StatusFailure(w: World): World {
    w.(metrics := w.metrics.(statusFailures := w.metrics.statusFailures + 1))
  }

  function ProtocolFailure(w: World): World {
    w.(metrics := w.metrics.(protocolFailures := w.metrics.protocolFailures + 1))
  }

  /** A wait ends at once when the controller was told to stop. */
  function Wait(w: World, e: WaitEnv): (World, bool) {
    var stop := w.stop || e.stops;
    (w.(stop := stop), !stop && e.evidence)
  }

  function Ask(w: World, i: nat, c: Command, e: CommandEnv): (r: (World, bool))
    requires i < |w.sessions|
    ensures |r.0.sessions| == |w.sessions|
  {
    if !e.sent then (w, false) else Wait(Send(w, i, c), e.wait)
  }

  /** The snapshot after connecting shows that this controller owns the slot of the same radio. */
  predicate ShowsOwnership(before: Status, after: Status) {
    && before.bootId == after.bootId && after.active && after.generation.Some?
    && after.generation != before.generation && after.association == before.association
  }

  function Reconciled(w: World, i: nat, after: Status, e: ReconcileEnv): (r: World)
    requires i < |w.sessions|
    ensures |r.sessions| == |w.sessions|
  {
    var s := w.sessions[i];
    var changed := s.status.Some? && s.status.value.bootId != after.bootId;
    var m := w.metrics;
    var looked := Drifted(s, e.during);
    var first := looked.generation <= 1;
    Put(w.(metrics := m.(
             bootChanges := if changed then m.bootChanges + 1 else m.bootChanges,
             connections := if first then m.connections + 1 else m.connections,
             reconnects := if first then m.reconnects else m.reconnects + 1)),
        i,
        looked.(
          configured := s.configured && !changed, started := s.started && !changed, status := Some(after),
          reconciled := looked.generation, lastLiveness := e.now, failures := 0))
  }

  function Reconcile(w: World, i: nat, e: ReconcileEnv): (r: (World, bool))
    requires i < |w.sessions|
    ensures |r.0.sessions| == |w.sessions|
  {
    if e.before.None? || !e.before.value.ready then (StatusFailure(w), false)
    else
      var s := w.sessions[i];
      var asked := Put(w.(metrics := w.metrics.(attempts := w.metrics.attempts + 1)), i,
                       Drifted(s.(connected := false), e.waiting));
      if !e.progressed || !asked.sessions[i].connected then (asked, false)
      else if e.after.None? || !ShowsOwnership(e.before.value, e.after.value) then (StatusFailure(asked), false)
      else if !e.resumed then (ProtocolFailure(asked), false)
      else
        var (queried, ok) := Ask(asked, i, QueryStatus, e.query);
        if !ok then (ProtocolFailure(queried), false) else (Reconciled(queried, i, e.after.value, e), true)
  }

  function Quiesced(s: Session): Session {
    if s.status.Some? then s.(status := Some(s.status.value.(streaming := false))) else s
  }

  function ConfigureRadio(w: World, i: nat, e: ConfigureEnv): (r: (World, bool))
    requires i < |w.sessions|
    ensures |r.0.sessions| == |w.sessions|
  {
    var streaming := w.sessions[i].status.Some? && w.sessions[i].status.value.streaming;
    var (stopped, quiet) := if streaming then Ask(w, i, Stop, e.stopping) else (w, true);
    if !quiet then (ProtocolFailure(stopped), false)
    else
      var quiesced := if streaming then Put(stopped, i, Quiesced(stopped.sessions[i])) else stopped;
      var (sent, ok) := Ask(quiesced, i, Configure, e.configuring);
      if !ok then (ProtocolFailure(sent), false)
      else
        (Put(sent.(metrics := sent.metrics.(configurations := sent.metrics.configurations + 1)), i,
             sent.sessions[i].(configured := true)),
         true)
  }

  function Restart(w: World, i: nat, e: RestartEnv): (r: (World, bool))
    requires i < |w.sessions|
    ensures |r.0.sessions| == |w.sessions|
  {
    if !e.start.sent then (ProtocolFailure(w), false)
    else
      var sent := Send(w, i, Start(e.epoch));
      var submitted := sent.(metrics := sent.metrics.(startsSubmitted := sent.metrics.startsSubmitted + 1));
      var (waited, ok) := if e.inTime then Wait(submitted, e.start.wait) else (submitted, false);
      if !ok then (ProtocolFailure(waited), false)
      else
        (Put(waited.(metrics := waited.metrics.(startsAdmitted := waited.metrics.startsAdmitted + 1)), i,
             waited.sessions[i].(started := true)),
         true)
  }

  function Liveness(w: World, i: nat, interval: int, e: LivenessEnv): (r: (World, bool))
    requires i < |w.sessions|
    ensures |r.0.sessions| == |w.sessions|
  {
    if e.now - w.sessions[i].lastLiveness < interval then (w, true)
    else
      var (queried, ok) := Ask(w, i, QueryStatus, e.query);
      if !ok then (Put(ProtocolFailure(queried), i, queried.sessions[i].(connected := false)), false)
      else (Put(queried, i, queried.sessions[i].(lastLiveness := e.later)), true)
  }

  predicate NeedsReconcile(s: Session) {
    !s.connected || s.generation != s.reconciled
  }

  /** One session's turn; false means that the controller is not ready. */
  function Visit(w: World, i: nat, interval: int, e: VisitEnv): (r: (World, bool))
    requires i < |w.sessions|
    ensures |r.0.sessions| == |w.sessions|
  {
    var looked := Put(w, i, Drifted(w.sessions[i], e.drift));
    var (owned, ok) := if NeedsReconcile(looked.sessions[i]) then Reconcile(looked, i, e.reconcile) else (looked, true);
    if !ok then (Put(owned, i, owned.sessions[i].(failures := owned.sessions[i].failures + 1)), false)
    else Serve(owned, i, interval, e)
  }

  function Serve(w: World, i: nat, interval: int, e: VisitEnv): (r: (World, bool))
    requires i < |w.sessions|
    ensures |r.0.sessions| == |w.sessions|
  {
    var (a, configured) := if !w.sessions[i].configured then ConfigureRadio(w, i, e.configure) else (w, true);
    var s := a.sessions[i];
    var (b, started) := if a.coordinated && s.configured && !s.started then Restart(a, i, e.restart) else (a, true);
    var (c, alive) := if b.sessions[i].configured then Liveness(b, i, interval, e.liveness) else (b, true);
    (c, configured && started && alive)
  }

  /** Every session in turn; a controller told to stop leaves the rest out. */
  function VisitFrom(w: World, i: nat, interval: int, visits: seq<VisitEnv>): (r: (World, bool))
    requires i <= |visits| == |w.sessions|
    ensures |r.0.sessions| == |w.sessions|
    decreases |visits| - i
  {
    if i == |visits| then (w, true)
    else
      var looked := w.(stop := w.stop || visits[i].stops);
      if looked.stop then (looked, true)
      else
        var (visited, ok) := Visit(looked, i, interval, visits[i]);
        var (after, ready) := VisitFrom(visited, i + 1, interval, visits);
        (after, ok && ready)
  }

  // ----- Starting together -----

  /** Submit the same start to every session from `i` on. */
  function SubmitFrom(w: World, i: nat, e: CoordinateEnv): (r: (World, bool))
    requires i <= |w.sessions| == |e.starts|
    ensures |r.0.sessions| == |w.sessions|
    decreases |w.sessions| - i
  {
    if i == |w.sessions| then (w, true)
    else if !e.starts[i].sent then (ProtocolFailure(w), false)
    else
      var sent := Send(w, i, Start(e.epoch));
      SubmitFrom(sent.(metrics := sent.metrics.(startsSubmitted := sent.metrics.startsSubmitted + 1)), i + 1, e)
  }

  /** Cancel the starts of the sessions from `j` up to `n`. */
  function CancelFrom(w: World, j: nat, n: nat): (r: World)
    requires j <= n <= |w.sessions|
    ensures |r.sessions| == |w.sessions|
    decreases n - j
  {
    if j == n then w else CancelFrom(Send(w, j, Cancel), j + 1, n)
  }

  /** Wait for every start to be admitted; the first that is not cancels the ones before it. */
  function AdmitFrom(w: World, i: nat, e: CoordinateEnv): (r: (World, bool))
    requires i <= |w.sessions| == |e.starts| == |e.inTime|
    ensures |r.0.sessions| == |w.sessions|
    decreases |w.sessions| - i
  {
    if i == |w.sessions| then (w, true)
    else
      var (waited, ok) := if e.inTime[i] then Wait(w, e.starts[i].wait) else (w, false);
      if !ok then (CancelFrom(ProtocolFailure(waited), 0, i), false)
      else
        AdmitFrom(waited.(metrics := waited.metrics.(startsAdmitted := waited.metrics.startsAdmitted + 1)), i + 1, e)
  }

  function AllStarted(w: World): World {
    w.(sessions := seq(|w.sessions|, i requires 0 <= i < |w.sessions| => w.sessions[i].(started := true)),
       coordinated := true, marked := (w.metrics.startsAdmitted, w.metrics.bootChanges))
  }

  function Coordinate(w: World, e: CoordinateEnv): (r: (World, bool))
    requires |w.sessions| == |e.starts| == |e.inTime|
    ensures |r.0.sessions| == |w.sessions|
  {
    var (submitted, sent) := SubmitFrom(w, 0, e);
    if !sent then (submitted, false)
    else
      var (admitted, ok) := AdmitFrom(submitted, 0, e);
      if !ok then (admitted, false) else (AllStarted(admitted), true)
  }

  // ----- One pass of the loop -----

  function Failures(progresses: seq<bool>): nat {
    if progresses == [] then 0
    else Failures(progresses[..|progresses| - 1]) + (if progresses[|progresses| - 1] then 0 else 1)
  }

  function NextBackoff(backoff: int, maximum: int): int {
    if backoff * 2 < maximum then backoff * 2 else maximum
  }

  /** Sessions that cannot go on are counted; the pause doubles unless all is well. */
  function Settled(w: World, served: bool, progresses: seq<bool>, maximum: int): World {
    var failed := Failures(progresses);
    w.(metrics := w.metrics.(protocolFailures := w.metrics.protocolFailures + failed),
       backoff := if served && failed == 0 then FIRST_BACKOFF else NextBackoff(w.backoff, maximum))
  }

  function Pass(w: World, interval: int, maximum: int, e: PassEnv): (after: World)
    requires |w.sessions| == RADIOS && e.Complete()
    ensures |after.sessions| == RADIOS
  {
    var (visited, allServed) := VisitFrom(w, 0, interval, e.visits);
    var (coordinated, together) :=
      if allServed && !visited.coordinated then Coordinate(visited, e.coordinate) else (visited, allServed);
    Settled(coordinated, together, e.progresses, maximum)
  }
}
