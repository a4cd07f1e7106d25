/** The processor's controller: four sessions served in turn by one thread. */
module ProcessorControllers {
  import opened SpectrumTypes
  import opened ControllerSteps
  import opened ControllerSafety

  class ProcessorController {
    const livenessInterval: int
    const maximumBackoff: int
    const sessions: array<Session>
    var metrics: Metrics
    var coordinated: bool
    var stop: bool
    var backoff: int
    ghost var marked: (nat, nat)

    ghost function World(): World
      reads this, sessions
    {
      ControllerSteps.World(sessions[..], metrics, coordinated, stop, backoff, marked)
    }

    ghost predicate Valid()
      reads this, sessions
    {
      Inv(World())
    }

    constructor (livenessInterval: int, maximumBackoff: int)
      ensures Valid() && World() == Fresh() && fresh(sessions)
      ensures this.livenessInterval == livenessInterval && this.maximumBackoff == maximumBackoff
    {
      this.livenessInterval, this.maximumBackoff := livenessInterval, maximumBackoff;
      var table := new Session[RADIOS](_ => NEW_SESSION);
      sessions := table;
      metrics, coordinated, stop, backoff, marked := NO_METRICS, false, false, FIRST_BACKOFF, (0, 0);
      new;
      assert table[..] == seq(RADIOS, i => NEW_SESSION);
    }

    method CountStatusFailure()
      modifies this`metrics
      ensures World() == StatusFailure(old(World()))
    {
      metrics := metrics.(statusFailures := metrics.statusFailures + 1);
    }

    method CountProtocolFailure()
      modifies this`metrics
      ensures World() == ProtocolFailure(old(World()))
    {
      metrics := metrics.(protocolFailures := metrics.protocolFailures + 1);
    }

    method SendTo(i: nat, c: Command)
      requires i < sessions.Length
      modifies sessions
      ensures World() == Send(old(World()), i, c)
    {
      sessions[i] := sessions[i].(sent := sessions[i].sent + [c]);
    }

    method WaitFor(e: WaitEnv) returns (ok: bool)
      modifies this`stop
      ensures (World(), ok) == Wait(old(World()), e)
    {
      stop := stop || e.stops;
      ok := !stop && e.evidence;
    }

    method AskRadio(i: nat, c: Command, e: CommandEnv) returns (ok: bool)
      requires i < sessions.Length
      modifies this`stop, sessions
      ensures (World(), ok) == Ask(old(World()), i, c, e)
    {
      if !e.sent {
        return false;
      }
      SendTo(i, c);
      ok := WaitFor(e.wait);
    }

    method ReconcileSession(i: nat, e: ReconcileEnv) returns (ok: bool)
      requires i < sessions.Length
      modifies this, sessions
      ensures (World(), ok) == Reconcile(old(World()), i, e)
    {
      hide Drifted, Ask, Reconciled, StatusFailure, ProtocolFailure;
      if e.before.None? || !e.before.value.ready {
        CountStatusFailure();
        return false;
      }
      metrics := metrics.(attempts := metrics.attempts + 1);
      sessions[i] := Drifted(sessions[i].(connected := false), e.waiting);
      if !e.progressed || !sessions[i].connected {
        return false;
      }
      if e.after.None? || !ShowsOwnership(e.before.value, e.after.value) {
        CountStatusFailure();
        return false;
      }
      if !e.resumed {
        CountProtocolFailure();
        return false;
      }
      ok := AskRadio(i, QueryStatus, e.query);
      if !ok {
        CountProtocolFailure();
        return false;
      }
      Acknowledge(i, e.after.value, e);
    }

    /** The status reply came: remember the radio and count the connection. */
    method Acknowledge(i: nat, after: Status, e: ReconcileEnv)
      requires i < sessions.Length
      modifies this`metrics, sessions
      ensures World() == Reconciled(old(World()), i, after, e)
    {
      hide Drifted;
      ghost var s := sessions[i];
      var bootChanged := ForgetOtherBoot(i, after.bootId);
      DriftKeeps(s, bootChanged, e.during);
      var looked := Drifted(sessions[i], e.during);
      sessions[i] := looked.(status := Some(after), reconciled := looked.generation, lastLiveness := e.now, failures := 0);
      CountConnection(looked.generation <= 1);
      assert sessions[..] == old(sessions[..])[i := sessions[i]];
    }

    /** A radio that started anew has lost its configuration. */
    method ForgetOtherBoot(i: nat, bootId: nat) returns (changed: bool)
      requires i < sessions.Length
      modifies this`metrics, sessions
      ensures changed <==> old(sessions[i]).status.Some? && old(sessions[i]).status.value.bootId != bootId
      ensures
        var s := old(sessions[i]);
        sessions[..] == old(sessions[..])[i := if changed then s.(configured := false, started := false) else s]
      ensures metrics == if changed then old(metrics).(bootChanges := old(metrics).bootChanges + 1) else old(metrics)
    {
      changed := sessions[i].status.Some? && sessions[i].status.value.bootId != bootId;
      if changed {
        sessions[i] := sessions[i].(configured := false, started := false);
        metrics := metrics.(bootChanges := metrics.bootChanges + 1);
      }
    }

    method CountConnection(first: bool)
      modifies this`metrics
      ensures
        metrics == if first then old(metrics).(connections := old(metrics).connections + 1)
                   else old(metrics).(reconnects := old(metrics).reconnects + 1)
    {
      if !first {
        metrics := metrics.(reconnects := metrics.reconnects + 1);
      } else {
        metrics := metrics.(connections := metrics.connections + 1);
      }
    }

    lemma DriftKeeps(s: Session, bootChanged: bool, d: Drift)
      ensures
        var t := if bootChanged then s.(configured := false, started := false) else s;
        Drifted(t, d) == Drifted(s, d).(configured := t.configured, started := t.started)
      ensures Drifted(s, d) == s.(connected := Drifted(s, d).connected, generation := Drifted(s, d).generation)
    {}

    method ConfigureSession(i: nat, e: ConfigureEnv) returns (ok: bool)
      requires i < sessions.Length
      modifies this, sessions
      ensures (World(), ok) == ConfigureRadio(old(World()), i, e)
    {
      hide Ask, ProtocolFailure;
      if sessions[i].status.Some? && sessions[i].status.value.streaming {
        var quiet := AskRadio(i, Stop, e.stopping);
        if !quiet {
          CountProtocolFailure();
          return false;
        }
        sessions[i] := Quiesced(sessions[i]);
      }
      ok := AskRadio(i, Configure, e.configuring);
      if !ok {
        CountProtocolFailure();
        return false;
      }
      sessions[i] := sessions[i].(configured := true);
      metrics := metrics.(configurations := metrics.configurations + 1);
    }

    method RestartSession(i: nat, e: RestartEnv) returns (ok: bool)
      requires i < sessions.Length
      modifies this, sessions
      ensures (World(), ok) == Restart(old(World()), i, e)
    {
      hide Send, ProtocolFailure;
      if !e.start.sent {
        CountProtocolFailure();
        return false;
      }
      SendTo(i, Start(e.epoch));
      metrics := metrics.(startsSubmitted := metrics.startsSubmitted + 1);
      ok := false;
      if e.inTime {
        ok := WaitFor(e.start.wait);
      }
      if !ok {
        CountProtocolFailure();
        return false;
      }
      metrics := metrics.(startsAdmitted := metrics.startsAdmitted + 1);
      sessions[i] := sessions[i].(started := true);
    }

    method CheckLiveness(i: nat, e: LivenessEnv) returns (ok: bool)
      requires i < sessions.Length
      modifies this, sessions
      ensures (World(), ok) == Liveness(old(World()), i, livenessInterval, e)
    {
      hide Ask;
      if e.now - sessions[i].lastLiveness < livenessInterval {
        return true;
      }
      ok := AskRadio(i, QueryStatus, e.query);
      if !ok {
        CountProtocolFailure();
        sessions[i] := sessions[i].(connected := false);
        return false;
      }
      sessions[i] := sessions[i].(lastLiveness := e.later);
    }

    method ServeSession(i: nat, e: VisitEnv) returns (ready: bool)
      requires i < sessions.Length
      modifies this, sessions
      ensures (World(), ready) == Serve(old(World()), i, livenessInterval, e)
    {
      hide ConfigureRadio, Restart, Liveness;
      ready := true;
      if !sessions[i].configured {
        ready := ConfigureSession(i, e.configure);
      }
      if coordinated && sessions[i].configured && !sessions[i].started {
        var restarted := RestartSession(i, e.restart);
        ready := ready && restarted;
      }
      if sessions[i].configured {
        var alive := CheckLiveness(i, e.liveness);
        ready := ready && alive;
      }
    }

    method VisitSession(i: nat, e: VisitEnv) returns (ready: bool)
      requires i < sessions.Length
      modifies this, sessions
      ensures (World(), ready) == Visit(old(World()), i, livenessInterval, e)
    {
      hide Serve, Reconcile, Drifted;
      sessions[i] := Drifted(sessions[i], e.drift);
      if !sessions[i].connected || sessions[i].generation != sessions[i].reconciled {
        var owned := ReconcileSession(i, e.reconcile);
        if !owned {
          sessions[i] := sessions[i].(failures := sessions[i].failures + 1);
          return false;
        }
      }
      ready := ServeSession(i, e);
    }

    method VisitAll(visits: seq<VisitEnv>) returns (ready: bool)
      requires |visits| == sessions.Length
      modifies this, sessions
      ensures (World(), ready) == VisitFrom(old(World()), 0, livenessInterval, visits)
    {
      hide Visit;
      ready := true;
      ghost var all := VisitFrom(World(), 0, livenessInterval, visits);
      var i := 0;
      while i < sessions.Length
        invariant i <= sessions.Length
        invariant
          var (after, rest) := VisitFrom(World(), i, livenessInterval, visits);
          all == (after, ready && rest)
      {
        stop := stop || visits[i].stops;
        if stop {
          break;
        }
        var served := VisitSession(i, visits[i]);
        ready := ready && served;
        i := i + 1;
      }
    }

    /** Give every radio the same start, and cancel when one is not admitted in time. */
    method CoordinateStart(e: CoordinateEnv) returns (ok: bool)
      requires |e.starts| == |e.inTime| == sessions.Length
      modifies this, sessions
      ensures (World(), ok) == Coordinate(old(World()), e)
    {
      hide SubmitFrom, AdmitFrom;
      ok := SubmitStarts(e);
      if !ok {
        return;
      }
      ok := AwaitAdmission(e);
      if !ok {
        return;
      }
      StartAll();
    }

    method StartAll()
      modifies this`coordinated, this`marked, sessions
      ensures World() == AllStarted(old(World()))
    {
      for i := 0 to sessions.Length
        modifies sessions
        invariant forall k :: 0 <= k < sessions.Length ==>
          sessions[k] == if k < i then old(sessions[k]).(started := true) else old(sessions[k])
      {
        sessions[i] := sessions[i].(started := true);
      }
      coordinated := true;
      marked := (metrics.startsAdmitted, metrics.bootChanges);
      assert sessions[..] == AllStarted(old(World())).sessions;
    }

    method SubmitStarts(e: CoordinateEnv) returns (ok: bool)
      requires |e.starts| == sessions.Length
      modifies this, sessions
      ensures (World(), ok) == SubmitFrom(old(World()), 0, e)
    {
      hide Send, ProtocolFailure;
      for i := 0 to sessions.Length
        invariant SubmitFrom(World(), i, e) == SubmitFrom(old(World()), 0, e)
      {
        if !e.starts[i].sent {
          CountProtocolFailure();
          return false;
        }
        SendTo(i, Start(e.epoch));
        metrics := metrics.(startsSubmitted := metrics.startsSubmitted + 1);
      }
      return true;
    }

    method AwaitAdmission(e: CoordinateEnv) returns (ok: bool)
      requires |e.starts| == |e.inTime| == sessions.Length
      modifies this, sessions
      ensures (World(), ok) == AdmitFrom(old(World()), 0, e)
    {
      hide Wait, ProtocolFailure, CancelFrom;
      for i := 0 to sessions.Length
        invariant AdmitFrom(World(), i, e) == AdmitFrom(old(World()), 0, e)
      {
        var admitted := false;
        if e.inTime[i] {
          admitted := WaitFor(e.starts[i].wait);
        }
        if !admitted {
          CountProtocolFailure();
          CancelBelow(i);
          return false;
        }
        metrics := metrics.(startsAdmitted := metrics.startsAdmitted + 1);
      }
      return true;
    }

    method CancelBelow(n: nat)
      requires n <= sessions.Length
      modifies sessions
      ensures World() == CancelFrom(old(World()), 0, n)
    {
      hide Send;
      for cancel := 0 to n
        invariant CancelFrom(World(), cancel, n) == CancelFrom(old(World()), 0, n)
      {
        SendTo(cancel, Cancel);
      }
    }

    /** One pass of the loop. */
    method RunOnce(e: PassEnv)
      requires Valid() && e.Complete()
      modifies this, sessions
      ensures Valid() && World() == Pass(old(World()), livenessInterval, maximumBackoff, e)
    {
      PassKeeps(World(), livenessInterval, maximumBackoff, e);
      hide Inv, VisitFrom, Coordinate, Failures, NextBackoff;
      var ready := VisitAll(e.visits);
      if ready && !coordinated {
        ready := CoordinateStart(e.coordinate);
      }
      Settle(ready, e.progresses);
    }

    /** Let every session go on, and choose the pause before the next pass. */
    method Settle(served: bool, progresses: seq<bool>)
      modifies this`metrics, this`backoff
      ensures World() == Settled(old(World()), served, progresses, maximumBackoff)
    {
      var failures := CountStuck(progresses);
      backoff := if served && failures == 0 then FIRST_BACKOFF else NextBackoff(backoff, maximumBackoff);
    }

    /** Count the sessions whose runtime cannot go on. */
    method CountStuck(progresses: seq<bool>) returns (failures: nat)
      modifies this`metrics
      ensures failures == Failures(progresses)
      ensures World() == old(World()).(metrics := old(metrics).(protocolFailures := old(metrics).protocolFailures + failures))
    {
      failures := 0;
      for i := 0 to |progresses|
        invariant failures == Failures(progresses[..i])
        invariant World() == old(World()).(metrics := old(metrics).(protocolFailures := old(metrics).protocolFailures + failures))
      {
        assert progresses[..i + 1][..i] == progresses[..i];
        if !progresses[i] {
          metrics := metrics.(protocolFailures := metrics.protocolFailures + 1);
          failures := failures + 1;
        }
      }
      assert progresses[..|progresses|] == progresses;
    }

    /** The thread: one pass after the other until told to stop. */
    method RunLoop(passes: seq<PassEnv>)
      requires Valid() && World() == Fresh() && forall p :: p in passes ==> p.Complete()
      modifies this, sessions
      ensures Valid() && World() == Run(livenessInterval, maximumBackoff, passes)
    {
      hide Inv, Pass, Fresh;
      assert passes[..0] == [];
      for n := 0 to |passes|
        invariant Valid() && World() == Run(livenessInterval, maximumBackoff, passes[..n])
      {
        assert passes[..n + 1][..n] == passes[..n];
        if !stop {
          RunOnce(passes[n]);
        }
      }
      assert passes[..|passes|] == passes;
    }
  }
}
