/** The controller's reconcile step in the protocol with several controllers and one radio:
    what its success means for the commands sent afterwards. */
module ReconcileProtocol {
  import opened SpectrumTypes
  import opened Resumption
  import opened Snapshots
  import opened ControllerEffects
  import C = ControllerSteps

  /** The snapshot a status report carries. */
  function Seen(status: C.Status): Snapshot {
    Snapshot(status.bootId, status.association, status.generation, status.admittedId)
  }

  /** The step's checks on two reports are the protocol's checks on the snapshots, since a
      report says active exactly when it has a generation. */
  lemma ChecksAgree(before: C.Status, after: C.Status)
    requires after.active <==> after.generation.Some?
    ensures C.ShowsOwnership(before, after) <==> Reconcilable(Seen(before), Seen(after))
  {}

  /** The run of the protocol in which controller c reconciles: it reads the first report
      behind `first`, the second behind `second`, and raises its floor behind `third`. */
  datatype Trace = Trace(first: seq<Event>, second: seq<Event>, third: seq<Event>, last: seq<Event>)

  function UpToSecond(trace: Trace, c: nat): seq<Event> {
    trace.first + [ReadBefore(c)] + trace.second
  }

  function UpToResume(trace: Trace, c: nat): seq<Event> {
    UpToSecond(trace, c) + [ReadAfter(c)] + trace.third
  }

  function Whole(trace: Trace, c: nat): seq<Event> {
    UpToResume(trace, c) + [Resume(c)] + trace.last
  }

  /** The run the answers of one reconcile step come from. The reports are what the status
      service says at these moments, raising the floor succeeds as the patched runtime says,
      and a status reply on connection k means that the radio, owned by k, admitted a command
      of the controller on it. */
  predicate Answers(trace: Trace, c: nat, k: nat, e: C.ReconcileEnv) {
    && Resumption.Run(trace.first).Some? && Resumption.Run(UpToSecond(trace, c)).Some?
    && Resumption.Run(UpToResume(trace, c)).Some?
    && (e.before.Some? ==> Seen(e.before.value) == Observe(Resumption.Run(trace.first).value.radio))
    && (e.after.Some? ==>
          && Seen(e.after.value) == Observe(Resumption.Run(UpToSecond(trace, c)).value.radio)
          && (e.after.value.active <==> e.after.value.generation.Some?))
    && (var u := Resumption.Run(UpToResume(trace, c)).value;
        && (e.after.Some? && e.resumed ==>
              c < |u.controllers| && ResumeAfter(u.controllers[c].nextId, e.after.value.admittedId).Some?)
        && (e.query.wait.evidence ==>
              Resumption.Run(Whole(trace, c)).Some? && Confirmed(Resumption.Run(Whole(trace, c)).value, c, k)))
  }

  /** A command of this controller was admitted on its connection k, which owns the radio. */
  predicate Confirmed(s: System, c: nat, k: nat) {
    && c < |s.controllers| && s.controllers[c].connection == Some(k) && s.radio.owner == Some(k)
    && s.controllers[c].confirmed
  }

  /** The connection stays the owner and the controller stays on it. */
  predicate Held(s: System, events: seq<Event>, c: nat, k: nat)
    requires From(s, events).Some?
    decreases |events|
  {
    From(s, events).value.radio.owner == Some(k)
    && (events == []
        || (var before := events[..|events| - 1];
            From(s, before).Some? && Held(s, before, c, k) && events[|events| - 1] != Connect(c)))
  }

  /** Everything the controller has sent and not been answered, and everything it sends next,
      is above all the radio admitted; the radio admits the next command it reads. */
  predicate CommandsFresh(s: System, c: nat, k: nat) {
    && c < |s.controllers| && k < |s.connections|
    && s.radio.highwater < s.controllers[c].nextId
    && (forall i :: 0 <= i < |s.connections[k].queue| ==> s.connections[k].queue[i] > s.radio.highwater)
    && (s.connections[k].queue != [] ==>
          Next(s, Process).Some? && Next(s, Process).value.radio.highwater == s.connections[k].queue[0])
  }

  lemma {:induction false} RunFrom(before: seq<Event>, events: seq<Event>)
    requires Resumption.Run(before).Some? && From(Resumption.Run(before).value, events).Some?
    ensures Resumption.Run(before + events) == From(Resumption.Run(before).value, events)
  {
    if events == [] {
      assert before + [] == before;
    } else {
      var shorter := events[..|events| - 1];
      RunFrom(before, shorter);
      assert (before + events)[..|before + events| - 1] == before + shorter;
      hide Next;
    }
  }

  lemma StepConfirmed(s: System, e: Event, c: nat, k: nat)
    requires Inv(s) && Next(s, e).Some? && Confirmed(s, c, k) && e != Connect(c)
    requires Next(s, e).value.radio.owner == Some(k)
    ensures Confirmed(Next(s, e).value, c, k)
  {
    assert OwnerOk(s);
    hide Inv, QueuesOk, CurrentOk;
  }

  lemma {:induction false} HeldConfirmed(s: System, events: seq<Event>, c: nat, k: nat)
    requires Inv(s) && From(s, events).Some? && Confirmed(s, c, k) && Held(s, events, c, k)
    ensures Confirmed(From(s, events).value, c, k)
  {
    if events != [] {
      var before := events[..|events| - 1];
      HeldConfirmed(s, before, c, k);
      FromKeeps(s, before);
      StepConfirmed(From(s, before).value, events[|events| - 1], c, k);
      hide Next, Inv, Confirmed;
    }
  }

  /** When reconcile succeeds, its two reports pass the protocol's checks, and from then on, for
      as long as the connection owns the radio, every command the controller has in flight or
      sends next is fresh: the configuration, the start and the status queries alike. */
  lemma ReconciledCommandsFresh(w: C.World, i: nat, e: C.ReconcileEnv, trace: Trace, c: nat, k: nat, later: seq<Event>)
    requires i < |w.sessions| && C.Reconcile(w, i, e).1 && Answers(trace, c, k, e)
    requires Resumption.Run(Whole(trace, c)).Some? && From(Resumption.Run(Whole(trace, c)).value, later).Some?
    requires Held(Resumption.Run(Whole(trace, c)).value, later, c, k)
    ensures
      var (s, t) := (Resumption.Run(trace.first).value, Resumption.Run(UpToSecond(trace, c)).value);
      Reconcilable(Observe(s.radio), Observe(t.radio))
    ensures CommandsFresh(From(Resumption.Run(Whole(trace, c)).value, later).value, c, k)
  {
    ReconcileSucceeds(w, i, e);
    assert e.before.Some? && e.after.Some? && e.query.wait.evidence;
    assert C.ShowsOwnership(e.before.value, e.after.value);
    assert e.after.value.active <==> e.after.value.generation.Some?;
    ChecksAgree(e.before.value, e.after.value);
    var z := Resumption.Run(Whole(trace, c)).value;
    hide C.Reconcile, Resumption.Run, From, Held, Whole, UpToSecond, UpToResume;
    RunKeeps(Whole(trace, c));
    HeldConfirmed(z, later, c, k);
    RunFrom(Whole(trace, c), later);
    ConfirmedCommandsFresh(Whole(trace, c) + later, c, k);
    hide Next, Inv;
  }
}
