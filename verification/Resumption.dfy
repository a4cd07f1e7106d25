/** Command numbering across processor replacement: several controllers, one radio
    that outlives them, and every interleaving of their steps. */
module Resumption {
  import opened SpectrumTypes
  import opened ControlSlots

  const LAST_ID := 0xffff_ffff

  // ----- The advance-only floor of the patch -----

  /** resume_after: None is a refused watermark, otherwise the new next ID. */
  function ResumeAfter(next: nat, watermark: u32): Option<nat> {
    if watermark == LAST_ID then None
    else if watermark + 1 > next then Some(watermark + 1) else Some(next)
  }

  datatype Relationship = Relationship(used: bool, nextId: nat)

  datatype ResumeError = InvalidArgument | ResourceLimit

  class ControllerRegistry {
    var relationships: seq<Relationship>

    constructor (size: nat)
      ensures |relationships| == size
      ensures forall k :: 0 <= k < size ==> relationships[k] == Relationship(false, 1)
    {
      relationships := seq(size, k => Relationship(false, 1));
    }

    /** Only the addressed relationship changes, and only upwards. */
    method ResumeRelationship(slot: nat, watermark: u32) returns (error: Option<ResumeError>)
      modifies this
      ensures
        if slot >= |old(relationships)| || !old(relationships)[slot].used then
          error == Some(InvalidArgument) && relationships == old(relationships)
        else
          match ResumeAfter(old(relationships)[slot].nextId, watermark)
          case None => error == Some(ResourceLimit) && relationships == old(relationships)
          case Some(next) =>
            && error == None
            && relationships == old(relationships)[slot := Relationship(true, next)]
            && next >= old(relationships)[slot].nextId && next > watermark
    {
      if slot >= |relationships| || !relationships[slot].used {
        return Some(InvalidArgument);
      }
      if watermark == LAST_ID {
        return Some(ResourceLimit);
      }
      var next := watermark + 1;
      if next > relationships[slot].nextId {
        relationships := relationships[slot := relationships[slot].(nextId := next)];
      }
      return None;
    }
  }

  // ----- The system -----

  /** Waiting: connected, not yet accepted by the radio. Gone: rejected or dropped. */
  datatype Status = Waiting | Owning | Gone

  /** A TCP connection, with the command IDs sent on it that the radio has not read. */
  datatype Connection = Connection(controller: nat, status: Status, queue: seq<u32>)

  /** One answer of the status service. */
  datatype Snapshot = Snapshot(boot: nat, association: nat, generation: Option<u64>, watermark: u32)

  /** A controller. The last three fields are not in the program: `timely` says that
      its own connection owned the slot when the `after` snapshot was taken and no
      other controller has since been accepted, `anchored` that its floor has been
      raised past everything the radio has admitted, and `since` how many of the
      unread commands of its connection are older than that. */
  datatype Controller = Controller(nextId: nat, connection: Option<nat>, before: Option<Snapshot>, after: Option<Snapshot>,
                                   confirmed: bool, timely: bool, anchored: bool, since: nat)

  datatype Radio = Radio(boot: nat, association: nat, slot: SlotState, owner: Option<nat>, highwater: u32)

  datatype System = System(radio: Radio, connections: seq<Connection>, controllers: seq<Controller>)

  const NEW_CONTROLLER := Controller(1, None, None, None, false, false, false, 0)

  datatype Event =
    | StartController
    | ReadBefore(c: nat)
    | Connect(c: nat)
    | ReadAfter(c: nat)
    | Resume(c: nat)
    | Send(c: nat)
    | Accept(k: nat, now: int)
    | Drop
    | Process
    | Reboot(association: nat)

  function Initial(): System {
    System(Radio(0, 1, EMPTY, None, 0), [], [])
  }

  function Observe(radio: Radio): Snapshot {
    Snapshot(radio.boot, radio.association, radio.slot.active, radio.highwater)
  }

  /** The checks reconcile makes on its two snapshots. */
  predicate Reconcilable(before: Snapshot, after: Snapshot) {
    && before.boot == after.boot && after.generation.Some? && after.generation != before.generation
    && before.association == after.association
  }

  /** The owner of the slot, when it is a connection of this controller. */
  predicate Owns(s: System, c: nat) {
    s.radio.owner.Some? && s.radio.owner.value < |s.connections| && s.connections[s.radio.owner.value].controller == c
  }

  function SetController(s: System, c: nat, controller: Controller): System
    requires c < |s.controllers|
  {
    s.(controllers := s.controllers[c := controller])
  }

  function Gone1(s: System, k: nat): seq<Connection>
    requires k < |s.connections|
  {
    s.connections[k := s.connections[k].(status := Gone, queue := [])]
  }

  /** Another controller owns the slot from now on: nobody else's position is certain. */
  function OnlyFor(controllers: seq<Controller>, c: nat): (r: seq<Controller>)
    ensures |r| == |controllers|
  {
    seq(|controllers|, i requires 0 <= i < |controllers| =>
      if i == c then controllers[i] else controllers[i].(timely := false, anchored := false))
  }

  /** A new connection; it waits behind those that came before it. */
  function ConnectStep(s: System, c: nat): Option<System> {
    if c >= |s.controllers| then None
    else
      Some(s.(connections := s.connections + [Connection(c, Waiting, [])],
              controllers := s.controllers[c := s.controllers[c].(connection := Some(|s.connections|), confirmed := false, since := 0)]))
  }

  /** The checks on both snapshots, and the floor raised over the watermark. */
  function ResumeStep(s: System, c: nat): Option<System> {
    if c >= |s.controllers| || s.controllers[c].before.None? || s.controllers[c].after.None? then None
    else
      var controller := s.controllers[c];
      if !Reconcilable(controller.before.value, controller.after.value) then None
      else
        var next := ResumeAfter(controller.nextId, controller.after.value.watermark);
        if next.None? then None
        else
          Some(SetController(s, c, controller.(
            nextId := next.value,
            anchored := controller.anchored || controller.timely,
            since := if controller.anchored then controller.since else Unread(s, controller))))
  }

  /** A command takes the controller's next ID; a dead connection loses it. */
  function SendStep(s: System, c: nat): Option<System> {
    if c >= |s.controllers| || s.controllers[c].connection.None? || s.controllers[c].connection.value >= |s.connections|
       || s.controllers[c].nextId > LAST_ID then None
    else
      var controller := s.controllers[c];
      var k := controller.connection.value;
      var connection := s.connections[k];
      var sent := if connection.status.Gone? then connection
                  else connection.(queue := connection.queue + [controller.nextId]);
      Some(s.(connections := s.connections[k := sent],
              controllers := s.controllers[c := controller.(nextId := controller.nextId + 1)]))
  }

  /** accept_controller: a connection is taken only when the slot is free. */
  function AcceptStep(s: System, k: nat, now: int): Option<System> {
    if k >= |s.connections| || !s.connections[k].status.Waiting? then None
    else
      var (slot, ok, generation) := Apply(s.radio.slot, Acquire(now));
      if !ok || s.radio.owner.Some? then Some(s.(connections := Gone1(s, k)))
      else
        Some(System(s.radio.(slot := slot, owner := Some(k)),
                    s.connections[k := s.connections[k].(status := Owning)],
                    OnlyFor(s.controllers, s.connections[k].controller)))
  }

  /** The radio reads one command from its owner and admits it only above its
      high-water mark. */
  function ProcessStep(s: System): Option<System> {
    if s.radio.owner.None? || s.radio.owner.value >= |s.connections| then None
    else
      var k := s.radio.owner.value;
      var connection := s.connections[k];
      if connection.queue == [] || connection.controller >= |s.controllers| then None
      else
        var id, c := connection.queue[0], connection.controller;
        var controller := s.controllers[c];
        var current := controller.connection == Some(k);
        var read := s.(connections := s.connections[k := connection.(queue := connection.queue[1..])]);
        if id > s.radio.highwater then
          Some(read.(radio := s.radio.(highwater := id),
                     controllers := s.controllers[c := controller.(confirmed := controller.confirmed || current,
                                                                   anchored := true, since := 0)]))
        else
          Some(read.(controllers := s.controllers[c := controller.(
            since := if current && controller.since > 0 then controller.since - 1 else controller.since)]))
  }

  /** One step; None when the event is not possible in this state. */
  function Next(s: System, e: Event): Option<System> {
    match e
    case StartController => Some(s.(controllers := s.controllers + [NEW_CONTROLLER]))
    case ReadBefore(c) =>
      if c >= |s.controllers| then None
      else Some(SetController(s, c, s.controllers[c].(before := Some(Observe(s.radio)))))
    case Connect(c) => ConnectStep(s, c)
    case ReadAfter(c) =>
      if c >= |s.controllers| then None
      else Some(SetController(s, c, s.controllers[c].(after := Some(Observe(s.radio)), timely := Owns(s, c))))
    case Resume(c) => ResumeStep(s, c)
    case Send(c) => SendStep(s, c)
    case Accept(k, now) => AcceptStep(s, k, now)
    case Drop =>
      if s.radio.owner.None? || s.radio.owner.value >= |s.connections| then None
      else Some(System(s.radio.(slot := s.radio.slot.(active := None), owner := None),
                       Gone1(s, s.radio.owner.value), s.controllers))
    case Process => ProcessStep(s)
    case Reboot(association) =>
      Some(System(Radio(s.radio.boot + 1, association, EMPTY, None, 0),
                  seq(|s.connections|, k requires 0 <= k < |s.connections| => Connection(s.connections[k].controller, Gone, [])),
                  OnlyFor(s.controllers, |s.controllers|)))
  }

  function Unread(s: System, controller: Controller): nat {
    if controller.connection.Some? && controller.connection.value < |s.connections|
    then |s.connections[controller.connection.value].queue| else 0
  }

  // ----- What every step keeps -----

  predicate Sorted(queue: seq<u32>) {
    forall i, j :: 0 <= i < j < |queue| ==> queue[i] < queue[j]
  }

  /** Commands still unread carry increasing IDs below their controller's next one. */
  predicate QueuesOk(s: System) {
    forall k :: 0 <= k < |s.connections| ==>
      && s.connections[k].controller < |s.controllers|
      && Sorted(s.connections[k].queue)
      && (s.connections[k].status.Gone? ==> s.connections[k].queue == [])
      && forall i :: 0 <= i < |s.connections[k].queue| ==>
           s.connections[k].queue[i] < s.controllers[s.connections[k].controller].nextId
  }

  /** A controller's connection is its own, and everything on its older ones is older. */
  predicate CurrentOk(s: System)
    requires QueuesOk(s)
  {
    forall c :: 0 <= c < |s.controllers| && s.controllers[c].connection.Some? ==>
      var k := s.controllers[c].connection.value;
      && k < |s.connections| && s.connections[k].controller == c
      && forall j :: 0 <= j < |s.connections| && j != k && s.connections[j].controller == c ==>
           Older(s.connections[j].queue, s.connections[k].queue)
  }

  predicate Older(a: seq<u32>, b: seq<u32>) {
    forall i, j :: 0 <= i < |a| && 0 <= j < |b| ==> a[i] < b[j]
  }

  /** The slot is active exactly while one connection, the owner, is accepted. */
  predicate OwnerOk(s: System) {
    && (s.radio.owner.Some? <==> s.radio.slot.active.Some?)
    && (s.radio.owner.Some? ==> s.radio.owner.value < |s.connections|)
    && forall k :: 0 <= k < |s.connections| ==> (s.connections[k].status.Owning? <==> s.radio.owner == Some(k))
  }

  /** What the flags of one controller promise. */
  predicate ControllerOk(s: System, c: nat)
    requires QueuesOk(s) && CurrentOk(s) && OwnerOk(s) && c < |s.controllers|
  {
    var controller := s.controllers[c];
    && controller.nextId <= LAST_ID + 1
    && (controller.anchored || controller.timely ==> s.radio.owner.None? || Owns(s, c))
    && (controller.anchored ==> s.radio.highwater < controller.nextId)
    && (controller.timely ==>
          && controller.after.Some?
          && (s.radio.highwater < controller.nextId || s.radio.highwater <= controller.after.value.watermark))
    && (controller.connection.Some? ==>
          var connection := s.connections[controller.connection.value];
          && (controller.confirmed ==> !connection.status.Waiting?)
          && (controller.confirmed && connection.status.Owning? ==> controller.anchored && controller.since == 0)
          && (controller.anchored ==>
                forall i :: controller.since <= i < |connection.queue| ==> connection.queue[i] > s.radio.highwater))
    && (controller.connection.None? ==> !controller.confirmed)
  }

  predicate Inv(s: System) {
    && QueuesOk(s) && CurrentOk(s) && OwnerOk(s)
    && forall c :: 0 <= c < |s.controllers| ==> ControllerOk(s, c)
  }

  lemma InitialInv()
    ensures Inv(Initial())
  {}

  lemma StartKeeps(s: System)
    requires Inv(s) && Next(s, StartController).Some?
    ensures Inv(Next(s, StartController).value)
  {
    var t := Next(s, StartController).value;
    forall i | 0 <= i < |t.controllers|
      ensures ControllerOk(t, i)
    {
      if i < |s.controllers| {
        assert ControllerOk(s, i);
      }
    }
  }

  lemma ReadBeforeKeeps(s: System, c: nat)
    requires Inv(s) && Next(s, ReadBefore(c)).Some?
    ensures Inv(Next(s, ReadBefore(c)).value)
  {
    var t := Next(s, ReadBefore(c)).value;
    ReadBeforeKeepsTables(s, c);
    forall i | 0 <= i < |t.controllers|
      ensures ControllerOk(t, i)
    {
      assert ControllerOk(s, i);
    }
    hide CurrentOk, Older, ControllerOk;
  }

  lemma ReadBeforeKeepsTables(s: System, c: nat)
    requires Inv(s) && Next(s, ReadBefore(c)).Some?
    ensures
      var t := Next(s, ReadBefore(c)).value;
      QueuesOk(t) && CurrentOk(t) && OwnerOk(t) && |t.controllers| == |s.controllers|
  {
    hide ControllerOk;
  }

  lemma ReadAfterKeeps(s: System, c: nat)
    requires Inv(s) && Next(s, ReadAfter(c)).Some?
    ensures Inv(Next(s, ReadAfter(c)).value)
  {
    var t := Next(s, ReadAfter(c)).value;
    ReadAfterKeepsTables(s, c);
    forall i | 0 <= i < |t.controllers|
      ensures ControllerOk(t, i)
    {
      assert ControllerOk(s, i);
    }
    hide CurrentOk, Older, ControllerOk;
  }

  lemma ReadAfterKeepsTables(s: System, c: nat)
    requires Inv(s) && Next(s, ReadAfter(c)).Some?
    ensures
      var t := Next(s, ReadAfter(c)).value;
      QueuesOk(t) && CurrentOk(t) && OwnerOk(t) && |t.controllers| == |s.controllers|
  {
    hide ControllerOk;
  }

  lemma ConnectKeeps(s: System, c: nat)
    requires Inv(s) && ConnectStep(s, c).Some?
    ensures Inv(ConnectStep(s, c).value)
  {
    var t := ConnectStep(s, c).value;
    ConnectKeepsQueues(s, c);
    ConnectKeepsCurrent(s, c);
    hide ConnectStep;
    forall i | 0 <= i < |t.controllers|
      ensures ControllerOk(t, i)
    {
      ConnectKeepsController(s, c, i);
    }
  }

  lemma ConnectKeepsQueues(s: System, c: nat)
    requires Inv(s) && ConnectStep(s, c).Some?
    ensures QueuesOk(ConnectStep(s, c).value) && OwnerOk(ConnectStep(s, c).value)
    ensures |ConnectStep(s, c).value.controllers| == |s.controllers|
  {
    hide ControllerOk, Older;
  }

  lemma ConnectKeepsCurrent(s: System, c: nat)
    requires Inv(s) && ConnectStep(s, c).Some? && QueuesOk(ConnectStep(s, c).value)
    ensures CurrentOk(ConnectStep(s, c).value)
  {
    hide ControllerOk;
  }

  lemma ConnectKeepsController(s: System, c: nat, i: nat)
    requires Inv(s) && ConnectStep(s, c).Some? && i < |s.controllers| == |ConnectStep(s, c).value.controllers|
    requires QueuesOk(ConnectStep(s, c).value) && CurrentOk(ConnectStep(s, c).value) && OwnerOk(ConnectStep(s, c).value)
    ensures ControllerOk(ConnectStep(s, c).value, i)
  {
    assert ControllerOk(s, i);
  }

  lemma ResumeKeeps(s: System, c: nat)
    requires Inv(s) && ResumeStep(s, c).Some?
    ensures Inv(ResumeStep(s, c).value)
  {
    var t := ResumeStep(s, c).value;
    ResumeKeepsQueues(s, c);
    ResumeKeepsCurrent(s, c);
    hide ResumeStep;
    forall i | 0 <= i < |t.controllers|
      ensures ControllerOk(t, i)
    {
      ResumeKeepsController(s, c, i);
    }
  }

  lemma ResumeKeepsQueues(s: System, c: nat)
    requires Inv(s) && ResumeStep(s, c).Some?
    ensures QueuesOk(ResumeStep(s, c).value) && OwnerOk(ResumeStep(s, c).value)
    ensures |ResumeStep(s, c).value.controllers| == |s.controllers|
  {
    hide ControllerOk, Older;
  }

  lemma ResumeKeepsCurrent(s: System, c: nat)
    requires Inv(s) && ResumeStep(s, c).Some? && QueuesOk(ResumeStep(s, c).value)
    ensures CurrentOk(ResumeStep(s, c).value)
  {
    hide ControllerOk;
  }

  lemma ResumeKeepsController(s: System, c: nat, i: nat)
    requires Inv(s) && ResumeStep(s, c).Some? && i < |s.controllers| == |ResumeStep(s, c).value.controllers|
    requires QueuesOk(ResumeStep(s, c).value) && CurrentOk(ResumeStep(s, c).value) && OwnerOk(ResumeStep(s, c).value)
    ensures ControllerOk(ResumeStep(s, c).value, i)
  {
    assert ControllerOk(s, i);
  }

  lemma SendKeeps(s: System, c: nat)
    requires Inv(s) && SendStep(s, c).Some?
    ensures Inv(SendStep(s, c).value)
  {
    var t := SendStep(s, c).value;
    SendKeepsQueues(s, c);
    SendKeepsCurrent(s, c);
    hide SendStep;
    forall i | 0 <= i < |t.controllers|
      ensures ControllerOk(t, i)
    {
      SendKeepsController(s, c, i);
    }
  }

  lemma SendKeepsQueues(s: System, c: nat)
    requires Inv(s) && SendStep(s, c).Some?
    ensures QueuesOk(SendStep(s, c).value) && OwnerOk(SendStep(s, c).value)
    ensures |SendStep(s, c).value.controllers| == |s.controllers|
  {
    hide ControllerOk, Older;
  }

  lemma SendKeepsCurrent(s: System, c: nat)
    requires Inv(s) && SendStep(s, c).Some? && QueuesOk(SendStep(s, c).value)
    ensures CurrentOk(SendStep(s, c).value)
  {
    hide ControllerOk;
  }

  lemma SendKeepsController(s: System, c: nat, i: nat)
    requires Inv(s) && SendStep(s, c).Some? && i < |s.controllers| == |SendStep(s, c).value.controllers|
    requires QueuesOk(SendStep(s, c).value) && CurrentOk(SendStep(s, c).value) && OwnerOk(SendStep(s, c).value)
    ensures ControllerOk(SendStep(s, c).value, i)
  {
    assert ControllerOk(s, i);
  }

  lemma AcceptKeeps(s: System, k: nat, now: int)
    requires Inv(s) && AcceptStep(s, k, now).Some?
    ensures Inv(AcceptStep(s, k, now).value)
  {
    var t := AcceptStep(s, k, now).value;
    AcceptKeepsQueues(s, k, now);
    AcceptKeepsCurrent(s, k, now);
    hide AcceptStep;
    forall i | 0 <= i < |t.controllers|
      ensures ControllerOk(t, i)
    {
      AcceptKeepsController(s, k, now, i);
    }
  }

  lemma AcceptKeepsQueues(s: System, k: nat, now: int)
    requires Inv(s) && AcceptStep(s, k, now).Some?
    ensures QueuesOk(AcceptStep(s, k, now).value) && OwnerOk(AcceptStep(s, k, now).value)
    ensures |AcceptStep(s, k, now).value.controllers| == |s.controllers|
  {
    hide ControllerOk, Older;
  }

  lemma AcceptKeepsCurrent(s: System, k: nat, now: int)
    requires Inv(s) && AcceptStep(s, k, now).Some? && QueuesOk(AcceptStep(s, k, now).value)
    ensures CurrentOk(AcceptStep(s, k, now).value)
  {
    hide ControllerOk;
  }

  lemma AcceptKeepsController(s: System, k: nat, now: int, i: nat)
    requires Inv(s) && AcceptStep(s, k, now).Some? && i < |s.controllers| == |AcceptStep(s, k, now).value.controllers|
    requires QueuesOk(AcceptStep(s, k, now).value) && CurrentOk(AcceptStep(s, k, now).value) && OwnerOk(AcceptStep(s, k, now).value)
    ensures ControllerOk(AcceptStep(s, k, now).value, i)
  {
    assert ControllerOk(s, i);
  }

  lemma DropKeeps(s: System)
    requires Inv(s) && Next(s, Drop).Some?
    ensures Inv(Next(s, Drop).value)
  {
    var t := Next(s, Drop).value;
    DropKeepsTables(s);
    forall i | 0 <= i < |t.controllers|
      ensures ControllerOk(t, i)
    {
      assert ControllerOk(s, i);
    }
    hide CurrentOk, Older, ControllerOk;
  }

  lemma DropKeepsTables(s: System)
    requires Inv(s) && Next(s, Drop).Some?
    ensures
      var t := Next(s, Drop).value;
      QueuesOk(t) && CurrentOk(t) && OwnerOk(t) && |t.controllers| == |s.controllers|
  {
    hide ControllerOk;
  }

  lemma ProcessKeeps(s: System)
    requires Inv(s) && ProcessStep(s).Some?
    ensures Inv(ProcessStep(s).value)
  {
    var t := ProcessStep(s).value;
    ProcessKeepsQueues(s);
    ProcessKeepsCurrent(s);
    hide ProcessStep;
    forall i | 0 <= i < |t.controllers|
      ensures ControllerOk(t, i)
    {
      ProcessKeepsController(s, i);
    }
  }

  lemma ProcessKeepsQueues(s: System)
    requires Inv(s) && ProcessStep(s).Some?
    ensures QueuesOk(ProcessStep(s).value) && OwnerOk(ProcessStep(s).value)
    ensures |ProcessStep(s).value.controllers| == |s.controllers|
  {
    hide ControllerOk, Older;
  }

  lemma ProcessKeepsCurrent(s: System)
    requires Inv(s) && ProcessStep(s).Some? && QueuesOk(ProcessStep(s).value)
    ensures CurrentOk(ProcessStep(s).value)
  {
    hide ControllerOk, Older, Sorted;
    var t := ProcessStep(s).value;
    forall c, j | 0 <= c < |t.controllers| && t.controllers[c].connection.Some?
                  && 0 <= j < |t.connections| && j != t.controllers[c].connection.value && t.connections[j].controller == c
      ensures Older(t.connections[j].queue, t.connections[t.controllers[c].connection.value].queue)
    {
      var k := t.controllers[c].connection.value;
      OlderRest(s.connections[j].queue, s.connections[k].queue, t.connections[j].queue, t.connections[k].queue);
    }
  }

  lemma OlderRest(a: seq<u32>, b: seq<u32>, c: seq<u32>, d: seq<u32>)
    requires Older(a, b) && (c == a || (a != [] && c == a[1..])) && (d == b || (b != [] && d == b[1..]))
    ensures Older(c, d)
  {}

  lemma ProcessKeepsController(s: System, i: nat)
    requires Inv(s) && ProcessStep(s).Some? && i < |s.controllers| == |ProcessStep(s).value.controllers|
    requires QueuesOk(ProcessStep(s).value) && CurrentOk(ProcessStep(s).value) && OwnerOk(ProcessStep(s).value)
    ensures ControllerOk(ProcessStep(s).value, i)
  {
    assert ControllerOk(s, i);
    hide Inv, OwnerOk, Older;
  }

  lemma RebootKeeps(s: System, association: nat)
    requires Inv(s) && Next(s, Reboot(association)).Some?
    ensures Inv(Next(s, Reboot(association)).value)
  {
    var t := Next(s, Reboot(association)).value;
    forall i | 0 <= i < |t.controllers|
      ensures ControllerOk(t, i)
    {
      if i < |s.controllers| {
        assert ControllerOk(s, i);
      }
    }
  }

  // ----- Every run -----

  lemma NextKeeps(s: System, e: Event)
    requires Inv(s) && Next(s, e).Some?
    ensures Inv(Next(s, e).value)
  {
    hide Inv;
    match e
    case StartController => StartKeeps(s);
    case ReadBefore(c) => ReadBeforeKeeps(s, c);
    case Connect(c) => ConnectKeeps(s, c);
    case ReadAfter(c) => ReadAfterKeeps(s, c);
    case Resume(c) => ResumeKeeps(s, c);
    case Send(c) => SendKeeps(s, c);
    case Accept(k, now) => AcceptKeeps(s, k, now);
    case Drop => DropKeeps(s);
    case Process => ProcessKeeps(s);
    case Reboot(association) => RebootKeeps(s, association);
  }

  /** The state after these events, if they can happen in this order. */
  function Run(events: seq<Event>): Option<System> {
    if events == [] then Some(Initial())
    else
      var before := Run(events[..|events| - 1]);
      if before.None? then None else Next(before.value, events[|events| - 1])
  }

  lemma {:induction false} RunKeeps(events: seq<Event>)
    requires Run(events).Some?
    ensures Inv(Run(events).value)
  {
    hide Inv, Next;
    if events == [] {
      InitialInv();
    } else {
      RunKeeps(events[..|events| - 1]);
      NextKeeps(Run(events[..|events| - 1]).value, events[|events| - 1]);
    }
  }

  /** After any run: while the connection of a controller owns the slot, and once one
      of its commands was admitted on it (the native status query is the first), its
      next command and all commands still unread are above everything the radio has
      admitted, so the radio admits the next one it reads. */
  lemma ConfirmedCommandsFresh(events: seq<Event>, c: nat, k: nat)
    requires Run(events).Some?
    requires
      var s := Run(events).value;
      c < |s.controllers| && s.controllers[c].connection == Some(k) && s.radio.owner == Some(k) && s.controllers[c].confirmed
    ensures
      var s := Run(events).value;
      && k < |s.connections|
      && s.radio.highwater < s.controllers[c].nextId
      && (forall i :: 0 <= i < |s.connections[k].queue| ==> s.connections[k].queue[i] > s.radio.highwater)
      && (s.connections[k].queue != [] ==>
            Next(s, Process).Some? && Next(s, Process).value.radio.highwater == s.connections[k].queue[0])
  {
    RunKeeps(events);
    var s := Run(events).value;
    assert ControllerOk(s, c);
    hide Run, Older, Sorted;
  }

  /** The same from the moment the floor was raised, if the `after` snapshot was taken
      while the controller's own connection owned the slot: every command it sends
      from then on is above everything admitted when the radio reads it. */
  lemma TimelySnapshotFresh(events: seq<Event>, c: nat)
    requires Run(events + [Resume(c)]).Some?
    requires Run(events).Some? && c < |Run(events).value.controllers| && Run(events).value.controllers[c].timely
    ensures
      var s := Run(events + [Resume(c)]).value;
      && c < |s.controllers| && s.controllers[c].anchored
      && s.radio.highwater < s.controllers[c].nextId
  {
    assert (events + [Resume(c)])[..|events|] == events;
    RunKeeps(events + [Resume(c)]);
    var s := Run(events + [Resume(c)]).value;
    assert ControllerOk(s, c);
  }

  lemma AnchoredCommandsFresh(events: seq<Event>, c: nat)
    requires Run(events).Some? && c < |Run(events).value.controllers| && Run(events).value.controllers[c].anchored
    ensures
      var s := Run(events).value;
      && s.radio.highwater < s.controllers[c].nextId
      && (s.controllers[c].connection.Some? ==>
            var k := s.controllers[c].connection.value;
            && k < |s.connections|
            && forall i :: s.controllers[c].since <= i < |s.connections[k].queue| ==>
                 s.connections[k].queue[i] > s.radio.highwater)
  {
    RunKeeps(events);
    assert ControllerOk(Run(events).value, c);
    hide Run, Next;
  }

  /** Being anchored lasts as long as the ownership: only the acceptance of another
      controller or a new radio lifetime ends it. */
  lemma OwnershipKeepsAnchor(s: System, e: Event, c: nat)
    requires Inv(s) && Next(s, e).Some? && c < |s.controllers| && s.controllers[c].anchored
    requires Owns(s, c) && Next(s, e).value.radio.owner == s.radio.owner
    ensures c < |Next(s, e).value.controllers| && Next(s, e).value.controllers[c].anchored
  {
    hide ControllerOk, Older, Sorted;
  }

  /** No step lowers the floor of a controller, and no run takes it past 2^32. */
  lemma FloorOnlyRises(s: System, e: Event, c: nat)
    requires Inv(s) && Next(s, e).Some? && c < |s.controllers|
    ensures c < |Next(s, e).value.controllers|
    ensures s.controllers[c].nextId <= Next(s, e).value.controllers[c].nextId <= LAST_ID + 1
  {
    hide ControllerOk, Older, Sorted;
    NextKeeps(s, e);
    assert ControllerOk(Next(s, e).value, c);
    FloorBound(Next(s, e).value, c);
  }

  lemma FloorBound(s: System, c: nat)
    requires QueuesOk(s) && CurrentOk(s) && OwnerOk(s) && c < |s.controllers| && ControllerOk(s, c)
    ensures s.controllers[c].nextId <= LAST_ID + 1
  {}

  // ----- Why the status query is needed -----

  lemma Then(events: seq<Event>, s: System, e: Event) returns (longer: seq<Event>, t: System)
    requires Run(events) == Some(s) && Next(s, e).Some?
    ensures longer == events + [e] && t == Next(s, e).value && Run(longer) == Some(t)
  {
    longer, t := events + [e], Next(s, e).value;
    assert longer[..|longer| - 1] == events;
    hide Next;
  }

  /** Two controllers have read a first snapshot and connected. */
  lemma BothConnected() returns (events: seq<Event>, s: System)
    ensures Run(events) == Some(s)
    ensures
      var snapshot := Some(Snapshot(0, 1, None, 0));
      s == System(Radio(0, 1, EMPTY, None, 0), [Connection(0, Waiting, []), Connection(1, Waiting, [])],
                  [Controller(1, Some(0), snapshot, None, false, false, false, 0),
                   Controller(1, Some(1), snapshot, None, false, false, false, 0)])
  {
    s := Initial();
    events := [];
    events, s := Then(events, s, StartController);
    events, s := Then(events, s, StartController);
    assert s.controllers == [NEW_CONTROLLER, NEW_CONTROLLER];
    events, s := Then(events, s, ReadBefore(0));
    events, s := Then(events, s, Connect(0));
    events, s := Then(events, s, ReadBefore(1));
    events, s := Then(events, s, Connect(1));
  }

  /** The radio accepts the second, but the first reads its snapshot and resumes. */
  lemma WrongOwnerObserved() returns (events: seq<Event>, s: System)
    ensures Run(events) == Some(s) && Resume(0) in events
    ensures
      var before, after := Some(Snapshot(0, 1, None, 0)), Some(Snapshot(0, 1, Some(1), 0));
      s == System(Radio(0, 1, SlotState(2, Some(1), 0), Some(1), 0), [Connection(0, Waiting, []), Connection(1, Owning, [])],
                  [Controller(1, Some(0), before, after, false, false, false, 0),
                   Controller(1, Some(1), before, None, false, false, false, 0)])
  {
    events, s := BothConnected();
    events, s := Then(events, s, Accept(1, 0));
    events, s := Then(events, s, ReadAfter(0));
    events, s := Then(events, s, Resume(0));
  }

  /** The two snapshots alone do not do it: the new generation may be somebody
      else's. Then a controller can pass the checks, raise its floor, come to own the
      slot, and still have its first command refused. */
  lemma SnapshotsAreNotEnough() returns (events: seq<Event>)
    ensures Run(events).Some?
    ensures Resume(0) in events
    ensures
      var s := Run(events).value;
      && |s.controllers| == 2 && |s.connections| == 2
      && s.controllers[0].connection == Some(0) && s.radio.owner == Some(0)
      && !s.controllers[0].anchored
      && s.connections[0].queue == [1] && s.radio.highwater == 1
      && Next(s, Process).Some? && Next(s, Process).value.radio == s.radio
  {
    hide Run;
    var s: System;
    events, s := WrongOwnerObserved();
    events, s := Then(events, s, Send(1));
    events, s := Then(events, s, Process);
    events, s := Then(events, s, Drop);
    events, s := Then(events, s, Accept(0, 0));
    events, s := Then(events, s, Send(0));
  }
}
