/** What the two status snapshots of reconcile prove, and when they are enough. */
module Snapshots {
  import opened SpectrumTypes
  import opened ControlSlots
  import opened Resumption

  /** The state after these events, if they can happen from here. */
  function From(s: System, events: seq<Event>): Option<System> {
    if events == [] then Some(s)
    else
      var before := From(s, events[..|events| - 1]);
      if before.None? then None else Next(before.value, events[|events| - 1])
  }

  /** The controller whose connection this event makes the owner. */
  function Takes(s: System, e: Event): Option<nat> {
    if e.Accept? && e.k < |s.connections| && s.connections[e.k].status.Waiting?
       && Apply(s.radio.slot, Acquire(e.now)).1 && s.radio.owner.None?
    then Some(s.connections[e.k].controller) else None
  }

  /** The last controller accepted in these events. */
  function LastTaken(s: System, events: seq<Event>): Option<nat>
    requires From(s, events).Some?
  {
    if events == [] then None
    else
      var before := events[..|events| - 1];
      var taken := Takes(From(s, before).value, events[|events| - 1]);
      if taken.Some? then taken else LastTaken(s, before)
  }

  /** A generation in use is older than the next one, if there is a next one. */
  predicate SlotOrdered(slot: SlotState) {
    slot.active.Some? && slot.next != 0 ==> slot.active.value < slot.next
  }

  /** Where a state stands relative to an earlier one of the same boot, when `taken` is the
      last controller accepted since. */
  predicate Since(s: System, t: System, taken: Option<nat>) {
    && t.radio.association == s.radio.association
    && (t.radio.slot.next == 0 || (s.radio.slot.next != 0 && t.radio.slot.next >= s.radio.slot.next))
    && (taken.None? ==> t.radio.slot.next == s.radio.slot.next
                        && (t.radio.slot.active.Some? ==> t.radio.slot.active == s.radio.slot.active))
    && (taken.Some? ==> s.radio.slot.next != 0)
    && (taken.Some? && t.radio.slot.active.Some? ==>
          && t.radio.slot.active.value >= s.radio.slot.next
          && t.radio.owner.Some? && t.radio.owner.value < |t.connections|
          && t.connections[t.radio.owner.value].controller == taken.value)
  }

  lemma StepSince(s: System, t: System, taken: Option<nat>, e: Event)
    requires Inv(t) && SlotOrdered(t.radio.slot) && Since(s, t, taken) && Next(t, e).Some? && !e.Reboot?
    ensures SlotOrdered(Next(t, e).value.radio.slot)
    ensures Next(t, e).value.radio.boot == t.radio.boot
    ensures Since(s, Next(t, e).value, if Takes(t, e).Some? then Takes(t, e) else taken)
  {
    assert OwnerOk(t);
    hide Inv, QueuesOk, CurrentOk;
  }

  lemma RebootSteps(s: System, e: Event)
    requires Next(s, e).Some?
    ensures Next(s, e).value.radio.boot == s.radio.boot + (if e.Reboot? then 1 else 0)
    ensures SlotOrdered(s.radio.slot) ==> SlotOrdered(Next(s, e).value.radio.slot)
  {}

  predicate NoReboot(events: seq<Event>) {
    forall e :: e in events ==> !e.Reboot?
  }

  /** The boot number counts the reboots, so equal numbers mean that there was none. */
  lemma {:induction false} BootCounts(s: System, events: seq<Event>)
    requires From(s, events).Some?
    ensures From(s, events).value.radio.boot >= s.radio.boot
    ensures From(s, events).value.radio.boot == s.radio.boot <==> NoReboot(events)
  {
    if events != [] {
      var (before, e) := (events[..|events| - 1], events[|events| - 1]);
      BootCounts(s, before);
      RebootSteps(From(s, before).value, e);
      assert events == before + [e];
      hide Next;
    }
  }

  lemma {:induction false} FromKeeps(s: System, events: seq<Event>)
    requires Inv(s) && From(s, events).Some?
    ensures Inv(From(s, events).value)
  {
    if events != [] {
      FromKeeps(s, events[..|events| - 1]);
      NextKeeps(From(s, events[..|events| - 1]).value, events[|events| - 1]);
      hide Inv, Next;
    }
  }

  lemma NothingSince(s: System)
    requires Inv(s)
    ensures From(s, []) == Some(s) && LastTaken(s, []) == None && Since(s, s, None)
  {
    hide Inv;
  }

  lemma FromUnfolds(s: System, events: seq<Event>)
    requires events != [] && From(s, events).Some?
    ensures
      var (before, e) := (events[..|events| - 1], events[|events| - 1]);
      && From(s, before).Some? && Next(From(s, before).value, e) == From(s, events)
      && (NoReboot(events) ==> NoReboot(before) && !e.Reboot?)
      && LastTaken(s, events)
         == (if Takes(From(s, before).value, e).Some? then Takes(From(s, before).value, e) else LastTaken(s, before))
  {
    hide Next, Takes;
  }

  lemma {:induction false} FromSince(s: System, events: seq<Event>)
    requires Inv(s) && SlotOrdered(s.radio.slot) && From(s, events).Some? && NoReboot(events)
    ensures Since(s, From(s, events).value, LastTaken(s, events)) && SlotOrdered(From(s, events).value.radio.slot)
  {
    hide *;
    if events == [] {
      NothingSince(s);
    } else {
      var (before, e) := (events[..|events| - 1], events[|events| - 1]);
      FromUnfolds(s, events);
      FromSince(s, before);
      FromKeeps(s, before);
      StepSince(s, From(s, before).value, LastTaken(s, before), e);
    }
  }

  /** The slot is in order after every run. */
  lemma {:induction false} RunOrdered(events: seq<Event>)
    requires Resumption.Run(events).Some?
    ensures SlotOrdered(Resumption.Run(events).value.radio.slot)
  {
    if events != [] {
      RunOrdered(events[..|events| - 1]);
      RebootSteps(Resumption.Run(events[..|events| - 1]).value, events[|events| - 1]);
      hide Next;
    }
  }

  lemma ChecksProve(s: System, events: seq<Event>, c: nat)
    requires Inv(s) && SlotOrdered(s.radio.slot) && From(s, events).Some?
    ensures
      var t := From(s, events).value;
      && (Reconcilable(Observe(s.radio), Observe(t.radio))
          <==> NoReboot(events) && LastTaken(s, events).Some? && t.radio.owner.Some?)
      && (Reconcilable(Observe(s.radio), Observe(t.radio)) ==>
            (Owns(t, c) <==> LastTaken(s, events) == Some(c)))
  {
    var t := From(s, events).value;
    BootCounts(s, events);
    FromKeeps(s, events);
    if NoReboot(events) {
      FromSince(s, events);
    }
    assert OwnerOk(s) && OwnerOk(t);
    hide Inv, QueuesOk, CurrentOk, From, LastTaken, NoReboot;
  }

  /** After any run and any further events, a snapshot before and one after these events pass
      the checks if and only if the radio did not boot again in between, some controller was
      accepted in between, and a controller owns the slot at the second one. The owner then is
      the controller accepted last, whoever that is. */
  lemma SnapshotsProve(before: seq<Event>, events: seq<Event>, c: nat)
    requires Resumption.Run(before).Some? && From(Resumption.Run(before).value, events).Some?
    ensures
      var s := Resumption.Run(before).value;
      var t := From(s, events).value;
      && (Reconcilable(Observe(s.radio), Observe(t.radio))
          <==> NoReboot(events) && LastTaken(s, events).Some? && t.radio.owner.Some?)
      && (Reconcilable(Observe(s.radio), Observe(t.radio)) ==>
            (Owns(t, c) <==> LastTaken(s, events) == Some(c)))
  {
    hide *;
    RunKeeps(before);
    RunOrdered(before);
    ChecksProve(Resumption.Run(before).value, events, c);
  }

  // ----- From the snapshots to fresh commands -----

  /** Nobody but this controller becomes the owner, and the radio keeps running. */
  predicate Undisturbed(s: System, events: seq<Event>, c: nat)
    requires From(s, events).Some?
    decreases |events|
  {
    events == []
    || (var (before, e) := (events[..|events| - 1], events[|events| - 1]);
        && From(s, before).Some? && Undisturbed(s, before, c)
        && !e.Reboot? && (Takes(From(s, before).value, e).Some? ==> Takes(From(s, before).value, e) == Some(c)))
  }

  /** The snapshots a controller holds are replaced only by its own reading. */
  lemma StepRemembers(s: System, e: Event, c: nat)
    requires Inv(s) && Next(s, e).Some? && c < |s.controllers|
    ensures c < |Next(s, e).value.controllers|
    ensures e != ReadBefore(c) ==> Next(s, e).value.controllers[c].before == s.controllers[c].before
    ensures e != ReadAfter(c) ==> Next(s, e).value.controllers[c].after == s.controllers[c].after
  {
    hide Inv;
  }

  lemma {:induction false} FromRemembers(s: System, events: seq<Event>, c: nat)
    requires Inv(s) && From(s, events).Some? && c < |s.controllers| && ReadBefore(c) !in events
    ensures
      var t := From(s, events).value;
      && c < |t.controllers| && t.controllers[c].before == s.controllers[c].before
      && (ReadAfter(c) !in events ==> t.controllers[c].after == s.controllers[c].after)
  {
    if events != [] {
      var (before, e) := (events[..|events| - 1], events[|events| - 1]);
      assert events == before + [e];
      FromRemembers(s, before, c);
      FromKeeps(s, before);
      StepRemembers(From(s, before).value, e, c);
      hide Next, Inv;
    }
  }

  /** Being timely lasts until somebody else is accepted, the radio boots again, or the
      controller reads its second snapshot anew. */
  lemma StepTimely(s: System, e: Event, c: nat)
    requires Inv(s) && Next(s, e).Some? && c < |s.controllers| && s.controllers[c].timely
    requires e != ReadAfter(c) && !e.Reboot? && (Takes(s, e).Some? ==> Takes(s, e) == Some(c))
    ensures c < |Next(s, e).value.controllers| && Next(s, e).value.controllers[c].timely
  {
    assert OwnerOk(s);
    hide Inv, QueuesOk, CurrentOk;
  }

  lemma {:induction false} TimelyLasts(s: System, events: seq<Event>, c: nat)
    requires Inv(s) && From(s, events).Some? && c < |s.controllers| && s.controllers[c].timely
    requires ReadAfter(c) !in events && Undisturbed(s, events, c)
    ensures c < |From(s, events).value.controllers| && From(s, events).value.controllers[c].timely
  {
    if events != [] {
      var (before, e) := (events[..|events| - 1], events[|events| - 1]);
      assert events == before + [e];
      TimelyLasts(s, before, c);
      FromKeeps(s, before);
      StepTimely(From(s, before).value, e, c);
      hide Next, Inv, Takes;
    }
  }

  lemma ReadingsSuffice(s: System, middle: seq<Event>, t: System, later: seq<Event>, u: System, c: nat)
    requires Inv(s) && SlotOrdered(s.radio.slot) && c < |s.controllers|
    requires ReadBefore(c) !in middle && ReadBefore(c) !in later && ReadAfter(c) !in later
    requires From(Next(s, ReadBefore(c)).value, middle) == Some(t)
    requires Next(t, ReadAfter(c)).Some? && From(Next(t, ReadAfter(c)).value, later) == Some(u)
    requires Next(u, Resume(c)).Some?
    ensures LastTaken(Next(s, ReadBefore(c)).value, middle).Some?
    ensures
      LastTaken(Next(s, ReadBefore(c)).value, middle) == Some(c) && Undisturbed(Next(t, ReadAfter(c)).value, later, c) ==>
        var v := Next(u, Resume(c)).value;
        && c < |v.controllers| && v.controllers[c].anchored && v.radio.highwater < v.controllers[c].nextId
  {
    var (s1, t1) := (Next(s, ReadBefore(c)).value, Next(t, ReadAfter(c)).value);
    NextKeeps(s, ReadBefore(c));
    FromKeeps(s1, middle);
    FromRemembers(s1, middle, c);
    NextKeeps(t, ReadAfter(c));
    FromKeeps(t1, later);
    FromRemembers(t1, later, c);
    ReadsTwice(s, s1, t, t1, u, c);
    ChecksProve(s1, middle, c);
    if LastTaken(s1, middle) == Some(c) && Undisturbed(t1, later, c) {
      assert Owns(t, c);
      TimelyLasts(t1, later, c);
      NextKeeps(u, Resume(c));
      ResumedTimely(u, c);
    }
    hide Next, Inv, From, LastTaken, Undisturbed, Reconcilable, Owns;
  }

  /** After any run a controller reads its first snapshot, after `middle` its second, in `t`, and
      after `later` it raises its floor, in `u`, and the checks pass. Then somebody was accepted
      between the snapshots. If that was this controller last, and nobody else is accepted before
      the floor is raised, its next command is above everything the radio has admitted. */
  lemma SnapshotsSuffice(before: seq<Event>, middle: seq<Event>, t: System, later: seq<Event>, u: System, c: nat)
    requires Resumption.Run(before).Some? && c < |Resumption.Run(before).value.controllers|
    requires ReadBefore(c) !in middle && ReadBefore(c) !in later && ReadAfter(c) !in later
    requires From(Next(Resumption.Run(before).value, ReadBefore(c)).value, middle) == Some(t)
    requires Next(t, ReadAfter(c)).Some? && From(Next(t, ReadAfter(c)).value, later) == Some(u)
    requires Next(u, Resume(c)).Some?
    ensures
      var s := Next(Resumption.Run(before).value, ReadBefore(c)).value;
      && LastTaken(s, middle).Some?
      && (LastTaken(s, middle) == Some(c) && Undisturbed(Next(t, ReadAfter(c)).value, later, c) ==>
            var v := Next(u, Resume(c)).value;
            && c < |v.controllers| && v.controllers[c].anchored && v.radio.highwater < v.controllers[c].nextId)
  {
    hide Resumption.Run, From, Inv, LastTaken, Undisturbed, SlotOrdered;
    RunKeeps(before);
    RunOrdered(before);
    ReadingsSuffice(Resumption.Run(before).value, middle, t, later, u, c);
  }

  /** What the two readings put down, and what the floor is raised on. */
  lemma ReadsTwice(s: System, s1: System, t: System, t1: System, u: System, c: nat)
    requires c < |s.controllers| && Next(s, ReadBefore(c)) == Some(s1) && Next(t, ReadAfter(c)) == Some(t1)
    requires c < |t.controllers| && t.controllers[c].before == s1.controllers[c].before
    requires c < |u.controllers| && u.controllers[c].before == t1.controllers[c].before
    requires u.controllers[c].after == t1.controllers[c].after && Next(u, Resume(c)).Some?
    ensures s1.radio == s.radio && c < |t1.controllers| && (t1.controllers[c].timely <==> Owns(t, c))
    ensures Reconcilable(Observe(s1.radio), Observe(t.radio))
  {}

  lemma ResumedTimely(u: System, c: nat)
    requires Next(u, Resume(c)).Some? && c < |u.controllers| && u.controllers[c].timely && Inv(Next(u, Resume(c)).value)
    ensures
      var v := Next(u, Resume(c)).value;
      c < |v.controllers| && v.controllers[c].anchored && v.radio.highwater < v.controllers[c].nextId
  {
    assert ControllerOk(Next(u, Resume(c)).value, c);
  }
}
