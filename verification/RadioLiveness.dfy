/** When the radio keeps its controller, and how the controller shows that it lives. */
module RadioLiveness {
  import opened SpectrumTypes
  import opened ScatterGather
  import opened Submissions
  import opened RadioSteps
  import opened RadioSafety
  import opened RadioTheorems
  import opened RadioEffects

  /** The controller stopped reading for too long, or neither connecting nor a status reply is
      recent enough. */
  predicate TimedOut(w: World, io: Io) {
    || (io.stalled && io.now - w.link.inputActivity >= w.config.ioTimeout)
    || (io.now - w.link.connectedAt >= w.config.staleTimeout && io.now - w.link.control.lastLiveness >= w.config.staleTimeout)
  }

  /** Nobody else asks for a connection. */
  predicate Uncontested(w: World, io: Io) {
    !w.accepting || io.accepting.NoController?
  }

  /** Reading from the controller fails, or what it sent cannot be taken. */
  predicate ReadingBreaks(w: World, io: Io) {
    && Uncontested(w, io)
    && match io.receiving
       case NothingReceived => false
       case Received(count, packets, delivered, observed) => delivered.None? || !observed
       case _ => true
  }

  /** It is the turn of slot `i` to send. */
  predicate Turn(w: World, io: Io, i: nat) {
    && Uncontested(w, io) && io.receiving.NothingReceived?
    && w.books.slots != [] && Select(w.books.slots, w.cursor, |w.books.slots|).1 == Some(i)
  }

  /** Writing a control message to the controller fails. */
  predicate WritingBreaks(w: World, io: Io) {
    io.writing.SendFailed? &&
    exists i: nat :: i < |w.books.slots| && Turn(w, io, i) && !w.books.slots[i].data && io.now < w.books.slots[i].deadline
  }

  lemma StaleIs(w: World, io: Io)
    requires Inv(w) && w.link.connected
    ensures Stale(w, io) <==> TimedOut(w, io)
  {
    InvLink(w);
    hide BooksOk, CursorsOk, PlacesOk, HandedOk;
  }

  lemma StaleDrops(w: World, io: Io)
    requires Inv(w) && w.open && w.link.connected && TimedOut(w, io)
    ensures !Progress(w, io).0.link.connected
  {
    StaleIs(w, io);
    hide Inv, FailFrom, Stale, TimedOut, AfterStaleCheck;
  }

  /** What a step comes down to while the connection is not given up. */
  lemma LivingStep(w: World, io: Io)
    requires Inv(w) && w.open && w.link.connected && !TimedOut(w, io)
    ensures
      var after := Progress(w, io).0;
      if !Uncontested(w, io) then after == w.(metrics := after.metrics)
      else if !io.receiving.NothingReceived? then after == Receive(w, io).0
      else after == SendNext(w, io).0
  {
    StaleIs(w, io);
    ReceiveIdle(w, io);
    ReceivesAtOnce(w, io);
    hide Inv, Receive, SendNext, Stale, TimedOut, FailControl;
  }

  lemma ReceivesAtOnce(w: World, io: Io)
    requires w.link.connected
    ensures Receive(w, io).1.Idle? <==> io.receiving.NothingReceived?
  {
    hide FailControl, AsksStatus;
  }

  /** The connection of the controller and its ownership are untouched. */
  predicate Owned(link: Link, after: Link) {
    && after.connected && after.generation == link.generation && after.connectedAt == link.connectedAt
    && after.control.active == link.control.active && after.control.next == link.control.next
  }

  lemma ReceiveOwned(w: World, io: Io)
    requires Inv(w) && w.open && w.link.connected && Uncontested(w, io) && !io.receiving.NothingReceived?
    ensures ReadingBreaks(w, io) ==> !Receive(w, io).0.link.connected
    ensures !ReadingBreaks(w, io) ==> Owned(w.link, Receive(w, io).0.link)
  {
    hide Inv, FailFrom, AsksStatus;
  }

  lemma SendOwned(w: World, io: Io)
    requires Inv(w) && w.open && w.link.connected && Uncontested(w, io) && io.receiving.NothingReceived?
    ensures WritingBreaks(w, io) ==> !SendNext(w, io).0.link.connected
    ensures !WritingBreaks(w, io) ==> Owned(w.link, SendNext(w, io).0.link)
  {
    var (cursor, selected) := Select(w.books.slots, w.cursor, |w.books.slots|);
    SelectBusy(w);
    SendNextIs(w, io);
    if selected.Some? {
      TransmitOwned(w, w.(cursor := cursor), selected.value, io);
      assert Turn(w, io, selected.value);
    }
    hide Inv, Transmit, Select, Owned;
  }

  lemma TransmitOwned(w: World, moved: World, i: nat, io: Io)
    requires moved == w.(cursor := moved.cursor) && w.link.connected && Busy(w.books, i) && CursorsOk(w.books)
    ensures
      var (link, breaks) := (Transmit(moved, i, io).0.link,
                             io.writing.SendFailed? && !w.books.slots[i].data && io.now < w.books.slots[i].deadline);
      if breaks then !link.connected else Owned(w.link, link)
  {
    hide FailFrom, Take, Settle, AtEnd, TakenOf, Unsent, Message;
  }

  /** A connected controller keeps its connection and its slot through a step if and only if it
      is not timed out, reading from it does not fail, and no message to it fails; what others
      do at the listener costs it nothing. */
  lemma ConnectionKept(w: World, io: Io)
    requires Inv(w) && w.open && w.link.connected
    ensures
      var after := Progress(w, io).0;
      && (after.link.connected <==> !TimedOut(w, io) && !ReadingBreaks(w, io) && !WritingBreaks(w, io))
      && (after.link.connected ==> Owned(w.link, after.link))
      && (!after.link.connected ==> after.link.control.active.None?)
  {
    hide *;
    CanStep(w);
    ProgressKeeps(w, io);
    Unowned(w, io);
    OwnedConnected(w, io);
    BreaksNeed(w, io);
    if TimedOut(w, io) {
      StaleDrops(w, io);
    } else {
      LivingStep(w, io);
      if Uncontested(w, io) && !io.receiving.NothingReceived? {
        ReceiveOwned(w, io);
      } else if Uncontested(w, io) {
        SendOwned(w, io);
      }
    }
  }

  lemma CanStep(w: World)
    requires Inv(w)
    ensures CursorsOk(w.books) && w.books.slots != []
  {}

  lemma OwnedConnected(w: World, io: Io)
    requires Inv(w) && w.link.connected
    ensures Owned(w.link, w.link)
    ensures Owned(w.link, Progress(w, io).0.link) ==> Progress(w, io).0.link.connected
  {
    hide Progress, Inv;
  }

  lemma BreaksNeed(w: World, io: Io)
    ensures ReadingBreaks(w, io) ==> Uncontested(w, io) && !io.receiving.NothingReceived?
    ensures WritingBreaks(w, io) ==> Uncontested(w, io) && io.receiving.NothingReceived?
  {
    hide Select;
  }

  lemma Unowned(w: World, io: Io)
    requires Inv(w) && w.link.connected && Inv(Progress(w, io).0)
    ensures !Progress(w, io).0.link.connected ==> Progress(w, io).0.link.control.active.None?
  {
    LeaksExactly(w, Progresses(io));
    InvLink(w);
    InvLink(Progress(w, io).0);
    hide Progress, BooksOk, PlacesOk, HandedOk;
  }

  // ----- Signs of life -----

  /** What arrives counts as activity; a full status request in it is remembered. */
  lemma ArrivalNoted(w: World, io: Io)
    requires Inv(w) && w.open && w.link.connected && !TimedOut(w, io) && Uncontested(w, io)
    requires io.receiving.Received? && io.receiving.delivered.Some? && io.receiving.observed
    ensures
      var (after, received) := (Progress(w, io).0, io.receiving);
      && after.link == w.link.(inputActivity := io.now,
                               requested := w.link.requested || exists p :: p in received.packets && FullStatusRequest(p))
      && after.metrics == w.metrics.(receivedBytes := w.metrics.receivedBytes + received.count,
                                     receivedPackets := w.metrics.receivedPackets + received.delivered.value)
      && after.books == w.books
  {
    LivingStep(w, io);
    assert AsksStatus(io.receiving.packets) <==> exists p :: p in io.receiving.packets && FullStatusRequest(p);
    hide Inv, Progress, TimedOut, FullStatusRequest, SendNext, FailControl;
  }

  /** When the rest of a status reply goes out after a request, the owner's liveness moves to
      now, unless it was later already, and the request is used up. */
  lemma ReplyEarns(w: World, io: Io, i: nat)
    requires Inv(w) && w.open && w.link.connected && !TimedOut(w, io) && Turn(w, io, i)
    requires i < |w.books.slots| && Busy(w.books, i) && w.books.slots[i].reply && io.now < w.books.slots[i].deadline
    requires Sendable(w.books.slots[i].submission.value)
    requires w.link.requested && io.writing.Sent? && TakenOf(w, i, io.writing.count) == |Unsent(w.books.slots[i])|
    ensures
      var after := Progress(w, io).0;
      && Completed(after.books, TokenOf(w.books, i), true)
      && after.link == w.link.(requested := false, control := after.link.control)
      && after.link.control == w.link.control.(
           lastLiveness := if io.now < w.link.control.lastLiveness then w.link.control.lastLiveness else io.now)
  {
    LivingStep(w, io);
    SendNextIs(w, io);
    var moved := w.(cursor := Select(w.books.slots, w.cursor, |w.books.slots|).0);
    SameLink(w, moved);
    InvLink(w);
    EndsWhenAllTaken(w, i, |Unsent(w.books.slots[i])|);
    ReplyControl(w, i);
    AttemptOutcome(moved, i, io);
    hide Inv, Progress, TimedOut, Receive, Select, SendNext, Message, BooksOk;
    WholeReply(w, moved, i, io);
  }

  lemma ReplyControl(w: World, i: nat)
    requires Inv(w) && Busy(w.books, i) && w.books.slots[i].reply
    ensures !w.books.slots[i].data
  {
    assert PlaceOk(w.config, w.books, w.link, i);
    hide BooksOk;
  }

  lemma WholeReply(w: World, moved: World, i: nat, io: Io)
    requires moved == w.(cursor := moved.cursor) && Busy(w.books, i) && CursorsOk(w.books) && LinkOk(w.link, w.past)
    requires w.books.slots[i].reply && !w.books.slots[i].data && io.now < w.books.slots[i].deadline
    requires w.link.connected && w.link.requested && io.writing.Sent?
    requires AtEnd(Take(w.books, i, TakenOf(w, i, io.writing.count)).slots[i])
    ensures
      var link := Transmit(moved, i, io).0.link;
      && link == w.link.(requested := false, control := link.control)
      && link.control == w.link.control.(
           lastLiveness := if io.now < w.link.control.lastLiveness then w.link.control.lastLiveness else io.now)
  {
    TakeShape(w.books, i, TakenOf(w, i, io.writing.count));
    hide Take, Settle, AtEnd, TakenOf, Unsent, Message, FailFrom;
    assert TakenOf(moved, i, io.writing.count) == TakenOf(w, i, io.writing.count) by { TakenMoved(w, moved, i, io.writing.count); }
  }

  lemma TakenMoved(w: World, moved: World, i: nat, count: nat)
    requires moved == w.(cursor := moved.cursor) && Busy(w.books, i)
    ensures TakenOf(moved, i, count) == TakenOf(w, i, count)
  {
    hide Unsent, Clip;
  }

  // ----- At the listener -----

  /** What a candidate at the listener changes: with a controller connected, only the count of
      rejections; while the slot is taken or out of generations, nothing; otherwise it uses up
      the next generation, and owns the slot if the association is committed and its stream
      can be set up. */
  lemma CandidateOutcome(w: World, io: Io)
    requires Inv(w) && w.open && w.accepting && (w.link.connected ==> !TimedOut(w, io)) && !io.accepting.NoController?
    ensures
      var ((after, outcome), control) := (Progress(w, io), w.link.control);
      if io.accepting.AcceptFailed? || !io.accepting.prepared then after == w && outcome == Broken
      else if w.link.connected then
        after == w.(metrics := w.metrics.(rejected := w.metrics.rejected + 1)) && outcome == Worked
      else if control.active.Some? || control.next == 0 then after == w && outcome == Worked
      else
        && after.past.handed == w.past.handed + [control.next]
        && (if !w.associated then !after.link.connected && after.link.control.active == Some(control.next) && outcome == Worked
            else if !io.accepting.resets then !after.link.connected && after.link.control.active.None? && outcome == Broken
            else after.link.connected && after.link.control.active == Some(control.next) && outcome == Worked)
  {
    StaleNeeds(w, io);
    InvLink(w);
    hide Inv, FailFrom, Receive, SendNext, Stale, TimedOut;
  }

  lemma StaleNeeds(w: World, io: Io)
    requires Inv(w) && (w.link.connected ==> !TimedOut(w, io))
    ensures !Stale(w, io)
  {
    if w.link.connected {
      StaleIs(w, io);
    }
    hide TimedOut, Inv;
  }

  // ----- The end -----

  /** A transport let go of by the radio has nothing left waiting; one let go of by the runtime
      keeps its data messages as they were. Neither does anything any more. */
  lemma LettingGo(w: World, io: Io)
    requires Inv(w) && w.open
    ensures
      var (gone, unbound) := (Detach(w), Unbind(w));
      && !gone.open && !gone.link.connected && !unbound.open && !unbound.link.connected
      && (forall t :: Pending(w.books, t) ==> Completed(gone.books, t, false))
      && (forall t :: Pending(w.books, t) && w.books.slots[t.slot].data ==> Pending(unbound.books, t))
      && (forall t :: Pending(w.books, t) && !w.books.slots[t.slot].data ==> Completed(unbound.books, t, false))
      && CursorsOk(gone.books) && gone.books.slots != [] && CursorsOk(unbound.books) && unbound.books.slots != []
      && Progress(gone, io) == (gone, Idle) && Progress(unbound, io) == (unbound, Idle)
  {
    hide *;
    Unbound(w);
    Gone(w);
    Ended(Detach(w), io);
    Ended(Unbind(w), io);
  }

  lemma Ended(w: World, io: Io)
    requires Inv(w) && !w.open
    ensures CursorsOk(w.books) && w.books.slots != [] && Progress(w, io) == (w, Idle)
  {
    hide BooksOk, CursorsOk, PlacesOk;
  }

  lemma Unbound(w: World)
    requires Inv(w)
    ensures
      var unbound := Unbind(w);
      && Inv(unbound) && !unbound.open && !unbound.link.connected && Failed(w.books, unbound.books, 0, false)
      && (forall t :: Pending(w.books, t) && w.books.slots[t.slot].data ==> Pending(unbound.books, t))
      && (forall t :: Pending(w.books, t) && !w.books.slots[t.slot].data ==> Completed(unbound.books, t, false))
  {
    NextKeeps(w, Unbinds);
    FailFromKeeps(w.books, 0, false);
    hide Inv, FailFrom, CursorsOk, BooksOk;
    var unbound := Unbind(w);
    forall t | Pending(w.books, t)
      ensures if w.books.slots[t.slot].data then Pending(unbound.books, t) else Completed(unbound.books, t, false)
    {
      assert FailedSlot(w.books, unbound.books, 0, false, t.slot);
    }
  }

  lemma Gone(w: World)
    requires Inv(w) && w.open
    ensures
      var gone := Detach(w);
      && Inv(gone) && !gone.open && !gone.link.connected
      && (forall t :: Pending(w.books, t) ==> Completed(gone.books, t, false))
  {
    hide Inv, FailFrom, CursorsOk, BooksOk, Unbind, Detach, RadioSteps.Next;
    Unbound(w);
    Detached(w);
    DetachIs(w);
    var (unbound, gone) := (Unbind(w), Detach(w));
    AllFail(unbound);
    forall t | Pending(w.books, t) ensures Completed(gone.books, t, false) {
      assert FailedSlot(w.books, unbound.books, 0, false, t.slot);
      assert FailedSlot(unbound.books, gone.books, 0, true, t.slot);
    }
  }

  lemma Detached(w: World)
    requires Inv(w)
    ensures Inv(Detach(w))
  {
    NextKeeps(w, Detaches);
    hide Inv, Detach;
  }

  lemma AllFail(w: World)
    requires Inv(w)
    ensures Failed(w.books, FailFrom(w.books, 0, true), 0, true)
  {
    FailFromKeeps(w.books, 0, true);
    hide FailFrom, BooksOk, Failed;
  }

  lemma DetachIs(w: World)
    requires w.open
    ensures Detach(w) == Unbind(w).(books := FailFrom(Unbind(w).books, 0, true))
  {
    hide FailFrom;
  }
}
