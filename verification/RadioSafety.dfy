/** What holds of the radio's transport in every run. */
module RadioSafety {
  import opened ScatterGather
  import opened Submissions
  import opened RadioSteps
  import ControlSlots

  lemma FreshInv(config: Config)
    requires config.Valid()
    ensures Inv(Fresh(config))
  {
    EmptyBooksOk(TOTAL_SLOTS);
  }

  // ----- Each step keeps the invariant -----

  /** What losing the controller needs: everything but a control slot still active. */
  ghost predicate Closing(w: World) {
    && w.config.Valid() && |w.books.slots| == TOTAL_SLOTS
    && BooksOk(w.books)
    && HandedOk(w.link.control, w.past.handed)
    && (w.link.connected <==> w.link.generation.Some?)
    && (w.link.connected ==>
          (w.link.control.active == w.link.generation || w.link.control.active.None?) && !w.past.leaked)
    && (!w.link.connected ==> (w.link.control.active.Some? <==> w.past.leaked))
    && (forall i: nat :: i < |w.books.slots| && w.books.slots[i].data ==> PlaceOk(w.config, w.books, w.link, i))
    && (forall i: nat :: i < |w.books.slots| ==> InItsRange(w.books, i))
  }

  predicate InItsRange(b: Books, i: nat)
    requires i < |b.slots|
  {
    b.slots[i].submission.Some? ==> (b.slots[i].data <==> i < DATA_SLOTS)
  }

  lemma InvCloses(w: World)
    requires Inv(w)
    ensures Closing(w)
  {
    hide BooksOk, CursorsOk, HandedOk;
    forall i: nat | i < |w.books.slots| ensures PlaceOk(w.config, w.books, w.link, i) && InItsRange(w.books, i) {
    }
  }

  /** Losing the controller leaves no control submission and no generation behind. */
  lemma FailControlKeeps(w: World)
    requires Closing(w)
    ensures
      var after := FailControl(w);
      && Inv(after) && !after.link.connected && (after.link.control.active.Some? ==> after.past.leaked)
      && Failed(w.books, after.books, 0, false)
  {
    var after := FailControl(w);
    FailFromKeeps(w.books, 0, false);
    BooksGiveCursors(after.books);
    hide BooksOk, CursorsOk, FailFrom;
    forall i: nat | i < |after.books.slots| ensures PlaceOk(after.config, after.books, after.link, i) {
      assert FailedSlot(w.books, after.books, 0, false, i);
      if w.books.slots[i].data {
        assert PlaceOk(w.config, w.books, w.link, i);
      }
    }
  }

  lemma AcceptKeeps(w: World, io: Io)
    requires Inv(w) && w.open
    ensures Inv(Accept(w, io).0)
  {
    if w.accepting && io.accepting.Candidate? && io.accepting.prepared && !w.link.connected {
      var (control, ok, generation) := ControlSlots.Apply(w.link.control, ControlSlots.Acquire(io.now));
      if generation.Some? && w.associated {
        var connected := Connected(Owned(w, control, generation.value), generation.value, io.now);
        ConnectedInv(w, connected);
        InvCloses(connected);
        FailControlKeeps(connected);
      } else if generation.Some? {
        NoControlWaits(w);
        hide BooksOk, CursorsOk;
        var after := Accept(w, io).0;
        assert after.books == w.books;
        forall i: nat | i < |after.books.slots| ensures PlaceOk(after.config, after.books, after.link, i) {
          assert PlaceOk(w.config, w.books, w.link, i);
        }
      }
    }
    if Accept(w, io).0.link == w.link && Accept(w, io).0.books == w.books {
      SameLink(w, Accept(w, io).0);
    }
  }

  lemma SameLink(w: World, after: World)
    requires Inv(w) && after.config == w.config && after.books == w.books && after.link == w.link
    requires after.past == w.past && after.open == w.open
    ensures Inv(after)
  {}

  lemma NoControlWaits(w: World)
    requires Inv(w) && !w.link.connected
    ensures forall i: nat :: i < |w.books.slots| && w.books.slots[i].submission.Some? ==> w.books.slots[i].data
  {
    forall i: nat | i < |w.books.slots| && w.books.slots[i].submission.Some? ensures w.books.slots[i].data {
      assert PlaceOk(w.config, w.books, w.link, i);
    }
  }

  lemma ConnectedInv(w: World, connected: World)
    requires Inv(w) && w.open && !w.link.connected && w.link.control.active.None?
    requires connected.config == w.config && connected.books == w.books && connected.open
    requires connected.link.connected && connected.link.generation.Some? && connected.link.requested == w.link.requested
    requires connected.link.control.active == connected.link.generation
    requires HandedOk(connected.link.control, connected.past.handed)
    requires connected.past.asked == w.past.asked && connected.past.leaked == w.past.leaked
    ensures Inv(connected)
  {
    NoControlWaits(w);
    hide BooksOk, CursorsOk, HandedOk;
    forall i: nat | i < |w.books.slots| ensures PlaceOk(connected.config, connected.books, connected.link, i) {
      assert PlaceOk(w.config, w.books, w.link, i);
    }
  }

  lemma ReceiveKeeps(w: World, io: Io)
    requires Inv(w)
    ensures Inv(Receive(w, io).0)
  {
    hide FailControl, AsksStatus;
    InvCloses(w);
    FailControlKeeps(w);
    if w.link.connected && io.receiving.Received? {
      var heard := Heard(w, io.now, io.receiving.count, io.receiving.packets);
      HeardInv(w, heard);
      InvCloses(heard);
      FailControlKeeps(heard);
      if io.receiving.delivered.Some? && io.receiving.observed {
        SameLink(heard, Receive(w, io).0);
      }
    }
  }

  lemma HeardInv(w: World, heard: World)
    requires Inv(w) && heard.config == w.config && heard.books == w.books && heard.open == w.open
    requires heard.link == w.link.(inputActivity := heard.link.inputActivity, requested := heard.link.requested)
    requires heard.past.handed == w.past.handed && heard.past.leaked == w.past.leaked
    requires heard.link.requested ==> heard.link.generation.Some? && heard.link.generation.value in heard.past.asked
    ensures Inv(heard)
  {
    hide BooksOk, CursorsOk, HandedOk;
    forall i: nat | i < |w.books.slots| ensures PlaceOk(heard.config, heard.books, heard.link, i) {
      assert PlaceOk(w.config, w.books, w.link, i);
    }
  }

  /** A change to one slot keeps every submission in its place. */
  lemma PlacesAfter(config: Config, b: Books, after: Books, link: Link, i: nat)
    requires PlacesOk(config, b, link) && i < |b.slots| && SameElsewhere(b, after, i)
    requires PlaceOk(config, after, link, i)
    ensures PlacesOk(config, after, link)
  {
    forall k: nat | k < |after.slots| ensures PlaceOk(config, after, link, k) {
      assert PlaceOk(config, b, link, k);
      if k != i {
        assert SameEntries(b.ledger, after.ledger, TokenOf(b, k));
      }
    }
  }

  lemma SettleShape(b: Books, i: nat, ok: bool)
    requires Busy(b, i)
    ensures SameElsewhere(b, Settle(b, i, ok), i) && Settle(b, i, ok).slots[i].submission.None?
  {}

  lemma AdmitShape(b: Books, i: nat, deadline: int, record: Record)
    requires i < |b.slots| && !Busy(b, i)
    ensures SameElsewhere(b, Admit(b, i, deadline, record), i)
  {}

  lemma SettleFailedKeeps(w: World, i: nat)
    requires Inv(w) && Busy(w.books, i)
    ensures Inv(w.(books := Settle(w.books, i, false)))
  {
    var after := Settle(w.books, i, false);
    FailKeeps(w.books, i);
    SettleShape(w.books, i, false);
    BooksGiveCursors(after);
    hide BooksOk, CursorsOk, Settle;
    PlacesAfter(w.config, w.books, after, w.link, i);
  }

  /** A write to a datagram takes the whole message, or less and is given up. */
  lemma DatagramWrites(w: World, i: nat, n: nat)
    requires Inv(w) && Busy(w.books, i) && n <= |Unsent(w.books.slots[i])| && w.books.slots[i].data
    ensures
      var (sent, segments) := (Take(w.books, i, n), w.books.slots[i].submission.value);
      && (n != |Message(segments)| ==> !AtEnd(sent.slots[i]))
      && (n == |Message(segments)| && !AtEnd(sent.slots[i]) ==> Unsent(sent.slots[i]) == [])
  {
    var (sent, slot) := (Take(w.books, i, n), w.books.slots[i]);
    var segments := slot.submission.value;
    assert SlotOk(w.books, i) && PlaceOk(w.config, w.books, w.link, i);
    var (s, o) := Advance(segments, slot.segment, slot.offset, n);
    CursorSplits(segments, slot.segment, slot.offset);
    AdvanceMoves(segments, slot.segment, slot.offset, n);
    CursorSplits(segments, s, o);
    if segments != [] {
      AdvanceFinishes(segments, slot.segment, slot.offset, n);
    }
  }

  predicate WholeIfData(slot: Slot, n: nat) {
    slot.submission.Some? && slot.data ==> n == |Message(slot.submission.value)|
  }

  lemma TakeKeepsInv(w: World, i: nat, n: nat)
    requires Inv(w) && Busy(w.books, i) && n <= |Unsent(w.books.slots[i])|
    ensures
      var sent := w.(books := Take(w.books, i, n));
      && (!AtEnd(sent.books.slots[i]) && WholeIfData(w.books.slots[i], n) ==> Inv(sent))
      && (w.books.slots[i].data && n != |Message(w.books.slots[i].submission.value)| ==>
            Inv(sent.(books := Settle(sent.books, i, false))))
  {
    var (sent, slot) := (Take(w.books, i, n), w.books.slots[i]);
    TakeKeeps(w.books, i, n);
    TakeShape(w.books, i, n);
    if slot.data {
      DatagramWrites(w, i, n);
    }
    assert PlaceOk(w.config, w.books, w.link, i);
    hide SlotOk, Take, TokenOk, SameElsewhere, AtEnd;
    if !AtEnd(sent.slots[i]) {
      BooksGiveCursors(sent);
      if slot.data && n != |Message(slot.submission.value)| {
        var after := Settle(sent, i, false);
        FailKeeps(sent, i);
        SettleShape(sent, i, false);
        BooksGiveCursors(after);
        SameTwice(w.books, sent, after, i);
        PlacesAfter(w.config, w.books, after, w.link, i);
      } else {
        PlacesAfter(w.config, w.books, sent, w.link, i);
      }
    }
  }

  lemma SameTwice(a: Books, b: Books, c: Books, i: nat)
    requires i < |a.slots| && SameElsewhere(a, b, i) && TokenOf(b, i) == TokenOf(a, i) && SameElsewhere(b, c, i)
    ensures SameElsewhere(a, c, i)
  {
    forall u | u != TokenOf(a, i) ensures SameEntries(a.ledger, c.ledger, u) {
      assert SameEntries(a.ledger, b.ledger, u) && SameEntries(b.ledger, c.ledger, u);
    }
  }

  lemma FinishKeepsInv(w: World, i: nat, n: nat, now: int)
    requires Inv(w) && Busy(w.books, i) && n <= |Unsent(w.books.slots[i])|
    requires AtEnd(Take(w.books, i, n).slots[i])
    ensures Inv(Finish(w.(books := Take(w.books, i, n)), i, now))
  {
    var sent := w.(books := Take(w.books, i, n));
    var (closed, after) := (Settle(sent.books, i, true), Finish(sent, i, now));
    FinishKeeps(w.books, i, n);
    TakeShape(w.books, i, n);
    SettleShape(sent.books, i, true);
    BooksGiveCursors(closed);
    hide BooksOk, CursorsOk, Take, Settle, AtEnd, Unsent;
    assert after.books == closed;
    SameTwice(w.books, sent.books, closed, i);
    PlacesAfter(w.config, w.books, closed, w.link, i);
    forall k: nat | k < |closed.slots| ensures PlaceOk(after.config, closed, after.link, k) {
      assert PlaceOk(w.config, closed, w.link, k);
    }
  }

  lemma TransmitKeeps(w: World, i: nat, io: Io)
    requires Inv(w) && Busy(w.books, i)
    ensures Inv(Transmit(w, i, io).0)
  {
    InvCloses(w);
    FailControlKeeps(w);
    SettleFailedKeeps(w, i);
    if io.writing.Sent? {
      var n := TakenOf(w, i, io.writing.count);
      TakeKeepsInv(w, i, n);
      if AtEnd(Take(w.books, i, n).slots[i]) {
        FinishKeepsInv(w, i, n, io.now);
      }
    }
    TransmitCases(w, i, io);
  }

  /** The world after a write differs from one of these only in its counters. */
  lemma TransmitCases(w: World, i: nat, io: Io)
    requires Busy(w.books, i) && CursorsOk(w.books)
    requires Inv(w) && Inv(FailControl(w)) && Inv(w.(books := Settle(w.books, i, false)))
    requires io.writing.Sent? ==>
      var n := TakenOf(w, i, io.writing.count);
      var sent := w.(books := Take(w.books, i, n));
      var data := w.books.slots[i].data;
      var whole := n == |Message(w.books.slots[i].submission.value)|;
      && (!AtEnd(sent.books.slots[i]) && (data ==> whole) ==> Inv(sent))
      && (data && !whole ==> Inv(sent.(books := Settle(sent.books, i, false))))
      && (AtEnd(sent.books.slots[i]) ==> Inv(Finish(sent, i, io.now)))
    ensures Inv(Transmit(w, i, io).0)
  {
    hide BooksOk, CursorsOk, Take, Settle, AtEnd, FailControl, LinkOk, HandedOk, PlacesOk, Message;
  }

  lemma SelectBusy(w: World)
    requires Inv(w)
    ensures
      var selected := Select(w.books.slots, w.cursor, |w.books.slots|).1;
      selected.Some? ==> Busy(w.books, selected.value)
  {}

  lemma ProgressKeeps(w: World, io: Io)
    requires Inv(w)
    ensures Inv(Progress(w, io).0)
  {
    if w.open {
      if Stale(w, io) {
        var released := w.(link := w.link.(control := AfterStaleCheck(w, io)));
        StaleCloses(w, io);
        FailControlKeeps(released);
      } else {
        AcceptKeeps(w, io);
        ReceiveKeeps(w, io);
        AcceptIdle(w, io);
        ReceiveIdle(w, io);
        SelectBusy(w);
        var (cursor, selected) := Select(w.books.slots, w.cursor, |w.books.slots|);
        var moved := w.(cursor := cursor);
        SameLink(w, moved);
        if selected.Some? {
          TransmitKeeps(moved, selected.value, io);
        }
        hide Inv, Accept, Receive, Transmit, Select;
      }
    }
  }

  lemma AcceptIdle(w: World, io: Io)
    ensures Accept(w, io).1.Idle? ==> Accept(w, io).0 == w
  {}

  lemma ReceiveIdle(w: World, io: Io)
    ensures Receive(w, io).1.Idle? ==> Receive(w, io).0 == w
  {}

  lemma StaleCloses(w: World, io: Io)
    requires Inv(w) && Stale(w, io)
    ensures Closing(w.(link := w.link.(control := AfterStaleCheck(w, io))))
  {
    InvCloses(w);
    hide BooksOk, CursorsOk;
    var released := w.(link := w.link.(control := AfterStaleCheck(w, io)));
    forall i: nat | i < |w.books.slots| && w.books.slots[i].data
      ensures PlaceOk(released.config, released.books, released.link, i)
    {
      assert PlaceOk(w.config, w.books, w.link, i);
    }
  }

  /** An accepted offer is admitted to a free slot of its kind; a refused one changes nothing. */
  lemma SendIs(w: World, offer: Offer, now: int)
    requires Inv(w)
    ensures
      var (after, result) := Send(w, offer, now);
      match result
      case Rejected(_) => after == w
      case Accepted(t) =>
        && offer.framing.Some? && t.slot < TOTAL_SLOTS && !Busy(w.books, t.slot) && t == TokenOf(w.books, t.slot)
        && FirstSlot(offer) <= t.slot < LastSlot(w, offer)
        && (offer.framing.value.command ==> w.link.connected)
        && after == w.(books := Admit(w.books, t.slot, now + w.config.ioTimeout, RecordOf(w, offer)))
  {
    hide Admit, RecordOf, BooksOk, CursorsOk, PlacesOk, LinkOk, HandedOk, Withheld;
  }

  lemma AdmittedPlace(w: World, offer: Offer, i: nat, deadline: int)
    requires offer.framing.Some? && i < |w.books.slots| && !Busy(w.books, i)
    requires FirstSlot(offer) <= i < LastSlot(w, offer) && (offer.framing.value.command ==> w.link.connected)
    ensures PlaceOk(w.config, Admit(w.books, i, deadline, RecordOf(w, offer)), w.link, i)
  {
    AtStart(offer.segments);
    hide Message, Rest, CursorOk, Before;
  }

  lemma SendKeeps(w: World, offer: Offer, now: int)
    requires Inv(w)
    ensures Inv(Send(w, offer, now).0)
  {
    hide *;
    InvParts(w);
    var (after, result) := Send(w, offer, now);
    var deadline := now + w.config.ioTimeout;
    SendIs(w, offer, now);
    if result.Accepted? {
      var i := result.token.slot;
      AdmitKeeps(w.books, i, deadline, RecordOf(w, offer));
      AdmitShape(w.books, i, deadline, RecordOf(w, offer));
      AdmittedPlace(w, offer, i, deadline);
      PlacesAfter(w.config, w.books, after.books, w.link, i);
      WithBooks(w, after.books);
    }
  }

  lemma InvParts(w: World)
    requires Inv(w)
    ensures |w.books.slots| == TOTAL_SLOTS && w.config.Valid()
    ensures BooksOk(w.books) && PlacesOk(w.config, w.books, w.link)
  {
    hide BooksOk, PlacesOk;
  }

  /** New books that are in order keep the rest in order. */
  lemma WithBooks(w: World, books: Books)
    requires Inv(w) && |books.slots| == |w.books.slots| && BooksOk(books) && PlacesOk(w.config, books, w.link)
    ensures Inv(w.(books := books))
  {
    BooksGiveCursors(books);
    hide BooksOk, PlacesOk, CursorsOk, LinkOk, HandedOk;
  }

  lemma DetachKeeps(w: World)
    requires Inv(w)
    ensures Inv(Detach(w)) && Inv(Unbind(w))
    ensures w.open ==> forall i: nat :: i < TOTAL_SLOTS ==> Detach(w).books.slots[i].submission.None?
  {
    hide BooksOk, CursorsOk, FailFrom, FailControl;
    InvCloses(w);
    var closing := w.(open := false);
    assert Closing(closing) by {
      hide BooksOk;
      forall i: nat | i < |w.books.slots| && w.books.slots[i].data
        ensures PlaceOk(closing.config, closing.books, closing.link, i)
      {
        assert PlaceOk(w.config, w.books, w.link, i);
      }
    }
    FailControlKeeps(closing);
    var failed := FailControl(closing);
    FailFromKeeps(failed.books, 0, true);
    var after := failed.(books := FailFrom(failed.books, 0, true));
    BooksGiveCursors(after.books);
    forall i: nat | i < |after.books.slots| ensures after.books.slots[i].submission.None? {
      assert FailedSlot(failed.books, after.books, 0, true, i);
    }
    assert PlacesOk(after.config, after.books, after.link);
    assert Inv(after);
    assert w.open ==> Detach(w) == after;
  }

  lemma NextKeeps(w: World, op: Op)
    requires Inv(w)
    ensures Inv(Next(w, op))
  {
    match op {
      case Sends(offer, now) => SendKeeps(w, offer, now);
      case Progresses(io) => ProgressKeeps(w, io);
      case Disconnects => InvCloses(w); FailControlKeeps(w);
      case Unbinds => DetachKeeps(w);
      case Detaches => DetachKeeps(w);
      case _ => SameLink(w, Next(w, op));
    }
  }

  lemma SameConfig(w: World, op: Op)
    requires Inv(w)
    ensures Next(w, op).config == w.config
  {
    match op {
      case Sends(offer, now) => SendIs(w, offer, now);
      case Progresses(io) => ProgressConfig(w, io);
      case _ =>
    }
    hide Inv, Send, Progress, FailFrom, Admit, Busy;
  }

  lemma ProgressConfig(w: World, io: Io)
    requires Inv(w)
    ensures Progress(w, io).0.config == w.config
  {
    hide Inv, Settle, Take, FailFrom, AtEnd, Select, Message, LinkOk;
  }

  // ----- Every run -----

  ghost function Run(config: Config, ops: seq<Op>): (w: World)
    requires config.Valid()
    ensures Inv(w) && w.config == config
  {
    FreshInv(config);
    if ops == [] then Fresh(config)
    else
      var before := Run(config, ops[..|ops| - 1]);
      NextKeeps(before, ops[|ops| - 1]);
      SameConfig(before, ops[|ops| - 1]);
      hide *;
      Next(before, ops[|ops| - 1])
  }

  lemma RunUnfolds(config: Config, ops: seq<Op>)
    requires config.Valid() && ops != []
    ensures Inv(Run(config, ops[..|ops| - 1]))
    ensures Run(config, ops) == Next(Run(config, ops[..|ops| - 1]), ops[|ops| - 1])
  {
    hide Next, Inv;
  }

  /** Whatever happens, accepted submissions are completed, failed or pending, `pending`
      tells them apart, and data and control never share a slot. */
  lemma SubmissionsConserved(config: Config, ops: seq<Op>)
    requires config.Valid()
    ensures
      var b := Run(config, ops).books;
      && (forall t :: Pending(b, t) <==> t in b.ledger.accepted && t !in b.ledger.completed)
      && |b.ledger.accepted| == b.successes + b.failures + |set t | t in b.ledger.accepted && Pending(b, t)|
      && (forall t :: Pending(b, t) ==> (b.ledger.accepted[t].data <==> t.slot < DATA_SLOTS))
      && (forall t :: Pending(b, t) && !b.ledger.accepted[t].data ==> t.slot < DATA_SLOTS + config.controlQueue)
  {
    var w := Run(config, ops);
    var b := w.books;
    BooksBalance(b);
    forall t | Pending(b, t)
      ensures t in b.ledger.accepted && (b.ledger.accepted[t].data <==> t.slot < DATA_SLOTS)
      ensures !b.ledger.accepted[t].data ==> t.slot < DATA_SLOTS + config.controlQueue
    {
      assert SlotOk(b, t.slot) && PlaceOk(config, b, w.link, t.slot);
    }
  }

  /** The bytes the socket took for a submission, against how it ended. */
  lemma DeliveredExactly(config: Config, ops: seq<Op>, t: Token)
    requires config.Valid() && t in Run(config, ops).books.ledger.accepted
    ensures
      var b := Run(config, ops).books;
      var segments := b.ledger.accepted[t].segments;
      && TakenBy(b, t) <= Message(segments)
      && (Pending(b, t) ==>
            var slot := b.slots[t.slot];
            && CursorOk(segments, slot.segment, slot.offset)
            && TakenBy(b, t) == Before(segments, slot.segment, slot.offset))
      && (Sendable(segments) ==>
            (t in b.ledger.completed && b.ledger.completed[t] <==> TakenBy(b, t) == Message(segments)))
      && (segments != [] && t in b.ledger.completed && b.ledger.completed[t] ==> Sendable(segments))
  {
    var b := Run(config, ops).books;
    DeliveryExact(b, t);
    BooksBalance(b);
    assert TokenOk(b, t);
    hide BooksOk, SlotOk, TokenOk, Sendable, Message, Before, CursorOk, Run;
  }
}
