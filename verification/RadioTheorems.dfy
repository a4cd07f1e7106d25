/** What the radio's transport promises its runtime and its owner. */
module RadioTheorems {
  import opened SpectrumTypes
  import opened ScatterGather
  import opened Submissions
  import opened RadioSteps
  import opened RadioSafety
  import Arithmetic

  // ----- Submissions -----

  /** A submission keeps its record, its ending and the bytes already taken; more bytes are
      taken only while it is pending, and a control submission's only by the connection it
      was accepted on. */
  predicate KeptEntry(w: World, after: Books, t: Token)
    requires t in w.books.ledger.accepted
  {
    var (before, ledger) := (w.books.ledger, after.ledger);
    && t in ledger.accepted && ledger.accepted[t] == before.accepted[t]
    && (t in before.completed ==> t in ledger.completed && ledger.completed[t] == before.completed[t])
    && TakenBy(w.books, t) <= TakenBy(after, t)
    && (TakenBy(w.books, t) != TakenBy(after, t) ==>
          && Pending(w.books, t)
          && (before.accepted[t].data || (w.link.connected && before.accepted[t].connection == w.link.generation)))
  }

  ghost predicate Kept(w: World, after: Books) {
    forall t :: t in w.books.ledger.accepted ==> KeptEntry(w, after, t)
  }

  /** Failing takes no bytes and changes no ending. */
  lemma FailedKept(w: World, middle: Books, after: Books, i: nat, all: bool)
    requires Kept(w, middle) && Failed(middle, after, i, all)
    ensures Kept(w, after)
  {
    forall t | t in w.books.ledger.accepted ensures KeptEntry(w, after, t) {
      assert KeptEntry(w, middle, t);
    }
  }

  lemma FailFromKept(w: World, all: bool)
    requires Inv(w)
    ensures Kept(w, FailFrom(w.books, 0, all))
  {
    FailFromKeeps(w.books, 0, all);
    SameKept(w);
    hide *;
    FailedKept(w, w.books, FailFrom(w.books, 0, all), 0, all);
  }

  lemma FailTwiceKept(w: World)
    requires Inv(w)
    ensures Kept(w, FailFrom(FailFrom(w.books, 0, false), 0, true))
  {
    FailFromKeeps(w.books, 0, false);
    var middle := FailFrom(w.books, 0, false);
    hide *;
    FailFromKeeps(middle, 0, true);
    FailFromKept(w, false);
    FailedKept(w, middle, FailFrom(middle, 0, true), 0, true);
  }

  lemma SettleKept(w: World, i: nat, ok: bool)
    requires Inv(w) && Busy(w.books, i)
    ensures Kept(w, Settle(w.books, i, ok))
  {
    assert SlotOk(w.books, i);
    hide Inv, BooksOk, SlotOk;
  }

  lemma TakeKept(w: World, i: nat, n: nat)
    requires Inv(w) && Busy(w.books, i) && n <= |Unsent(w.books.slots[i])|
    ensures CursorOk(w.books.slots[i].submission.value, w.books.slots[i].segment, w.books.slots[i].offset)
    ensures
      var sent := Take(w.books, i, n);
      Kept(w, sent) && Busy(sent, i) && (forall ok :: Kept(w, Settle(sent, i, ok)))
  {
    var (sent, t) := (Take(w.books, i, n), TokenOf(w.books, i));
    assert SlotOk(w.books, i) && PlaceOk(w.config, w.books, w.link, i);
    TakeShape(w.books, i, n);
    assert TakenBy(sent, t) == TakenBy(w.books, t) + Unsent(w.books.slots[i])[..n];
    assert KeptEntry(w, sent, t);
    forall u | u in w.books.ledger.accepted ensures KeptEntry(w, sent, u) {
      OtherEntryKept(w, sent, i, u);
    }
    hide BooksOk, SlotOk, Take, Unsent, Inv, CursorOk, Before, Sendable, Message;
    forall ok ensures Kept(w, Settle(sent, i, ok)) {
      SettleAfter(w, sent, i, ok);
    }
  }

  lemma OtherEntryKept(w: World, after: Books, i: nat, u: Token)
    requires i < |w.books.slots| && SameElsewhere(w.books, after, i)
    ensures u != TokenOf(w.books, i) && u in w.books.ledger.accepted ==> KeptEntry(w, after, u)
  {
    if u != TokenOf(w.books, i) {
      assert SameEntries(w.books.ledger, after.ledger, u);
    }
  }

  lemma SettleAfter(w: World, sent: Books, i: nat, ok: bool)
    requires Kept(w, sent) && Busy(sent, i) && TokenOf(sent, i) !in w.books.ledger.completed
    ensures Kept(w, Settle(sent, i, ok))
  {
    forall u | u in w.books.ledger.accepted ensures KeptEntry(w, Settle(sent, i, ok), u) {
      assert KeptEntry(w, sent, u);
    }
  }

  lemma AdmitKept(w: World, i: nat, deadline: int, record: Record)
    requires Inv(w) && i < |w.books.slots| && !Busy(w.books, i)
    ensures Kept(w, Admit(w.books, i, deadline, record))
  {
    assert SlotOk(w.books, i);
    hide Inv, BooksOk;
  }

  lemma TransmitKept(w: World, i: nat, io: Io)
    requires Inv(w) && Busy(w.books, i)
    ensures Kept(w, Transmit(w, i, io).0.books)
  {
    FailFromKept(w, false);
    SettleKept(w, i, false);
    SameKept(w);
    if io.writing.Sent? {
      TakeKept(w, i, TakenOf(w, i, io.writing.count));
    }
    TransmitBooks(w, i, io);
    hide *;
  }

  /** What one attempt to send makes of the table. */
  lemma TransmitBooks(w: World, i: nat, io: Io)
    requires Busy(w.books, i) && CursorsOk(w.books)
    ensures
      var after := Transmit(w, i, io).0.books;
      || after == w.books || after == FailFrom(w.books, 0, false) || after == Settle(w.books, i, false)
      || (io.writing.Sent? &&
            var n := TakenOf(w, i, io.writing.count);
            var sent := Take(w.books, i, n);
            Busy(sent, i) && (after == sent || exists ok :: after == Settle(sent, i, ok)))
  {
    hide TakenOf, Settle, FailFrom, Message, Advance, Unsent;
  }

  lemma SameKept(w: World)
    ensures Kept(w, w.books)
  {}

  lemma AcceptKept(w: World, io: Io)
    requires Inv(w)
    ensures Kept(w, Accept(w, io).0.books)
  {
    SameKept(w);
    FailFromKept(w, false);
    AcceptBooks(w, io);
    hide *;
  }

  lemma ReceiveKept(w: World, io: Io)
    requires Inv(w)
    ensures Kept(w, Receive(w, io).0.books)
  {
    SameKept(w);
    FailFromKept(w, false);
    ReceiveBooks(w, io);
    hide *;
  }

  lemma AcceptBooks(w: World, io: Io)
    ensures Accept(w, io).0.books == w.books || Accept(w, io).0.books == FailFrom(w.books, 0, false)
  {
    hide FailFrom;
  }

  lemma ReceiveBooks(w: World, io: Io)
    ensures Receive(w, io).0.books == w.books || Receive(w, io).0.books == FailFrom(w.books, 0, false)
  {
    hide FailFrom, AsksStatus;
  }

  lemma SendKept(w: World, offer: Offer, now: int)
    requires Inv(w)
    ensures Kept(w, Send(w, offer, now).0.books)
  {
    var (after, result) := Send(w, offer, now);
    SendIs(w, offer, now);
    SameKept(w);
    if result.Accepted? {
      AdmitKept(w, result.token.slot, now + w.config.ioTimeout, RecordOf(w, offer));
    }
    hide *;
  }

  lemma SendNextKept(w: World, io: Io)
    requires Inv(w)
    ensures Kept(w, SendNext(w, io).0.books)
  {
    SameKept(w);
    SelectBusy(w);
    var (cursor, selected) := Select(w.books.slots, w.cursor, |w.books.slots|);
    var moved := w.(cursor := cursor);
    SameLink(w, moved);
    if selected.Some? {
      TransmitKept(moved, selected.value, io);
    }
    hide Kept, Inv, Transmit, Select;
    MovedKept(w, cursor, SendNext(w, io).0.books);
  }

  lemma MovedKept(w: World, cursor: nat, after: Books)
    ensures Kept(w.(cursor := cursor), after) <==> Kept(w, after)
  {
    var moved := w.(cursor := cursor);
    assert forall t :: t in w.books.ledger.accepted ==> (KeptEntry(w, after, t) <==> KeptEntry(moved, after, t));
  }

  lemma ProgressKept(w: World, io: Io)
    requires Inv(w)
    ensures Kept(w, Progress(w, io).0.books)
  {
    SameKept(w);
    FailFromKept(w, false);
    AcceptKept(w, io);
    ReceiveKept(w, io);
    SendNextKept(w, io);
    ProgressBooks(w, io);
    hide *;
  }

  lemma ProgressBooks(w: World, io: Io)
    requires Inv(w)
    ensures
      var after := Progress(w, io).0.books;
      || after == w.books || after == FailFrom(w.books, 0, false) || after == Accept(w, io).0.books
      || after == Receive(w, io).0.books || after == SendNext(w, io).0.books
  {
    AcceptIdle(w, io);
    ReceiveIdle(w, io);
    hide Accept, Receive, SendNext, FailFrom, Inv;
  }

  /** No step changes how a submission ended or takes back a byte; whatever the socket takes
      of a control message, it takes on the connection that message was accepted on. */
  lemma StepKeepsHistory(w: World, op: Op)
    requires Inv(w)
    ensures Kept(w, Next(w, op).books)
  {
    SameKept(w);
    FailFromKept(w, false);
    match op {
      case Sends(offer, now) => SendKept(w, offer, now);
      case Progresses(io) => ProgressKept(w, io);
      case Detaches => FailTwiceKept(w); hide Kept, Inv, FailFrom;
      case _ => hide Kept, Inv, FailFrom;
    }
  }

  /** A token is new when it is returned, and pending at once; a submission is turned away
      for want of room exactly when every slot of its kind is taken. */
  lemma SendIsFresh(w: World, offer: Offer, now: int)
    requires Inv(w)
    ensures
      var (after, result) := Send(w, offer, now);
      match result
      case Accepted(t) =>
        && t !in w.books.ledger.accepted && Pending(after.books, t)
        && after.books.ledger.accepted[t].segments == offer.segments
        && (after.books.ledger.accepted[t].data <==> !offer.framing.value.command)
        && (offer.framing.value.command ==>
              w.link.connected && after.books.ledger.accepted[t].connection == w.link.generation)
      case Rejected(error) =>
        && after == w
        && (error.CapacityExhausted? ==>
              forall i: nat :: (if offer.framing.value.command then DATA_SLOTS <= i < DATA_SLOTS + w.config.controlQueue
                                else i < DATA_SLOTS) ==> Busy(w.books, i))
  {
    var (after, result) := Send(w, offer, now);
    if result.Accepted? {
      assert SlotOk(w.books, result.token.slot);
      hide BooksOk;
    } else if result.error.CapacityExhausted? {
      var command := offer.framing.value.command;
      NoneFree(w.books.slots, if command then DATA_SLOTS else 0,
               if command then DATA_SLOTS + w.config.controlQueue else DATA_SLOTS);
      hide BooksOk, FirstFree;
    }
  }

  lemma {:induction false} NoneFree(slots: seq<Slot>, first: nat, last: nat)
    requires first <= last <= |slots|
    ensures FirstFree(slots, first, last).None? <==> forall i: nat :: first <= i < last ==> slots[i].submission.Some?
    decreases last - first
  {
    if first < last {
      NoneFree(slots, first + 1, last);
    }
  }

  /** The search from the cursor tries every slot: it comes back empty-handed exactly when
      nothing waits. */
  lemma SelectExact(slots: seq<Slot>, cursor: nat)
    requires slots != []
    ensures Select(slots, cursor, |slots|).1.Some? <==> exists i: nat :: i < |slots| && slots[i].submission.Some?
  {
    SelectTries(slots, cursor, |slots|);
    if i: nat :| i < |slots| && slots[i].submission.Some? {
      Reaches(cursor, i, |slots|);
      var k: nat :| cursor <= k < cursor + |slots| && k % |slots| == i;
      assert Waits(slots, k);
    }
    if k: nat :| cursor <= k < cursor + |slots| && Waits(slots, k) {
      assert slots[k % |slots|].submission.Some?;
    }
  }

  predicate Waits(slots: seq<Slot>, k: nat)
    requires slots != []
  {
    slots[k % |slots|].submission.Some?
  }

  lemma Reaches(cursor: nat, i: nat, n: nat)
    requires i < n
    ensures exists k: nat :: cursor <= k < cursor + n && k % n == i
  {
    var (q, r) := (cursor / n, cursor % n);
    assert cursor == n * q + r;
    if r <= i {
      Arithmetic.DivMod(n, q, i);
      assert cursor <= n * q + i < cursor + n && (n * q + i) % n == i;
    } else {
      Arithmetic.DivMod(n, q + 1, i);
      assert n * (q + 1) == n * q + n;
      assert cursor <= n * (q + 1) + i < cursor + n && (n * (q + 1) + i) % n == i;
    }
  }

  lemma {:induction false} SelectTries(slots: seq<Slot>, cursor: nat, attempts: nat)
    requires slots != []
    ensures Select(slots, cursor, attempts).1.Some?
       <==> exists k: nat :: cursor <= k < cursor + attempts && Waits(slots, k)
    decreases attempts
  {
    if attempts > 0 {
      SelectTries(slots, cursor + 1, attempts - 1);
      assert Waits(slots, cursor) <==> slots[cursor % |slots|].submission.Some?;
      hide Waits;
    }
  }

  // ----- Ownership -----

  /** In every run the transport is connected exactly while it holds a generation and the
      control slot is active with that generation; no generation is handed out twice. The
      slot is active without a connection exactly when a controller came before the
      association. */
  lemma OwnershipExact(config: Config, ops: seq<Op>)
    requires config.Valid()
    ensures
      var w := Run(config, ops);
      && (w.link.connected <==> w.link.generation.Some?)
      && (w.link.connected ==> w.link.control.active == w.link.generation)
      && (w.link.control.active.Some? <==> w.link.connected || w.past.leaked)
      && (forall i, j :: 0 <= i < j < |w.past.handed| ==> w.past.handed[i] < w.past.handed[j])
      && (w.link.connected ==> w.past.handed != [] && w.link.generation == Some(w.past.handed[|w.past.handed| - 1]))
  {
    hide Run;
  }

  /** A connection this step takes from the listener, the transport being idle. */
  predicate TakesGeneration(w: World, op: Op) {
    && op.Progresses? && w.open && !w.link.connected && w.accepting
    && op.io.accepting.Candidate? && op.io.accepting.prepared
    && w.link.control.active.None? && w.link.control.next != 0
  }

  /** A generation leaks exactly when a controller is taken before the association is
      committed, and then no controller ever connects again. */
  lemma LeaksExactly(w: World, op: Op)
    requires Inv(w)
    ensures Next(w, op).past.leaked <==> w.past.leaked || (TakesGeneration(w, op) && !w.associated)
    ensures w.past.leaked ==> !Next(w, op).link.connected
  {
    NextKeeps(w, op);
    hide Transmit, Receive, Select, FailFrom, BooksOk, CursorsOk, PlacesOk, HandedOk, Message, FirstFree, AsksStatus;
    PastOf(w, op);
  }

  lemma PastOf(w: World, op: Op)
    requires Inv(w)
    ensures Next(w, op).past.leaked == (w.past.leaked || (TakesGeneration(w, op) && !w.associated))
  {
    hide Inv, Settle, Take, FailFrom, Admit, AtEnd, FirstFree, Select, Message, AsksStatus;
    assert w.past.leaked ==> w.link.control.active.Some? && !w.link.connected by { OnlyLeaked(w); }
    if op.Progresses? {
      ReceiveLeaves(w, op.io);
      hide Receive;
      TransmitLeaves(w, op.io);
      hide Transmit, SendNext;
    }
  }

  lemma OnlyLeaked(w: World)
    requires Inv(w)
    ensures w.past.leaked ==> w.link.control.active.Some? && !w.link.connected
  {
    hide BooksOk, CursorsOk, PlacesOk;
  }

  lemma ReceiveLeaves(w: World, io: Io)
    ensures Receive(w, io).0.past.leaked == w.past.leaked
  {
    hide FailFrom, AsksStatus;
  }

  lemma TransmitLeaves(w: World, io: Io)
    requires Inv(w)
    ensures SendNext(w, io).0.past == w.past
  {
    hide Inv, Settle, Take, FailFrom, Select, Message, AtEnd;
  }

  /** A controller that connects before the association is committed takes the slot for good. */
  lemma EarlyController(config: Config, now: int, ops: seq<Op>)
    requires config.Valid()
    ensures
      var early := Progresses(Io(now, false, Candidate(true, true), NothingReceived, Retry));
      Run(config, [early]).past.leaked && !Run(config, [early] + ops).link.connected
  {
    var early := Progresses(Io(now, false, Candidate(true, true), NothingReceived, Retry));
    assert [early][..0] == [];
    assert Run(config, [early]) == Next(Fresh(config), early);
    FreshInv(config);
    LeaksExactly(Fresh(config), early);
    hide Fresh, Next, Inv;
    StaysLeaked(config, [early], ops);
  }

  lemma {:induction false} StaysLeaked(config: Config, before: seq<Op>, ops: seq<Op>)
    requires config.Valid() && Run(config, before).past.leaked
    ensures Run(config, before + ops).past.leaked && !Run(config, before + ops).link.connected
  {
    hide *;
    if ops == [] {
      assert before + ops == before;
      OnlyLeaked(Run(config, before));
    } else {
      var (all, w) := (before + ops, Run(config, before + ops[..|ops| - 1]));
      StaysLeaked(config, before, ops[..|ops| - 1]);
      assert all[..|all| - 1] == before + ops[..|ops| - 1];
      RunUnfolds(config, all);
      LeaksExactly(w, all[|all| - 1]);
    }
  }

  /** A second controller changes nothing but the count of rejections. */
  lemma ExtraConnection(w: World, io: Io)
    requires Inv(w) && w.link.connected && w.accepting && !Stale(w, io)
    requires io.accepting.Candidate? && io.accepting.prepared
    ensures Progress(w, io) == (w.(metrics := w.metrics.(rejected := w.metrics.rejected + 1)), Worked)
  {
    assert w.open;
  }

  /** The owner's liveness moves only when a status reply to this owner succeeds, after a
      full status request on the same connection. */
  lemma LivenessEarned(w: World, op: Op)
    requires Inv(w)
    requires w.link.control.active.Some? && Next(w, op).link.control.active == w.link.control.active
    requires Next(w, op).link.control.lastLiveness != w.link.control.lastLiveness
    ensures w.link.connected && w.link.requested && w.link.generation.value in w.past.asked
    ensures exists t :: StatusReplied(w, Next(w, op), t)
  {
    InvLink(w);
    if op.Progresses? && w.open && !Stale(w, op.io) {
      NoReceiveLiveness(w, op.io);
      AcceptIdle(w, op.io);
      ReceiveIdle(w, op.io);
      hide Accept, Receive;
      SendEarns(w, op.io);
      hide SendNext, Inv;
    } else {
      hide FailFrom, BooksOk, CursorsOk, PlacesOk, HandedOk, Message, FirstFree, Inv;
    }
  }

  lemma InvLink(w: World)
    requires Inv(w)
    ensures LinkOk(w.link, w.past)
  {}

  /** This reply was pending on the owner's connection and has now gone out whole. */
  predicate StatusReplied(w: World, after: World, t: Token) {
    var ledger := w.books.ledger;
    && Pending(w.books, t) && t in ledger.accepted && ledger.accepted[t].reply && !ledger.accepted[t].data
    && ledger.accepted[t].connection == w.link.generation
    && t in after.books.ledger.completed && after.books.ledger.completed[t]
    && TakenBy(after.books, t) == Message(ledger.accepted[t].segments)
  }

  lemma NoReceiveLiveness(w: World, io: Io)
    requires Inv(w) && w.link.control.active.Some?
    ensures
      var (a, r) := (Accept(w, io).0.link.control, Receive(w, io).0.link.control);
      && a.lastLiveness == w.link.control.lastLiveness && r.lastLiveness == w.link.control.lastLiveness
  {
    hide FailFrom, BooksOk, CursorsOk, PlacesOk, HandedOk, AsksStatus;
  }

  lemma SendEarns(w: World, io: Io)
    requires Inv(w) && w.link.control.active.Some?
    requires SendNext(w, io).0.link.control.lastLiveness != w.link.control.lastLiveness
    ensures w.link.connected && w.link.requested && w.link.generation.value in w.past.asked
    ensures exists t :: StatusReplied(w, SendNext(w, io).0, t)
  {
    var (cursor, selected) := Select(w.books.slots, w.cursor, |w.books.slots|);
    if selected.Some? {
      var (moved, i) := (w.(cursor := cursor), selected.value);
      SameLink(w, moved);
      SelectBusy(w);
      OnlyFinishEarns(moved, i, io);
      var n := TakenOf(moved, i, io.writing.count);
      FinishEarns(moved, i, n, io.now);
      hide *;
      assert SendNext(w, io).0 == Transmit(moved, i, io).0 by { SendNextIs(w, io); }
      assert StatusReplied(w, SendNext(w, io).0, TokenOf(w.books, i)) by {
        MovedReplied(w, cursor, SendNext(w, io).0, TokenOf(w.books, i));
        TokenMoved(w, cursor, i);
      }
    }
  }

  lemma SendNextIs(w: World, io: Io)
    requires Inv(w)
    ensures
      var (cursor, selected) := Select(w.books.slots, w.cursor, |w.books.slots|);
      selected.Some? ==> SendNext(w, io) == Transmit(w.(cursor := cursor), selected.value, io)
  {
    hide Transmit, Select;
  }

  lemma TokenMoved(w: World, cursor: nat, i: nat)
    requires i < |w.books.slots|
    ensures TokenOf(w.(cursor := cursor).books, i) == TokenOf(w.books, i)
  {}

  lemma MovedReplied(w: World, cursor: nat, after: World, t: Token)
    ensures StatusReplied(w.(cursor := cursor), after, t) <==> StatusReplied(w, after, t)
  {}

  lemma OnlyFinishEarns(w: World, i: nat, io: Io)
    requires Inv(w) && Busy(w.books, i) && w.link.control.active.Some?
    requires Transmit(w, i, io).0.link.control.lastLiveness != w.link.control.lastLiveness
    ensures io.writing.Sent?
    ensures
      var n := TakenOf(w, i, io.writing.count);
      var sent := w.(books := Take(w.books, i, n));
      && AtEnd(sent.books.slots[i])
      && w.books.slots[i].reply && w.link.requested && w.link.generation.Some?
      && Transmit(w, i, io).0.books == Finish(sent, i, io.now).books
  {
    hide BooksOk, PlacesOk, HandedOk, Take, Settle, FailFrom, AtEnd, Message, TakenOf;
    assert io.writing.Sent? ==> TakenOf(w, i, io.writing.count) <= |Unsent(w.books.slots[i])|;
    if io.writing.Sent? {
      TakeShape(w.books, i, TakenOf(w, i, io.writing.count));
    }
  }

  lemma FinishEarns(w: World, i: nat, n: nat, now: int)
    requires Inv(w) && Busy(w.books, i) && n <= |Unsent(w.books.slots[i])|
    requires AtEnd(Take(w.books, i, n).slots[i]) && w.books.slots[i].reply && w.link.requested
    ensures w.link.connected && w.link.generation.Some? && w.link.generation.value in w.past.asked
    ensures StatusReplied(w, Finish(w.(books := Take(w.books, i, n)), i, now), TokenOf(w.books, i))
  {
    TakeFacts(w.books, i, n);
    TakeShape(w.books, i, n);
    assert SlotOk(w.books, i) && PlaceOk(w.config, w.books, w.link, i);
    hide BooksOk, PlacesOk, HandedOk, Take, Before, CursorOk, Unsent, Message, Sendable, SameElsewhere;
  }

  /** When neither the connection nor a status reply is younger than the limit, the next
      step frees the control slot and fails every control submission, and nothing else. */
  lemma StaleFrees(w: World, io: Io)
    requires Inv(w) && w.open && w.link.connected
    requires io.now - w.link.connectedAt >= w.config.staleTimeout
    requires io.now - w.link.control.lastLiveness >= w.config.staleTimeout
    ensures
      var after := Progress(w, io).0;
      && !after.link.connected && after.link.generation.None? && after.link.control.active.None?
      && Failed(w.books, after.books, 0, false)
      && (forall t :: Pending(after.books, t) ==> t in after.books.ledger.accepted && after.books.ledger.accepted[t].data)
  {
    assert Stale(w, io);
    var released := w.(link := w.link.(control := AfterStaleCheck(w, io)));
    StaleCloses(w, io);
    FailControlKeeps(released);
    var after := FailControl(released);
    assert Progress(w, io).0 == after;
    BooksBalance(after.books);
    OnlyLeaked(after);
    NoControlWaits(after);
    forall t | Pending(after.books, t) ensures t in after.books.ledger.accepted && after.books.ledger.accepted[t].data {
      assert SlotOk(after.books, t.slot);
    }
    assert !after.past.leaked;
  }
}
