/** The order of the control bytes on the stream: when messages arrive in one piece. */
module RadioStream {
  import opened SpectrumTypes
  import opened ScatterGather
  import opened Submissions
  import opened ByteOrder
  import opened RadioSteps
  import opened RadioSafety
  import opened RadioTheorems
  import RadioEffects
  import Arithmetic

  /** The control slot this step writes, and how many bytes the socket takes. */
  function Writing(w: World, io: Io): (r: Option<(nat, nat)>)
    requires Inv(w)
    ensures r.Some? ==> Busy(w.books, r.value.0) && r.value.1 <= |Unsent(w.books.slots[r.value.0])|
  {
    if !w.open || Stale(w, io) || !Accept(w, io).1.Idle? || !Receive(w, io).1.Idle? || !io.writing.Sent? then None
    else
      var selected := Select(w.books.slots, w.cursor, |w.books.slots|).1;
      if selected.None? then None
      else
        var slot := w.books.slots[selected.value];
        if slot.data || io.now >= slot.deadline then None
        else Some((selected.value, TakenOf(w, selected.value, io.writing.count)))
  }

  function WritingOp(w: World, op: Op): Option<(nat, nat)>
    requires Inv(w)
  {
    if op.Progresses? then Writing(w, op.io) else None
  }

  /** Part of the message went out on the present connection, and part of it did not. */
  predicate HalfSent(w: World, u: Token) {
    && u in w.books.ledger.accepted && !w.books.ledger.accepted[u].data
    && w.books.ledger.accepted[u].connection == w.link.generation
    && 0 < |TakenBy(w.books, u)| < Size(w.books.ledger, u)
  }

  ghost predicate OtherHalfSent(w: World, t: Token) {
    exists u :: u != t && HalfSent(w, u)
  }

  /** The marks on the present connection, and whether a message was ever written into another. */
  datatype Traffic = Traffic(marks: seq<Mark>, mixed: bool)

  ghost function NextTraffic(w: World, tr: Traffic, op: Op): Traffic
    requires Inv(w)
  {
    var r := WritingOp(w, op);
    if Next(w, op).link.generation != w.link.generation then Traffic([], false)
    else if r.None? || r.value.1 == 0 then tr
    else
      var t := TokenOf(w.books, r.value.0);
      Traffic(tr.marks + Marks(t, |TakenBy(w.books, t)|, r.value.1), tr.mixed || OtherHalfSent(w, t))
  }

  // ----- What a step writes -----

  /** No byte of a control message moves. */
  predicate ControlSame(w: World, after: Books, u: Token)
    requires u in w.books.ledger.accepted
  {
    && u in after.ledger.accepted && after.ledger.accepted[u] == w.books.ledger.accepted[u]
    && (!w.books.ledger.accepted[u].data ==> TakenBy(after, u) == TakenBy(w.books, u))
  }

  ghost predicate NothingWritten(w: World, after: Books) {
    && (forall u :: u in w.books.ledger.accepted ==> ControlSame(w, after, u))
    && (forall u :: u in after.ledger.accepted && u !in w.books.ledger.accepted ==>
          TakenBy(after, u) == []
          && (!after.ledger.accepted[u].data ==>
                w.link.generation.Some? && after.ledger.accepted[u].connection == w.link.generation))
  }

  lemma SameWritesNothing(w: World)
    ensures NothingWritten(w, w.books)
  {}

  lemma FailedWritesNothing(w: World, middle: Books, after: Books, i: nat, all: bool)
    requires NothingWritten(w, middle) && Failed(middle, after, i, all)
    ensures NothingWritten(w, after)
  {
    forall u | u in w.books.ledger.accepted ensures ControlSame(w, after, u) {
      assert ControlSame(w, middle, u);
    }
  }

  lemma FailWritesNothing(w: World)
    requires Inv(w)
    ensures NothingWritten(w, FailFrom(w.books, 0, false))
    ensures NothingWritten(w, FailFrom(FailFrom(w.books, 0, false), 0, true))
  {
    var middle := FailFrom(w.books, 0, false);
    FailFromKeeps(w.books, 0, false);
    hide *;
    FailFromKeeps(middle, 0, true);
    SameWritesNothing(w);
    FailedWritesNothing(w, w.books, middle, 0, false);
    FailedWritesNothing(w, middle, FailFrom(middle, 0, true), 0, true);
  }

  lemma SettleWritesNothing(w: World, i: nat, ok: bool)
    requires Busy(w.books, i)
    ensures NothingWritten(w, Settle(w.books, i, ok))
  {}

  lemma DataWritesNothing(w: World, i: nat, n: nat)
    requires Inv(w) && Busy(w.books, i) && n <= |Unsent(w.books.slots[i])| && w.books.slots[i].data
    ensures CursorOk(w.books.slots[i].submission.value, w.books.slots[i].segment, w.books.slots[i].offset)
    ensures Busy(Take(w.books, i, n), i)
    ensures NothingWritten(w, Take(w.books, i, n)) && forall ok :: NothingWritten(w, Settle(Take(w.books, i, n), i, ok))
  {
    assert SlotOk(w.books, i);
    TakeShape(w.books, i, n);
    var (sent, t) := (Take(w.books, i, n), TokenOf(w.books, i));
    assert t in w.books.ledger.accepted && w.books.ledger.accepted[t].data;
    hide BooksOk, SlotOk, Take, Unsent, Inv, CursorOk, Before, Sendable, Message;
    forall u | u in w.books.ledger.accepted ensures ControlSame(w, sent, u) {
      assert u != t ==> SameEntries(w.books.ledger, sent.ledger, u);
    }
  }

  lemma AttemptWritesNothing(w: World, i: nat, io: Io)
    requires Inv(w) && Busy(w.books, i)
    requires w.books.slots[i].data || io.now >= w.books.slots[i].deadline || !io.writing.Sent?
    ensures NothingWritten(w, Transmit(w, i, io).0.books)
  {
    SameWritesNothing(w);
    FailWritesNothing(w);
    SettleWritesNothing(w, i, false);
    TransmitBooks(w, i, io);
    assert PlaceOk(w.config, w.books, w.link, i);
    if io.writing.Sent? {
      if w.books.slots[i].data {
        DataWritesNothing(w, i, TakenOf(w, i, io.writing.count));
      } else {
        ExpiredBooks(w, i, io);
      }
    }
    hide *;
  }

  lemma ExpiredBooks(w: World, i: nat, io: Io)
    requires Busy(w.books, i) && CursorsOk(w.books) && io.now >= w.books.slots[i].deadline
    ensures Transmit(w, i, io).0.books == Settle(w.books, i, false)
  {}

  /** A write to a control slot: its token takes the next bytes, and nothing else changes. */
  predicate Written(w: World, after: Books, i: nat, n: nat)
    requires Busy(w.books, i)
  {
    var t := TokenOf(w.books, i);
    && after.ledger.accepted == w.books.ledger.accepted
    && TakenBy(w.books, t) <= TakenBy(after, t) && |TakenBy(after, t)| == |TakenBy(w.books, t)| + n
    && (forall u :: u in w.books.ledger.accepted && u != t ==> TakenBy(after, u) == TakenBy(w.books, u))
  }

  lemma ControlWrites(w: World, i: nat, io: Io)
    requires Inv(w) && Busy(w.books, i)
    requires !w.books.slots[i].data && io.now < w.books.slots[i].deadline && io.writing.Sent?
    ensures Written(w, Transmit(w, i, io).0.books, i, TakenOf(w, i, io.writing.count))
    ensures Transmit(w, i, io).0.link.generation == w.link.generation
    ensures Transmit(w, i, io).0.past == w.past
  {
    var n := TakenOf(w, i, io.writing.count);
    assert SlotOk(w.books, i) && PlaceOk(w.config, w.books, w.link, i);
    TakeShape(w.books, i, n);
    var (sent, t) := (Take(w.books, i, n), TokenOf(w.books, i));
    assert TakenBy(sent, t) == TakenBy(w.books, t) + Unsent(w.books.slots[i])[..n];
    assert w.link.connected;
    hide *;
    TakeWrites(w, sent, i, n);
    SettleWrites(w, sent, i, n);
    ControlSentIs(w, i, io);
  }

  lemma TakeWrites(w: World, sent: Books, i: nat, n: nat)
    requires Busy(w.books, i) && SameElsewhere(w.books, sent, i)
    requires sent.ledger.accepted == w.books.ledger.accepted && n <= |Unsent(w.books.slots[i])|
    requires TakenBy(sent, TokenOf(w.books, i)) == TakenBy(w.books, TokenOf(w.books, i)) + Unsent(w.books.slots[i])[..n]
    ensures Written(w, sent, i, n)
  {
    forall u | u in w.books.ledger.accepted && u != TokenOf(w.books, i) ensures TakenBy(sent, u) == TakenBy(w.books, u) {
      assert SameEntries(w.books.ledger, sent.ledger, u);
    }
    hide Unsent;
  }

  lemma SettleWrites(w: World, sent: Books, i: nat, n: nat)
    requires Busy(w.books, i) && Busy(sent, i) && Written(w, sent, i, n)
    ensures Written(w, Settle(sent, i, true), i, n)
  {}

  lemma ControlSentIs(w: World, i: nat, io: Io)
    requires Busy(w.books, i) && CursorsOk(w.books) && w.link.connected && !w.books.slots[i].data
    requires io.now < w.books.slots[i].deadline && io.writing.Sent?
    ensures
      var (after, sent) := (Transmit(w, i, io).0, Take(w.books, i, TakenOf(w, i, io.writing.count)));
      && Busy(sent, i) && after.books == (if AtEnd(sent.slots[i]) then Settle(sent, i, true) else sent)
      && after.link.generation == w.link.generation && after.past == w.past
  {
    TakeShape(w.books, i, TakenOf(w, i, io.writing.count));
    hide Take, TakenOf, AtEnd, Settle, SameElsewhere, Message;
  }

  // ----- Generations and what was accepted on them -----

  /** Control messages were accepted on connections that were handed out. */
  predicate Dated(w: World) {
    forall u :: u in w.books.ledger.accepted && !w.books.ledger.accepted[u].data ==>
      var c := w.books.ledger.accepted[u].connection;
      c.Some? && 1 <= c.value <= |w.past.handed|
  }

  ghost predicate TrafficOk(w: World, tr: Traffic) {
    && Dated(w)
    && (forall k: nat :: k < |tr.marks| ==> MarkOk(w, tr.marks[k]))
    && (tr.mixed <==> !Intact(tr.marks, w.books.ledger))
    && (!tr.mixed ==> forall u :: HalfSent(w, u) ==> tr.marks != [] && tr.marks[|tr.marks| - 1].token == u)
    && (!tr.mixed && tr.marks != [] ==>
          var last := tr.marks[|tr.marks| - 1];
          last.index + 1 == |TakenBy(w.books, last.token)|)
  }

  predicate MarkOk(w: World, m: Mark) {
    && m.token in w.books.ledger.accepted && !w.books.ledger.accepted[m.token].data
    && w.books.ledger.accepted[m.token].connection == w.link.generation
  }

  lemma QuietKeeps(w: World, after: World, tr: Traffic)
    requires TrafficOk(w, tr) && NothingWritten(w, after.books) && after.link.generation == w.link.generation
    requires |after.past.handed| >= |w.past.handed|
    requires w.link.generation.Some? ==> 1 <= w.link.generation.value <= |w.past.handed|
    ensures TrafficOk(after, tr)
  {
    var (before, ledger) := (w.books.ledger, after.books.ledger);
    hide Message;
    forall k: nat | k < |tr.marks| ensures MarkOk(after, tr.marks[k]) && Size(ledger, tr.marks[k].token) == Size(before, tr.marks[k].token) {
      assert MarkOk(w, tr.marks[k]) && ControlSame(w, after.books, tr.marks[k].token);
    }
    forall k: nat | k < |tr.marks| ensures Follows(tr.marks, k, before) <==> Follows(tr.marks, k, ledger) {
      if k > 0 {
        assert Size(ledger, tr.marks[k - 1].token) == Size(before, tr.marks[k - 1].token);
      }
    }
    forall u | HalfSent(after, u) ensures HalfSent(w, u) {
      if u in before.accepted {
        assert ControlSame(w, after.books, u);
      }
    }
    forall u | u in ledger.accepted && u in before.accepted ensures ledger.accepted[u] == before.accepted[u] {
      assert ControlSame(w, after.books, u);
    }
  }

  lemma FreshKeeps(w: World, after: World)
    requires Dated(w) && NothingWritten(w, after.books) && |after.past.handed| >= |w.past.handed|
    requires w.link.generation.Some? ==> 1 <= w.link.generation.value <= |w.past.handed|
    requires after.link.generation.Some? ==> after.link.generation.value > |w.past.handed| && after.books == w.books
    ensures TrafficOk(after, Traffic([], false))
  {
    forall u | u in after.books.ledger.accepted && u in w.books.ledger.accepted
      ensures after.books.ledger.accepted[u] == w.books.ledger.accepted[u]
    {
      assert ControlSame(w, after.books, u);
    }
    hide Message;
  }

  lemma WriteKeeps(w: World, after: World, tr: Traffic, i: nat, n: nat)
    requires Inv(w) && TrafficOk(w, tr) && Busy(w.books, i) && !w.books.slots[i].data && 0 < n <= |Unsent(w.books.slots[i])|
    requires Written(w, after.books, i, n) && after.link.generation == w.link.generation && after.past == w.past
    ensures
      var t := TokenOf(w.books, i);
      TrafficOk(after, Traffic(tr.marks + Marks(t, |TakenBy(w.books, t)|, n), tr.mixed || OtherHalfSent(w, t)))
  {
    hide Inv, Follows, Size, Message, Unsent, Intact, HalfSent, TakenBy, Marks;
    var (t, from) := (TokenOf(w.books, i), |TakenBy(w.books, TokenOf(w.books, i))|);
    var marks := tr.marks + Marks(t, from, n);
    WaitsHere(w, i);
    FollowsExactly(w, tr, i, n);
    SameSizes(marks, w.books.ledger, after.books.ledger);
    HalfSentAfter(w, after, i, n);
    MarksAre(t, from, n);
    assert marks[|marks| - 1] == Mark(t, from + n - 1);
    forall k: nat | k < |marks| ensures MarkOk(after, marks[k]) {
      assert k < |tr.marks| ==> MarkOk(w, tr.marks[k]);
    }
  }

  /** Only the message that was written can be newly half-sent. */
  lemma HalfSentAfter(w: World, after: World, i: nat, n: nat)
    requires Busy(w.books, i) && Written(w, after.books, i, n) && after.link.generation == w.link.generation
    ensures
      var t := TokenOf(w.books, i);
      && |TakenBy(after.books, t)| == |TakenBy(w.books, t)| + n
      && forall u :: HalfSent(after, u) && u != t ==> HalfSent(w, u)
  {
    hide Message;
  }

  /** A control message waits on the present connection, with the rest of its bytes. */
  lemma WaitsHere(w: World, i: nat)
    requires Inv(w) && Busy(w.books, i) && !w.books.slots[i].data
    ensures
      var t := TokenOf(w.books, i);
      && MarkOk(w, Mark(t, 0))
      && |TakenBy(w.books, t)| + |Unsent(w.books.slots[i])| == Size(w.books.ledger, t)
  {
    assert SlotOk(w.books, i) && PlaceOk(w.config, w.books, w.link, i);
    var slot := w.books.slots[i];
    CursorSplits(slot.submission.value, slot.segment, slot.offset);
  }

  /** More bytes keep the stream intact exactly when no other message is half-sent. */
  lemma FollowsExactly(w: World, tr: Traffic, i: nat, n: nat)
    requires Inv(w) && TrafficOk(w, tr) && Busy(w.books, i) && !w.books.slots[i].data && 0 < n <= |Unsent(w.books.slots[i])|
    ensures
      var t := TokenOf(w.books, i);
      Intact(tr.marks + Marks(t, |TakenBy(w.books, t)|, n), w.books.ledger) <==> !tr.mixed && !OtherHalfSent(w, t)
  {
    var (t, ledger) := (TokenOf(w.books, i), w.books.ledger);
    var from := |TakenBy(w.books, t)|;
    var marks := tr.marks + Marks(t, from, n);
    WaitsHere(w, i);
    hide Inv, Message, Unsent;
    PrefixFollows(tr.marks, t, from, n, ledger);
    FirstFollows(w, tr, t, from);
  }

  lemma TakenWithin(w: World, u: Token)
    requires Inv(w) && u in w.books.ledger.accepted
    ensures |TakenBy(w.books, u)| <= Size(w.books.ledger, u)
  {
    assert TokenOk(w.books, u);
    hide BooksOk, Message;
  }

  lemma FirstFollows(w: World, tr: Traffic, t: Token, from: nat)
    requires Inv(w) && TrafficOk(w, tr) && MarkOk(w, Mark(t, 0)) && from == |TakenBy(w.books, t)| < Size(w.books.ledger, t)
    ensures !tr.mixed ==>
      (Follows(tr.marks + [Mark(t, from)], |tr.marks|, w.books.ledger) <==> !OtherHalfSent(w, t))
  {
    hide Message, Inv;
    if !tr.mixed {
      if from > 0 {
        assert HalfSent(w, t);
      } else if tr.marks != [] {
        var last := tr.marks[|tr.marks| - 1];
        assert MarkOk(w, last);
        TakenWithin(w, last.token);
        if |TakenBy(w.books, last.token)| < Size(w.books.ledger, last.token) {
          assert HalfSent(w, last.token);
        }
      }
    }
  }

  // ----- Every step -----

  /** What a step comes down to when nothing happens before the sending. */
  predicate ReachesSending(w: World, io: Io) {
    w.open && !Stale(w, io) && Accept(w, io).1.Idle? && Receive(w, io).1.Idle?
  }

  lemma ProgressIs(w: World, io: Io)
    requires Inv(w)
    ensures
      var after := Progress(w, io).0;
      if ReachesSending(w, io) then after == SendNext(w, io).0
      else after.books == w.books || after.books == FailFrom(w.books, 0, false)
  {
    AcceptIdle(w, io);
    ReceiveIdle(w, io);
    AcceptBooks(w, io);
    ReceiveBooks(w, io);
    hide Accept, Receive, SendNext, FailFrom, Inv, Stale, AfterStaleCheck;
  }

  lemma SendingWritesNothing(w: World, io: Io)
    requires Inv(w) && ReachesSending(w, io) && Writing(w, io).None?
    ensures NothingWritten(w, SendNext(w, io).0.books)
  {
    SameWritesNothing(w);
    SelectBusy(w);
    var (cursor, selected) := Select(w.books.slots, w.cursor, |w.books.slots|);
    if selected.Some? {
      var moved := w.(cursor := cursor);
      SameLink(w, moved);
      SendNextIs(w, io);
      AttemptWritesNothing(moved, selected.value, io);
      MovedWritesNothing(w, cursor, Transmit(moved, selected.value, io).0.books);
    }
    hide Inv, Transmit, Select, NothingWritten;
  }

  lemma MovedWritesNothing(w: World, cursor: nat, after: Books)
    ensures NothingWritten(w.(cursor := cursor), after) <==> NothingWritten(w, after)
  {
    var moved := w.(cursor := cursor);
    assert forall u :: u in w.books.ledger.accepted ==> (ControlSame(w, after, u) <==> ControlSame(moved, after, u));
  }

  lemma AdmitWritesNothing(w: World, offer: Offer, now: int)
    requires Inv(w)
    ensures NothingWritten(w, Send(w, offer, now).0.books)
  {
    var (after, result) := Send(w, offer, now);
    SendIs(w, offer, now);
    SameWritesNothing(w);
    if result.Accepted? {
      assert SlotOk(w.books, result.token.slot);
      InvLink(w);
      hide *;
      NewWritesNothing(w, offer, result.token.slot, now + w.config.ioTimeout);
    }
    hide *;
  }

  lemma NewWritesNothing(w: World, offer: Offer, i: nat, deadline: int)
    requires offer.framing.Some? && i < |w.books.slots| && !Busy(w.books, i) && SlotOk(w.books, i)
    requires offer.framing.value.command ==> w.link.connected
    requires LinkOk(w.link, w.past)
    ensures NothingWritten(w, Admit(w.books, i, deadline, RecordOf(w, offer)))
  {
    hide Message, HandedOk;
  }

  lemma StepWritesNothing(w: World, op: Op)
    requires Inv(w) && WritingOp(w, op).None?
    ensures NothingWritten(w, Next(w, op).books)
  {
    SameWritesNothing(w);
    FailWritesNothing(w);
    match op {
      case Sends(offer, now) => AdmitWritesNothing(w, offer, now);
      case Progresses(io) =>
        ProgressIs(w, io);
        if ReachesSending(w, io) {
          SendingWritesNothing(w, io);
        }
        hide NothingWritten, Inv, FailFrom, Progress, SendNext, Writing, ReachesSending;
      case _ => hide NothingWritten, Inv, FailFrom;
    }
  }

  lemma StepWrites(w: World, io: Io)
    requires Inv(w) && Writing(w, io).Some?
    ensures
      var (after, (i, n)) := (Progress(w, io).0, Writing(w, io).value);
      Written(w, after.books, i, n) && after.link.generation == w.link.generation && after.past == w.past
      && !w.books.slots[i].data
  {
    hide Inv, Transmit, Select, SendNext, Progress, Written;
    ProgressIs(w, io);
    SelectBusy(w);
    var (cursor, selected) := Select(w.books.slots, w.cursor, |w.books.slots|);
    var (moved, i) := (w.(cursor := cursor), selected.value);
    SameLink(w, moved);
    SendNextIs(w, io);
    ControlWrites(moved, i, io);
    MovedWritten(w, cursor, Transmit(moved, i, io).0.books, i, TakenOf(w, i, io.writing.count));
  }

  lemma MovedWritten(w: World, cursor: nat, after: Books, i: nat, n: nat)
    requires Busy(w.books, i)
    ensures Written(w.(cursor := cursor), after, i, n) <==> Written(w, after, i, n)
  {}

  /** A new connection is younger than everything accepted before it. */
  predicate Younger(w: World, after: World) {
    && |after.past.handed| >= |w.past.handed|
    && (after.link.generation.Some? && after.link.generation != w.link.generation ==>
          after.link.generation.value > |w.past.handed| && after.books == w.books)
  }

  lemma StepGeneration(w: World, op: Op)
    requires Inv(w)
    ensures Younger(w, Next(w, op))
    ensures w.link.generation.Some? ==> 1 <= w.link.generation.value <= |w.past.handed|
  {
    InvLink(w);
    assert HandedOk(w.link.control, w.past.handed);
    if op.Progresses? {
      AcceptGeneration(w, op.io);
      ReceiveGeneration(w, op.io);
      SendGeneration(w, op.io);
      AcceptIdle(w, op.io);
      ReceiveIdle(w, op.io);
      hide Accept, Receive, SendNext, Inv, FailFrom, Stale, AfterStaleCheck;
    } else {
      hide Inv, FailFrom, Admit, FirstFree, Message;
    }
  }

  lemma AcceptGeneration(w: World, io: Io)
    requires Inv(w)
    ensures Younger(w, Accept(w, io).0)
  {
    InvLink(w);
    assert HandedOk(w.link.control, w.past.handed);
    hide Inv, FailFrom;
  }

  lemma ReceiveGeneration(w: World, io: Io)
    ensures Younger(w, Receive(w, io).0)
  {
    hide FailFrom, AsksStatus;
  }

  lemma SendGeneration(w: World, io: Io)
    requires Inv(w)
    ensures Younger(w, SendNext(w, io).0)
  {
    hide Inv, FailFrom, Take, Settle, AtEnd, TakenOf, Select, Message;
  }

  /** A step that writes. */
  lemma OpWrites(w: World, op: Op)
    requires Inv(w) && WritingOp(w, op).Some?
    ensures
      var (after, (i, n)) := (Next(w, op), WritingOp(w, op).value);
      && Busy(w.books, i) && !w.books.slots[i].data && n <= |Unsent(w.books.slots[i])| && Written(w, after.books, i, n)
      && after.link.generation == w.link.generation && after.past == w.past
  {
    StepWrites(w, op.io);
    hide Inv, Progress, Writing, Unsent, TakenBy;
  }

  /** The traffic of a step, case by case. */
  lemma NextTrafficIs(w: World, tr: Traffic, op: Op)
    requires Inv(w)
    ensures
      var (after, r, now) := (Next(w, op), WritingOp(w, op), NextTraffic(w, tr, op));
      && (after.link.generation != w.link.generation ==> now == Traffic([], false))
      && (after.link.generation == w.link.generation && (r.None? || r.value.1 == 0) ==> now == tr)
      && (after.link.generation == w.link.generation && r.Some? && r.value.1 > 0 ==>
            && Busy(w.books, r.value.0)
            && var ((i, n), t) := (r.value, TokenOf(w.books, r.value.0));
               now == Traffic(tr.marks + Marks(t, |TakenBy(w.books, t)|, n), tr.mixed || OtherHalfSent(w, t)))
  {
    hide Inv, Next, Unsent, TakenBy, Marks, OtherHalfSent;
  }

  lemma CanStep(w: World)
    requires Inv(w)
    ensures CursorsOk(w.books) && |w.books.slots| == TOTAL_SLOTS && w.config.Valid()
  {}

  lemma TrafficKeeps(w: World, tr: Traffic, op: Op)
    requires Inv(w) && TrafficOk(w, tr)
    ensures TrafficOk(Next(w, op), NextTraffic(w, tr, op))
  {
    hide *;
    CanStep(w);
    NextTrafficIs(w, tr, op);
    var after := Next(w, op);
    if WritingOp(w, op).Some? {
      OpWrites(w, op);
      var (i, n) := WritingOp(w, op).value;
      if n > 0 {
        WriteKeeps(w, after, tr, i, n);
      } else {
        NoBytes(w, after.books, i);
        StepQuiet(w, op);
        QuietKeeps(w, after, tr);
      }
    } else {
      StepWritesNothing(w, op);
      StepQuiet(w, op);
      TrafficDated(w, tr);
      if after.link.generation == w.link.generation {
        QuietKeeps(w, after, tr);
      } else {
        FreshKeeps(w, after);
      }
    }
  }

  lemma TrafficDated(w: World, tr: Traffic)
    requires TrafficOk(w, tr)
    ensures Dated(w)
  {}

  lemma StepQuiet(w: World, op: Op)
    requires Inv(w)
    ensures
      var after := Next(w, op);
      && |after.past.handed| >= |w.past.handed|
      && (w.link.generation.Some? ==> 1 <= w.link.generation.value <= |w.past.handed|)
      && (after.link.generation != w.link.generation && after.link.generation.Some? ==>
            after.link.generation.value > |w.past.handed| && after.books == w.books)
  {
    StepGeneration(w, op);
    hide Inv, Next;
  }

  lemma NoBytes(w: World, after: Books, i: nat)
    requires Busy(w.books, i) && Written(w, after, i, 0)
    ensures NothingWritten(w, after)
  {}

  // ----- Every run -----

  /** What went out on the present connection. */
  ghost function Sent(config: Config, ops: seq<Op>): Traffic
    requires config.Valid()
  {
    if ops == [] then Traffic([], false)
    else NextTraffic(Run(config, ops[..|ops| - 1]), Sent(config, ops[..|ops| - 1]), ops[|ops| - 1])
  }

  lemma {:induction false} RunTraffic(config: Config, ops: seq<Op>)
    requires config.Valid()
    ensures TrafficOk(Run(config, ops), Sent(config, ops))
  {
    if ops == [] {
      hide Message;
    } else {
      var before := ops[..|ops| - 1];
      RunTraffic(config, before);
      TrafficKeeps(Run(config, before), Sent(config, before), ops[|ops| - 1]);
      hide TrafficOk, Next, NextTraffic, Inv;
    }
  }

  /** In every run the messages on the present connection are in one piece, except perhaps
      the last one so far, if and only if no message was written while another one was
      half-sent. */
  lemma StreamIntact(config: Config, ops: seq<Op>)
    requires config.Valid()
    ensures Intact(Sent(config, ops).marks, Run(config, ops).books.ledger) <==> !Sent(config, ops).mixed
  {
    RunTraffic(config, ops);
    hide Run, Sent, Intact;
  }

  // ----- A message that is given up half-sent -----

  /** A control message whose time is over fails while the connection stays up. If it was
      half-sent, its fragment stays on the stream, and whatever is written next goes into it. */
  lemma TimeoutLeavesFragment(w: World, io: Io, i: nat)
    requires Inv(w) && ReachesSending(w, io) && Select(w.books.slots, w.cursor, |w.books.slots|).1 == Some(i)
    requires !w.books.slots[i].data && io.now >= w.books.slots[i].deadline && HalfSent(w, TokenOf(w.books, i))
    ensures
      var (after, t) := (Progress(w, io).0, TokenOf(w.books, i));
      && Inv(after) && after.link == w.link && after.link.connected
      && Completed(after.books, t, false) && HalfSent(after, t)
      && forall later: Io :: Writing(after, later).Some? ==>
        OtherHalfSent(after, TokenOf(after.books, Writing(after, later).value.0))
  {
    var (after, t) := (Progress(w, io).0, TokenOf(w.books, i));
    TimeoutIs(w, io, i);
    hide *;
    forall later: Io | Writing(after, later).Some?
      ensures OtherHalfSent(after, TokenOf(after.books, Writing(after, later).value.0))
    {
      var k := Writing(after, later).value.0;
      ClosedIsOther(w.books, i, k);
      OtherIs(after, t, TokenOf(after.books, k));
    }
  }

  lemma OtherIs(w: World, u: Token, t: Token)
    requires HalfSent(w, u) && u != t
    ensures OtherHalfSent(w, t)
  {}

  lemma TimeoutIs(w: World, io: Io, i: nat)
    requires Inv(w) && ReachesSending(w, io) && Select(w.books.slots, w.cursor, |w.books.slots|).1 == Some(i)
    requires !w.books.slots[i].data && io.now >= w.books.slots[i].deadline && HalfSent(w, TokenOf(w.books, i))
    ensures
      var (after, t) := (Progress(w, io).0, TokenOf(w.books, i));
      && Busy(w.books, i) && Inv(after) && after.link == w.link && after.link.connected
      && after.books == Settle(w.books, i, false)
      && Completed(after.books, t, false) && HalfSent(after, t)
  {
    hide *;
    var moved := w.(cursor := Select(w.books.slots, w.cursor, |w.books.slots|).0);
    CanStep(w);
    SelectBusy(w);
    ProgressKeeps(w, io);
    ProgressIs(w, io);
    SendNextIs(w, io);
    ExpiredIs(moved, i, io);
    ControlNeedsLink(w, i);
    FragmentStays(w, Progress(w, io).0, i);
  }

  lemma ControlNeedsLink(w: World, i: nat)
    requires Inv(w) && Busy(w.books, i) && !w.books.slots[i].data
    ensures w.link.connected
  {
    assert PlaceOk(w.config, w.books, w.link, i);
    hide BooksOk;
  }

  lemma FragmentStays(w: World, after: World, i: nat)
    requires Busy(w.books, i) && after.books == Settle(w.books, i, false) && after.link == w.link
    requires HalfSent(w, TokenOf(w.books, i))
    ensures Completed(after.books, TokenOf(w.books, i), false) && HalfSent(after, TokenOf(w.books, i))
  {
    hide Message;
  }

  lemma ExpiredIs(w: World, i: nat, io: Io)
    requires Busy(w.books, i) && CursorsOk(w.books) && io.now >= w.books.slots[i].deadline
    ensures Transmit(w, i, io).0 == w.(books := Settle(w.books, i, false))
  {}

  /** Whatever waits after a submission was closed has another token. */
  lemma ClosedIsOther(b: Books, i: nat, k: nat)
    requires Busy(b, i) && Busy(Settle(b, i, false), k)
    ensures TokenOf(Settle(b, i, false), k) != TokenOf(b, i)
  {}

  // ----- As long as no write is partial -----

  /** The count of partial writes when the present connection began, or the run. */
  ghost function PartialsBefore(config: Config, ops: seq<Op>): nat
    requires config.Valid()
  {
    if ops == [] then 0
    else
      var (before, op) := (ops[..|ops| - 1], ops[|ops| - 1]);
      var (w, after) := (Run(config, before), Next(Run(config, before), op));
      if after.link.generation != w.link.generation then after.metrics.partialWrites else PartialsBefore(config, before)
  }

  /** Without a partial write since, nothing is half-sent and nothing was mixed. */
  ghost predicate WholeSince(w: World, tr: Traffic, partials: nat) {
    && w.metrics.partialWrites >= partials
    && (w.metrics.partialWrites == partials ==> !tr.mixed && forall u :: !HalfSent(w, u))
  }

  lemma PartialsGrow(w: World, op: Op)
    requires Inv(w)
    ensures Next(w, op).metrics.partialWrites >= w.metrics.partialWrites
  {
    if op.Progresses? {
      SendPartials(w, op.io);
      ReceivePartials(w, op.io);
      AcceptIdle(w, op.io);
      ReceiveIdle(w, op.io);
      hide Receive, SendNext, Inv, FailFrom, Stale, AfterStaleCheck;
    } else {
      hide Inv, FailFrom, Admit, FirstFree, Message;
    }
  }

  lemma SendPartials(w: World, io: Io)
    requires Inv(w)
    ensures SendNext(w, io).0.metrics.partialWrites >= w.metrics.partialWrites
  {
    hide Inv, FailFrom, Take, Settle, AtEnd, TakenOf, Select, Message;
  }

  lemma ReceivePartials(w: World, io: Io)
    ensures Receive(w, io).0.metrics.partialWrites == w.metrics.partialWrites
  {
    hide FailFrom, AsksStatus;
  }

  /** A write that leaves bytes behind is counted. */
  lemma PartialCounted(w: World, io: Io)
    requires Inv(w) && Writing(w, io).Some? && Writing(w, io).value.1 < |Unsent(w.books.slots[Writing(w, io).value.0])|
    ensures Progress(w, io).0.metrics.partialWrites == w.metrics.partialWrites + 1
  {
    ProgressIs(w, io);
    SelectBusy(w);
    var (cursor, selected) := Select(w.books.slots, w.cursor, |w.books.slots|);
    var (moved, i) := (w.(cursor := cursor), selected.value);
    SameLink(w, moved);
    SendNextIs(w, io);
    PartialAttempt(moved, i, io);
    hide *;
  }

  lemma PartialAttempt(w: World, i: nat, io: Io)
    requires Inv(w) && Busy(w.books, i) && !w.books.slots[i].data
    requires io.now < w.books.slots[i].deadline && io.writing.Sent?
    requires TakenOf(w, i, io.writing.count) < |Unsent(w.books.slots[i])|
    ensures Transmit(w, i, io).0.metrics.partialWrites == w.metrics.partialWrites + 1
  {
    var n := TakenOf(w, i, io.writing.count);
    assert PlaceOk(w.config, w.books, w.link, i);
    NotAtEnd(w, i, n);
    hide Inv, Take, AtEnd, Unsent, Message, CursorsOk;
  }

  lemma NotAtEnd(w: World, i: nat, n: nat)
    requires Inv(w) && Busy(w.books, i) && n < |Unsent(w.books.slots[i])|
    ensures CursorOk(w.books.slots[i].submission.value, w.books.slots[i].segment, w.books.slots[i].offset)
    ensures !AtEnd(Take(w.books, i, n).slots[i])
  {
    assert SlotOk(w.books, i);
    var slot := w.books.slots[i];
    if slot.submission.value != [] {
      AdvanceFinishes(slot.submission.value, slot.segment, slot.offset, n);
    }
    hide BooksOk, SlotOk, Message;
  }

  lemma HalfSentStays(w: World, after: World, u: Token)
    requires NothingWritten(w, after.books) && after.link.generation == w.link.generation && HalfSent(after, u)
    ensures HalfSent(w, u)
  {
    if u in w.books.ledger.accepted {
      assert ControlSame(w, after.books, u);
    }
    hide Message;
  }

  lemma WholeKeeps(w: World, tr: Traffic, partials: nat, op: Op)
    requires Inv(w) && TrafficOk(w, tr) && WholeSince(w, tr, partials)
    ensures
      var after := Next(w, op);
      WholeSince(after, NextTraffic(w, tr, op),
                 if after.link.generation != w.link.generation then after.metrics.partialWrites else partials)
  {
    var after := Next(w, op);
    PartialsGrow(w, op);
    TrafficKeeps(w, tr, op);
    if after.link.generation != w.link.generation {
      NewIsWhole(after);
    } else if after.metrics.partialWrites == partials {
      if WritingOp(w, op).Some? {
        WroteWhole(w, op.io);
      } else {
        StepWritesNothing(w, op);
        forall u ensures !HalfSent(after, u) {
          if HalfSent(after, u) {
            HalfSentStays(w, after, u);
          }
        }
      }
    }
    hide Inv, TrafficOk, Next, WritingOp, NothingWritten, HalfSent;
  }

  lemma NewIsWhole(w: World)
    requires TrafficOk(w, Traffic([], false))
    ensures forall u :: !HalfSent(w, u)
  {
    hide HalfSent;
  }

  /** A write that is not counted as partial leaves nothing half-sent that was not before. */
  lemma WroteWhole(w: World, io: Io)
    requires Inv(w) && Writing(w, io).Some? && forall u :: !HalfSent(w, u)
    requires Progress(w, io).0.metrics.partialWrites == w.metrics.partialWrites
    ensures forall u :: !HalfSent(Progress(w, io).0, u)
  {
    var (after, i, n) := (Progress(w, io).0, Writing(w, io).value.0, Writing(w, io).value.1);
    StepWrites(w, io);
    hide *;
    WaitsHere(w, i);
    if n < |Unsent(w.books.slots[i])| {
      PartialCounted(w, io);
    }
    NoneHalfSent(w, after, i, n);
  }

  lemma NoneHalfSent(w: World, after: World, i: nat, n: nat)
    requires Busy(w.books, i) && Written(w, after.books, i, n) && after.link.generation == w.link.generation
    requires |TakenBy(w.books, TokenOf(w.books, i))| + n == Size(w.books.ledger, TokenOf(w.books, i))
    requires forall u :: !HalfSent(w, u)
    ensures forall u :: !HalfSent(after, u)
  {
    hide Message;
    forall u ensures !HalfSent(after, u) {
      assert !HalfSent(w, u);
    }
  }

  lemma {:induction false} RunWhole(config: Config, ops: seq<Op>)
    requires config.Valid()
    ensures WholeSince(Run(config, ops), Sent(config, ops), PartialsBefore(config, ops))
  {
    if ops == [] {
      RunTraffic(config, ops);
      NewIsWhole(Run(config, ops));
      hide TrafficOk, HalfSent, Inv;
    } else {
      var before := ops[..|ops| - 1];
      RunWhole(config, before);
      RunTraffic(config, before);
      WholeKeeps(Run(config, before), Sent(config, before), PartialsBefore(config, before), ops[|ops| - 1]);
      hide TrafficOk, WholeSince, Next, NextTraffic, Inv;
    }
  }

  /** What the counter shows: while the count of partial writes has not moved since the
      connection began, and so in particular while it is zero, every message on the
      connection is in one piece. */
  lemma IntactWithoutPartials(config: Config, ops: seq<Op>)
    requires config.Valid()
    ensures PartialsBefore(config, ops) <= Run(config, ops).metrics.partialWrites
    ensures Run(config, ops).metrics.partialWrites == PartialsBefore(config, ops) ==>
      Intact(Sent(config, ops).marks, Run(config, ops).books.ledger)
    ensures Run(config, ops).metrics.partialWrites == 0 ==>
      Intact(Sent(config, ops).marks, Run(config, ops).books.ledger)
  {
    RunWhole(config, ops);
    StreamIntact(config, ops);
    hide Run, Sent, Intact, PartialsBefore;
  }

  // ----- When messages do get mixed -----

  lemma {:induction false} SelectWhere(slots: seq<Slot>, cursor: nat, attempts: nat)
    requires slots != []
    ensures
      var (next, found) := Select(slots, cursor, attempts);
      && cursor <= next <= cursor + attempts
      && (found.Some? ==> next > cursor && (next - 1) % |slots| == found.value)
    decreases attempts
  {
    if attempts > 0 && slots[cursor % |slots|].submission.None? {
      SelectWhere(slots, cursor + 1, attempts - 1);
    }
  }

  lemma {:induction false} SelectMore(slots: seq<Slot>, cursor: nat, attempts: nat)
    requires slots != [] && Select(slots, cursor, attempts).1.Some?
    ensures Select(slots, cursor, attempts + 1) == Select(slots, cursor, attempts)
    decreases attempts
  {
    if attempts > 0 && slots[cursor % |slots|].submission.None? {
      SelectMore(slots, cursor + 1, attempts - 1);
    }
  }

  /** The slot just served comes last in the next round. */
  lemma SelectAvoids(slots: seq<Slot>, cursor: nat, i: nat, j: nat)
    requires cursor > 0 && i < |slots| && j < |slots| && i != j && (cursor - 1) % |slots| == i
    requires slots[j].submission.Some?
    ensures Select(slots, cursor, |slots|).1.Some? && Select(slots, cursor, |slots|).1.value != i
  {
    var n := |slots|;
    Reaches(cursor, j, n);
    var k: nat :| cursor <= k < cursor + n && k % n == j;
    SameResidue(cursor - 1, n);
    assert k != cursor - 1 + n;
    SelectTries(slots, cursor, n - 1);
    assert Waits(slots, k);
    SelectMore(slots, cursor, n - 1);
    SelectWhere(slots, cursor, n - 1);
    var next := Select(slots, cursor, n - 1).0;
    if (next - 1) % n == i {
      Apart(cursor - 1, next - 1, n);
    }
  }

  lemma SameResidue(a: nat, n: nat)
    requires n > 0
    ensures (a + n) % n == a % n
  {
    var (q, r) := (a / n, a % n);
    assert n * (q + 1) == n * q + n;
    Arithmetic.DivMod(n, q + 1, r);
    assert a + n == n * (q + 1) + r;
  }

  /** Equal residues are at least the modulus apart. */
  lemma Apart(a: nat, b: nat, n: nat)
    requires n > 0 && a < b && a % n == b % n
    ensures b - a >= n
  {
    var (p, q) := (a / n, b / n);
    assert a == n * p + a % n && b == n * q + b % n;
    if b - a < n {
      assert n * (q - p) == n * q - n * p;
      Arithmetic.SmallMultiple(n, q - p, b - a);
    }
  }

  /** Everything that waits is a control message with time left. */
  predicate OnlyTimelyControl(w: World, now: int) {
    forall k: nat :: k < |w.books.slots| && w.books.slots[k].submission.Some? ==>
      !w.books.slots[k].data && now < w.books.slots[k].deadline && Sendable(w.books.slots[k].submission.value)
  }

  /** After a partial write the cursor moves on: when another control message waits, the next
      write goes into it while the first is half-sent. */
  lemma PartialWriteMixes(w: World, io: Io, later: Io, j: nat)
    requires Inv(w) && Writing(w, io).Some?
    requires 0 < Writing(w, io).value.1 < |Unsent(w.books.slots[Writing(w, io).value.0])|
    requires j != Writing(w, io).value.0 && Busy(w.books, j) && OnlyTimelyControl(w, later.now)
    requires ReachesSending(Progress(w, io).0, later) && later.writing.Sent? && later.writing.count > 0
    ensures
      var after := Progress(w, io).0;
      && Inv(after) && Writing(after, later).Some? && Writing(after, later).value.1 > 0
      && OtherHalfSent(after, TokenOf(after.books, Writing(after, later).value.0))
  {
    var (after, i) := (Progress(w, io).0, Writing(w, io).value.0);
    ProgressKeeps(w, io);
    HalfWay(w, io);
    AfterPartial(w, io);
    hide Inv, Select, Message, Sendable, Progress, ReachesSending, Writing, HalfSent, Unsent;
    assert after.books.slots[j] == w.books.slots[j];
    SelectAvoids(after.books.slots, after.cursor, i, j);
    var k := Select(after.books.slots, after.cursor, |after.books.slots|).1.value;
    assert after.books.slots[k] == w.books.slots[k];
    assert TokenOf(after.books, k) != TokenOf(w.books, i);
    WritesSome(after, later, k);
  }

  lemma HalfWay(w: World, io: Io)
    requires Inv(w) && Writing(w, io).Some?
    requires 0 < Writing(w, io).value.1 < |Unsent(w.books.slots[Writing(w, io).value.0])|
    ensures HalfSent(Progress(w, io).0, TokenOf(w.books, Writing(w, io).value.0))
  {
    StepWrites(w, io);
    WaitsHere(w, Writing(w, io).value.0);
    hide Inv, Progress, Writing, Message, Unsent;
  }

  lemma WritesSome(w: World, io: Io, k: nat)
    requires Inv(w) && ReachesSending(w, io) && Busy(w.books, k) && !w.books.slots[k].data
    requires Select(w.books.slots, w.cursor, |w.books.slots|).1 == Some(k)
    requires io.now < w.books.slots[k].deadline && io.writing.Sent? && io.writing.count > 0
    requires Sendable(w.books.slots[k].submission.value)
    ensures Writing(w, io).Some? && Writing(w, io).value.0 == k && Writing(w, io).value.1 > 0
  {
    assert SlotOk(w.books, k);
    hide Select, Accept, Receive, Stale, Sendable, Inv;
  }

  /** The half-sent message stays in its slot, and the cursor is right behind it. */
  lemma AfterPartial(w: World, io: Io)
    requires Inv(w) && Writing(w, io).Some?
    requires 0 < Writing(w, io).value.1 < |Unsent(w.books.slots[Writing(w, io).value.0])|
    requires Sendable(w.books.slots[Writing(w, io).value.0].submission.value)
    ensures
      var (after, i) := (Progress(w, io).0, Writing(w, io).value.0);
      && |after.books.slots| == |w.books.slots|
      && (forall k: nat :: k < |w.books.slots| && k != i ==> after.books.slots[k] == w.books.slots[k])
      && TokenOf(after.books, i) == TokenOf(w.books, i)
      && after.cursor > 0 && (after.cursor - 1) % |w.books.slots| == i
  {
    ProgressIs(w, io);
    SelectBusy(w);
    var (cursor, selected) := Select(w.books.slots, w.cursor, |w.books.slots|);
    var (moved, i) := (w.(cursor := cursor), selected.value);
    SameLink(w, moved);
    SendNextIs(w, io);
    SelectWhere(w.books.slots, w.cursor, |w.books.slots|);
    var n := TakenOf(moved, i, io.writing.count);
    PartialBooks(moved, i, io);
    assert PlaceOk(w.config, w.books, w.link, i) && SlotOk(w.books, i);
    TakeShape(w.books, i, n);
    hide *;
    SlotsElsewhere(w.books, Take(w.books, i, n), i);
  }

  lemma SlotsElsewhere(b: Books, after: Books, i: nat)
    requires i < |b.slots| && SameElsewhere(b, after, i)
    ensures |after.slots| == |b.slots|
    ensures forall k: nat :: k < |b.slots| && k != i ==> after.slots[k] == b.slots[k]
  {}

  lemma PartialBooks(w: World, i: nat, io: Io)
    requires Inv(w) && Busy(w.books, i) && !w.books.slots[i].data && Sendable(w.books.slots[i].submission.value)
    requires io.now < w.books.slots[i].deadline && io.writing.Sent?
    requires TakenOf(w, i, io.writing.count) < |Unsent(w.books.slots[i])|
    ensures
      var (after, n) := (Transmit(w, i, io).0, TakenOf(w, i, io.writing.count));
      after.books == Take(w.books, i, n) && after.cursor == w.cursor
  {
    RadioEffects.EndsWhenAllTaken(w, i, TakenOf(w, i, io.writing.count));
    assert PlaceOk(w.config, w.books, w.link, i);
    hide Inv, Take, AtEnd, Unsent, Sendable, Message, CursorsOk;
  }
}
