/** The order of the bytes a controller's transport puts on its stream. */
module ClientStream {
  import opened SpectrumTypes
  import opened ScatterGather
  import opened Submissions
  import opened ByteOrder
  import opened ClientSteps
  import opened ClientEffects

  predicate ReachesSending(w: World, io: Io) {
    w.open && !Reconnects(w, io.now) && (w.connected ==> Receive(w, io).1.Idle?)
  }

  /** The slot this step writes, and how many bytes the socket takes. */
  function Writing(w: World, io: Io): (r: Option<(nat, nat)>)
    requires Inv(w)
    ensures r.Some? ==> Busy(w.books, r.value.0) && r.value.1 <= |Unsent(w.books.slots[r.value.0])|
  {
    if !ReachesSending(w, io) || !w.connected || !io.writing.Sent? then None
    else
      var selected := Select(w.books.slots, w.cursor, |w.books.slots|).1;
      if selected.None? || io.now >= w.books.slots[selected.value].deadline then None
      else Some((selected.value, TakenOf(w, selected.value, io.writing.count)))
  }

  function WritingOp(w: World, op: Op): Option<(nat, nat)>
    requires Inv(w)
  {
    if op.Progresses? then Writing(w, op.io) else None
  }

  /** What went out on the present connection, whether a message was ever written into another
      or left with bytes behind, and the messages accepted on it. */
  datatype Traffic = Traffic(marks: seq<Mark>, mixed: bool, partial: bool, mine: set<Token>)

  const SILENCE := Traffic([], false, false, {})

  predicate HalfSent(w: World, tr: Traffic, u: Token) {
    u in tr.mine && 0 < |TakenBy(w.books, u)| < Size(w.books.ledger, u)
  }

  ghost predicate OtherHalfSent(w: World, tr: Traffic, t: Token) {
    exists u :: u != t && HalfSent(w, tr, u)
  }

  ghost function NextTraffic(w: World, tr: Traffic, op: Op): Traffic
    requires Inv(w)
  {
    var (after, r) := (Next(w, op), WritingOp(w, op));
    if after.generation != w.generation then SILENCE
    else
      var heard := tr.(mine := tr.mine + (after.books.ledger.accepted.Keys - w.books.ledger.accepted.Keys));
      if r.None? || r.value.1 == 0 then heard
      else
        var (i, n) := r.value;
        var t := TokenOf(w.books, i);
        heard.(marks := tr.marks + Marks(t, |TakenBy(w.books, t)|, n), mixed := tr.mixed || OtherHalfSent(w, tr, t),
               partial := tr.partial || n < |Unsent(w.books.slots[i])|)
  }

  ghost predicate TrafficOk(w: World, tr: Traffic) {
    && tr.mine <= w.books.ledger.accepted.Keys
    && (forall i: nat :: i < |w.books.slots| && w.books.slots[i].submission.Some? ==> TokenOf(w.books, i) in tr.mine)
    && (forall k: nat :: k < |tr.marks| ==> tr.marks[k].token in tr.mine)
    && (tr.mixed <==> !Intact(tr.marks, w.books.ledger))
    && (!tr.mixed ==> forall u :: HalfSent(w, tr, u) ==> tr.marks != [] && tr.marks[|tr.marks| - 1].token == u)
    && (!tr.mixed && tr.marks != [] ==>
          var last := tr.marks[|tr.marks| - 1];
          last.index + 1 == |TakenBy(w.books, last.token)|)
    && (!tr.partial ==> !tr.mixed && forall u :: !HalfSent(w, tr, u))
  }

  // ----- What a step writes -----

  predicate EntrySame(w: World, after: Books, u: Token)
    requires u in w.books.ledger.accepted
  {
    && u in after.ledger.accepted && after.ledger.accepted[u] == w.books.ledger.accepted[u]
    && TakenBy(after, u) == TakenBy(w.books, u)
  }

  /** No byte moves, and what waits waited before or is new. */
  ghost predicate NothingWritten(w: World, after: Books) {
    && (forall u :: u in w.books.ledger.accepted ==> EntrySame(w, after, u))
    && (forall u :: u in after.ledger.accepted && u !in w.books.ledger.accepted ==> TakenBy(after, u) == [])
    && (forall i: nat :: i < |after.slots| && after.slots[i].submission.Some? ==>
          (Busy(w.books, i) && TokenOf(after, i) == TokenOf(w.books, i))
          || (TokenOf(after, i) in after.ledger.accepted && TokenOf(after, i) !in w.books.ledger.accepted))
  }

  lemma SameWritesNothing(w: World)
    ensures NothingWritten(w, w.books)
  {}

  lemma FailWritesNothing(w: World)
    requires Inv(w)
    ensures NothingWritten(w, FailFrom(w.books, 0, true))
  {
    FailFromKeeps(w.books, 0, true);
    var after := FailFrom(w.books, 0, true);
    forall i: nat | i < |after.slots| ensures after.slots[i].submission.None? {
      assert FailedSlot(w.books, after, 0, true, i);
    }
    hide FailFrom, Inv, BooksOk;
  }

  /** A write: its token takes the next bytes, and nothing else changes. */
  ghost predicate Written(w: World, after: Books, i: nat, n: nat)
    requires Busy(w.books, i)
  {
    var t := TokenOf(w.books, i);
    && after.ledger.accepted == w.books.ledger.accepted
    && TakenBy(w.books, t) <= TakenBy(after, t) && |TakenBy(after, t)| == |TakenBy(w.books, t)| + n
    && (forall u :: u in w.books.ledger.accepted && u != t ==> TakenBy(after, u) == TakenBy(w.books, u))
    && (forall k: nat :: k < |after.slots| && after.slots[k].submission.Some? ==>
          Busy(w.books, k) && TokenOf(after, k) == TokenOf(w.books, k))
  }

  lemma AttemptWrites(w: World, i: nat, io: Io)
    requires Inv(w) && Busy(w.books, i) && io.now < w.books.slots[i].deadline && io.writing.Sent?
    ensures Written(w, Transmit(w, i, io).0.books, i, TakenOf(w, i, io.writing.count))
    ensures Transmit(w, i, io).0.generation == w.generation
  {
    var n := TakenOf(w, i, io.writing.count);
    assert SlotOk(w.books, i) && PlaceOk(w, i);
    TakeShape(w.books, i, n);
    var (sent, t) := (Take(w.books, i, n), TokenOf(w.books, i));
    assert TakenBy(sent, t) == TakenBy(w.books, t) + Unsent(w.books.slots[i])[..n];
    assert io.now < w.books.slots[i].deadline && w.connected;
    hide *;
    TakeWrites(w, sent, i, n);
    SettleWrites(w, sent, i, n);
    SentIs(w, i, io);
  }

  lemma TakeWrites(w: World, sent: Books, i: nat, n: nat)
    requires Busy(w.books, i) && SameElsewhere(w.books, sent, i) && TokenOf(sent, i) == TokenOf(w.books, i)
    requires sent.ledger.accepted == w.books.ledger.accepted && n <= |Unsent(w.books.slots[i])|
    requires TakenBy(sent, TokenOf(w.books, i)) == TakenBy(w.books, TokenOf(w.books, i)) + Unsent(w.books.slots[i])[..n]
    ensures Written(w, sent, i, n)
  {
    forall u | u in w.books.ledger.accepted && u != TokenOf(w.books, i) ensures TakenBy(sent, u) == TakenBy(w.books, u) {
      assert SameEntries(w.books.ledger, sent.ledger, u);
    }
    hide Unsent;
  }

  lemma SettleWrites(w: World, sent: Books, i: nat, n: nat)
    requires Busy(w.books, i) && Busy(sent, i) && Written(w, sent, i, n)
    ensures Written(w, Settle(sent, i, true), i, n)
  {}

  lemma SentIs(w: World, i: nat, io: Io)
    requires Busy(w.books, i) && CursorsOk(w.books) && w.connected
    requires io.now < w.books.slots[i].deadline && io.writing.Sent?
    ensures
      var (after, sent) := (Transmit(w, i, io).0, Take(w.books, i, TakenOf(w, i, io.writing.count)));
      after == w.(books := if AtEnd(sent.slots[i]) then Settle(sent, i, true) else sent)
  {
    hide Take, TakenOf, AtEnd, Settle;
  }

  lemma AttemptWritesNothing(w: World, i: nat, io: Io)
    requires Inv(w) && Busy(w.books, i) && (io.now >= w.books.slots[i].deadline || !io.writing.Sent?)
    ensures NothingWritten(w, Transmit(w, i, io).0.books)
  {
    hide NothingWritten, FailFrom, Inv;
    SameWritesNothing(w);
    FailWritesNothing(w);
  }

  lemma AdmitWritesNothing(w: World, offer: Offer, now: int)
    requires Inv(w)
    ensures NothingWritten(w, Send(w, offer, now).0.books)
  {
    var (after, result) := Send(w, offer, now);
    SendIs(w, offer, now);
    SameWritesNothing(w);
    if result.Accepted? {
      assert SlotOk(w.books, result.token.slot);
      hide *;
      NewWritesNothing(w, offer, result.token.slot, now + w.config.ioTimeout);
    }
    hide *;
  }

  lemma NewWritesNothing(w: World, offer: Offer, i: nat, deadline: int)
    requires i < |w.books.slots| && !Busy(w.books, i) && SlotOk(w.books, i)
    ensures NothingWritten(w, Admit(w.books, i, deadline, RecordOf(w, offer)))
  {}

  lemma MovedWritesNothing(w: World, cursor: nat, after: Books)
    ensures NothingWritten(w.(cursor := cursor), after) <==> NothingWritten(w, after)
  {
    var moved := w.(cursor := cursor);
    assert forall u :: u in w.books.ledger.accepted ==> (EntrySame(w, after, u) <==> EntrySame(moved, after, u));
  }

  lemma SendNextIs(w: World, io: Io)
    requires Inv(w)
    ensures
      var (cursor, selected) := Select(w.books.slots, w.cursor, |w.books.slots|);
      && (selected.Some? ==> SendNext(w, io) == Transmit(w.(cursor := cursor), selected.value, io))
      && (selected.None? ==> SendNext(w, io).0 == w.(cursor := cursor))
  {
    hide Transmit, Select;
  }

  lemma ProgressIs(w: World, io: Io)
    requires Inv(w)
    ensures
      var after := Progress(w, io).0;
      if ReachesSending(w, io) then after == SendNext(w, io).0
      else after.books == w.books || after.books == FailFrom(w.books, 0, true)
  {
    ReceiveIdle(w, io);
    hide SendNext, FailFrom, Inv;
  }

  lemma SendingWritesNothing(w: World, io: Io)
    requires Inv(w) && ReachesSending(w, io) && Writing(w, io).None?
    ensures NothingWritten(w, SendNext(w, io).0.books)
  {
    SameWritesNothing(w);
    SendNextIs(w, io);
    var (cursor, selected) := Select(w.books.slots, w.cursor, |w.books.slots|);
    if selected.Some? {
      var moved := w.(cursor := cursor);
      SameTable(w, moved);
      assert PlaceOk(w, selected.value);
      AttemptWritesNothing(moved, selected.value, io);
      MovedWritesNothing(w, cursor, Transmit(moved, selected.value, io).0.books);
    }
    hide Inv, Transmit, Select, NothingWritten, SendNext;
  }

  lemma StepWritesNothing(w: World, op: Op)
    requires Inv(w) && WritingOp(w, op).None?
    ensures NothingWritten(w, Next(w, op).books)
  {
    SameWritesNothing(w);
    FailWritesNothing(w);
    match op {
      case Sends(offer, now) => AdmitWritesNothing(w, offer, now);
      case Progresses(io) =>
        ProgressIs(w, io);
        if ReachesSending(w, io) {
          SendingWritesNothing(w, io);
        }
        hide NothingWritten, Inv, FailFrom, Progress, SendNext, Writing, ReachesSending;
      case _ => hide NothingWritten, Inv, FailFrom;
    }
  }

  lemma StepWrites(w: World, io: Io)
    requires Inv(w) && Writing(w, io).Some?
    ensures
      var (after, (i, n)) := (Progress(w, io).0, Writing(w, io).value);
      Written(w, after.books, i, n) && after.generation == w.generation
  {
    ProgressIs(w, io);
    SendNextIs(w, io);
    var (cursor, selected) := Select(w.books.slots, w.cursor, |w.books.slots|);
    var (moved, i) := (w.(cursor := cursor), selected.value);
    SameTable(w, moved);
    AttemptWrites(moved, i, io);
    MovedWritten(w, cursor, Transmit(moved, i, io).0.books, i, TakenOf(w, i, io.writing.count));
    hide Inv, Transmit, Select, SendNext, Progress, Written;
  }

  lemma MovedWritten(w: World, cursor: nat, after: Books, i: nat, n: nat)
    requires Busy(w.books, i)
    ensures Written(w.(cursor := cursor), after, i, n) <==> Written(w, after, i, n)
  {}

  // ----- Every step -----

  lemma QuietKeeps(w: World, after: World, tr: Traffic)
    requires TrafficOk(w, tr) && NothingWritten(w, after.books)
    ensures TrafficOk(after, tr.(mine := tr.mine + (after.books.ledger.accepted.Keys - w.books.ledger.accepted.Keys)))
  {
    var (before, ledger) := (w.books.ledger, after.books.ledger);
    var now := tr.(mine := tr.mine + (ledger.accepted.Keys - before.accepted.Keys));
    hide Message;
    forall u | u in before.accepted ensures u in ledger.accepted && Size(ledger, u) == Size(before, u) {
      assert EntrySame(w, after.books, u);
    }
    forall k: nat | k < |tr.marks| ensures Follows(tr.marks, k, before) <==> Follows(tr.marks, k, ledger) {
      assert tr.marks[k].token in before.accepted && (k > 0 ==> tr.marks[k - 1].token in before.accepted);
    }
    forall u | HalfSent(after, now, u) ensures HalfSent(w, tr, u) {
      if u in before.accepted {
        assert EntrySame(w, after.books, u);
      }
    }
    forall k: nat | k < |tr.marks| ensures TakenBy(after.books, tr.marks[k].token) == TakenBy(w.books, tr.marks[k].token) {
      assert EntrySame(w, after.books, tr.marks[k].token);
    }
  }

  lemma FreshKeeps(w: World)
    requires Inv(w) && forall i: nat :: !Busy(w.books, i)
    ensures TrafficOk(w, SILENCE)
  {
    forall i: nat | i < |w.books.slots| ensures w.books.slots[i].submission.None? {
      assert !Busy(w.books, i);
    }
    hide Message, BooksOk;
  }

  /** A message waits with the rest of its bytes. */
  lemma WaitsHere(w: World, i: nat)
    requires Inv(w) && Busy(w.books, i)
    ensures
      var t := TokenOf(w.books, i);
      t in w.books.ledger.accepted && |TakenBy(w.books, t)| + |Unsent(w.books.slots[i])| == Size(w.books.ledger, t)
  {
    assert SlotOk(w.books, i);
    var slot := w.books.slots[i];
    CursorSplits(slot.submission.value, slot.segment, slot.offset);
    hide Message;
  }

  lemma TakenWithin(w: World, u: Token)
    requires Inv(w) && u in w.books.ledger.accepted
    ensures |TakenBy(w.books, u)| <= Size(w.books.ledger, u)
  {
    assert TokenOk(w.books, u);
    hide BooksOk, Message;
  }

  lemma FirstFollows(w: World, tr: Traffic, t: Token, from: nat)
    requires Inv(w) && TrafficOk(w, tr) && t in tr.mine && from == |TakenBy(w.books, t)| < Size(w.books.ledger, t)
    ensures !tr.mixed ==>
      (Follows(tr.marks + [Mark(t, from)], |tr.marks|, w.books.ledger) <==> !OtherHalfSent(w, tr, t))
  {
    hide Message, Inv;
    if !tr.mixed {
      if from > 0 {
        assert HalfSent(w, tr, t);
      } else if tr.marks != [] {
        var last := tr.marks[|tr.marks| - 1];
        assert last.token in tr.mine;
        TakenWithin(w, last.token);
        if |TakenBy(w.books, last.token)| < Size(w.books.ledger, last.token) {
          assert HalfSent(w, tr, last.token);
        }
      }
    }
  }

  /** More bytes keep the stream in one piece exactly when no other message is half-sent. */
  lemma FollowsExactly(w: World, tr: Traffic, i: nat, n: nat)
    requires Inv(w) && TrafficOk(w, tr) && Busy(w.books, i) && 0 < n <= |Unsent(w.books.slots[i])|
    ensures
      var t := TokenOf(w.books, i);
      Intact(tr.marks + Marks(t, |TakenBy(w.books, t)|, n), w.books.ledger) <==> !tr.mixed && !OtherHalfSent(w, tr, t)
  {
    var t := TokenOf(w.books, i);
    WaitsHere(w, i);
    assert t in tr.mine;
    hide Inv, Message, Unsent, TrafficOk;
    PrefixFollows(tr.marks, t, |TakenBy(w.books, t)|, n, w.books.ledger);
    FirstFollows(w, tr, t, |TakenBy(w.books, t)|);
    assert tr.mixed <==> !Intact(tr.marks, w.books.ledger) by { MixedMeans(w, tr); }
  }

  lemma MixedMeans(w: World, tr: Traffic)
    requires TrafficOk(w, tr)
    ensures tr.mixed <==> !Intact(tr.marks, w.books.ledger)
  {
    hide Intact;
  }

  lemma WriteKeeps(w: World, after: World, tr: Traffic, i: nat, n: nat)
    requires Inv(w) && TrafficOk(w, tr) && Busy(w.books, i) && 0 < n <= |Unsent(w.books.slots[i])|
    requires Written(w, after.books, i, n)
    ensures
      var t := TokenOf(w.books, i);
      TrafficOk(after, Traffic(tr.marks + Marks(t, |TakenBy(w.books, t)|, n), tr.mixed || OtherHalfSent(w, tr, t),
                               tr.partial || n < |Unsent(w.books.slots[i])|, tr.mine))
  {
    hide Inv, Follows, Size, Message, Unsent, Intact, HalfSent, TakenBy, Marks;
    var (t, from) := (TokenOf(w.books, i), |TakenBy(w.books, TokenOf(w.books, i))|);
    var marks := tr.marks + Marks(t, from, n);
    var now := Traffic(marks, tr.mixed || OtherHalfSent(w, tr, t), tr.partial || n < |Unsent(w.books.slots[i])|, tr.mine);
    WaitsHere(w, i);
    FollowsExactly(w, tr, i, n);
    SameSizes(marks, w.books.ledger, after.books.ledger);
    HalfSentAfter(w, after, tr, now, i, n);
    MarksAre(t, from, n);
    assert marks[|marks| - 1] == Mark(t, from + n - 1);
    forall k: nat | k < |marks| ensures marks[k].token in tr.mine {
      assert k < |tr.marks| ==> tr.marks[k].token in tr.mine;
    }
  }

  /** Only the message that was written can be newly half-sent, and only with bytes left. */
  lemma HalfSentAfter(w: World, after: World, tr: Traffic, now: Traffic, i: nat, n: nat)
    requires Busy(w.books, i) && Written(w, after.books, i, n) && now.mine == tr.mine <= w.books.ledger.accepted.Keys
    requires |TakenBy(w.books, TokenOf(w.books, i))| + |Unsent(w.books.slots[i])| == Size(w.books.ledger, TokenOf(w.books, i))
    ensures
      var t := TokenOf(w.books, i);
      && |TakenBy(after.books, t)| == |TakenBy(w.books, t)| + n
      && forall u :: HalfSent(after, now, u) ==> if u == t then n < |Unsent(w.books.slots[i])| else HalfSent(w, tr, u)
  {
    hide Message, Unsent;
  }

  lemma StepGeneration(w: World, op: Op)
    requires Inv(w)
    ensures Next(w, op).generation != w.generation ==> forall i: nat :: !Busy(Next(w, op).books, i)
  {
    NextKeeps(w, op);
    if op.Progresses? {
      SendNextNumber(w, op.io);
      NobodyWaitsUnlessUp(w);
      if w.open && Reconnects(w, op.io.now) {
        ConnectFrees(w, op.io);
      }
      hide SendNext, Inv, Connect, FailFrom;
    } else {
      hide Inv, FailFrom, Admit, FirstFree;
    }
  }

  lemma NobodyWaitsUnlessUp(w: World)
    requires Inv(w)
    ensures !w.connected ==> forall i: nat :: !Busy(w.books, i)
  {
    if !w.connected {
      NobodyWaits(w);
    }
  }

  lemma ConnectFrees(w: World, io: Io)
    requires Inv(w) && w.reconnect
    ensures forall i: nat :: !Busy(Connect(w, io).0.books, i)
  {
    hide BooksOk, CursorsOk, FailFrom;
    NobodyWaits(w);
    LossKeeps(w.(connected := true, reconnect := false, generation := Connect(w, io).0.generation), io.now);
  }

  /** A step that writes. */
  lemma OpWrites(w: World, op: Op)
    requires Inv(w) && WritingOp(w, op).Some?
    ensures
      var (after, (i, n)) := (Next(w, op), WritingOp(w, op).value);
      && Busy(w.books, i) && n <= |Unsent(w.books.slots[i])| && Written(w, after.books, i, n)
      && after.generation == w.generation && after.books.ledger.accepted == w.books.ledger.accepted
  {
    StepWrites(w, op.io);
    hide Inv, Progress, Writing, Unsent, TakenBy;
  }

  /** The traffic of a step, case by case. */
  lemma NextTrafficIs(w: World, tr: Traffic, op: Op)
    requires Inv(w)
    ensures
      var (after, r, now) := (Next(w, op), WritingOp(w, op), NextTraffic(w, tr, op));
      var heard := tr.(mine := tr.mine + (after.books.ledger.accepted.Keys - w.books.ledger.accepted.Keys));
      && (after.generation != w.generation ==> now == SILENCE)
      && (after.generation == w.generation && (r.None? || r.value.1 == 0) ==> now == heard)
      && (after.generation == w.generation && r.Some? && r.value.1 > 0 ==>
            && after.books.ledger.accepted == w.books.ledger.accepted && Busy(w.books, r.value.0)
            && var ((i, n), t) := (r.value, TokenOf(w.books, r.value.0));
               now == Traffic(tr.marks + Marks(t, |TakenBy(w.books, t)|, n), tr.mixed || OtherHalfSent(w, tr, t),
                              tr.partial || n < |Unsent(w.books.slots[i])|, tr.mine))
  {
    if WritingOp(w, op).Some? {
      OpWrites(w, op);
    }
    hide Inv, Next, WritingOp, Written, Unsent, TakenBy, Marks, OtherHalfSent;
  }

  lemma CanStep(w: World)
    requires Inv(w)
    ensures CursorsOk(w.books) && |w.books.slots| == CLIENT_SLOTS && w.config.Valid()
  {}

  lemma TrafficKeeps(w: World, tr: Traffic, op: Op)
    requires Inv(w) && TrafficOk(w, tr)
    ensures TrafficOk(Next(w, op), NextTraffic(w, tr, op))
  {
    hide *;
    CanStep(w);
    NextKeeps(w, op);
    StepGeneration(w, op);
    NextTrafficIs(w, tr, op);
    var after := Next(w, op);
    if after.generation != w.generation {
      FreshKeeps(after);
    } else if WritingOp(w, op).Some? {
      OpWrites(w, op);
      var (i, n) := WritingOp(w, op).value;
      if n > 0 {
        WriteKeeps(w, after, tr, i, n);
      } else {
        NoBytes(w, after.books, i);
        QuietKeeps(w, after, tr);
      }
    } else {
      StepWritesNothing(w, op);
      QuietKeeps(w, after, tr);
    }
  }

  lemma NoBytes(w: World, after: Books, i: nat)
    requires Busy(w.books, i) && Written(w, after, i, 0)
    ensures NothingWritten(w, after)
  {}

  // ----- Every run -----

  /** What went out on the present connection. */
  ghost function Sent(config: Config, ops: seq<Op>): Traffic
    requires config.Valid()
  {
    if ops == [] then SILENCE
    else NextTraffic(Run(config, ops[..|ops| - 1]), Sent(config, ops[..|ops| - 1]), ops[|ops| - 1])
  }

  lemma {:induction false} RunTraffic(config: Config, ops: seq<Op>)
    requires config.Valid()
    ensures TrafficOk(Run(config, ops), Sent(config, ops))
  {
    if ops == [] {
      FreshKeeps(Run(config, ops));
      hide TrafficOk, Inv;
    } else {
      var before := ops[..|ops| - 1];
      RunTraffic(config, before);
      TrafficKeeps(Run(config, before), Sent(config, before), ops[|ops| - 1]);
      hide TrafficOk, Next, NextTraffic, Inv;
    }
  }

  /** In every run the controller's messages on the present connection are in one piece, except
      perhaps the last one so far, if and only if none was written while another one was
      half-sent; and so they are as long as no write left bytes behind. */
  lemma ClientStreamIntact(config: Config, ops: seq<Op>)
    requires config.Valid()
    ensures Intact(Sent(config, ops).marks, Run(config, ops).books.ledger) <==> !Sent(config, ops).mixed
    ensures !Sent(config, ops).partial ==> Intact(Sent(config, ops).marks, Run(config, ops).books.ledger)
  {
    RunTraffic(config, ops);
    hide Run, Sent, Intact;
  }
}
