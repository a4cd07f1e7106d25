/** What each step of a controller's transport does, and what every step keeps. */
module ClientSteps {
  import opened SpectrumTypes
  import opened ScatterGather
  import opened Submissions
  import ControlSlots

  const CLIENT_SLOTS := 64
  const RETRY_DELAY := 100

  datatype Config = Config(queueLimit: nat, ioTimeout: nat) {
    predicate Valid() {
      0 < queueLimit <= CLIENT_SLOTS && 0 < ioTimeout
    }
  }

  datatype Connecting = Unreachable | Reached(resets: bool)

  datatype Receiving = Closed | NothingReceived | ReceiveFailed | Received(fed: Option<nat>)

  datatype Writing = Sent(count: nat) | Retry | SendFailed

  datatype Io = Io(now: int, connecting: Connecting, receiving: Receiving, writing: Writing)

  datatype Framing = Framing(command: bool, packetBytes: nat)

  datatype Offer = Offer(
    segments: Segments, fromLocal: bool, reserved: bool, framing: Option<Framing>, queued: bool, counted: bool)

  datatype Reject = InvalidState | BadFrame | InvalidArgument | CapacityExhausted | NoCredit | BadCount

  datatype SendResult = Accepted(token: Token) | Rejected(error: Reject)

  datatype Outcome = Idle | Worked | Broken

  datatype World = World(
    config: Config, books: Books, connected: bool, generation: u64, retryAt: int, cursor: nat,
    receivedPackets: nat, routeFailures: nat, open: bool, accepting: bool, reconnect: bool, associated: bool)

  function Fresh(config: Config): World {
    World(config, Books(seq(CLIENT_SLOTS, i => FREE_SLOT), NO_ENTRIES, 0, 0), false, 0, 0, 0, 0, 0, true, true, true, false)
  }

  /** The connection is gone, and every submission with it. */
  function Fail(w: World, now: int): World {
    w.(connected := false, books := FailFrom(w.books, 0, true), reconnect := true, retryAt := now + RETRY_DELAY)
  }

  function Receive(w: World, io: Io): (World, Outcome) {
    match io.receiving
    case NothingReceived => (w, Idle)
    case Received(fed) =>
      if fed.None? then (Fail(w.(routeFailures := w.routeFailures + 1), io.now), Worked)
      else (w.(receivedPackets := w.receivedPackets + fed.value), Worked)
    case _ => (Fail(w, io.now), Worked)
  }

  /** The socket takes at most what it is offered, here all that is left. */
  function TakenOf(w: World, i: nat, count: nat): (n: nat)
    requires Busy(w.books, i)
    ensures n <= |Unsent(w.books.slots[i])|
  {
    if count <= |Unsent(w.books.slots[i])| then count else |Unsent(w.books.slots[i])|
  }

  function Transmit(w: World, i: nat, io: Io): (World, Outcome)
    requires Busy(w.books, i) && CursorsOk(w.books)
  {
    if io.now >= w.books.slots[i].deadline || !w.connected then (Fail(w, io.now), Worked)
    else match io.writing {
      case Retry => (w, Idle)
      case SendFailed => (Fail(w, io.now), Worked)
      case Sent(count) =>
        var sent := Take(w.books, i, TakenOf(w, i, count));
        (w.(books := if AtEnd(sent.slots[i]) then Settle(sent, i, true) else sent), Worked)
    }
  }

  function SendNext(w: World, io: Io): (World, Outcome)
    requires CursorsOk(w.books) && w.books.slots != []
  {
    var (cursor, selected) := Select(w.books.slots, w.cursor, |w.books.slots|);
    var moved := w.(cursor := cursor);
    if selected.None? then (moved, Idle) else Transmit(moved, selected.value, io)
  }

  predicate Reconnects(w: World, now: int) {
    w.reconnect && w.accepting && now >= w.retryAt && w.associated
  }

  function Connect(w: World, io: Io): (World, Outcome) {
    if io.connecting.Unreachable? then (w.(retryAt := io.now + RETRY_DELAY), Idle)
    else
      var connected := w.(connected := true, reconnect := false, generation := ControlSlots.Increment(w.generation));
      if !io.connecting.resets then (Fail(connected, io.now), Broken) else (connected, Worked)
  }

  function Progress(w: World, io: Io): (World, Outcome)
    requires CursorsOk(w.books) && w.books.slots != []
  {
    if !w.open then (w, Idle)
    else if Reconnects(w, io.now) then Connect(w, io)
    else
      var (received, r) := if w.connected then Receive(w, io) else (w, Idle);
      if !r.Idle? then (received, r) else SendNext(w, io)
  }

  function Send(w: World, offer: Offer, now: int): (World, SendResult)
    requires |w.books.slots| == CLIENT_SLOTS && w.config.Valid()
  {
    if !w.open || !w.connected || !w.associated || !offer.fromLocal || !offer.reserved then (w, Rejected(InvalidState))
    else if offer.framing.None? then (w, Rejected(BadFrame))
    else if !offer.framing.value.command || offer.framing.value.packetBytes > 2048 then (w, Rejected(InvalidArgument))
    else
      var selected := FirstFree(w.books.slots, 0, w.config.queueLimit);
      if selected.None? then (w, Rejected(CapacityExhausted))
      else if !offer.queued then (w, Rejected(NoCredit))
      else if !offer.counted then (w, Rejected(BadCount))
      else
        (w.(books := Admit(w.books, selected.value, now + w.config.ioTimeout,
                           Record(offer.segments, false, false, Some(w.generation)))),
         Accepted(TokenOf(w.books, selected.value)))
  }

  function RequestReconnect(w: World, now: int): World {
    if w.connected then Fail(w, now) else w.(reconnect := true)
  }

  function Detach(w: World, now: int): World {
    if !w.open then w else Fail(w.(open := false), now)
  }

  datatype Op =
    | Sends(offer: Offer, now: int)
    | Progresses(io: Io)
    | Associates(matches: bool, commit: bool)
    | ClosesAdmission
    | AsksReconnect(now: int)
    | Detaches(now: int)

  function Next(w: World, op: Op): World
    requires CursorsOk(w.books) && |w.books.slots| == CLIENT_SLOTS && w.config.Valid()
  {
    match op
    case Sends(offer, now) => Send(w, offer, now).0
    case Progresses(io) => Progress(w, io).0
    case Associates(matches, commit) => if matches && commit then w.(associated := true) else w
    case ClosesAdmission => w.(accepting := false)
    case AsksReconnect(now) => RequestReconnect(w, now)
    case Detaches(now) => Detach(w, now)
  }

  // ----- What every step keeps -----

  /** A submission waits in the slots this queue may use, for the present connection. */
  predicate PlaceOk(w: World, i: nat)
    requires i < |w.books.slots|
  {
    w.books.slots[i].submission.Some? ==>
      var t := TokenOf(w.books, i);
      && i < w.config.queueLimit && w.connected
      && t in w.books.ledger.accepted && w.books.ledger.accepted[t].connection == Some(w.generation)
  }

  ghost predicate Inv(w: World) {
    && w.config.Valid() && |w.books.slots| == CLIENT_SLOTS
    && BooksOk(w.books) && CursorsOk(w.books)
    && (forall i: nat :: i < |w.books.slots| ==> PlaceOk(w, i))
    && (w.connected <==> !w.reconnect)
    && (!w.open ==> !w.connected)
  }

  lemma FreshInv(config: Config)
    requires config.Valid()
    ensures Inv(Fresh(config))
  {
    EmptyBooksOk(CLIENT_SLOTS);
  }

  /** Losing the connection leaves no submission behind. */
  lemma LossKeeps(w: World, now: int)
    requires w.config.Valid() && |w.books.slots| == CLIENT_SLOTS && BooksOk(w.books)
    ensures
      var after := Fail(w, now);
      && Inv(after) && Failed(w.books, after.books, 0, true)
      && (forall i: nat :: i < CLIENT_SLOTS ==> after.books.slots[i].submission.None?)
  {
    var after := Fail(w, now);
    FailFromKeeps(w.books, 0, true);
    BooksGiveCursors(after.books);
    hide BooksOk, CursorsOk, FailFrom;
    forall i: nat | i < CLIENT_SLOTS ensures after.books.slots[i].submission.None? {
      assert FailedSlot(w.books, after.books, 0, true, i);
    }
  }

  lemma NobodyWaits(w: World)
    requires Inv(w) && !w.connected
    ensures forall i: nat :: i < CLIENT_SLOTS ==> w.books.slots[i].submission.None?
  {
    forall i: nat | i < CLIENT_SLOTS ensures w.books.slots[i].submission.None? {
      assert PlaceOk(w, i);
    }
  }

  lemma SameTable(w: World, after: World)
    requires Inv(w) && after.config == w.config && after.books == w.books
    requires after.connected == w.connected && after.generation == w.generation
    requires after.reconnect == w.reconnect && after.open == w.open
    ensures Inv(after)
  {
    hide BooksOk, CursorsOk;
    forall i: nat | i < CLIENT_SLOTS ensures PlaceOk(after, i) {
      assert PlaceOk(w, i);
    }
  }

  lemma ConnectKeeps(w: World, io: Io)
    requires Inv(w) && w.open && w.reconnect
    ensures Inv(Connect(w, io).0)
  {
    NobodyWaits(w);
    if io.connecting.Reached? {
      var connected := w.(connected := true, reconnect := false, generation := ControlSlots.Increment(w.generation));
      LossKeeps(connected, io.now);
    }
    hide BooksOk, CursorsOk, Fail;
  }

  lemma ReceiveKeeps(w: World, io: Io)
    requires Inv(w)
    ensures Inv(Receive(w, io).0)
  {
    LossKeeps(w, io.now);
    LossKeeps(w.(routeFailures := w.routeFailures + 1), io.now);
    hide Fail;
    if io.receiving.Received? && io.receiving.fed.Some? {
      SameTable(w, Receive(w, io).0);
    }
    hide Inv;
  }

  /** A change to one slot leaves the others in place. */
  lemma OthersInPlace(w: World, after: World, i: nat)
    requires Inv(w) && i < CLIENT_SLOTS && SameElsewhere(w.books, after.books, i)
    requires after == w.(books := after.books) && PlaceOk(after, i) && BooksOk(after.books)
    ensures Inv(after)
  {
    BooksGiveCursors(after.books);
    hide BooksOk, CursorsOk;
    forall k: nat | k < CLIENT_SLOTS ensures PlaceOk(after, k) {
      assert PlaceOk(w, k);
      if k != i {
        assert SameEntries(w.books.ledger, after.books.ledger, TokenOf(w.books, k));
      }
    }
  }

  lemma TransmitKeeps(w: World, i: nat, io: Io)
    requires Inv(w) && Busy(w.books, i)
    ensures Inv(Transmit(w, i, io).0)
  {
    LossKeeps(w, io.now);
    if io.writing.Sent? {
      var n := TakenOf(w, i, io.writing.count);
      var sent := Take(w.books, i, n);
      TakeKeeps(w.books, i, n);
      FinishKeeps(w.books, i, n);
      TakeShape(w.books, i, n);
      assert PlaceOk(w, i);
      hide SlotOk, TokenOk, Take, Fail, TakenOf;
      if AtEnd(sent.slots[i]) {
        var closed := Settle(sent, i, true);
        ClosedShape(w.books, sent, i);
        OthersInPlace(w, w.(books := closed), i);
      } else {
        OthersInPlace(w, w.(books := sent), i);
      }
      hide Inv, Settle, AtEnd;
    }
  }

  lemma ClosedShape(b: Books, sent: Books, i: nat)
    requires i < |b.slots| && Busy(sent, i) && SameElsewhere(b, sent, i) && TokenOf(sent, i) == TokenOf(b, i)
    ensures SameElsewhere(b, Settle(sent, i, true), i) && Settle(sent, i, true).slots[i].submission.None?
  {
    forall u | u != TokenOf(b, i) ensures SameEntries(b.ledger, Settle(sent, i, true).ledger, u) {
      assert SameEntries(b.ledger, sent.ledger, u);
    }
  }

  lemma ProgressKeeps(w: World, io: Io)
    requires Inv(w)
    ensures Inv(Progress(w, io).0)
  {
    if w.open && Reconnects(w, io.now) {
      ConnectKeeps(w, io);
    } else if w.open {
      ReceiveKeeps(w, io);
      ReceiveIdle(w, io);
      var (cursor, selected) := Select(w.books.slots, w.cursor, |w.books.slots|);
      var moved := w.(cursor := cursor);
      SameTable(w, moved);
      if selected.Some? {
        TransmitKeeps(moved, selected.value, io);
      }
      hide Inv, Receive, Transmit, Select, Connect;
    }
  }

  lemma ReceiveIdle(w: World, io: Io)
    ensures Receive(w, io).1.Idle? ==> Receive(w, io).0 == w
  {}

  lemma SendKeeps(w: World, offer: Offer, now: int)
    requires Inv(w)
    ensures Inv(Send(w, offer, now).0)
  {
    var (after, result) := Send(w, offer, now);
    SendIs(w, offer, now);
    hide Send, BooksOk, CursorsOk, PlaceOk, Admit, SameElsewhere;
    if result.Accepted? {
      var (i, deadline) := (result.token.slot, now + w.config.ioTimeout);
      AdmitKeeps(w.books, i, deadline, RecordOf(w, offer));
      AdmittedPlace(w, offer, i, deadline);
      OthersInPlace(w, after, i);
    }
  }

  function RecordOf(w: World, offer: Offer): Record {
    Record(offer.segments, false, false, Some(w.generation))
  }

  /** An accepted offer is admitted to a free slot; a refused one changes nothing. */
  lemma SendIs(w: World, offer: Offer, now: int)
    requires Inv(w)
    ensures
      var (after, result) := Send(w, offer, now);
      match result
      case Rejected(_) => after == w
      case Accepted(t) =>
        && w.connected && t.slot < w.config.queueLimit <= CLIENT_SLOTS && t.slot < |w.books.slots| && !Busy(w.books, t.slot)
        && after == w.(books := Admit(w.books, t.slot, now + w.config.ioTimeout, RecordOf(w, offer)))
  {
    hide Admit, BooksOk, CursorsOk, PlaceOk;
  }

  lemma AdmittedPlace(w: World, offer: Offer, i: nat, deadline: int)
    requires i < |w.books.slots| && !Busy(w.books, i) && i < w.config.queueLimit && w.connected
    ensures
      var after := Admit(w.books, i, deadline, RecordOf(w, offer));
      SameElsewhere(w.books, after, i) && PlaceOk(w.(books := after), i)
  {}

  lemma NextKeeps(w: World, op: Op)
    requires Inv(w)
    ensures Inv(Next(w, op))
  {
    match op {
      case Sends(offer, now) => SendKeeps(w, offer, now);
      case Progresses(io) => ProgressKeeps(w, io);
      case AsksReconnect(now) => LossKeeps(w, now); NobodyWaitsUnless(w);
      case Detaches(now) => LossKeeps(w.(open := false), now);
      case _ => SameTable(w, Next(w, op));
    }
  }

  lemma NobodyWaitsUnless(w: World)
    requires Inv(w)
    ensures !w.connected ==> Inv(w.(reconnect := true))
  {
    if !w.connected {
      SameTable(w, w.(reconnect := true));
    }
  }

  // ----- Every run -----

  lemma SameConfig(w: World, op: Op)
    requires Inv(w)
    ensures Next(w, op).config == w.config
  {
    match op {
      case Sends(offer, now) => SendIs(w, offer, now);
      case Progresses(io) => ProgressConfig(w, io);
      case _ =>
    }
    hide Inv, Send, Progress, FailFrom, Admit, Busy;
  }

  lemma ProgressConfig(w: World, io: Io)
    requires Inv(w)
    ensures Progress(w, io).0.config == w.config
  {
    hide Inv, Settle, Take, FailFrom, AtEnd, Select;
  }

  ghost function Run(config: Config, ops: seq<Op>): (w: World)
    requires config.Valid()
    ensures Inv(w) && w.config == config
  {
    FreshInv(config);
    if ops == [] then Fresh(config)
    else
      var before := Run(config, ops[..|ops| - 1]);
      NextKeeps(before, ops[|ops| - 1]);
      SameConfig(before, ops[|ops| - 1]);
      hide *;
      Next(before, ops[|ops| - 1])
  }

  /** In every run the controller's submissions are accounted for, and whatever still waits
      belongs to the connection that is open now. */
  lemma ClientConserves(config: Config, ops: seq<Op>)
    requires config.Valid()
    ensures
      var w := Run(config, ops);
      var b := w.books;
      && (forall t :: Pending(b, t) <==> t in b.ledger.accepted && t !in b.ledger.completed)
      && |b.ledger.accepted| == b.successes + b.failures + |set t | t in b.ledger.accepted && Pending(b, t)|
      && (forall t :: Pending(b, t) ==>
            t.slot < config.queueLimit && w.connected && b.ledger.accepted[t].connection == Some(w.generation))
  {
    var w := Run(config, ops);
    BooksBalance(w.books);
    forall t | Pending(w.books, t)
      ensures t in w.books.ledger.accepted && t.slot < config.queueLimit && w.connected
      ensures w.books.ledger.accepted[t].connection == Some(w.generation)
    {
      assert PlaceOk(w, t.slot);
    }
  }

  /** The bytes taken for a controller's message are a prefix of it, the cursor counts
      them, and the message succeeds exactly when they are all of it. */
  lemma ClientDelivers(config: Config, ops: seq<Op>, t: Token)
    requires config.Valid() && t in Run(config, ops).books.ledger.accepted
    ensures
      var b := Run(config, ops).books;
      var segments := b.ledger.accepted[t].segments;
      && TakenBy(b, t) <= Message(segments)
      && (Pending(b, t) ==>
            var slot := b.slots[t.slot];
            && CursorOk(segments, slot.segment, slot.offset)
            && TakenBy(b, t) == Before(segments, slot.segment, slot.offset))
      && (Sendable(segments) ==>
            (t in b.ledger.completed && b.ledger.completed[t] <==> TakenBy(b, t) == Message(segments)))
  {
    var b := Run(config, ops).books;
    DeliveryExact(b, t);
    BooksBalance(b);
    hide BooksOk, SlotOk, TokenOk, Sendable, Message, Before, CursorOk, Run;
  }
}
