/** When a controller's transport opens, keeps and loses its connection, and which messages it accepts. */
module ClientService {
  import opened SpectrumTypes
  import opened ScatterGather
  import opened Submissions
  import opened ClientSteps
  import ControlSlots

  // ----- The connection -----

  /** The connection is down with everything that waited on it, and the next one may be tried
      100 ms from now. */
  ghost predicate Down(w: World, after: World, now: int) {
    && !after.connected && after.reconnect && after.retryAt == now + 100
    && (forall k: nat :: k < |after.books.slots| ==> !Busy(after.books, k))
    && (forall t :: Pending(w.books, t) ==> Completed(after.books, t, false))
  }

  lemma FailIsDown(w: World, now: int)
    requires Inv(w)
    ensures
      var after := Fail(w, now);
      && Down(w, after, now) && after.generation == w.generation
      && after == w.(connected := false, reconnect := true, retryAt := after.retryAt, books := after.books)
  {
    LossKeeps(w, now);
    var after := Fail(w, now);
    forall t | Pending(w.books, t) ensures Completed(after.books, t, false) {
      assert FailedSlot(w.books, after.books, 0, true, t.slot);
    }
    hide BooksOk, CursorsOk, FailFrom;
  }

  /** Without a connection, a step opens one if and only if admission is open, the association
      is committed and the pause is over, and the radio can be reached and its stream set up. */
  lemma ConnectionOpened(w: World, io: Io)
    requires Inv(w) && w.open && !w.connected
    ensures
      var (after, outcome) := Progress(w, io);
      var next := if w.generation == 0xffff_ffff_ffff_ffff then 0 else w.generation + 1;
      if !w.accepting || !w.associated || io.now < w.retryAt then
        after == w.(cursor := after.cursor) && outcome == Idle
      else if io.connecting.Unreachable? then
        after == w.(retryAt := io.now + 100) && outcome == Idle
      else if io.connecting.resets then
        after == w.(connected := true, reconnect := false, generation := next) && outcome == Worked
      else
        && Down(w, after, io.now) && outcome == Broken
        && after == w.(generation := next, retryAt := after.retryAt, books := after.books)
  {
    hide BooksOk, CursorsOk, Fail, Down, Transmit;
    NobodyWaits(w);
    assert w.reconnect;
    NothingSelected(w.books.slots, w.cursor, |w.books.slots|);
    var connected := w.(connected := true, reconnect := false, generation := ControlSlots.Increment(w.generation));
    FailedAtOnce(w, connected, io.now);
  }

  lemma {:induction false} NothingSelected(slots: seq<Slot>, cursor: nat, attempts: nat)
    requires slots != [] && forall i: nat :: i < |slots| ==> slots[i].submission.None?
    ensures Select(slots, cursor, attempts).1.None?
    decreases attempts
  {
    if attempts > 0 {
      NothingSelected(slots, cursor + 1, attempts - 1);
    }
  }

  lemma FailedAtOnce(w: World, connected: World, now: int)
    requires Inv(w) && !w.connected
    requires connected == w.(connected := true, reconnect := false, generation := connected.generation)
    ensures
      var after := Fail(connected, now);
      && Down(w, after, now)
      && after == w.(generation := connected.generation, retryAt := after.retryAt, books := after.books)
  {
    FailIsDown(w, now);
    assert Fail(connected, now) == Fail(w, now).(generation := connected.generation);
    assert w.reconnect;
    hide Inv, FailFrom;
  }

  /** Reading fails, or what was read cannot be passed on. */
  predicate ReadingBreaks(io: Io) {
    match io.receiving
    case NothingReceived => false
    case Received(fed) => fed.None?
    case _ => true
  }

  /** It is the turn of slot `i` to send. */
  predicate Turn(w: World, io: Io, i: nat) {
    && io.receiving.NothingReceived?
    && w.books.slots != [] && Select(w.books.slots, w.cursor, |w.books.slots|).1 == Some(i)
  }

  /** The message whose turn it is waited too long, or cannot be written. */
  predicate WritingBreaks(w: World, io: Io) {
    exists i: nat :: i < |w.books.slots| && Turn(w, io, i) && (io.now >= w.books.slots[i].deadline || io.writing.SendFailed?)
  }

  /** A connection stays up through a step if and only if reading and writing do not fail and no
      message is overdue; it stays the same one. What arrives is counted. */
  lemma ConnectionKept(w: World, io: Io)
    requires Inv(w) && w.open && w.connected
    ensures
      var after := Progress(w, io).0;
      && (after.connected <==> !ReadingBreaks(io) && !WritingBreaks(w, io))
      && after.generation == w.generation
      && (!after.connected ==> Down(w, after, io.now))
      && after.receivedPackets
         == w.receivedPackets + (if io.receiving.Received? && io.receiving.fed.Some? then io.receiving.fed.value else 0)
      && after.routeFailures
         == w.routeFailures + (if io.receiving.Received? && io.receiving.fed.None? then 1 else 0)
  {
    hide BooksOk, CursorsOk, Fail, Down, SendNext, Inv, Select;
    FailIsDown(w, io.now);
    FailedRoute(w, io.now);
    if io.receiving.NothingReceived? {
      SendingKept(w, io);
    }
    assert WritingBreaks(w, io) ==> io.receiving.NothingReceived?;
    assert !Reconnects(w, io.now) by { Connected(w); }
  }

  lemma Connected(w: World)
    requires Inv(w) && w.connected
    ensures !w.reconnect
  {}

  lemma FailedRoute(w: World, now: int)
    requires Inv(w)
    ensures
      var after := Fail(w.(routeFailures := w.routeFailures + 1), now);
      && Down(w, after, now) && after.generation == w.generation && !after.connected
      && after.receivedPackets == w.receivedPackets && after.routeFailures == w.routeFailures + 1
  {
    FailIsDown(w, now);
    assert Fail(w.(routeFailures := w.routeFailures + 1), now) == Fail(w, now).(routeFailures := w.routeFailures + 1);
    hide Inv, FailFrom;
  }

  lemma SendingKept(w: World, io: Io)
    requires Inv(w) && w.connected && io.receiving.NothingReceived?
    ensures
      var after := SendNext(w, io).0;
      && (after.connected <==> !WritingBreaks(w, io)) && after.generation == w.generation
      && (!after.connected ==> Down(w, after, io.now))
      && after.receivedPackets == w.receivedPackets && after.routeFailures == w.routeFailures
  {
    hide BooksOk, CursorsOk, Fail, Down, Inv, Take, Settle, AtEnd, TakenOf;
    CanStep(w);
    FailIsDown(w, io.now);
    var (cursor, selected) := Select(w.books.slots, w.cursor, |w.books.slots|);
    FailedMoved(w, cursor, io.now);
    hide Select;
    assert selected.Some? ==> Turn(w, io, selected.value);
  }

  lemma CanStep(w: World)
    requires Inv(w)
    ensures CursorsOk(w.books) && w.books.slots != []
  {}

  lemma FailedMoved(w: World, cursor: nat, now: int)
    requires Inv(w)
    ensures
      var after := Fail(w.(cursor := cursor), now);
      && Down(w, after, now) && after.generation == w.generation && !after.connected
      && after.receivedPackets == w.receivedPackets && after.routeFailures == w.routeFailures
  {
    FailIsDown(w, now);
    assert Fail(w.(cursor := cursor), now) == Fail(w, now).(cursor := cursor);
    hide Inv, FailFrom;
  }

  /** Asking for a new connection costs the present one, with every message on it. */
  lemma ReconnectAsked(w: World, now: int)
    requires Inv(w)
    ensures
      var after := RequestReconnect(w, now);
      if w.connected then Down(w, after, now) && after.generation == w.generation else after == w
  {
    FailIsDown(w, now);
    hide BooksOk, CursorsOk, Fail, Down;
  }

  /** A transport that was detached has nothing left waiting, and does nothing any more. */
  lemma DetachEnds(w: World, now: int, io: Io)
    requires Inv(w) && w.open
    ensures
      var after := Detach(w, now);
      && !after.open && Down(w, after, now) && Inv(after) && Progress(after, io) == (after, Idle)
  {
    LossKeeps(w.(open := false), now);
    FailIsDown(w, now);
    assert Fail(w.(open := false), now) == Fail(w, now).(open := false);
    hide BooksOk, CursorsOk, FailFrom;
  }

  // ----- Messages -----

  ghost predicate Room(w: World) {
    exists i: nat :: i < w.config.queueLimit && i < |w.books.slots| && w.books.slots[i].submission.None?
  }

  /** A message is accepted if and only if it meets every check; otherwise it is refused for the
      first one it does not meet. */
  ghost predicate Answered(w: World, offer: Offer, result: SendResult) {
    if !w.open || !w.connected || !w.associated || !offer.fromLocal || !offer.reserved then result == Rejected(InvalidState)
    else if offer.framing.None? then result == Rejected(BadFrame)
    else if !offer.framing.value.command || offer.framing.value.packetBytes > 2048 then result == Rejected(InvalidArgument)
    else if !Room(w) then result == Rejected(CapacityExhausted)
    else if !offer.queued then result == Rejected(NoCredit)
    else if !offer.counted then result == Rejected(BadCount)
    else result.Accepted?
  }

  /** It waits whole in the first free slot of the queue, until one time limit from now. */
  predicate Waiting(w: World, offer: Offer, now: int, after: World, t: Token) {
    && t.slot < w.config.queueLimit && t.slot < |w.books.slots| == |after.books.slots|
    && w.books.slots[t.slot].submission.None? && t.generation == w.books.slots[t.slot].generation
    && (forall k: nat :: k < t.slot ==> w.books.slots[k].submission.Some?)
    && (forall k: nat :: k < |w.books.slots| && k != t.slot ==> after.books.slots[k] == w.books.slots[k])
    && var slot := after.books.slots[t.slot];
    && slot.submission == Some(offer.segments) && slot.segment == 0 && slot.offset == 0
    && slot.generation == t.generation && slot.deadline == now + w.config.ioTimeout
  }

  lemma OfferOutcome(w: World, offer: Offer, now: int)
    requires Inv(w)
    ensures
      var (after, result) := Send(w, offer, now);
      && Answered(w, offer, result) && after == w.(books := after.books)
      && (if result.Accepted? then Waiting(w, offer, now, after, result.token) else after == w)
  {
    hide BooksOk, CursorsOk, FirstFree, Room, Waiting, Admit, PlaceOk;
    SlotFound(w);
    var r := FirstFree(w.books.slots, 0, w.config.queueLimit);
    if r.Some? {
      AdmittedWaits(w, offer, now, r.value);
    }
  }

  lemma SlotFound(w: World)
    requires |w.books.slots| == CLIENT_SLOTS && w.config.Valid()
    ensures
      var r := FirstFree(w.books.slots, 0, w.config.queueLimit);
      && (r.Some? <==> Room(w))
      && (r.Some? ==> !Busy(w.books, r.value) && forall k: nat :: k < r.value ==> w.books.slots[k].submission.Some?)
  {
    FirstFreeIs(w.books.slots, 0, w.config.queueLimit);
    hide FirstFree;
  }

  lemma AdmittedWaits(w: World, offer: Offer, now: int, i: nat)
    requires i < w.config.queueLimit && i < |w.books.slots| && !Busy(w.books, i)
    requires forall k: nat :: k < i ==> w.books.slots[k].submission.Some?
    ensures
      var after := w.(books := Admit(w.books, i, now + w.config.ioTimeout,
                                     Record(offer.segments, false, false, Some(w.generation))));
      Waiting(w, offer, now, after, TokenOf(w.books, i))
  {}

  /** What the socket takes in time are the next bytes of the message, as many as it is ready for. */
  lemma AttemptTakes(w: World, i: nat, io: Io)
    requires Inv(w) && Busy(w.books, i) && io.now < w.books.slots[i].deadline && io.writing.Sent?
    ensures
      var (after, t, rest) := (Transmit(w, i, io).0, TokenOf(w.books, i), Unsent(w.books.slots[i]));
      var n := if io.writing.count <= |rest| then io.writing.count else |rest|;
      TakenBy(after.books, t) == TakenBy(w.books, t) + rest[..n] && after == w.(books := after.books)
  {
    var n := TakenOf(w, i, io.writing.count);
    assert PlaceOk(w, i) && SlotOk(w.books, i);
    TakeShape(w.books, i, n);
    hide Inv, Message, Unsent, Take, AtEnd, SlotOk, SameElsewhere;
  }
}
