/** What each step of the radio's transport does to the submission and the connection it is about. */
module RadioEffects {
  import opened SpectrumTypes
  import opened ScatterGather
  import opened Submissions
  import opened RadioSteps
  import opened RadioSafety
  import opened RadioTheorems

  /** How many bytes the socket takes in this attempt. */
  function TakenIn(w: World, i: nat, io: Io): (n: nat)
    requires Busy(w.books, i)
    ensures n <= |Unsent(w.books.slots[i])|
  {
    if io.writing.Sent? && io.now < w.books.slots[i].deadline then TakenOf(w, i, io.writing.count) else 0
  }

  /** An attempt to send completes a message successfully exactly when the socket takes all
      that was left of it in time, and unsuccessfully exactly when the time is over, the
      socket fails, or a datagram goes out short. Otherwise it stays pending. */
  lemma AttemptOutcome(w: World, i: nat, io: Io)
    requires Inv(w) && Busy(w.books, i) && Sendable(w.books.slots[i].submission.value)
    ensures
      var (after, t, slot) := (Transmit(w, i, io).0.books, TokenOf(w.books, i), w.books.slots[i]);
      var (expired, n) := (io.now >= slot.deadline, TakenIn(w, i, io));
      && (Completed(after, t, true) <==> !expired && io.writing.Sent? && n == |Unsent(slot)|)
      && (Completed(after, t, false) <==>
            expired || io.writing.SendFailed? || (io.writing.Sent? && slot.data && n < |Unsent(slot)|))
      && TakenBy(after, t) == TakenBy(w.books, t) + Unsent(slot)[..n]
      && Transmit(w, i, io).0.metrics.transmittedBytes == w.metrics.transmittedBytes + n
  {
    var slot := w.books.slots[i];
    assert PlaceOk(w.config, w.books, w.link, i) && SlotOk(w.books, i);
    assert Unsent(slot)[..0] == [] && TakenBy(w.books, TokenOf(w.books, i)) + [] == TakenBy(w.books, TokenOf(w.books, i));
    assert slot.data || w.link.connected;
    if io.now >= slot.deadline || io.writing.SendFailed? {
      FailedAttempt(w, i, io);
    } else if io.writing.Sent? {
      SentAttempt(w, i, io);
    }
    hide *;
    RetriedAttempt(w, i, io);
  }

  /** The socket takes what it is ready to take, within the rest of the message and, for a
      control message, the limit of one write. An attempt counts as a retry when the socket
      was not ready, and as a partial write when bytes of a control message are left. */
  lemma AttemptCounted(w: World, i: nat, io: Io)
    requires Inv(w) && Busy(w.books, i) && Sendable(w.books.slots[i].submission.value) && io.now < w.books.slots[i].deadline
    ensures
      var (m, slot) := (Transmit(w, i, io).0.metrics, w.books.slots[i]);
      var (left, limit) := (|Unsent(slot)|, w.config.maximumTcpWrite);
      var offered := if !slot.data && 0 < limit < left then limit else left;
      match io.writing
      case Retry => m == w.metrics.(writeRetries := w.metrics.writeRetries + 1)
      case SendFailed => m == w.metrics
      case Sent(count) =>
        var n := if count <= offered then count else offered;
        && TakenIn(w, i, io) == n
        && m == w.metrics.(transmittedBytes := w.metrics.transmittedBytes + n,
                           partialWrites := w.metrics.partialWrites + (if !slot.data && n < left then 1 else 0))
  {
    assert PlaceOk(w.config, w.books, w.link, i);
    assert w.books.slots[i].data || w.link.connected;
    if io.writing.Sent? {
      EndsWhenAllTaken(w, i, TakenOf(w, i, io.writing.count));
      DeliveredCounts(w, i, TakenOf(w, i, io.writing.count), io.now);
    }
    hide Inv, Message, Unsent, FailFrom, Take, Settle, AtEnd, Deliver, Sendable;
  }

  lemma DeliveredCounts(w: World, i: nat, n: nat, now: int)
    requires Busy(w.books, i) && CursorsOk(w.books) && n <= |Unsent(w.books.slots[i])|
    requires CursorOk(w.books.slots[i].submission.value, w.books.slots[i].segment, w.books.slots[i].offset)
    requires AtEnd(Take(w.books, i, n).slots[i]) <==> n == |Unsent(w.books.slots[i])|
    requires w.books.slots[i].data ==> |Unsent(w.books.slots[i])| == |Message(w.books.slots[i].submission.value)|
    ensures
      Deliver(w, i, n, now).metrics
      == w.metrics.(transmittedBytes := w.metrics.transmittedBytes + n,
                    partialWrites := w.metrics.partialWrites + (if !w.books.slots[i].data && n < |Unsent(w.books.slots[i])| then 1 else 0))
  {
    TakeShape(w.books, i, n);
    hide Take, Settle, AtEnd, Unsent, Message;
  }

  lemma RetriedAttempt(w: World, i: nat, io: Io)
    requires Inv(w) && Busy(w.books, i)
    ensures
      io.now < w.books.slots[i].deadline && io.writing.Retry? ==>
        var (after, t) := (Transmit(w, i, io).0, TokenOf(w.books, i));
        && after.books == w.books && after.metrics.transmittedBytes == w.metrics.transmittedBytes
        && t !in w.books.ledger.completed && !Completed(w.books, t, true) && !Completed(w.books, t, false)
        && TakenIn(w, i, io) == 0
        && TakenBy(w.books, t) + Unsent(w.books.slots[i])[..0] == TakenBy(w.books, t)
  {
    assert SlotOk(w.books, i) && PlaceOk(w.config, w.books, w.link, i);
    assert Unsent(w.books.slots[i])[..0] == [];
    hide BooksOk, SlotOk;
  }

  lemma FailedAttempt(w: World, i: nat, io: Io)
    requires Inv(w) && Busy(w.books, i)
    requires io.now >= w.books.slots[i].deadline || io.writing.SendFailed?
    ensures
      var (after, t) := (Transmit(w, i, io).0, TokenOf(w.books, i));
      && Completed(after.books, t, false) && TakenBy(after.books, t) == TakenBy(w.books, t)
      && after.metrics.transmittedBytes == w.metrics.transmittedBytes && TakenIn(w, i, io) == 0
  {
    hide BooksOk, CursorsOk, LinkOk, HandedOk, PlacesOk, FailFrom;
    InvCloses(w);
    FailControlKeeps(w);
    var failed := FailControl(w).books;
    assert FailedSlot(w.books, failed, 0, false, i);
  }

  lemma SentAttempt(w: World, i: nat, io: Io)
    requires Inv(w) && Busy(w.books, i) && Sendable(w.books.slots[i].submission.value)
    requires io.now < w.books.slots[i].deadline && io.writing.Sent?
    ensures
      var (after, t, slot) := (Transmit(w, i, io).0, TokenOf(w.books, i), w.books.slots[i]);
      var n := TakenIn(w, i, io);
      && (Completed(after.books, t, true) <==> n == |Unsent(slot)|)
      && (Completed(after.books, t, false) <==> slot.data && n < |Unsent(slot)|)
      && TakenBy(after.books, t) == TakenBy(w.books, t) + Unsent(slot)[..n]
      && after.metrics.transmittedBytes == w.metrics.transmittedBytes + n
  {
    var (slot, n, t) := (w.books.slots[i], TakenIn(w, i, io), TokenOf(w.books, i));
    var sent := Take(w.books, i, n);
    assert PlaceOk(w.config, w.books, w.link, i) && SlotOk(w.books, i);
    assert slot.data || w.link.connected;
    assert n == TakenOf(w, i, io.writing.count);
    TakeShape(w.books, i, n);
    assert TakenBy(sent, t) == TakenBy(w.books, t) + Unsent(slot)[..n];
    hide *;
    EndsWhenAllTaken(w, i, n);
    SentCases(w, i, io);
    Endings(sent, i);
  }

  lemma SentCases(w: World, i: nat, io: Io)
    requires Busy(w.books, i) && CursorsOk(w.books) && (w.books.slots[i].data || w.link.connected)
    requires io.now < w.books.slots[i].deadline && io.writing.Sent?
    ensures
      var (after, n, slot) := (Transmit(w, i, io).0, TakenOf(w, i, io.writing.count), w.books.slots[i]);
      var sent := Take(w.books, i, n);
      && Busy(sent, i) && after.metrics.transmittedBytes == w.metrics.transmittedBytes + n
      && after.books == (if slot.data && n != |Message(slot.submission.value)| then Settle(sent, i, false)
                         else if AtEnd(sent.slots[i]) then Settle(sent, i, true) else sent)
  {
    TakeShape(w.books, i, TakenOf(w, i, io.writing.count));
    hide Take, TakenOf, AtEnd, Settle, Message, SameElsewhere;
  }

  /** Closing a submission records its ending and moves no byte. */
  lemma Endings(b: Books, i: nat)
    requires Busy(b, i)
    ensures forall ok, x :: Completed(Settle(b, i, ok), TokenOf(b, i), x) <==> x == ok
    ensures forall ok, t :: TakenBy(Settle(b, i, ok), t) == TakenBy(b, t)
    ensures TokenOf(b, i) !in b.ledger.completed ==> forall x :: !Completed(b, TokenOf(b, i), x)
  {}

  /** The cursor reaches the end exactly with the last byte; a datagram waits whole. */
  lemma EndsWhenAllTaken(w: World, i: nat, n: nat)
    requires Inv(w) && Busy(w.books, i) && Sendable(w.books.slots[i].submission.value) && n <= |Unsent(w.books.slots[i])|
    ensures CursorOk(w.books.slots[i].submission.value, w.books.slots[i].segment, w.books.slots[i].offset)
    ensures AtEnd(Take(w.books, i, n).slots[i]) <==> n == |Unsent(w.books.slots[i])|
    ensures w.books.slots[i].data ==> |Unsent(w.books.slots[i])| == |Message(w.books.slots[i].submission.value)|
  {
    assert PlaceOk(w.config, w.books, w.link, i) && SlotOk(w.books, i);
    var slot := w.books.slots[i];
    AdvanceFinishes(slot.submission.value, slot.segment, slot.offset, n);
  }

  /** A controller that is taken gets the next generation, starts with a fresh clock for
      both timeouts, and owes its liveness to nothing heard before. */
  lemma ConnectionBegins(w: World, io: Io)
    requires Inv(w) && TakesGeneration(w, Progresses(io)) && w.associated && io.accepting.resets
    ensures
      var after := Progress(w, io).0;
      && after.link.connected && after.link.generation == Some(w.link.control.next)
      && after.link.control.active == after.link.generation
      && after.link.connectedAt == io.now && after.link.inputActivity == io.now && after.link.control.lastLiveness == io.now
      && !after.link.requested && after.books == w.books
      && after.metrics == w.metrics.(accepted := w.metrics.accepted + 1)
  {
    InvLink(w);
    hide Inv, Receive, SendNext, FailControl;
  }

  /** When the ingress is stalled and nothing arrived for the time limit, the controller is
      let go. */
  lemma StalledIsDropped(w: World, io: Io)
    requires Inv(w) && w.link.connected && io.stalled && io.now - w.link.inputActivity >= w.config.ioTimeout
    ensures
      var after := Progress(w, io).0;
      !after.link.connected && after.link.control.active.None? && Failed(w.books, after.books, 0, false)
  {
    InvCloses(w);
    FailControlKeeps(w);
    var after := FailControl(w);
    assert Stale(w, io) && AfterStaleCheck(w, io) == w.link.control;
    assert w.(link := w.link.(control := w.link.control)) == w;
    assert Progress(w, io).0 == after;
    InvLink(w);
    OnlyLeaked(after);
    assert after.past == w.past && !w.past.leaked;
    hide FailControl, Inv, Progress;
  }
}
