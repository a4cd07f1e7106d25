/** What each step of a controller's transport does to its messages and its connection. */
module ClientEffects {
  import opened ScatterGather
  import opened Submissions
  import opened ClientSteps
  import ControlSlots

  /** A message succeeds exactly when the socket takes all that was left of it in time. When
      its time is over or the socket fails, the connection is lost and every message with it. */
  lemma AttemptOutcome(w: World, i: nat, io: Io)
    requires Inv(w) && Busy(w.books, i) && Sendable(w.books.slots[i].submission.value)
    ensures
      var (after, t, slot) := (Transmit(w, i, io).0, TokenOf(w.books, i), w.books.slots[i]);
      var lost := io.now >= slot.deadline || io.writing.SendFailed?;
      && (Completed(after.books, t, true) <==>
            !lost && io.writing.Sent? && TakenOf(w, i, io.writing.count) == |Unsent(slot)|)
      && (Completed(after.books, t, false) <==> lost)
      && (after.connected <==> !lost)
      && (lost ==> after.retryAt == io.now + RETRY_DELAY && forall k: nat :: k < CLIENT_SLOTS ==> !Busy(after.books, k))
  {
    var slot := w.books.slots[i];
    if io.now >= slot.deadline || io.writing.SendFailed? {
      LostAttempt(w, i, io);
    } else if io.writing.Sent? {
      SentAttempt(w, i, io);
    } else {
      assert PlaceOk(w, i) && SlotOk(w.books, i);
    }
    hide Inv, TakenOf, Unsent, FailFrom, Take, Settle, AtEnd, CursorsOk, Message, Sendable;
  }

  lemma LostAttempt(w: World, i: nat, io: Io)
    requires Inv(w) && Busy(w.books, i)
    requires io.now >= w.books.slots[i].deadline || io.writing.SendFailed?
    ensures
      var (after, t) := (Transmit(w, i, io).0, TokenOf(w.books, i));
      && Completed(after.books, t, false) && !after.connected && after.retryAt == io.now + RETRY_DELAY
      && forall k: nat :: k < CLIENT_SLOTS ==> !Busy(after.books, k)
  {
    LossKeeps(w, io.now);
    assert FailedSlot(w.books, Fail(w, io.now).books, 0, true, i);
    hide BooksOk, CursorsOk, FailFrom;
  }

  lemma SentAttempt(w: World, i: nat, io: Io)
    requires Inv(w) && Busy(w.books, i) && Sendable(w.books.slots[i].submission.value)
    requires io.now < w.books.slots[i].deadline && io.writing.Sent?
    ensures
      var (after, t) := (Transmit(w, i, io).0, TokenOf(w.books, i));
      && (Completed(after.books, t, true) <==> TakenOf(w, i, io.writing.count) == |Unsent(w.books.slots[i])|)
      && !Completed(after.books, t, false) && after.connected
  {
    var (slot, n) := (w.books.slots[i], TakenOf(w, i, io.writing.count));
    assert PlaceOk(w, i) && SlotOk(w.books, i);
    TakeShape(w.books, i, n);
    AdvanceFinishes(slot.submission.value, slot.segment, slot.offset, n);
    assert AtEnd(Take(w.books, i, n).slots[i]) <==> n == |Unsent(slot)|;
    hide BooksOk, CursorsOk, SlotOk, Take, AtEnd, Unsent, Sendable, SameElsewhere, Message;
  }

  /** A new connection is opened only when one is wanted, admission is open, the association
      is committed and the pause after the last loss is over; it has a new number. */
  lemma ReconnectPaced(w: World, io: Io)
    requires Inv(w)
    ensures
      var (after, outcome) := Progress(w, io);
      after.generation != w.generation ==>
        && w.open && !w.connected && w.accepting && w.associated && io.now >= w.retryAt
        && after.generation == ControlSlots.Increment(w.generation)
  {
    SendNextNumber(w, io);
    hide Inv, FailFrom, SendNext;
  }

  lemma SendNextNumber(w: World, io: Io)
    requires Inv(w)
    ensures SendNext(w, io).0.generation == w.generation
  {
    hide Inv, FailFrom, Take, Settle, AtEnd, TakenOf, Select;
  }

  /** A connection that is up stays the same one until it is lost. */
  lemma OneConnection(w: World, op: Op)
    requires Inv(w) && w.connected && Next(w, op).connected
    ensures Next(w, op).generation == w.generation
  {
    if op.Progresses? {
      SendNextNumber(w, op.io);
    }
    hide FailFrom, SendNext, Admit, FirstFree, CursorsOk, BooksOk, PlaceOk;
  }
}
