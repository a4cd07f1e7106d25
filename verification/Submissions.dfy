/** The slot table both transports keep their submissions in, and a ledger of everything
    it ever did: what was accepted, which bytes the socket took, how each ended. */
module Submissions {
  import opened SpectrumTypes
  import opened ScatterGather

  datatype Token = Token(slot: nat, generation: nat)

  datatype Slot = Slot(
    submission: Option<Segments>, segment: nat, offset: nat, generation: nat, deadline: int,
    data: bool, reply: bool)

  const FREE_SLOT := Slot(None, 0, 0, 1, 0, false, false)

  /** An accepted submission, and the controller connection it was accepted on. */
  datatype Record = Record(segments: Segments, data: bool, reply: bool, connection: Option<u64>)

  datatype Ledger = Ledger(accepted: map<Token, Record>, taken: map<Token, seq<byte>>, completed: map<Token, bool>)

  datatype Books = Books(slots: seq<Slot>, ledger: Ledger, successes: nat, failures: nat)

  const NO_ENTRIES := Ledger(map[], map[], map[])

  predicate Busy(b: Books, i: nat) {
    i < |b.slots| && b.slots[i].submission.Some?
  }

  function TokenOf(b: Books, i: nat): Token
    requires i < |b.slots|
  {
    Token(i, b.slots[i].generation)
  }

  predicate Pending(b: Books, t: Token) {
    t.slot < |b.slots| && b.slots[t.slot].generation == t.generation && b.slots[t.slot].submission.Some?
  }

  predicate Completed(b: Books, t: Token, ok: bool) {
    t in b.ledger.completed && b.ledger.completed[t] == ok
  }

  /** A message that ends in an empty segment never finishes. */
  predicate Sendable(segments: Segments) {
    segments != [] && segments[|segments| - 1] != []
  }

  // ----- What the transports do to the table -----

  function Admit(b: Books, i: nat, deadline: int, record: Record): Books
    requires i < |b.slots| && !Busy(b, i)
  {
    var t := TokenOf(b, i);
    b.(slots := b.slots[i := Slot(Some(record.segments), 0, 0, t.generation, deadline, record.data, record.reply)],
       ledger := b.ledger.(accepted := b.ledger.accepted[t := record], taken := b.ledger.taken[t := []]))
  }

  /** The bytes of this slot's message the socket has not taken yet. */
  function Unsent(slot: Slot): seq<byte> {
    if slot.submission.Some? && CursorOk(slot.submission.value, slot.segment, slot.offset)
    then Rest(slot.submission.value, slot.segment, slot.offset) else []
  }

  function TakenBy(b: Books, t: Token): seq<byte> {
    if t in b.ledger.taken then b.ledger.taken[t] else []
  }

  /** The socket takes the next `n` bytes. */
  function Take(b: Books, i: nat, n: nat): Books
    requires Busy(b, i) && CursorOk(b.slots[i].submission.value, b.slots[i].segment, b.slots[i].offset)
    requires n <= |Unsent(b.slots[i])|
  {
    var (slot, t) := (b.slots[i], TokenOf(b, i));
    var (segment, offset) := Advance(slot.submission.value, slot.segment, slot.offset, n);
    b.(slots := b.slots[i := slot.(segment := segment, offset := offset)],
       ledger := b.ledger.(taken := b.ledger.taken[t := TakenBy(b, t) + Unsent(slot)[..n]]))
  }

  predicate AtEnd(slot: Slot) {
    slot.submission.Some? && slot.segment == |slot.submission.value|
  }

  function Settle(b: Books, i: nat, ok: bool): Books
    requires Busy(b, i)
  {
    var slot := b.slots[i];
    b.(slots := b.slots[i := slot.(submission := None, segment := 0, offset := 0, generation := slot.generation + 1)],
       ledger := b.ledger.(completed := b.ledger.completed[TokenOf(b, i) := ok]),
       successes := if ok then b.successes + 1 else b.successes,
       failures := if ok then b.failures else b.failures + 1)
  }

  function FailOne(b: Books, i: nat, all: bool): Books
    requires i < |b.slots|
  {
    if Busy(b, i) && (all || !b.slots[i].data) then Settle(b, i, false) else b
  }

  /** Fail every submission from slot `i` on; data submissions only when `all`. */
  function FailFrom(b: Books, i: nat, all: bool): Books
    requires i <= |b.slots|
    decreases |b.slots| - i
  {
    if i == |b.slots| then b
    else FailFrom(FailOne(b, i, all), i + 1, all)
  }

  /** The next busy slot in circular order, and the cursor behind it. */
  function Select(slots: seq<Slot>, cursor: nat, attempts: nat): (r: (nat, Option<nat>))
    requires slots != []
    ensures r.1.Some? ==> r.1.value < |slots| && slots[r.1.value].submission.Some?
    decreases attempts
  {
    if attempts == 0 then (cursor, None)
    else if slots[cursor % |slots|].submission.Some? then (cursor + 1, Some(cursor % |slots|))
    else Select(slots, cursor + 1, attempts - 1)
  }

  /** The first free slot of a range. */
  function FirstFree(slots: seq<Slot>, first: nat, last: nat): (r: Option<nat>)
    requires first <= last <= |slots|
    ensures r.Some? ==> first <= r.value < last && slots[r.value].submission.None?
    decreases last - first
  {
    if first == last then None
    else if slots[first].submission.None? then Some(first)
    else FirstFree(slots, first + 1, last)
  }

  /** Every slot before it is busy. */
  lemma {:induction false} FirstFreeIs(slots: seq<Slot>, first: nat, last: nat)
    requires first <= last <= |slots|
    ensures
      var r := FirstFree(slots, first, last);
      forall i: nat :: first <= i < (if r.Some? then r.value else last) ==> slots[i].submission.Some?
    decreases last - first
  {
    if first < last {
      FirstFreeIs(slots, first + 1, last);
    }
  }

  method FindFree(slots: array<Slot>, first: nat, last: nat) returns (r: Option<nat>)
    requires first <= last <= slots.Length
    ensures r == FirstFree(slots[..], first, last)
  {
    var selected := first;
    while selected < last && slots[selected].submission.Some?
      invariant first <= selected <= last
      invariant FirstFree(slots[..], selected, last) == FirstFree(slots[..], first, last)
    {
      selected := selected + 1;
    }
    return if selected == last then None else Some(selected);
  }

  // ----- What always holds of the table -----

  /** How a completed submission ended against the bytes taken for it. */
  predicate EndedRight(segments: Segments, taken: seq<byte>, ok: bool) {
    && (ok ==> taken == Message(segments) && (segments != [] ==> Sendable(segments)))
    && (Sendable(segments) ==> (ok <==> taken == Message(segments)))
  }

  predicate SlotOk(b: Books, i: nat)
    requires i < |b.slots|
  {
    var (slot, t) := (b.slots[i], TokenOf(b, i));
    if slot.submission.None? then t !in b.ledger.accepted
    else
      var segments := slot.submission.value;
      && t in b.ledger.accepted && t in b.ledger.taken && t !in b.ledger.completed
      && b.ledger.accepted[t].segments == segments
      && b.ledger.accepted[t].data == slot.data && b.ledger.accepted[t].reply == slot.reply
      && CursorOk(segments, slot.segment, slot.offset)
      && b.ledger.taken[t] == Before(segments, slot.segment, slot.offset)
      && (segments != [] ==> slot.segment < |segments|)
      && (Sendable(segments) ==> Unsent(slot) != [])
  }

  predicate TokenOk(b: Books, t: Token)
    requires t in b.ledger.accepted
  {
    && t.slot < |b.slots| && t.generation <= b.slots[t.slot].generation
    && (t.generation < b.slots[t.slot].generation ==> t in b.ledger.completed)
    && (t in b.ledger.completed ==>
          t in b.ledger.taken && EndedRight(b.ledger.accepted[t].segments, b.ledger.taken[t], b.ledger.completed[t]))
    && TakenBy(b, t) <= Message(b.ledger.accepted[t].segments)
  }

  /** Bytes are recorded for accepted submissions, and only they complete. */
  predicate KeysOk(l: Ledger, t: Token) {
    (t in l.taken <==> t in l.accepted) && (t in l.completed ==> t in l.accepted)
  }

  ghost predicate BooksOk(b: Books) {
    && (forall i: nat :: i < |b.slots| ==> SlotOk(b, i))
    && (forall t :: t in b.ledger.accepted ==> TokenOk(b, t))
    && (forall t :: KeysOk(b.ledger, t))
    && |b.ledger.completed.Keys| == b.successes + b.failures
  }

  lemma EmptyBooksOk(n: nat)
    ensures BooksOk(Books(seq(n, i => FREE_SLOT), NO_ENTRIES, 0, 0))
  {}

  /** Two ledgers say the same about one token. */
  predicate SameEntries(a: Ledger, b: Ledger, u: Token) {
    && (u in a.accepted <==> u in b.accepted) && (u in a.accepted ==> a.accepted[u] == b.accepted[u])
    && (u in a.taken <==> u in b.taken) && (u in a.taken ==> a.taken[u] == b.taken[u])
    && (u in a.completed <==> u in b.completed) && (u in a.completed ==> a.completed[u] == b.completed[u])
  }

  /** A change to one slot and to the entries of the submission it holds. */
  ghost predicate SameElsewhere(b: Books, after: Books, i: nat)
    requires i < |b.slots|
  {
    && |after.slots| == |b.slots|
    && (forall k: nat :: k < |b.slots| && k != i ==> after.slots[k] == b.slots[k])
    && (forall u :: u != TokenOf(b, i) ==> SameEntries(b.ledger, after.ledger, u))
  }

  lemma LocalChange(b: Books, after: Books, i: nat)
    requires BooksOk(b) && i < |b.slots| && SameElsewhere(b, after, i)
    requires b.slots[i].generation <= after.slots[i].generation
    requires SlotOk(after, i)
    requires TokenOf(b, i) in after.ledger.accepted && TokenOk(after, TokenOf(b, i))
    requires TokenOf(b, i) in after.ledger.taken
    requires |after.ledger.completed.Keys| == after.successes + after.failures
    ensures BooksOk(after)
  {
    hide Before, Unsent, Sendable, Message, EndedRight, CursorOk;
    var t := TokenOf(b, i);
    forall k: nat | k < |after.slots| ensures SlotOk(after, k) {
      OtherSlot(b, after, i, k);
    }
    forall u | u in after.ledger.accepted ensures TokenOk(after, u) {
      OtherToken(b, after, i, u);
    }
    forall u ensures KeysOk(after.ledger, u) {
      assert KeysOk(b.ledger, u);
      assert u != t ==> SameEntries(b.ledger, after.ledger, u);
    }
  }

  lemma OtherSlot(b: Books, after: Books, i: nat, k: nat)
    requires BooksOk(b) && i < |b.slots| && k < |b.slots| && SameElsewhere(b, after, i)
    ensures k != i ==> SlotOk(after, k)
  {
    hide Before, Unsent, Sendable, Message, EndedRight, CursorOk;
    if k != i {
      assert SlotOk(b, k) && SameEntries(b.ledger, after.ledger, TokenOf(b, k));
    }
  }

  lemma OtherToken(b: Books, after: Books, i: nat, u: Token)
    requires BooksOk(b) && i < |b.slots| && SameElsewhere(b, after, i)
    requires b.slots[i].generation <= after.slots[i].generation
    ensures u != TokenOf(b, i) && u in after.ledger.accepted ==> TokenOk(after, u)
  {
    hide Before, Unsent, Sendable, Message, EndedRight, CursorOk;
    if u != TokenOf(b, i) && u in after.ledger.accepted {
      assert SameEntries(b.ledger, after.ledger, u) && TokenOk(b, u);
    }
  }

  lemma AdmitKeeps(b: Books, i: nat, deadline: int, record: Record)
    requires BooksOk(b) && i < |b.slots| && !Busy(b, i)
    ensures BooksOk(Admit(b, i, deadline, record))
  {
    var (after, t) := (Admit(b, i, deadline, record), TokenOf(b, i));
    assert SlotOk(b, i);
    assert KeysOk(b.ledger, t);
    AtStart(record.segments);
    LocalChange(b, after, i);
  }

  predicate CursorsOk(b: Books) {
    forall i: nat :: i < |b.slots| && b.slots[i].submission.Some? ==>
      CursorOk(b.slots[i].submission.value, b.slots[i].segment, b.slots[i].offset)
  }

  lemma BooksGiveCursors(b: Books)
    requires BooksOk(b)
    ensures CursorsOk(b)
  {
    forall i: nat | i < |b.slots| && b.slots[i].submission.Some?
      ensures CursorOk(b.slots[i].submission.value, b.slots[i].segment, b.slots[i].offset)
    {
      assert SlotOk(b, i);
    }
  }

  /** A message waits with its cursor at the first byte. */
  lemma AtStart(segments: Segments)
    ensures CursorOk(segments, 0, 0) && Before(segments, 0, 0) == []
    ensures Rest(segments, 0, 0) == Message(segments)
    ensures Sendable(segments) ==> Rest(segments, 0, 0) != []
  {
    if segments != [] {
      LastIsPartOfRest(segments, 0);
      CursorSplits(segments, 0, 0);
      assert segments[..0] == [] && segments[0][..0] == [];
      assert Before(segments, 0, 0) == [];
      assert [] + Rest(segments, 0, 0) == Rest(segments, 0, 0);
    }
  }

  /** What one write does to a cursor that is not at the end. */
  lemma TakeMoves(segments: Segments, segment: nat, offset: nat, n: nat)
    requires CursorOk(segments, segment, offset) && n <= |Rest(segments, segment, offset)|
    requires segments != [] ==> segment < |segments|
    requires Sendable(segments) ==> Rest(segments, segment, offset) != []
    ensures
      var (s, o) := Advance(segments, segment, offset, n);
      && Before(segments, s, o) == Before(segments, segment, offset) + Rest(segments, segment, offset)[..n]
      && (s == |segments| ==> Before(segments, s, o) == Message(segments) && (segments != [] ==> Sendable(segments)))
      && (s < |segments| && Sendable(segments) ==> Rest(segments, s, o) != [])
      && Before(segments, s, o) <= Message(segments)
  {
    var (s, o) := Advance(segments, segment, offset, n);
    AdvanceMoves(segments, segment, offset, n);
    CursorSplits(segments, segment, offset);
    CursorSplits(segments, s, o);
    var (before, rest) := (Before(segments, segment, offset), Rest(segments, segment, offset));
    assert |Before(segments, s, o)| == |before| + n;
    if segments != [] {
      AdvanceFinishes(segments, segment, offset, n);
      assert s < |segments| && Sendable(segments) ==> n != |rest|;
    }
  }

  /** A write touches only its own slot and bytes. */
  lemma TakeShape(b: Books, i: nat, n: nat)
    requires Busy(b, i) && CursorOk(b.slots[i].submission.value, b.slots[i].segment, b.slots[i].offset)
    requires n <= |Unsent(b.slots[i])|
    ensures
      var (after, t) := (Take(b, i, n), TokenOf(b, i));
      && SameElsewhere(b, after, i) && TokenOf(after, i) == t
      && after.slots[i].submission == b.slots[i].submission
      && after.slots[i].data == b.slots[i].data && after.slots[i].reply == b.slots[i].reply
      && after.ledger.accepted == b.ledger.accepted && after.ledger.completed == b.ledger.completed
      && t in after.ledger.taken
      && after.successes == b.successes && after.failures == b.failures
  {
    hide Advance, Unsent, TakenBy, CursorOk;
  }

  lemma TakeFacts(b: Books, i: nat, n: nat)
    requires BooksOk(b) && Busy(b, i) && n <= |Unsent(b.slots[i])|
    ensures CursorOk(b.slots[i].submission.value, b.slots[i].segment, b.slots[i].offset)
    ensures
      var (after, t) := (Take(b, i, n), TokenOf(b, i));
      var (slot, segments) := (after.slots[i], b.slots[i].submission.value);
      && t in b.ledger.accepted && t !in b.ledger.completed
      && b.ledger.accepted[t].segments == segments
      && b.ledger.accepted[t].data == slot.data && b.ledger.accepted[t].reply == slot.reply
      && slot.submission == Some(segments) && CursorOk(segments, slot.segment, slot.offset)
      && t in after.ledger.taken && after.ledger.taken[t] == Before(segments, slot.segment, slot.offset)
      && after.ledger.taken[t] <= Message(segments)
      && (AtEnd(slot) ==> EndedRight(segments, after.ledger.taken[t], true))
      && (!AtEnd(slot) && segments != [] ==> slot.segment < |segments|)
      && (!AtEnd(slot) && Sendable(segments) ==> Unsent(slot) != [])
  {
    assert SlotOk(b, i);
    var slot := b.slots[i];
    TakeMoves(slot.submission.value, slot.segment, slot.offset, n);
  }

  lemma TakeKeeps(b: Books, i: nat, n: nat)
    requires BooksOk(b) && Busy(b, i) && n <= |Unsent(b.slots[i])|
    ensures CursorOk(b.slots[i].submission.value, b.slots[i].segment, b.slots[i].offset)
    ensures !AtEnd(Take(b, i, n).slots[i]) ==> BooksOk(Take(b, i, n))
  {
    TakeFacts(b, i, n);
    TakeShape(b, i, n);
    if !AtEnd(Take(b, i, n).slots[i]) {
      hide Take, Before, Unsent, Sendable, Message, EndedRight, SameElsewhere, CursorOk, AtEnd;
      OpenSlotOk(b, Take(b, i, n), i);
      assert TokenOk(b, TokenOf(b, i));
      hide SlotOk;
      LocalChange(b, Take(b, i, n), i);
    }
  }

  lemma OpenSlotOk(b: Books, after: Books, i: nat)
    requires Busy(b, i) && Busy(after, i) && TokenOf(after, i) == TokenOf(b, i)
    requires after.ledger.accepted == b.ledger.accepted && after.ledger.completed == b.ledger.completed
    requires
      var (t, slot, segments) := (TokenOf(b, i), after.slots[i], b.slots[i].submission.value);
      && t in b.ledger.accepted && t !in b.ledger.completed
      && b.ledger.accepted[t].segments == segments
      && b.ledger.accepted[t].data == slot.data && b.ledger.accepted[t].reply == slot.reply
      && slot.submission == Some(segments) && CursorOk(segments, slot.segment, slot.offset)
      && t in after.ledger.taken && after.ledger.taken[t] == Before(segments, slot.segment, slot.offset)
      && (segments != [] ==> slot.segment < |segments|)
      && (Sendable(segments) ==> Unsent(slot) != [])
    ensures SlotOk(after, i)
  {
    hide Before, Unsent, Sendable, CursorOk;
  }

  /** A submission whose last byte was just taken completes. */
  lemma FinishKeeps(b: Books, i: nat, n: nat)
    requires BooksOk(b) && Busy(b, i) && n <= |Unsent(b.slots[i])|
    ensures CursorOk(b.slots[i].submission.value, b.slots[i].segment, b.slots[i].offset)
    ensures AtEnd(Take(b, i, n).slots[i]) ==> BooksOk(Settle(Take(b, i, n), i, true))
  {
    TakeFacts(b, i, n);
    TakeShape(b, i, n);
    if AtEnd(Take(b, i, n).slots[i]) {
      hide *;
      SettleKeeps(b, Take(b, i, n), i, true);
    }
  }

  /** Closing the submission of a slot, perhaps after its cursor moved. */
  lemma SettleKeeps(b: Books, moved: Books, i: nat, ok: bool)
    requires BooksOk(b) && Busy(b, i) && SameElsewhere(b, moved, i)
    requires moved.slots[i].submission.Some? && TokenOf(moved, i) == TokenOf(b, i)
    requires moved.ledger.accepted == b.ledger.accepted && moved.ledger.completed == b.ledger.completed
    requires moved.successes == b.successes && moved.failures == b.failures
    requires
      var t := TokenOf(b, i);
      && t in b.ledger.accepted && t in moved.ledger.taken && t !in b.ledger.completed
      && moved.ledger.taken[t] <= Message(b.ledger.accepted[t].segments)
      && EndedRight(b.ledger.accepted[t].segments, moved.ledger.taken[t], ok)
    ensures BooksOk(Settle(moved, i, ok))
  {
    hide *;
    BothBusy(b, moved, i);
    CountOf(b);
    NothingAfter(b, i);
    SettledElsewhere(b, moved, i, ok);
    SettledSelf(b, moved, i, ok);
    LocalChange(b, Settle(moved, i, ok), i);
  }

  lemma BothBusy(b: Books, moved: Books, i: nat)
    requires Busy(b, i) && SameElsewhere(b, moved, i) && moved.slots[i].submission.Some?
    ensures i < |b.slots| && Busy(moved, i)
  {}

  lemma CountOf(b: Books)
    requires BooksOk(b)
    ensures |b.ledger.completed.Keys| == b.successes + b.failures
  {}

  lemma SettledElsewhere(b: Books, moved: Books, i: nat, ok: bool)
    requires i < |b.slots| && SameElsewhere(b, moved, i) && Busy(moved, i) && TokenOf(moved, i) == TokenOf(b, i)
    ensures SameElsewhere(b, Settle(moved, i, ok), i)
  {
    forall u | u != TokenOf(b, i) ensures SameEntries(b.ledger, Settle(moved, i, ok).ledger, u) {
      assert SameEntries(b.ledger, moved.ledger, u);
    }
  }

  lemma SettledSelf(b: Books, moved: Books, i: nat, ok: bool)
    requires Busy(b, i) && Busy(moved, i) && TokenOf(moved, i) == TokenOf(b, i)
    requires moved.ledger.accepted == b.ledger.accepted && moved.ledger.completed == b.ledger.completed
    requires moved.successes == b.successes && moved.failures == b.failures
    requires |b.ledger.completed.Keys| == b.successes + b.failures
    requires Token(i, b.slots[i].generation + 1) !in b.ledger.accepted
    requires
      var t := TokenOf(b, i);
      && t in b.ledger.accepted && t in moved.ledger.taken && t !in b.ledger.completed
      && moved.ledger.taken[t] <= Message(b.ledger.accepted[t].segments)
      && EndedRight(b.ledger.accepted[t].segments, moved.ledger.taken[t], ok)
    ensures
      var (after, t) := (Settle(moved, i, ok), TokenOf(b, i));
      && i < |after.slots| && b.slots[i].generation <= after.slots[i].generation && SlotOk(after, i)
      && t in after.ledger.accepted && TokenOk(after, t) && t in after.ledger.taken
      && |after.ledger.completed.Keys| == after.successes + after.failures
  {
    hide Message, EndedRight;
    var (after, t) := (Settle(moved, i, ok), TokenOf(b, i));
    assert after.ledger.completed.Keys == b.ledger.completed.Keys + {t};
  }

  /** No token of a slot lies beyond its generation. */
  lemma NothingAfter(b: Books, i: nat)
    requires BooksOk(b) && i < |b.slots|
    ensures Token(i, b.slots[i].generation + 1) !in b.ledger.accepted
  {
    var t := Token(i, b.slots[i].generation + 1);
    assert t in b.ledger.accepted ==> TokenOk(b, t);
  }

  lemma FailKeeps(b: Books, i: nat)
    requires BooksOk(b) && Busy(b, i)
    ensures BooksOk(Settle(b, i, false))
  {
    assert SlotOk(b, i);
    var slot := b.slots[i];
    CursorSplits(slot.submission.value, slot.segment, slot.offset);
    assert EndedRight(slot.submission.value, b.ledger.taken[TokenOf(b, i)], false);
    hide Before, Sendable, Message, Unsent, EndedRight, Settle;
    assert TokenOk(b, TokenOf(b, i));
    SettleKeeps(b, b, i, false);
  }

  /** What failing the slots from `i` on leaves alone, and what is gone afterwards. */
  ghost predicate Failed(b: Books, after: Books, i: nat, all: bool) {
    && |after.slots| == |b.slots|
    && after.ledger.accepted == b.ledger.accepted && after.ledger.taken == b.ledger.taken
    && after.successes == b.successes
    && (forall k: nat :: k < |b.slots| ==> FailedSlot(b, after, i, all, k))
    && (forall t :: t in b.ledger.completed ==>
          t in after.ledger.completed && after.ledger.completed[t] == b.ledger.completed[t])
  }

  predicate FailedSlot(b: Books, after: Books, i: nat, all: bool, k: nat)
    requires k < |b.slots| == |after.slots|
  {
    if k < i || (!all && b.slots[k].data) then after.slots[k] == b.slots[k]
    else
      && after.slots[k].submission.None?
      && (Busy(b, k) ==> TokenOf(b, k) in after.ledger.completed && !after.ledger.completed[TokenOf(b, k)])
  }

  lemma {:induction false} FailFromKeeps(b: Books, i: nat, all: bool)
    requires BooksOk(b) && i <= |b.slots|
    ensures BooksOk(FailFrom(b, i, all)) && Failed(b, FailFrom(b, i, all), i, all)
    decreases |b.slots| - i
  {
    if i < |b.slots| {
      FailOneKeeps(b, i, all);
      FailFromKeeps(FailOne(b, i, all), i + 1, all);
      FailOneMore(b, i, all);
      hide *;
    } else {
      hide BooksOk;
    }
  }

  lemma FailOneKeeps(b: Books, i: nat, all: bool)
    requires BooksOk(b) && i < |b.slots|
    ensures BooksOk(FailOne(b, i, all)) && |FailOne(b, i, all).slots| == |b.slots|
    ensures Busy(b, i) ==> TokenOf(b, i) !in b.ledger.completed
  {
    if Busy(b, i) {
      FailKeeps(b, i);
      assert SlotOk(b, i);
    }
    hide BooksOk;
  }

  lemma FailOneMore(b: Books, i: nat, all: bool)
    requires i < |b.slots|
    requires Busy(b, i) ==> TokenOf(b, i) !in b.ledger.completed
    requires
      var next := FailOne(b, i, all);
      |next.slots| == |b.slots| && Failed(next, FailFrom(next, i + 1, all), i + 1, all)
    ensures Failed(b, FailFrom(b, i, all), i, all)
  {
    var next := FailOne(b, i, all);
    var after := FailFrom(next, i + 1, all);
    assert after == FailFrom(b, i, all);
    hide FailFrom;
    assert |next.slots| == |b.slots| && next.successes == b.successes;
    assert FailedSlot(next, after, i + 1, all, i);
    forall k: nat | k < |b.slots| ensures FailedSlot(b, after, i, all, k) {
      assert FailedSlot(next, after, i + 1, all, k);
    }
  }

  // ----- What a caller can rely on -----

  /** `pending` is true exactly from acceptance to completion, whatever the slot held
      before, and every accepted submission is counted once: as completed, failed or pending. */
  lemma BooksBalance(b: Books)
    requires BooksOk(b)
    ensures forall t :: Pending(b, t) <==> t in b.ledger.accepted && t !in b.ledger.completed
    ensures |b.ledger.accepted| == b.successes + b.failures + |set t | t in b.ledger.accepted && Pending(b, t)|
  {
    forall t ensures Pending(b, t) <==> t in b.ledger.accepted && t !in b.ledger.completed {
      if t.slot < |b.slots| {
        assert SlotOk(b, t.slot);
      }
      if t in b.ledger.accepted {
        assert TokenOk(b, t);
      }
    }
    var waiting := set t | t in b.ledger.accepted && Pending(b, t);
    forall t ensures t in b.ledger.accepted.Keys <==> t in b.ledger.completed.Keys + waiting {
      assert KeysOk(b.ledger, t);
    }
    assert b.ledger.accepted.Keys == b.ledger.completed.Keys + waiting;
    assert b.ledger.completed.Keys !! waiting;
    assert |b.ledger.accepted| == |b.ledger.accepted.Keys|;
  }

  /** The bytes taken for a submission are a prefix of its message, the cursor counts
      them, and it succeeds exactly when they are the whole message. */
  lemma DeliveryExact(b: Books, t: Token)
    requires BooksOk(b) && t in b.ledger.accepted
    ensures t in b.ledger.taken
    ensures
      var (record, taken) := (b.ledger.accepted[t], b.ledger.taken[t]);
      && taken <= Message(record.segments)
      && (Pending(b, t) ==>
            var slot := b.slots[t.slot];
            CursorOk(record.segments, slot.segment, slot.offset) && taken == Before(record.segments, slot.segment, slot.offset))
      && (Pending(b, t) && Sendable(record.segments) ==> taken != Message(record.segments))
      && (t in b.ledger.completed && b.ledger.completed[t] ==> taken == Message(record.segments))
      && (t in b.ledger.completed && Sendable(record.segments) ==>
            (b.ledger.completed[t] <==> taken == Message(record.segments)))
  {
    assert TokenOk(b, t) && KeysOk(b.ledger, t);
    if Pending(b, t) {
      assert SlotOk(b, t.slot);
      var slot := b.slots[t.slot];
      CursorSplits(slot.submission.value, slot.segment, slot.offset);
    }
  }
}
