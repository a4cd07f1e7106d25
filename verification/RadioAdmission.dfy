/** Which offers the radio's transport accepts, where it puts them, and why it refuses others. */
module RadioAdmission {
  import opened SpectrumTypes
  import opened ScatterGather
  import opened Submissions
  import opened RadioSteps

  /** The transport is in use, and the offer comes from its own stream with a completion to report to. */
  predicate Known(w: World, offer: Offer) {
    w.open && w.associated && offer.fromLocal && offer.reserved
  }

  /** A command needs a controller and at most 1024 bytes, data at most 8192; the counter must be the stream's. */
  predicate Suits(w: World, offer: Offer)
    requires offer.framing.Some?
  {
    var framing := offer.framing.value;
    && (if framing.command then w.link.connected && framing.packetBytes <= 1024 else framing.packetBytes <= 8192)
    && offer.counterMatches
  }

  /** Commands have the slots from 256 on, as many as configured; data have those before. */
  predicate ItsSlot(w: World, offer: Offer, i: nat)
    requires offer.framing.Some?
  {
    if offer.framing.value.command then 256 <= i < 256 + w.config.controlQueue else i < 256
  }

  predicate FreeFor(w: World, offer: Offer, i: nat)
    requires offer.framing.Some?
  {
    i < |w.books.slots| && ItsSlot(w, offer, i) && w.books.slots[i].submission.None?
  }

  ghost predicate Room(w: World, offer: Offer)
    requires offer.framing.Some?
  {
    exists i: nat :: FreeFor(w, offer, i)
  }

  /** The offer is accepted if and only if it meets every check; otherwise it is refused for
      the first one it does not meet. */
  ghost predicate Answered(w: World, offer: Offer, result: SendResult) {
    if !Known(w, offer) then result == Rejected(InvalidState)
    else if offer.framing.None? then result == Rejected(BadFrame)
    else if !Suits(w, offer) then result == Rejected(IdentityConflict)
    else if !Room(w, offer) then result == Rejected(CapacityExhausted)
    else if !offer.credited then result == Rejected(InvalidArgument)
    else if !offer.queued then result == Rejected(NoCredit)
    else if !offer.counted then result == Rejected(BadCount)
    else result.Accepted?
  }

  /** The message waits whole in the first free slot of its kind, until one time limit from
      now; only a command of at most 1024 bytes can be a status reply. */
  predicate Waiting(w: World, offer: Offer, now: int, after: World, t: Token)
    requires offer.framing.Some?
  {
    && FreeFor(w, offer, t.slot) && (forall k: nat :: k < t.slot ==> !FreeFor(w, offer, k))
    && |after.books.slots| == |w.books.slots| && t.generation == w.books.slots[t.slot].generation
    && (forall k: nat :: k < |w.books.slots| && k != t.slot ==> after.books.slots[k] == w.books.slots[k])
    && var (slot, command) := (after.books.slots[t.slot], offer.framing.value.command);
    && slot.submission == Some(offer.segments) && slot.segment == 0 && slot.offset == 0
    && slot.generation == t.generation && slot.deadline == now + w.config.ioTimeout && (slot.data <==> !command)
    && (slot.reply <==> command && |Message(offer.segments)| <= 1024 && offer.statusReply)
  }

  lemma OfferOutcome(w: World, offer: Offer, now: int)
    requires Inv(w)
    ensures
      var (after, result) := Send(w, offer, now);
      && Answered(w, offer, result) && after == w.(books := after.books)
      && (if result.Accepted? then offer.framing.Some? && Waiting(w, offer, now, after, result.token) else after == w)
  {
    hide Inv, Admit, Waiting, Message, FirstFree, FreeFor, RecordOf, Room;
    TableSize(w);
    if offer.framing.Some? {
      SlotFound(w, offer);
      var r := FirstFree(w.books.slots, FirstSlot(offer), LastSlot(w, offer));
      if r.Some? {
        AdmittedWaits(w, offer, now, r.value);
      }
    }
  }

  lemma SlotFound(w: World, offer: Offer)
    requires |w.books.slots| == TOTAL_SLOTS && w.config.Valid() && offer.framing.Some?
    ensures
      var r := FirstFree(w.books.slots, FirstSlot(offer), LastSlot(w, offer));
      && (r.Some? <==> Room(w, offer))
      && (r.Some? ==> FreeFor(w, offer, r.value) && forall k: nat :: k < r.value ==> !FreeFor(w, offer, k))
  {
    FirstFreeIs(w.books.slots, FirstSlot(offer), LastSlot(w, offer));
    var r := FirstFree(w.books.slots, FirstSlot(offer), LastSlot(w, offer));
    hide FirstFree;
    assert r.Some? ==> FreeFor(w, offer, r.value);
    assert forall k: nat :: FreeFor(w, offer, k) ==> FirstSlot(offer) <= k < LastSlot(w, offer);
  }

  lemma TableSize(w: World)
    requires Inv(w)
    ensures |w.books.slots| == TOTAL_SLOTS && w.config.Valid()
  {}

  lemma AdmittedWaits(w: World, offer: Offer, now: int, i: nat)
    requires offer.framing.Some? && FreeFor(w, offer, i) && forall k: nat :: k < i ==> !FreeFor(w, offer, k)
    ensures i < |w.books.slots| && !Busy(w.books, i)
    ensures
      var after := w.(books := Admit(w.books, i, now + w.config.ioTimeout, RecordOf(w, offer)));
      Waiting(w, offer, now, after, TokenOf(w.books, i))
  {
    hide Message;
  }
}
