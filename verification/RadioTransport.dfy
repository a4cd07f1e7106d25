/** The radio's transport: one controller over a stream, datagrams out, a table of
    submissions shared by both. */
module RadioTransports {
  import opened SpectrumTypes
  import opened ScatterGather
  import opened Submissions
  import opened RadioSteps
  import opened RadioSafety
  import ControlSlots

  /** Whether a packet is the query for the whole status. */
  method IsStatusRequest(p: ControlPacket) returns (yes: bool)
    ensures yes <==> FullStatusRequest(p)
  {
    if !p.decoded || !p.command || p.acknowledge || p.cancel {
      return false;
    }
    if !p.profiled || p.action != 0 || !p.requestsState || |p.fields| != 5 {
      if |p.fields| != 5 {
        SizeOf(p.fields);
      }
      return false;
    }
    var seen: set<Field> := {};
    for i := 0 to |p.fields|
      invariant seen == set f | f in p.fields[..i] && f != Other
    {
      if p.fields[i] != Other {
        seen := seen + {p.fields[i]};
      }
    }
    assert p.fields[..|p.fields|] == p.fields;
    EachOnce(p.fields);
    return seen == {Reference, Rate, Bandwidth, Gain, State};
  }

  lemma SizeOf(fields: seq<Field>)
    requires |fields| != 5
    ensures multiset(fields) != STATUS_FIELDS
  {
    assert |multiset(fields)| == |fields| && |STATUS_FIELDS| == 5;
  }

  /** Five fields that name all five settings name each of them once. */
  lemma EachOnce(fields: seq<Field>)
    requires |fields| == 5
    ensures multiset(fields) == STATUS_FIELDS
       <==> (set f | f in fields && f != Other) == {Reference, Rate, Bandwidth, Gain, State}
  {
    if (set f | f in fields && f != Other) == {Reference, Rate, Bandwidth, Gain, State} {
      AllNamed(fields);
    } else if multiset(fields) == STATUS_FIELDS {
      assert forall f :: f in fields <==> f in multiset(fields);
    }
  }

  lemma AllNamed(fields: seq<Field>)
    requires |fields| == 5
    requires (set f | f in fields && f != Other) == {Reference, Rate, Bandwidth, Gain, State}
    ensures multiset(fields) == STATUS_FIELDS
  {
    var m := multiset(fields);
    assert forall f :: f in (set f | f in fields && f != Other) ==> f in m;
    assert Reference in m && Rate in m && Bandwidth in m && Gain in m && State in m;
    assert STATUS_FIELDS <= m;
    SameSize(m, STATUS_FIELDS);
  }

  /** A multiset within another of the same size is all of it. */
  lemma SameSize<T>(m: multiset<T>, n: multiset<T>)
    requires n <= m && |m| == |n|
    ensures m == n
  {
    assert m == n + (m - n);
    assert |m| == |n| + |m - n|;
  }

  class RadioTransport {
    const config: Config
    const slots: array<Slot>
    const control: ControlSlots.ControlSlot
    var connected: bool
    var connectionGeneration: Option<u64>
    var connectedAt: int
    var inputActivity: int
    var pendingStatusRequest: bool
    var cursor: nat
    var open: bool
    var accepting: bool
    var associated: bool
    var completedSubmissions: nat
    var failedSubmissions: nat
    var metrics: Metrics
    ghost var ledger: Ledger
    ghost var past: Past

    ghost function Books(): Submissions.Books
      reads this, slots
    {
      Submissions.Books(slots[..], ledger, completedSubmissions, failedSubmissions)
    }

    ghost function Link(): RadioSteps.Link
      reads this, control
    {
      RadioSteps.Link(connected, connectionGeneration, connectedAt, inputActivity, pendingStatusRequest, control.State())
    }

    /** The state the step functions speak of. */
    ghost function World(): World
      reads this, slots, control
    {
      RadioSteps.World(config, Books(), Link(), cursor, open, accepting, associated, metrics, past)
    }

    ghost predicate Valid()
      reads this, slots, control
    {
      Inv(World())
    }

    constructor (config: Config)
      requires config.Valid()
      ensures Valid() && World() == Fresh(config) && fresh(slots) && fresh(control)
    {
      this.config := config;
      var table := new Slot[TOTAL_SLOTS](_ => FREE_SLOT);
      slots := table;
      control := new ControlSlots.ControlSlot();
      connected, connectionGeneration, connectedAt, inputActivity := false, None, 0, 0;
      pendingStatusRequest, cursor, open, accepting, associated := false, 0, true, true, false;
      completedSubmissions, failedSubmissions := 0, 0;
      metrics := Metrics(0, 0, 0, 0, 0, 0, 0);
      ledger, past := NO_ENTRIES, Past([], {}, false);
      new;
      assert table[..] == seq(TOTAL_SLOTS, i => FREE_SLOT);
      FreshInv(config);
    }

    /** Close the submission of a slot and free it. */
    method Close(i: nat, ok: bool)
      requires i < slots.Length && slots[i].submission.Some?
      modifies this`completedSubmissions, this`failedSubmissions, this`ledger, slots
      ensures Books() == Settle(old(Books()), i, ok)
    {
      if ok {
        completedSubmissions := completedSubmissions + 1;
      } else {
        failedSubmissions := failedSubmissions + 1;
      }
      ledger := ledger.(completed := ledger.completed[Token(i, slots[i].generation) := ok]);
      slots[i] := slots[i].(submission := None, segment := 0, offset := 0, generation := slots[i].generation + 1);
    }

    method FinishSlot(i: nat, now: int)
      requires i < slots.Length && slots[i].submission.Some?
      modifies this`completedSubmissions, this`failedSubmissions, this`ledger, this`pendingStatusRequest, slots, control
      ensures World() == Finish(old(World()), i, now)
    {
      if slots[i].reply && pendingStatusRequest && connectionGeneration.Some? {
        var _ := control.ObserveLiveness(connectionGeneration.value, now);
        pendingStatusRequest := false;
      }
      Close(i, true);
    }

    method FailSlots(all: bool)
      modifies this`completedSubmissions, this`failedSubmissions, this`ledger, slots
      ensures Books() == FailFrom(old(Books()), 0, all)
    {
      for i := 0 to slots.Length
        invariant FailFrom(Books(), i, all) == FailFrom(old(Books()), 0, all)
      {
        if slots[i].submission.Some? && (all || !slots[i].data) {
          Close(i, false);
        }
      }
    }

    method LoseControl()
      modifies this`connected, this`connectionGeneration, this`pendingStatusRequest,
               this`completedSubmissions, this`failedSubmissions, this`ledger, slots, control
      ensures World() == FailControl(old(World()))
    {
      hide FailFrom, ControlSlots.Apply;
      Unlink();
      FailSlots(false);
    }

    method Unlink()
      modifies this`connected, this`connectionGeneration, this`pendingStatusRequest, control
      ensures
        var (was, now) := (old(Link()), Link());
        && now.control == (if was.generation.Some? then ControlSlots.Apply(was.control, ControlSlots.Release(was.generation.value)).0
                           else was.control)
        && now == was.(connected := false, generation := None, requested := false, control := now.control)
    {
      connected := false;
      if connectionGeneration.Some? {
        var _ := control.Release(connectionGeneration.value);
        connectionGeneration := None;
      }
      pendingStatusRequest := false;
    }

    method AcceptController(io: Io) returns (outcome: Outcome)
      modifies this, slots, control
      ensures (World(), outcome) == Accept(old(World()), io)
    {
      hide FailControl, Connected;
      if !accepting || io.accepting.NoController? {
        return Idle;
      }
      if io.accepting.AcceptFailed? || !io.accepting.prepared {
        return Broken;
      }
      if connected {
        metrics := metrics.(rejected := metrics.rejected + 1);
        return Worked;
      }
      var generation := control.Acquire(io.now);
      if generation.Some? {
        past := past.(handed := past.handed + [generation.value], leaked := past.leaked || !associated);
      }
      if generation.None? || !associated {
        return Worked;
      }
      outcome := BeginControl(generation.value, io);
    }

    method BeginControl(generation: u64, io: Io) returns (outcome: Outcome)
      requires io.accepting.Candidate?
      modifies this, slots, control
      ensures
        var begun := Connected(old(World()), generation, io.now);
        (World(), outcome) == if !io.accepting.resets then (FailControl(begun), Broken)
                              else (begun.(metrics := old(metrics).(accepted := old(metrics).accepted + 1)), Worked)
    {
      hide FailControl;
      Connect(generation, io.now);
      if !io.accepting.resets {
        LoseControl();
        return Broken;
      }
      metrics := metrics.(accepted := metrics.accepted + 1);
      return Worked;
    }

    method Connect(generation: u64, now: int)
      modifies this`connected, this`connectionGeneration, this`connectedAt, this`inputActivity
      ensures World() == Connected(old(World()), generation, now)
    {
      connected, connectionGeneration := true, Some(generation);
      connectedAt, inputActivity := now, now;
    }

    method ReceiveControl(io: Io) returns (outcome: Outcome)
      modifies this, slots, control
      ensures (World(), outcome) == Receive(old(World()), io)
    {
      hide FailControl, Heard;
      if !connected || io.receiving.NothingReceived? {
        return Idle;
      }
      if !io.receiving.Received? {
        LoseControl();
        return Worked;
      }
      Hear(io.now, io.receiving.count, io.receiving.packets);
      if io.receiving.delivered.None? || !io.receiving.observed {
        LoseControl();
        return Worked;
      }
      metrics := metrics.(receivedPackets := metrics.receivedPackets + io.receiving.delivered.value);
      return Worked;
    }

    /** Bytes arrived; look for a status request in their packets. */
    method Hear(now: int, count: nat, packets: seq<ControlPacket>)
      modifies this`metrics, this`inputActivity, this`pendingStatusRequest, this`past
      ensures World() == Heard(old(World()), now, count, packets)
    {
      hide AsksStatus;
      metrics := metrics.(receivedBytes := metrics.receivedBytes + count);
      inputActivity := now;
      var asks := LookForRequest(packets);
      if asks {
        pendingStatusRequest := true;
        if connectionGeneration.Some? {
          past := past.(asked := past.asked + {connectionGeneration.value});
        }
      }
    }

    static method LookForRequest(packets: seq<ControlPacket>) returns (asks: bool)
      ensures asks <==> AsksStatus(packets)
    {
      asks := false;
      for k := 0 to |packets|
        invariant asks <==> AsksStatus(packets[..k])
      {
        AskedSoFar(packets, k);
        var status := IsStatusRequest(packets[k]);
        asks := asks || status;
      }
      assert packets[..|packets|] == packets;
    }

    static lemma AskedSoFar(packets: seq<ControlPacket>, k: nat)
      requires k < |packets|
      ensures AsksStatus(packets[..k + 1]) <==> AsksStatus(packets[..k]) || FullStatusRequest(packets[k])
    {
      assert packets[..k + 1] == packets[..k] + [packets[k]];
    }

    /** Offer one submission to its socket. */
    method TransmitSlot(i: nat, io: Io) returns (outcome: Outcome)
      requires i < slots.Length && slots[i].submission.Some? && CursorsOk(Books())
      modifies this, slots, control
      ensures (World(), outcome) == Transmit(old(World()), i, io)
    {
      hide Settle, FailControl, Deliver, TakenOf, CursorsOk, AtEnd;
      if io.now >= slots[i].deadline || (!slots[i].data && !connected) {
        Close(i, false);
        return Worked;
      }
      if io.writing.Retry? {
        metrics := metrics.(writeRetries := metrics.writeRetries + 1);
        return Idle;
      }
      if io.writing.SendFailed? {
        if slots[i].data {
          Close(i, false);
        } else {
          LoseControl();
        }
        return Worked;
      }
      var sent := OfferBytes(i, io.writing.count);
      DeliverBytes(i, sent, io.now);
      return Worked;
    }

    /** Gather what one write offers; the socket takes at most that. */
    method OfferBytes(i: nat, count: nat) returns (sent: nat)
      requires i < slots.Length && slots[i].submission.Some? && CursorsOk(Books())
      ensures sent == TakenOf(World(), i, count)
    {
      var (slot, segments) := (slots[i], slots[i].submission.value);
      var budget := if !slot.data && config.maximumTcpWrite != 0 then Some(config.maximumTcpWrite) else None;
      var vectors := GatherVectors(segments, slot.segment, slot.offset, budget);
      GatherIsRest(segments, slot.segment, slot.offset, budget);
      var offered := TotalSize(vectors);
      return if count <= offered then count else offered;
    }

    method DeliverBytes(i: nat, sent: nat, now: int)
      requires i < slots.Length && slots[i].submission.Some? && CursorsOk(Books())
      requires sent <= |Unsent(slots[i])|
      modifies this, slots, control
      ensures World() == Deliver(old(World()), i, sent, now)
    {
      hide Settle, Take, Sending, Finish, Unsent, CursorsOk;
      var slot := slots[i];
      var size := TotalSize(slot.submission.value);
      TakeBytes(i, sent);
      if slot.data && sent != size {
        Close(i, false);
      } else if slots[i].segment != |slot.submission.value| {
        metrics := metrics.(partialWrites := metrics.partialWrites + 1);
      } else {
        FinishSlot(i, now);
      }
    }

    /** Move a submission's cursor over the bytes taken. */
    method TakeBytes(i: nat, sent: nat)
      requires Busy(Books(), i) && CursorsOk(Books()) && sent <= |Unsent(slots[i])|
      modifies this`metrics, this`ledger, slots
      ensures World() == Sending(old(World()), i, sent)
      ensures slots[i].submission == old(slots[i].submission)
    {
      var slot := slots[i];
      metrics := metrics.(transmittedBytes := metrics.transmittedBytes + sent);
      var segment, offset := AdvanceCursor(slot.submission.value, slot.segment, slot.offset, sent);
      ghost var before := Books();
      ghost var t := TokenOf(before, i);
      ledger := ledger.(taken := ledger.taken[t := TakenBy(before, t) + Unsent(slot)[..sent]]);
      slots[i] := slot.(segment := segment, offset := offset);
    }

    method SendPending(io: Io) returns (outcome: Outcome)
      requires slots.Length > 0 && CursorsOk(Books())
      modifies this, slots, control
      ensures (World(), outcome) == SendNext(old(World()), io)
    {
      hide CursorsOk, Transmit;
      ghost var was := World();
      var attempts := 0;
      while attempts < slots.Length
        invariant attempts <= slots.Length && cursor == was.cursor + attempts
        invariant World() == was.(cursor := cursor)
        invariant Select(was.books.slots, cursor, slots.Length - attempts) == Select(was.books.slots, was.cursor, slots.Length)
      {
        var selected := cursor % slots.Length;
        cursor := cursor + 1;
        if slots[selected].submission.Some? {
          outcome := TransmitSlot(selected, io);
          return;
        }
        attempts := attempts + 1;
      }
      return Idle;
    }

    /** Let go of a controller that stopped reading or whose status went unanswered. */
    method DropStale(io: Io) returns (dropped: bool)
      modifies this, slots, control
      ensures dropped <==> Stale(old(World()), io)
      ensures World() == if dropped then FailControl(old(World()).(link := old(Link()).(control := AfterStaleCheck(old(World()), io))))
                         else old(World())
    {
      hide FailControl;
      dropped := false;
      if connected {
        dropped := io.stalled && io.now - inputActivity >= config.ioTimeout;
        if !dropped && io.now - connectedAt >= config.staleTimeout && control.active.Some? {
          dropped := control.ReleaseIfStale(io.now, config.staleTimeout);
        }
        if dropped {
          LoseControl();
        }
      }
    }

    method ProgressNext(io: Io) returns (outcome: Outcome)
      requires Valid()
      modifies this, slots, control
      ensures Valid() && (World(), outcome) == Progress(old(World()), io)
    {
      ProgressKeeps(World(), io);
      AcceptIdle(World(), io);
      ReceiveIdle(World(), io);
      hide Inv, Accept, Receive, SendNext, FailControl, Stale, AfterStaleCheck, CursorsOk;
      if !open {
        return Idle;
      }
      var dropped := DropStale(io);
      if dropped {
        return Worked;
      }
      outcome := AcceptController(io);
      if outcome != Idle {
        return;
      }
      outcome := ReceiveControl(io);
      if outcome != Idle {
        return;
      }
      outcome := SendPending(io);
    }

    method SendSubmission(offer: Offer, now: int) returns (result: SendResult)
      requires Valid()
      modifies this`ledger, slots
      ensures Valid() && (World(), result) == Send(old(World()), offer, now)
    {
      SendKeeps(World(), offer, now);
      hide Inv, Refusal, Placed;
      var refusal := Refuses(offer);
      if refusal.Some? {
        return Rejected(refusal.value);
      }
      result := PlaceOffer(offer, now);
    }

    /** Find a slot and fill it. */
    method PlaceOffer(offer: Offer, now: int) returns (result: SendResult)
      requires slots.Length == TOTAL_SLOTS && config.Valid() && offer.framing.Some?
      modifies this`ledger, slots
      ensures (World(), result) == Placed(old(World()), offer, now)
    {
      hide Admit, Message;
      var first := if offer.framing.value.command then DATA_SLOTS else 0;
      var free := FindFree(slots, first, first + if offer.framing.value.command then config.controlQueue else DATA_SLOTS);
      hide FirstFree;
      if free.None? {
        return Rejected(CapacityExhausted);
      }
      if !offer.credited {
        return Rejected(InvalidArgument);
      }
      if !offer.queued {
        return Rejected(NoCredit);
      }
      if !offer.counted {
        return Rejected(BadCount);
      }
      var size := TotalSize(offer.segments);
      var data := !offer.framing.value.command;
      var reply := !data && size <= 1024 && offer.statusReply;
      AdmitAt(free.value, Record(offer.segments, data, reply, connectionGeneration), now + config.ioTimeout);
      return Accepted(Token(free.value, slots[free.value].generation));
    }

    /** The checks before a slot is looked for. */
    method Refuses(offer: Offer) returns (refusal: Option<Reject>)
      ensures refusal == Refusal(World(), offer)
    {
      if !open || !associated || !offer.fromLocal || !offer.reserved {
        return Some(InvalidState);
      }
      if offer.framing.None? {
        return Some(BadFrame);
      }
      var data := !offer.framing.value.command;
      if (!data && !connected) || offer.framing.value.packetBytes > (if data then 8192 else 1024)
         || !offer.counterMatches {
        return Some(IdentityConflict);
      }
      return None;
    }

    method AdmitAt(i: nat, record: Record, deadline: int)
      requires i < slots.Length && slots[i].submission.None?
      modifies this`ledger, slots
      ensures Books() == Admit(old(Books()), i, deadline, record)
      ensures slots[i].generation == old(slots[i].generation)
    {
      var token := Token(i, slots[i].generation);
      ledger := ledger.(accepted := ledger.accepted[token := record], taken := ledger.taken[token := []]);
      slots[i] := Slot(Some(record.segments), 0, 0, slots[i].generation, deadline, record.data, record.reply);
    }

    method IsPending(token: Token) returns (yes: bool)
      requires Valid()
      ensures yes <==> token in ledger.accepted && token !in ledger.completed
    {
      BooksBalance(Books());
      assert Pending(Books(), token) <==> token in ledger.accepted && token !in ledger.completed;
      hide *;
      return token.slot < slots.Length && slots[token.slot].generation == token.generation
        && slots[token.slot].submission.Some?;
    }

    method CloseListener()
      requires Valid()
      modifies this`accepting
      ensures Valid() && World() == CloseAdmission(old(World()))
    {
      SameLink(World(), CloseAdmission(World()));
      hide Inv;
      accepting := false;
    }

    method Associate(matches: bool, commit: bool)
      requires Valid()
      modifies this`associated
      ensures Valid() && World() == RadioSteps.Associate(old(World()), matches, commit)
    {
      SameLink(World(), RadioSteps.Associate(World(), matches, commit));
      hide Inv;
      if matches && commit {
        associated := true;
      }
    }

    method DisconnectController()
      requires Valid()
      modifies this, slots, control
      ensures Valid() && World() == FailControl(old(World()))
    {
      InvCloses(World());
      FailControlKeeps(World());
      hide Inv, FailControl;
      LoseControl();
    }

    /** The runtime's own detach: data submissions stay pending. */
    method Unbind()
      requires Valid()
      modifies this, slots, control
      ensures Valid() && World() == RadioSteps.Unbind(old(World()))
    {
      DetachKeeps(World());
      hide Inv, FailControl;
      open := false;
      LoseControl();
    }

    method Detach()
      requires Valid()
      modifies this, slots, control
      ensures Valid() && World() == RadioSteps.Detach(old(World()))
    {
      DetachKeeps(World());
      hide Inv, FailControl;
      if !open {
        return;
      }
      open := false;
      LoseControl();
      FailSlots(true);
    }
  }
}
