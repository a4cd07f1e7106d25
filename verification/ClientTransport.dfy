/** A controller's transport: one stream connection, opened again after a pause when it is lost. */
module ClientTransports {
  import opened SpectrumTypes
  import opened ScatterGather
  import opened Submissions
  import opened ClientSteps
  import ControlSlots

  class ClientTransport {
    const config: Config
    const slots: array<Slot>
    var connected: bool
    var generation: u64
    var retryAt: int
    var cursor: nat
    var receivedPackets: nat
    var routeFailures: nat
    var open: bool
    var accepting: bool
    var reconnectRequested: bool
    var associated: bool
    ghost var ledger: Ledger
    ghost var successes: nat
    ghost var failures: nat

    ghost function Books(): Submissions.Books
      reads this, slots
    {
      Submissions.Books(slots[..], ledger, successes, failures)
    }

    ghost function World(): World
      reads this, slots
    {
      ClientSteps.World(config, Books(), connected, generation, retryAt, cursor, receivedPackets, routeFailures,
                        open, accepting, reconnectRequested, associated)
    }

    ghost predicate Valid()
      reads this, slots
    {
      Inv(World())
    }

    constructor (config: Config)
      requires config.Valid()
      ensures Valid() && World() == Fresh(config) && fresh(slots)
    {
      this.config := config;
      var table := new Slot[CLIENT_SLOTS](_ => FREE_SLOT);
      slots := table;
      connected, generation, retryAt, cursor, receivedPackets, routeFailures := false, 0, 0, 0, 0, 0;
      open, accepting, reconnectRequested, associated := true, true, true, false;
      ledger, successes, failures := NO_ENTRIES, 0, 0;
      new;
      assert table[..] == seq(CLIENT_SLOTS, i => FREE_SLOT);
      FreshInv(config);
    }

    method Close(i: nat, ok: bool)
      requires i < slots.Length && slots[i].submission.Some?
      modifies this`successes, this`failures, this`ledger, slots
      ensures Books() == Settle(old(Books()), i, ok)
    {
      if ok {
        successes := successes + 1;
      } else {
        failures := failures + 1;
      }
      ledger := ledger.(completed := ledger.completed[Token(i, slots[i].generation) := ok]);
      slots[i] := slots[i].(submission := None, segment := 0, offset := 0, generation := slots[i].generation + 1);
    }

    method FailSlots()
      modifies this`successes, this`failures, this`ledger, slots
      ensures Books() == FailFrom(old(Books()), 0, true)
    {
      for i := 0 to slots.Length
        invariant FailFrom(Books(), i, true) == FailFrom(old(Books()), 0, true)
      {
        if slots[i].submission.Some? {
          Close(i, false);
        }
      }
    }

    method LoseConnection(now: int)
      modifies this`connected, this`reconnectRequested, this`retryAt, this`successes, this`failures, this`ledger, slots
      ensures World() == Fail(old(World()), now)
    {
      connected := false;
      FailSlots();
      reconnectRequested := true;
      retryAt := now + RETRY_DELAY;
    }

    method ReceiveBytes(io: Io) returns (outcome: Outcome)
      modifies this, slots
      ensures (World(), outcome) == Receive(old(World()), io)
    {
      hide Fail;
      if io.receiving.NothingReceived? {
        return Idle;
      }
      if !io.receiving.Received? {
        LoseConnection(io.now);
        return Worked;
      }
      if io.receiving.fed.None? {
        routeFailures := routeFailures + 1;
        LoseConnection(io.now);
        return Worked;
      }
      receivedPackets := receivedPackets + io.receiving.fed.value;
      return Worked;
    }

    method TransmitSlot(i: nat, io: Io) returns (outcome: Outcome)
      requires i < slots.Length && slots[i].submission.Some? && CursorsOk(Books())
      modifies this, slots
      ensures (World(), outcome) == Transmit(old(World()), i, io)
    {
      hide Fail, Settle, Take, TakenOf, CursorsOk;
      if io.now >= slots[i].deadline || !connected {
        LoseConnection(io.now);
        return Worked;
      }
      if io.writing.Retry? {
        return Idle;
      }
      if io.writing.SendFailed? {
        LoseConnection(io.now);
        return Worked;
      }
      TakeBytes(i, io.writing.count);
      if slots[i].segment == |slots[i].submission.value| {
        Close(i, true);
      }
      return Worked;
    }

    /** Offer what is left of a message and move its cursor over what the socket takes. */
    method TakeBytes(i: nat, count: nat)
      requires Busy(Books(), i) && CursorsOk(Books())
      modifies this`ledger, slots
      ensures Books() == Take(old(Books()), i, TakenOf(old(World()), i, count))
      ensures slots[i].submission.Some?
    {
      var (slot, segments) := (slots[i], slots[i].submission.value);
      var vectors := GatherVectors(segments, slot.segment, slot.offset, None);
      GatherIsRest(segments, slot.segment, slot.offset, None);
      var offered := TotalSize(vectors);
      var sent := if count <= offered then count else offered;
      var segment, offset := AdvanceCursor(segments, slot.segment, slot.offset, sent);
      ghost var before := Books();
      ghost var t := TokenOf(before, i);
      ledger := ledger.(taken := ledger.taken[t := TakenBy(before, t) + Unsent(slot)[..sent]]);
      slots[i] := slot.(segment := segment, offset := offset);
    }

    method SendPending(io: Io) returns (outcome: Outcome)
      requires slots.Length > 0 && CursorsOk(Books())
      modifies this, slots
      ensures (World(), outcome) == SendNext(old(World()), io)
    {
      hide CursorsOk, Transmit;
      ghost var was := World();
      var attempts := 0;
      while attempts < slots.Length
        invariant attempts <= slots.Length && cursor == was.cursor + attempts
        invariant World() == was.(cursor := cursor)
        invariant Select(was.books.slots, cursor, slots.Length - attempts) == Select(was.books.slots, was.cursor, slots.Length)
      {
        var selected := cursor % slots.Length;
        cursor := cursor + 1;
        if slots[selected].submission.Some? {
          outcome := TransmitSlot(selected, io);
          return;
        }
        attempts := attempts + 1;
      }
      return Idle;
    }

    method ConnectAgain(io: Io) returns (outcome: Outcome)
      modifies this, slots
      ensures (World(), outcome) == Connect(old(World()), io)
    {
      hide Fail;
      if io.connecting.Unreachable? {
        retryAt := io.now + RETRY_DELAY;
        return Idle;
      }
      connected, reconnectRequested := true, false;
      generation := ControlSlots.Increment(generation);
      if !io.connecting.resets {
        LoseConnection(io.now);
        return Broken;
      }
      return Worked;
    }

    method ProgressNext(io: Io) returns (outcome: Outcome)
      requires Valid()
      modifies this, slots
      ensures Valid() && (World(), outcome) == Progress(old(World()), io)
    {
      ProgressKeeps(World(), io);
      ReceiveIdle(World(), io);
      hide Inv, Connect, Receive, SendNext, CursorsOk;
      if !open {
        return Idle;
      }
      if reconnectRequested && accepting && io.now >= retryAt && associated {
        outcome := ConnectAgain(io);
        return;
      }
      if connected {
        outcome := ReceiveBytes(io);
        if outcome != Idle {
          return;
        }
      }
      outcome := SendPending(io);
    }

    method SendSubmission(offer: Offer, now: int) returns (result: SendResult)
      requires Valid()
      modifies this`ledger, slots
      ensures Valid() && (World(), result) == Send(old(World()), offer, now)
    {
      SendKeeps(World(), offer, now);
      hide Inv, Admit;
      if !open || !connected || !associated || !offer.fromLocal || !offer.reserved {
        return Rejected(InvalidState);
      }
      if offer.framing.None? {
        return Rejected(BadFrame);
      }
      if !offer.framing.value.command || offer.framing.value.packetBytes > 2048 {
        return Rejected(InvalidArgument);
      }
      var free := FindFree(slots, 0, config.queueLimit);
      hide FirstFree;
      if free.None? {
        return Rejected(CapacityExhausted);
      }
      if !offer.queued {
        return Rejected(NoCredit);
      }
      if !offer.counted {
        return Rejected(BadCount);
      }
      AdmitAt(free.value, Record(offer.segments, false, false, Some(generation)), now + config.ioTimeout);
      return Accepted(Token(free.value, slots[free.value].generation));
    }

    method AdmitAt(i: nat, record: Record, deadline: int)
      requires i < slots.Length && slots[i].submission.None?
      modifies this`ledger, slots
      ensures Books() == Admit(old(Books()), i, deadline, record)
      ensures slots[i].generation == old(slots[i].generation)
    {
      var token := Token(i, slots[i].generation);
      ledger := ledger.(accepted := ledger.accepted[token := record], taken := ledger.taken[token := []]);
      slots[i] := Slot(Some(record.segments), 0, 0, slots[i].generation, deadline, record.data, record.reply);
    }

    method IsPending(token: Token) returns (yes: bool)
      requires Valid()
      ensures yes <==> token in ledger.accepted && token !in ledger.completed
    {
      BooksBalance(Books());
      assert Pending(Books(), token) <==> token in ledger.accepted && token !in ledger.completed;
      hide *;
      return token.slot < slots.Length && slots[token.slot].generation == token.generation
        && slots[token.slot].submission.Some?;
    }

    method RequestReconnect(now: int)
      requires Valid()
      modifies this, slots
      ensures Valid() && World() == ClientSteps.RequestReconnect(old(World()), now)
    {
      LossKeeps(World(), now);
      NobodyWaitsUnless(World());
      hide Inv, Fail;
      if connected {
        LoseConnection(now);
      } else {
        reconnectRequested := true;
      }
    }

    method Detach(now: int)
      requires Valid()
      modifies this, slots
      ensures Valid() && World() == ClientSteps.Detach(old(World()), now)
    {
      LossKeeps(World().(open := false), now);
      hide Inv, Fail;
      if open {
        open := false;
        LoseConnection(now);
      }
    }
  }
}
