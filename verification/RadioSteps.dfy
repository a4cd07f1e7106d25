/** What each step of the radio's transport does, and what every step keeps. */
module RadioSteps {
  import opened SpectrumTypes
  import opened ScatterGather
  import opened Submissions
  import ControlSlots

  const DATA_SLOTS := 256
  const TOTAL_SLOTS := 320

  datatype Config = Config(controlQueue: nat, ioTimeout: nat, staleTimeout: nat, maximumTcpWrite: nat) {
    predicate Valid() {
      && 0 < controlQueue <= TOTAL_SLOTS - DATA_SLOTS
      && 0 < ioTimeout && 0 < staleTimeout && maximumTcpWrite <= 4096
    }
  }

  // ----- Control packets -----

  datatype Field = Reference | Rate | Bandwidth | Gain | State | Other

  datatype ControlPacket = ControlPacket(
    decoded: bool, command: bool, acknowledge: bool, cancel: bool,
    profiled: bool, action: nat, requestsState: bool, fields: seq<Field>)

  const STATUS_FIELDS: multiset<Field> := multiset{Reference, Rate, Bandwidth, Gain, State}

  /** A query for the state that names each of the five settings once. */
  predicate FullStatusRequest(p: ControlPacket) {
    && p.decoded && p.command && !p.acknowledge && !p.cancel
    && p.profiled && p.action == 0 && p.requestsState
    && multiset(p.fields) == STATUS_FIELDS
  }

  predicate AsksStatus(packets: seq<ControlPacket>) {
    exists p :: p in packets && FullStatusRequest(p)
  }

  // ----- Inputs of a step -----

  datatype Accepting = NoController | AcceptFailed | Candidate(prepared: bool, resets: bool)

  datatype Receiving =
    | Closed
    | NothingReceived
    | ReceiveFailed
    | Received(count: nat, packets: seq<ControlPacket>, delivered: Option<nat>, observed: bool)

  /** The socket never takes more than it is offered. */
  datatype Writing = Sent(count: nat) | Retry | SendFailed

  datatype Io = Io(now: int, stalled: bool, accepting: Accepting, receiving: Receiving, writing: Writing)

  datatype Framing = Framing(command: bool, packetBytes: nat)

  datatype Offer = Offer(
    segments: Segments, fromLocal: bool, reserved: bool, framing: Option<Framing>, counterMatches: bool,
    credited: bool, queued: bool, counted: bool, statusReply: bool)

  datatype Reject = InvalidState | BadFrame | IdentityConflict | CapacityExhausted | InvalidArgument | NoCredit | BadCount

  datatype SendResult = Accepted(token: Token) | Rejected(error: Reject)

  datatype Outcome = Idle | Worked | Broken

  // ----- State -----

  datatype Link = Link(
    connected: bool, generation: Option<u64>, connectedAt: int, inputActivity: int, requested: bool,
    control: ControlSlots.SlotState)

  datatype Metrics = Metrics(
    accepted: nat, rejected: nat, receivedBytes: nat, receivedPackets: nat, transmittedBytes: nat,
    partialWrites: nat, writeRetries: nat)

  /** What the transport itself does not remember: the generations it was given, those on
      which a full status request arrived, and whether a generation was taken before the
      association and never given back. */
  datatype Past = Past(handed: seq<u64>, asked: set<u64>, leaked: bool)

  datatype World = World(
    config: Config, books: Books, link: Link, cursor: nat, open: bool, accepting: bool, associated: bool,
    metrics: Metrics, past: Past)

  function Fresh(config: Config): World {
    World(config, Books(seq(TOTAL_SLOTS, i => FREE_SLOT), NO_ENTRIES, 0, 0),
          Link(false, None, 0, 0, false, ControlSlots.EMPTY), 0, true, true, false,
          Metrics(0, 0, 0, 0, 0, 0, 0), Past([], {}, false))
  }

  // ----- Steps -----

  /** The controller is gone: its generation is released and its submissions fail. */
  function FailControl(w: World): World {
    w.(link := w.link.(
         connected := false, generation := None, requested := false,
         control := if w.link.generation.Some?
                    then ControlSlots.Apply(w.link.control, ControlSlots.Release(w.link.generation.value)).0
                    else w.link.control),
       books := FailFrom(w.books, 0, false))
  }

  /** The control slot hands out a generation; before the association nothing holds it. */
  function Owned(w: World, control: ControlSlots.SlotState, generation: u64): World {
    w.(link := w.link.(control := control),
       past := w.past.(handed := w.past.handed + [generation], leaked := w.past.leaked || !w.associated))
  }

  function Connected(w: World, generation: u64, now: int): World {
    w.(link := w.link.(connected := true, generation := Some(generation), connectedAt := now, inputActivity := now))
  }

  function Accept(w: World, io: Io): (World, Outcome) {
    if !w.accepting || io.accepting.NoController? then (w, Idle)
    else if io.accepting.AcceptFailed? || !io.accepting.prepared then (w, Broken)
    else if w.link.connected then (w.(metrics := w.metrics.(rejected := w.metrics.rejected + 1)), Worked)
    else
      var (control, ok, generation) := ControlSlots.Apply(w.link.control, ControlSlots.Acquire(io.now));
      if generation.None? then (w, Worked)
      else
        var taken := Owned(w, control, generation.value);
        if !w.associated then (taken, Worked)
        else
          var connected := Connected(taken, generation.value, io.now);
          if !io.accepting.resets then (FailControl(connected), Broken)
          else (connected.(metrics := w.metrics.(accepted := w.metrics.accepted + 1)), Worked)
  }

  /** Bytes arrived, and with them these packets. */
  function Heard(w: World, now: int, count: nat, packets: seq<ControlPacket>): World {
    var asks := AsksStatus(packets);
    w.(link := w.link.(inputActivity := now, requested := w.link.requested || asks),
       metrics := w.metrics.(receivedBytes := w.metrics.receivedBytes + count),
       past := if asks && w.link.generation.Some?
               then w.past.(asked := w.past.asked + {w.link.generation.value}) else w.past)
  }

  function Receive(w: World, io: Io): (World, Outcome) {
    if !w.link.connected || io.receiving.NothingReceived? then (w, Idle)
    else match io.receiving {
      case Received(count, packets, delivered, observed) =>
        var heard := Heard(w, io.now, count, packets);
        if delivered.None? || !observed then (FailControl(heard), Worked)
        else (heard.(metrics := heard.metrics.(receivedPackets := heard.metrics.receivedPackets + delivered.value)), Worked)
      case _ => (FailControl(w), Worked)
    }
  }

  /** The submission of slot `i` succeeded; a status reply also shows that the owner lives. */
  function Finish(w: World, i: nat, now: int): World
    requires Busy(w.books, i)
  {
    var link := w.link;
    var live := w.books.slots[i].reply && link.requested && link.generation.Some?;
    w.(books := Settle(w.books, i, true),
       link := if live
               then link.(control := ControlSlots.Apply(link.control, ControlSlots.ObserveLiveness(link.generation.value, now)).0,
                          requested := false)
               else link)
  }

  function Budget(w: World, slot: Slot): Option<nat> {
    if !slot.data && w.config.maximumTcpWrite != 0 then Some(w.config.maximumTcpWrite) else None
  }

  /** How much the socket takes of what one write offers it. */
  function TakenOf(w: World, i: nat, count: nat): (n: nat)
    requires Busy(w.books, i)
    ensures n <= |Unsent(w.books.slots[i])|
  {
    var offered := |Clip(Unsent(w.books.slots[i]), Budget(w, w.books.slots[i]))|;
    if count <= offered then count else offered
  }

  /** The socket takes `n` bytes of the submission in slot `i`. */
  function Sending(w: World, i: nat, n: nat): World
    requires Busy(w.books, i) && CursorsOk(w.books) && n <= |Unsent(w.books.slots[i])|
  {
    w.(books := Take(w.books, i, n), metrics := w.metrics.(transmittedBytes := w.metrics.transmittedBytes + n))
  }

  /** A datagram that went out short is given up; otherwise the cursor at the end of the
      message means success. */
  function Deliver(w: World, i: nat, n: nat, now: int): World
    requires Busy(w.books, i) && CursorsOk(w.books) && n <= |Unsent(w.books.slots[i])|
  {
    var (slot, sent) := (w.books.slots[i], Sending(w, i, n));
    if slot.data && n != |Message(slot.submission.value)| then sent.(books := Settle(sent.books, i, false))
    else if !AtEnd(sent.books.slots[i]) then
      sent.(metrics := sent.metrics.(partialWrites := sent.metrics.partialWrites + 1))
    else Finish(sent, i, now)
  }

  function Transmit(w: World, i: nat, io: Io): (World, Outcome)
    requires Busy(w.books, i) && CursorsOk(w.books)
  {
    var slot := w.books.slots[i];
    if io.now >= slot.deadline || (!slot.data && !w.link.connected) then
      (w.(books := Settle(w.books, i, false)), Worked)
    else match io.writing {
      case Retry => (w.(metrics := w.metrics.(writeRetries := w.metrics.writeRetries + 1)), Idle)
      case SendFailed => (if slot.data then w.(books := Settle(w.books, i, false)) else FailControl(w), Worked)
      case Sent(count) =>
        (Deliver(w, i, TakenOf(w, i, count), io.now), Worked)
    }
  }

  /** The controller stopped reading, or no status reply reached it for too long. */
  predicate Stale(w: World, io: Io) {
    && w.link.connected
    && (|| (io.stalled && io.now - w.link.inputActivity >= w.config.ioTimeout)
        || (io.now - w.link.connectedAt >= w.config.staleTimeout
            && ControlSlots.Apply(w.link.control, ControlSlots.ReleaseIfStale(io.now, w.config.staleTimeout)).1))
  }

  /** The control slot after the stale check. */
  function AfterStaleCheck(w: World, io: Io): ControlSlots.SlotState {
    if io.stalled && io.now - w.link.inputActivity >= w.config.ioTimeout then w.link.control
    else ControlSlots.Apply(w.link.control, ControlSlots.ReleaseIfStale(io.now, w.config.staleTimeout)).0
  }

  function SendNext(w: World, io: Io): (World, Outcome)
    requires CursorsOk(w.books) && w.books.slots != []
  {
    var (cursor, selected) := Select(w.books.slots, w.cursor, |w.books.slots|);
    var moved := w.(cursor := cursor);
    if selected.None? then (moved, Idle) else Transmit(moved, selected.value, io)
  }

  function Progress(w: World, io: Io): (World, Outcome)
    requires CursorsOk(w.books) && w.books.slots != []
  {
    if !w.open then (w, Idle)
    else if Stale(w, io) then (FailControl(w.(link := w.link.(control := AfterStaleCheck(w, io)))), Worked)
    else
      var (accepted, r) := Accept(w, io);
      if !r.Idle? then (accepted, r)
      else
        var (received, s) := Receive(w, io);
        if !s.Idle? then (received, s) else SendNext(w, io)
  }

  /** Why an offer is turned away before a slot is looked for. */
  function Refusal(w: World, offer: Offer): Option<Reject> {
    if !w.open || !w.associated || !offer.fromLocal || !offer.reserved then Some(InvalidState)
    else if offer.framing.None? then Some(BadFrame)
    else
      var data := !offer.framing.value.command;
      if (!data && !w.link.connected) || offer.framing.value.packetBytes > (if data then 8192 else 1024)
         || !offer.counterMatches then Some(IdentityConflict)
      else None
  }

  /** Why it is turned away although there is room. */
  function Withheld(offer: Offer): Option<Reject> {
    if !offer.credited then Some(InvalidArgument)
    else if !offer.queued then Some(NoCredit)
    else if !offer.counted then Some(BadCount)
    else None
  }

  function FirstSlot(offer: Offer): nat
    requires offer.framing.Some?
  {
    if offer.framing.value.command then DATA_SLOTS else 0
  }

  function LastSlot(w: World, offer: Offer): nat
    requires offer.framing.Some?
  {
    if offer.framing.value.command then DATA_SLOTS + w.config.controlQueue else DATA_SLOTS
  }

  function RecordOf(w: World, offer: Offer): Record
    requires offer.framing.Some?
  {
    var data := !offer.framing.value.command;
    Record(offer.segments, data, !data && |Message(offer.segments)| <= 1024 && offer.statusReply, w.link.generation)
  }

  /** An offer that is not turned away goes to the first free slot of its kind. */
  function Placed(w: World, offer: Offer, now: int): (World, SendResult)
    requires |w.books.slots| == TOTAL_SLOTS && w.config.Valid() && offer.framing.Some?
  {
    var selected := FirstFree(w.books.slots, FirstSlot(offer), LastSlot(w, offer));
    if selected.None? then (w, Rejected(CapacityExhausted))
    else if Withheld(offer).Some? then (w, Rejected(Withheld(offer).value))
    else
      (w.(books := Admit(w.books, selected.value, now + w.config.ioTimeout, RecordOf(w, offer))),
       Accepted(TokenOf(w.books, selected.value)))
  }

  function Send(w: World, offer: Offer, now: int): (World, SendResult)
    requires |w.books.slots| == TOTAL_SLOTS && w.config.Valid()
  {
    if Refusal(w, offer).Some? then (w, Rejected(Refusal(w, offer).value)) else Placed(w, offer, now)
  }

  function CloseAdmission(w: World): World {
    w.(accepting := false)
  }

  /** `associated` says whether the association names the configured peers and stream. */
  function Associate(w: World, matches: bool, commit: bool): World {
    if matches && commit then w.(associated := true) else w
  }

  /** The runtime lets go of the transport: data submissions stay where they are. */
  function Unbind(w: World): World {
    FailControl(w.(open := false))
  }

  /** The radio lets go of it: every submission fails. */
  function Detach(w: World): World {
    if !w.open then w
    else
      var failed := FailControl(w.(open := false));
      failed.(books := FailFrom(failed.books, 0, true))
  }

  datatype Op =
    | Sends(offer: Offer, now: int)
    | Progresses(io: Io)
    | Associates(matches: bool, commit: bool)
    | ClosesAdmission
    | Disconnects
    | Unbinds
    | Detaches

  function Next(w: World, op: Op): World
    requires CursorsOk(w.books) && |w.books.slots| == TOTAL_SLOTS && w.config.Valid()
  {
    match op
    case Sends(offer, now) => Send(w, offer, now).0
    case Progresses(io) => Progress(w, io).0
    case Associates(matches, commit) => Associate(w, matches, commit)
    case ClosesAdmission => CloseAdmission(w)
    case Disconnects => FailControl(w)
    case Unbinds => Unbind(w)
    case Detaches => Detach(w)
  }

  // ----- What every step keeps -----

  /** The transport holds a generation exactly while it is connected, and the control slot
      is then active with that generation; otherwise it is free unless one leaked. */
  predicate LinkOk(link: Link, past: Past) {
    && (link.connected <==> link.generation.Some?)
    && (link.connected ==> link.control.active == link.generation && !past.leaked)
    && (!link.connected ==> (link.control.active.Some? <==> past.leaked))
    && (link.requested ==> link.generation.Some? && link.generation.value in past.asked)
  }

  /** Generations are handed out in order and never again. */
  predicate HandedOk(control: ControlSlots.SlotState, handed: seq<u64>) {
    && |handed| <= 0xffff_ffff_ffff_ffff
    && (forall i :: 0 <= i < |handed| ==> handed[i] == i + 1)
    && control.next == (if |handed| == 0xffff_ffff_ffff_ffff then 0 else |handed| + 1)
    && (control.active.Some? ==> handed != [] && control.active.value == |handed|)
  }

  /** Data and control submissions keep to their own slots; a control submission belongs to
      the present connection; a datagram is unsent or was offered whole. */
  predicate PlaceOk(config: Config, books: Books, link: Link, i: nat)
    requires i < |books.slots|
  {
    var slot := books.slots[i];
    slot.submission.Some? ==>
      var t := TokenOf(books, i);
      && (slot.data <==> i < DATA_SLOTS)
      && (!slot.data ==>
            && i < DATA_SLOTS + config.controlQueue
            && link.connected && t in books.ledger.accepted
            && books.ledger.accepted[t].connection == link.generation)
      && (slot.reply ==> !slot.data)
      && (slot.data ==> Unsent(slot) == [] || Unsent(slot) == Message(slot.submission.value))
  }

  predicate PlacesOk(config: Config, books: Books, link: Link) {
    forall i: nat :: i < |books.slots| ==> PlaceOk(config, books, link, i)
  }

  ghost predicate Inv(w: World) {
    && w.config.Valid() && |w.books.slots| == TOTAL_SLOTS
    && BooksOk(w.books) && CursorsOk(w.books)
    && LinkOk(w.link, w.past) && HandedOk(w.link.control, w.past.handed)
    && PlacesOk(w.config, w.books, w.link)
    && (!w.open ==> !w.link.connected)
  }
}
