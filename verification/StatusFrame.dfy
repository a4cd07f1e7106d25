/** Length-prefixed status messages: the decoder of requests and the encoder of responses. */
module StatusFrame {
  import opened SpectrumTypes
  import BigEndian

  const HEADER_BYTES := 4
  const MAXIMUM_REQUEST_BYTES := 1024
  const MAXIMUM_RESPONSE_BYTES := 4096

  // ----- What a byte stream says -----

  datatype Verdict = Waiting | Ready(payload: seq<byte>) | Broken

  /** A frame is a length between 1 and 1024 and that many bytes, with nothing behind. */
  function Outcome(bytes: seq<byte>): Verdict {
    if |bytes| < HEADER_BYTES then Waiting
    else
      var expected := BigEndian.Value(bytes[..HEADER_BYTES]);
      if expected == 0 || expected > MAXIMUM_REQUEST_BYTES then Broken
      else if |bytes| < HEADER_BYTES + expected then Waiting
      else if |bytes| == HEADER_BYTES + expected then Ready(bytes[HEADER_BYTES..])
      else Broken
  }

  function Frame(payload: seq<byte>): seq<byte> {
    BigEndian.Bytes(|payload|, HEADER_BYTES) + payload
  }

  /** The frames are exactly what the decoder takes. */
  lemma FrameDecodes(bytes: seq<byte>, payload: seq<byte>)
    ensures Outcome(bytes) == Ready(payload) <==> bytes == Frame(payload) && 1 <= |payload| <= MAXIMUM_REQUEST_BYTES
  {
    BigEndian.Limits();
    if Outcome(bytes) == Ready(payload) {
      BigEndian.BytesOfValue(bytes[..HEADER_BYTES]);
      assert bytes == bytes[..HEADER_BYTES] + bytes[HEADER_BYTES..];
    }
    if bytes == Frame(payload) && |payload| <= MAXIMUM_REQUEST_BYTES {
      BigEndian.ValueOfBytes(|payload|, HEADER_BYTES);
      assert bytes[..HEADER_BYTES] == BigEndian.Bytes(|payload|, HEADER_BYTES) && bytes[HEADER_BYTES..] == payload;
    }
  }

  /** A broken stream stays broken, and a ready one breaks with the next byte. */
  lemma OutcomeOfMore(bytes: seq<byte>, more: seq<byte>)
    ensures Outcome(bytes).Broken? ==> Outcome(bytes + more).Broken?
    ensures Outcome(bytes).Ready? && more != [] ==> Outcome(bytes + more).Broken?
  {
    if |bytes| >= HEADER_BYTES {
      assert (bytes + more)[..HEADER_BYTES] == bytes[..HEADER_BYTES];
    }
  }

  // ----- The decoder -----

  datatype Progress = Progress(received: seq<byte>, failed: bool, taken: bool)

  const NOTHING := Progress([], false, false)

  predicate Complete(p: Progress) {
    Outcome(p.received).Ready? && !p.failed && !p.taken
  }

  /** Any call after completion fails the decoder, even with no bytes. */
  function Fed(p: Progress, input: seq<byte>): Progress {
    Progress(p.received + input, p.failed || Complete(p) || Outcome(p.received + input).Broken?, p.taken)
  }

  datatype Taken = Incomplete | Unsupported | Request(payload: seq<byte>)

  /** `supported` says whether the payload is the one request there is. */
  function Take(p: Progress, supported: bool): (Progress, Taken) {
    if !Complete(p) then (p, Incomplete)
    else if !supported then (p, Unsupported)
    else (p.(taken := true), Request(Outcome(p.received).payload))
  }

  class StatusFrameDecoder {
    const header: array<byte>
    const payload: array<byte>
    var headerBytes: nat
    var payloadBytes: nat
    var expected: nat
    var complete: bool
    var failed: bool
    ghost var received: seq<byte>
    ghost var taken: bool

    ghost function State(): Progress
      reads this
    {
      Progress(received, failed, taken)
    }

    ghost predicate Shape()
      reads this
    {
      && header != payload && header.Length == HEADER_BYTES && payload.Length == MAXIMUM_REQUEST_BYTES
      && headerBytes <= HEADER_BYTES && payloadBytes <= MAXIMUM_REQUEST_BYTES
    }

    /** Unless it failed, the buffers hold what was received. */
    ghost predicate Holding(bytes: seq<byte>)
      reads this, header, payload
      requires Shape()
    {
      && bytes == header[..headerBytes] + payload[..payloadBytes]
      && (headerBytes < HEADER_BYTES ==> payloadBytes == 0)
      && (headerBytes == HEADER_BYTES ==>
            expected == BigEndian.Value(header[..]) && 0 < expected <= MAXIMUM_REQUEST_BYTES && payloadBytes <= expected)
    }

    ghost predicate Valid()
      reads this, header, payload
    {
      && Shape()
      && (Outcome(received).Broken? ==> failed)
      && (!failed ==> Holding(received) && (complete <==> Complete(State())) && (taken ==> Outcome(received).Ready?))
    }

    constructor ()
      ensures Valid() && State() == NOTHING && fresh(header) && fresh(payload)
    {
      header := new byte[HEADER_BYTES](_ => 0);
      payload := new byte[MAXIMUM_REQUEST_BYTES](_ => 0);
      headerBytes, payloadBytes, expected, complete, failed := 0, 0, 0, false, false;
      received, taken := [], false;
    }

    static method CopyInto(target: array<byte>, at: nat, bytes: seq<byte>)
      requires at + |bytes| <= target.Length
      modifies target
      ensures target[..at + |bytes|] == old(target[..at]) + bytes
    {
      for i := 0 to |bytes|
        invariant target[..at + i] == old(target[..at]) + bytes[..i]
      {
        target[at + i] := bytes[i];
        assert bytes[..i + 1] == bytes[..i] + [bytes[i]];
      }
      assert bytes[..|bytes|] == bytes;
    }

    /** What the buffers hold decides the outcome so far. */
    lemma HoldingOutcome(bytes: seq<byte>)
      requires Shape() && Holding(bytes)
      ensures !Outcome(bytes).Broken?
      ensures Outcome(bytes).Ready? <==> headerBytes == HEADER_BYTES && payloadBytes == expected
      ensures Outcome(bytes).Ready? ==> Outcome(bytes).payload == payload[..payloadBytes]
    {
      if headerBytes == HEADER_BYTES {
        assert bytes[..HEADER_BYTES] == header[..headerBytes] == header[..];
        assert bytes[HEADER_BYTES..] == payload[..payloadBytes];
      }
    }

    method ReadLength() returns (length: nat)
      requires header.Length == HEADER_BYTES
      ensures length == BigEndian.Value(header[..])
    {
      length := 0;
      for i := 0 to HEADER_BYTES
        invariant length == BigEndian.Value(header[..i])
      {
        assert header[..i + 1][..i] == header[..i];
        length := length * 0x100 + header[i];
      }
      assert header[..HEADER_BYTES] == header[..];
    }

    method FeedHeader(input: seq<byte>) returns (left: seq<byte>)
      requires Shape() && Holding(received) && headerBytes < HEADER_BYTES && input != [] && !failed
      modifies this`headerBytes, this`expected, this`failed, this`received, header
      ensures Shape() && received + left == old(received) + input && |left| < |input|
      ensures failed == Outcome(received).Broken?
      ensures !failed ==> Holding(received)
      ensures failed ==> left == []
    {
      var count := if |input| < HEADER_BYTES - headerBytes then |input| else HEADER_BYTES - headerBytes;
      ghost var before := header[..headerBytes];
      assert payload[..0] == [] && received == before;
      CopyInto(header, headerBytes, input[..count]);
      headerBytes := headerBytes + count;
      received := received + input[..count];
      left := input[count..];
      assert input == input[..count] + input[count..];
      if headerBytes == HEADER_BYTES {
        assert header[..] == header[..headerBytes] == received == received[..HEADER_BYTES];
        expected := ReadLength();
        if expected == 0 || expected > MAXIMUM_REQUEST_BYTES {
          OutcomeOfMore(received, left);
          received := received + left;
          left := [];
          failed := true;
          return;
        }
      }
      HoldingOutcome(received);
    }

    /** At most 1024 bytes are ever stored; one byte more fails the decoder. */
    method FeedPayload(input: seq<byte>) returns (left: seq<byte>)
      requires Shape() && Holding(received) && headerBytes == HEADER_BYTES && !failed
      modifies this`payloadBytes, this`complete, this`failed, this`received, payload
      ensures Shape() && left == [] && received == old(received) + input
      ensures failed == Outcome(received).Broken? && (failed ==> !complete)
      ensures !failed ==> Holding(received) && (complete <==> Outcome(received).Ready?)
    {
      var room := expected - payloadBytes;
      var count := if |input| < room then |input| else room;
      CopyInto(payload, payloadBytes, input[..count]);
      payloadBytes := payloadBytes + count;
      ghost var stored := received + input[..count];
      assert Holding(stored);
      HoldingOutcome(stored);
      complete := payloadBytes == expected;
      left := input[count..];
      received := received + input;
      assert received == stored + left by {
        assert input == input[..count] + input[count..];
      }
      if complete && left != [] {
        OutcomeOfMore(stored, left);
        failed, complete := true, false;
        left := [];
      } else {
        assert left == [];
        assert received == stored;
      }
    }

    /** One turn of the loop. */
    method FeedSome(input: seq<byte>) returns (left: seq<byte>)
      requires Shape() && Holding(received) && !failed && !complete && input != []
      modifies this`headerBytes, this`payloadBytes, this`expected, this`complete, this`failed, this`received, header, payload
      ensures Shape() && received + left == old(received) + input && |left| < |input|
      ensures failed == Outcome(received).Broken?
      ensures failed ==> left == [] && !complete
      ensures !failed ==> Holding(received) && (complete ==> left == [])
      ensures !failed ==> (complete <==> Outcome(received).Ready?)
      ensures Outcome(old(received)).Ready? ==> failed
    {
      HoldingOutcome(received);
      OutcomeOfMore(received, input);
      left := input;
      if headerBytes < HEADER_BYTES {
        left := FeedHeader(left);
      }
      if !failed && headerBytes == HEADER_BYTES {
        left := FeedPayload(left);
      }
      if !failed {
        HoldingOutcome(received);
      }
    }

    method Feed(input: seq<byte>) returns (ok: bool)
      requires Valid()
      modifies this, header, payload
      ensures Valid() && State() == Fed(old(State()), input) && ok == !failed
    {
      if failed || complete {
        failed := true;
        received := received + input;
        return false;
      }
      ghost var all := received + input;
      HoldingOutcome(received);
      var left := input;
      while left != [] && !failed && !complete
        invariant Shape() && received + left == all && taken == old(taken)
        invariant failed <==> Outcome(received).Broken?
        invariant failed || complete ==> left == []
        invariant !failed ==> Holding(received) && (complete <==> Outcome(received).Ready? && !taken)
        invariant taken && !failed ==> Outcome(received).Ready? && left == input
        decreases |left|
      {
        left := FeedSome(left);
      }
      assert received + left == received;
      return !failed;
    }

    method TakeRequest(supported: bool) returns (r: Taken)
      requires Valid()
      modifies this`complete, this`taken
      ensures Valid() && (State(), r) == Take(old(State()), supported)
    {
      if !complete || failed {
        return Incomplete;
      }
      HoldingOutcome(received);
      if !supported {
        return Unsupported;
      }
      complete, taken := false, true;
      return Request(payload[..payloadBytes]);
    }
  }

  // ----- Every run -----

  function FeedAll(chunks: seq<seq<byte>>): Progress {
    if chunks == [] then NOTHING else Fed(FeedAll(chunks[..|chunks| - 1]), chunks[|chunks| - 1])
  }

  function Joined(chunks: seq<seq<byte>>): seq<byte> {
    if chunks == [] then [] else Joined(chunks[..|chunks| - 1]) + chunks[|chunks| - 1]
  }

  /** An empty chunk comes when the request is already complete. */
  predicate EmptyAfterReady(chunks: seq<seq<byte>>) {
    exists k :: 0 <= k < |chunks| && chunks[k] == [] && Outcome(Joined(chunks[..k])).Ready?
  }

  /** However the stream is cut into chunks, the decoder fails and completes as the whole
      stream says, except that an empty chunk behind a complete request fails it too. */
  lemma {:induction false} ChunksDoNotMatter(chunks: seq<seq<byte>>)
    ensures
      var p := FeedAll(chunks);
      && p.received == Joined(chunks) && !p.taken
      && (p.failed <==> Outcome(Joined(chunks)).Broken? || EmptyAfterReady(chunks))
  {
    if chunks != [] {
      var n := |chunks| - 1;
      var before := chunks[..n];
      ChunksDoNotMatter(before);
      OutcomeOfMore(Joined(before), chunks[n]);
      if EmptyAfterReady(before) {
        var k :| 0 <= k < n && before[k] == [] && Outcome(Joined(before[..k])).Ready?;
        assert chunks[k] == [] && chunks[..k] == before[..k];
      }
      if EmptyAfterReady(chunks) {
        var k :| 0 <= k <= n && chunks[k] == [] && Outcome(Joined(chunks[..k])).Ready?;
        assert k < n ==> before[k] == [] && before[..k] == chunks[..k];
        assert Joined(before) + [] == Joined(before);
      }
    }
  }

  /** A request can be taken exactly when the bytes are one frame, however they were cut, and no
      empty chunk came behind it. One that is not supported is refused and stays; one that was
      taken is gone. */
  lemma RequestTaken(chunks: seq<seq<byte>>, payload: seq<byte>)
    ensures
      var p := FeedAll(chunks);
      var whole := Joined(chunks) == Frame(payload) && 1 <= |payload| <= MAXIMUM_REQUEST_BYTES && !EmptyAfterReady(chunks);
      && (Take(p, true).1 == Request(payload) <==> whole)
      && (whole ==> Take(p, false) == (p, Unsupported) && Take(Take(p, true).0, true).1 == Incomplete)
      && (Take(p, false).1.Unsupported? <==> Take(p, true).1.Request?)
      && (Take(p, true).1.Incomplete? <==> Take(p, false).1.Incomplete?)
      && (Take(p, true).1.Incomplete? ==> Take(p, true).0 == p) && Take(p, false).0 == p
  {
    ChunksDoNotMatter(chunks);
    FrameDecodes(Joined(chunks), payload);
    hide Joined, Frame, EmptyAfterReady, FeedAll;
  }

  datatype Op = Feeds(input: seq<byte>) | Takes(supported: bool)

  /** The state after some calls, and the payloads taken, in order. */
  function Run(ops: seq<Op>): (Progress, seq<seq<byte>>) {
    if ops == [] then (NOTHING, [])
    else
      var (p, requests) := Run(ops[..|ops| - 1]);
      match ops[|ops| - 1]
      case Feeds(input) => (Fed(p, input), requests)
      case Takes(supported) =>
        var (after, r) := Take(p, supported);
        (after, if r.Request? then requests + [r.payload] else requests)
  }

  /** No run takes a second request, and the one taken is the frame that was received. */
  lemma {:induction false} OneRequest(ops: seq<Op>)
    ensures
      var (p, requests) := Run(ops);
      && |requests| <= 1 && (p.taken <==> requests != [])
      && (requests != [] ==> 1 <= |requests[0]| <= MAXIMUM_REQUEST_BYTES && Frame(requests[0]) <= p.received)
      && (requests != [] && p.received != Frame(requests[0]) ==> p.failed)
  {
    if ops != [] {
      OneRequest(ops[..|ops| - 1]);
      var (p, requests) := Run(ops[..|ops| - 1]);
      match ops[|ops| - 1] {
        case Feeds(input) =>
          if requests != [] {
            FrameDecodes(Frame(requests[0]), requests[0]);
            OutcomeOfMore(Frame(requests[0]), p.received[|Frame(requests[0])|..] + input);
            assert p.received + input == Frame(requests[0]) + (p.received[|Frame(requests[0])|..] + input);
            assert input == [] ==> p.received + input == p.received;
          }
        case Takes(supported) =>
          if Complete(p) {
            FrameDecodes(p.received, Outcome(p.received).payload);
          }
      }
    }
  }

  // ----- Responses -----

  /** None is the error of a response too large for its bound. */
  method EncodeResponse(payload: seq<byte>) returns (wire: Option<seq<byte>>)
    ensures wire == if 1 <= |payload| <= MAXIMUM_RESPONSE_BYTES then Some(Frame(payload)) else None
  {
    if |payload| == 0 || |payload| > MAXIMUM_RESPONSE_BYTES {
      return None;
    }
    var bytes := new byte[|payload| + HEADER_BYTES](_ => 0);
    for index := 0 to HEADER_BYTES
      invariant bytes[..index] == BigEndian.Bytes(|payload|, HEADER_BYTES)[..index]
    {
      BigEndian.ByteAt(|payload|, HEADER_BYTES, index);
      bytes[index] := BigEndian.ShiftRight(|payload|, HEADER_BYTES - 1 - index) % 0x100;
    }
    StatusFrameDecoder.CopyInto(bytes, HEADER_BYTES, payload);
    assert bytes[..] == bytes[..HEADER_BYTES + |payload|];
    assert BigEndian.Bytes(|payload|, HEADER_BYTES)[..HEADER_BYTES] == BigEndian.Bytes(|payload|, HEADER_BYTES);
    return Some(bytes[..]);
  }
}
