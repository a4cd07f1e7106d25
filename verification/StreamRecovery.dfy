/** What the processor makes of a lossy run of packets from one sender. */
module StreamRecovery {
  import opened ComplexNumbers
  import opened SpectrumTypes
  import opened SampleTime
  import opened ProcessorSpec
  import opened Conservation
  import opened Reassembly

  /** The stream, the counters and the windows after the packets below n that arrived. */
  ghost function Heard(config: Config, listener: nat, sender: Sender, arrived: seq<bool>, s: StreamState, m: Metrics, n: nat)
    : (r: (StreamState, Metrics, seq<Window>))
    requires config.Valid() && 1 <= listener <= 4 && StreamOk(config, s) && s.metadataValid
    requires SenderOk(config, sender) && n <= |arrived| == |sender.packets|
    ensures StreamOk(config, r.0) && r.0.metadataValid && r.0.rate == s.rate
  {
    if n == 0 then (s, m, [])
    else
      var (before, counters, windows) := Heard(config, listener, sender, arrived, s, m, n - 1);
      if !arrived[n - 1] then (before, counters, windows)
      else
        var data := Packet(sender, n - 1);
        DataStepOk(config, listener, before, counters, data);
        var (after, counted, full, output) := DataStep(config, listener, before, counters, data);
        (after, counted, windows + full)
  }

  /** No packet is discarded because its missing samples would precede time zero. */
  predicate Dated(sender: Sender, arrived: seq<bool>, rate: u32, n: nat)
    requires n <= |arrived| == |sender.packets| == |sender.times| && rate > 0
  {
    forall i :: 0 <= i < n && arrived[i] ==>
      var missing := Span(sender, Losses(arrived, i) % 16);
      missing < WORD && (missing == 0 || SubtractSamples(sender.times[i], missing, rate).Some?)
  }

  /** The first missing sample before packet i, dated from the packet's own time. */
  function GapBegin(sender: Sender, arrived: seq<bool>, rate: u32, i: nat): ProtocolTime
    requires i < |arrived| == |sender.packets| == |sender.times| && rate > 0 && arrived[i] && Dated(sender, arrived, rate, i + 1)
  {
    var missing := Span(sender, Losses(arrived, i) % 16);
    if missing == 0 then sender.times[i] else SubtractSamples(sender.times[i], missing, rate).value
  }

  /** The items the processor takes from the packets below n. */
  function HeardItems(sender: Sender, arrived: seq<bool>, rate: u32, n: nat): seq<Item>
    requires n <= |arrived| == |sender.packets| == |sender.times| && rate > 0 && Dated(sender, arrived, rate, n)
  {
    if n == 0 then []
    else if !arrived[n - 1] then HeardItems(sender, arrived, rate, n - 1)
    else HeardItems(sender, arrived, rate, n - 1) + PacketItems(sender, arrived, rate, n - 1)
  }

  function PacketItems(sender: Sender, arrived: seq<bool>, rate: u32, i: nat): seq<Item>
    requires i < |arrived| == |sender.packets| == |sender.times| && rate > 0 && arrived[i] && Dated(sender, arrived, rate, i + 1)
  {
    GapItems(Span(sender, Losses(arrived, i) % 16), GapBegin(sender, arrived, rate, i), rate)
    + PairItems(Readings(sender.packets[i]), sender.times[i])
  }

  // ----- One packet -----

  /** The stream remembers the count of the last packet that arrived. */
  predicate Linked(sender: Sender, arrived: seq<bool>, n: nat, s: StreamState)
    requires 0 < n <= |arrived|
  {
    s.packetCount == Some(PacketCount(sender, n - 1 - SmallLosses(arrived, n))) && s.previousPairs == sender.size
  }

  function SmallLosses(arrived: seq<bool>, n: nat): (l: nat)
    requires 0 < n <= |arrived|
    ensures l == Losses(arrived, n) <= n - 1
  {
    LossesBelow(arrived, n);
    Losses(arrived, n)
  }

  lemma {:induction false} LossesBelow(arrived: seq<bool>, n: nat)
    requires 0 < n <= |arrived|
    ensures Losses(arrived, n) <= n - 1
  {
    if n > 1 {
      LossesBelow(arrived, n - 1);
    }
  }

  lemma GapIsLosses(sender: Sender, arrived: seq<bool>, n: nat, s: StreamState)
    requires 0 < n < |arrived| && Linked(sender, arrived, n, s)
    ensures Gap(s, PacketCount(sender, n)) == Losses(arrived, n) % 16
  {
    var l := SmallLosses(arrived, n);
    CountDifference(sender.firstCount + n - 1 - l, l);
  }

  /** A packet that comes twice looks like 15 lost ones, and nothing else does. */
  lemma DuplicateCountsAsLost(s: StreamState, packetCount: u4)
    requires s.packetCount.Some?
    ensures Gap(s, packetCount) == 15 <==> packetCount == s.packetCount.value
  {}

  lemma CountDifference(a: nat, l: nat)
    ensures ((a + l + 1) % 16 - (a % 16 + 1) % 16) % 16 == l % 16
  {}

  lemma {:induction false} AllReadable(pairs: seq<Option<Iq>>)
    requires forall i :: 0 <= i < |pairs| ==> pairs[i].Some?
    ensures Readable(pairs) == |pairs|
  {
    if pairs != [] {
      AllReadable(pairs[1..]);
    }
  }

  /** An arriving packet pushes exactly its items. */
  lemma PacketStep(config: Config, listener: nat, sender: Sender, arrived: seq<bool>, s: StreamState, m: Metrics, i: nat)
    requires config.Valid() && 1 <= listener <= 4 && StreamOk(config, s) && s.metadataValid && SenderOk(config, sender)
    requires i < |arrived| == |sender.packets| && arrived[i] && Dated(sender, arrived, s.rate, i + 1)
    requires if i == 0 then s.packetCount.None? else Linked(sender, arrived, i, s)
    ensures
      var data := Packet(sender, i);
      var (after, counted, full, output) := DataStep(config, listener, s, m, data);
      && (after, full) == PushAll(config, Counted(s, data), PacketItems(sender, arrived, s.rate, i))
      && Linked(sender, arrived, i + 1, after)
  {
    hide *;
    PacketShape(config, sender, s);
    var data := Packet(sender, i);
    MissingBefore(config, sender, arrived, s, i);
    DataStepPushes(config, listener, s, m, data);
    LinkAfter(config, sender, arrived, s, i, PacketItems(sender, arrived, s.rate, i));
  }

  lemma PacketShape(config: Config, sender: Sender, s: StreamState)
    requires SenderOk(config, sender) && StreamOk(config, s) && s.metadataValid
    ensures |sender.times| == |sender.packets| && s.rate > 0
  {
    hide SampleOk;
  }

  lemma LinkAfter(config: Config, sender: Sender, arrived: seq<bool>, s: StreamState, i: nat, items: seq<Item>)
    requires SenderOk(config, sender) && i < |arrived| == |sender.packets| && arrived[i]
    ensures Linked(sender, arrived, i + 1, PushAll(config, Counted(s, Packet(sender, i)), items).0)
  {
    PushAllKeepsLink(config, Counted(s, Packet(sender, i)), items);
    NoLossAfterArrival(arrived, i);
    hide PushAll, Gap, Losses;
  }

  /** What the counter says is missing before an arriving packet, and when it began. */
  lemma MissingBefore(config: Config, sender: Sender, arrived: seq<bool>, s: StreamState, i: nat)
    requires config.Valid() && StreamOk(config, s) && s.metadataValid && SenderOk(config, sender)
    requires i < |arrived| == |sender.packets| && arrived[i] && Dated(sender, arrived, s.rate, i + 1)
    requires if i == 0 then s.packetCount.None? else Linked(sender, arrived, i, s)
    ensures SamplesOk(config, Packet(sender, i)) && MissingPairs(s, Packet(sender, i)) < WORD
    ensures MissingBegin(s, Packet(sender, i)).Some?
    ensures Items(s, Packet(sender, i)) == PacketItems(sender, arrived, s.rate, i)
  {
    var data := Packet(sender, i);
    if i > 0 {
      GapIsLosses(sender, arrived, i, s);
    }
    SpanLaws(sender, 0, 0);
    assert MissingPairs(s, data) == Span(sender, Losses(arrived, i) % 16) by {
      hide Gap;
    }
    hide Gap, Span, Losses, GapItems, PairItems, Norm, Power, SampleOk, MissingPairs, SubtractSamples;
  }

  lemma DataStepPushes(config: Config, listener: nat, s: StreamState, m: Metrics, data: Data)
    requires config.Valid() && 1 <= listener <= 4 && StreamOk(config, s) && s.metadataValid && SamplesOk(config, data)
    requires MissingPairs(s, data) < WORD && MissingBegin(s, data).Some?
    ensures
      var (after, counted, full, output) := DataStep(config, listener, s, m, data);
      (after, full) == PushAll(config, Counted(s, data), Items(s, data))
  {
    hide Gap, MissingPairs, MissingBegin, Items, PushAll, Sent, Norm, Power, SampleOk, StreamOk, Readable;
  }

  lemma NoLossAfterArrival(arrived: seq<bool>, i: nat)
    requires i < |arrived| && arrived[i]
    ensures Losses(arrived, i + 1) == 0
  {}

  lemma {:induction false} PushAllKeepsLink(config: Config, s: StreamState, items: seq<Item>)
    ensures
      var after := PushAll(config, s, items).0;
      after.packetCount == s.packetCount && after.previousPairs == s.previousPairs
  {
    if items != [] {
      PushAllKeepsLink(config, s, items[..|items| - 1]);
    }
  }

  // ----- The run -----

  /** The windows and the pending buffer are the items heard, cut in order, and the
      link to the last packet stays right. */
  lemma {:induction false} HeardChunks(config: Config, listener: nat, sender: Sender, arrived: seq<bool>,
                                       s: StreamState, m: Metrics, n: nat)
    requires config.Valid() && 1 <= listener <= 4 && StreamOk(config, s) && s.metadataValid
    requires SenderOk(config, sender) && 0 < n <= |arrived| == |sender.packets|
    requires arrived[0] && s.packetCount.None? && s.samples == [] && Dated(sender, arrived, s.rate, n)
    ensures
      var (after, counters, windows) := Heard(config, listener, sender, arrived, s, m, n);
      && Chunked(config, s.ordinal, HeardItems(sender, arrived, s.rate, n), windows, after)
      && Linked(sender, arrived, n, after)
    decreases n
  {
    hide *;
    PacketShape(config, sender, s);
    HeardUnfolds(config, listener, sender, arrived, s, m, n);
    ItemsUnfold(sender, arrived, s.rate, n);
    var (before, counters, windows) := Heard(config, listener, sender, arrived, s, m, n - 1);
    var items := HeardItems(sender, arrived, s.rate, n - 1);
    if n == 1 {
      NothingHeard(config, listener, sender, arrived, s, m);
    } else {
      HeardChunks(config, listener, sender, arrived, s, m, n - 1);
    }
    if arrived[n - 1] {
      ArrivalChunks(config, listener, sender, arrived, s.ordinal, items, windows, before, counters, n - 1);
    } else {
      LostPacket(sender, arrived, n - 1, before);
    }
  }

  lemma HeardUnfolds(config: Config, listener: nat, sender: Sender, arrived: seq<bool>, s: StreamState, m: Metrics, n: nat)
    requires config.Valid() && 1 <= listener <= 4 && StreamOk(config, s) && s.metadataValid
    requires SenderOk(config, sender) && 0 < n <= |arrived| == |sender.packets|
    ensures |sender.times| == |sender.packets|
    ensures
      var (before, counters, windows) := Heard(config, listener, sender, arrived, s, m, n - 1);
      Heard(config, listener, sender, arrived, s, m, n)
      == if !arrived[n - 1] then (before, counters, windows)
         else
           var (after, counted, full, output) := DataStep(config, listener, before, counters, Packet(sender, n - 1));
           (after, counted, windows + full)
  {
    hide StreamOk, DataStep, SampleOk, Norm, Power;
  }

  lemma ItemsUnfold(sender: Sender, arrived: seq<bool>, rate: u32, n: nat)
    requires 0 < n <= |arrived| == |sender.packets| == |sender.times| && rate > 0 && Dated(sender, arrived, rate, n)
    ensures Dated(sender, arrived, rate, n - 1)
    ensures
      HeardItems(sender, arrived, rate, n)
      == if !arrived[n - 1] then HeardItems(sender, arrived, rate, n - 1)
         else HeardItems(sender, arrived, rate, n - 1) + PacketItems(sender, arrived, rate, n - 1)
  {
    DatedPrefix(sender, arrived, rate, n);
    hide PacketItems, Dated;
  }

  /** One arriving packet adds its items to what was cut so far. */
  lemma ArrivalChunks(config: Config, listener: nat, sender: Sender, arrived: seq<bool>, origin: nat, items: seq<Item>,
                      windows: seq<Window>, s: StreamState, m: Metrics, i: nat)
    requires config.Valid() && 1 <= listener <= 4 && StreamOk(config, s) && s.metadataValid && SenderOk(config, sender)
    requires i < |arrived| == |sender.packets| && arrived[i] && Dated(sender, arrived, s.rate, i + 1)
    requires if i == 0 then s.packetCount.None? else Linked(sender, arrived, i, s)
    requires Chunked(config, origin, items, windows, s)
    ensures
      var (after, counted, full, output) := DataStep(config, listener, s, m, Packet(sender, i));
      && Chunked(config, origin, items + PacketItems(sender, arrived, s.rate, i), windows + full, after)
      && Linked(sender, arrived, i + 1, after)
  {
    var data := Packet(sender, i);
    PacketShape(config, sender, s);
    hide *;
    PacketStep(config, listener, sender, arrived, s, m, i);
    assert data.samples.Some? by { PacketHolds(sender, i); }
    CountedChunks(config, origin, items, windows, s, data);
    PushAllChunks(config, origin, items, windows, Counted(s, data), PacketItems(sender, arrived, s.rate, i));
  }

  lemma PacketHolds(sender: Sender, i: nat)
    requires i < |sender.packets| == |sender.times|
    ensures Packet(sender, i).samples.Some?
  {}

  lemma DatedPrefix(sender: Sender, arrived: seq<bool>, rate: u32, n: nat)
    requires 0 < n <= |arrived| == |sender.packets| == |sender.times| && rate > 0 && Dated(sender, arrived, rate, n)
    ensures Dated(sender, arrived, rate, n - 1)
  {}

  lemma NothingHeard(config: Config, listener: nat, sender: Sender, arrived: seq<bool>, s: StreamState, m: Metrics)
    requires config.Valid() && 1 <= listener <= 4 && StreamOk(config, s) && s.metadataValid
    requires SenderOk(config, sender) && |arrived| == |sender.packets| == |sender.times|
    requires s.samples == [] && s.rate > 0 && Dated(sender, arrived, s.rate, 0)
    ensures Heard(config, listener, sender, arrived, s, m, 0) == (s, m, [])
    ensures HeardItems(sender, arrived, s.rate, 0) == []
    ensures Chunked(config, s.ordinal, [], [], s)
  {
    hide DataStep, SenderOk, SampleOk;
  }

  lemma LostPacket(sender: Sender, arrived: seq<bool>, i: nat, s: StreamState)
    requires 0 < i < |arrived| && !arrived[i] && Linked(sender, arrived, i, s)
    ensures Linked(sender, arrived, i + 1, s)
  {}

  /** Their samples are the rebuilt stream. */
  lemma {:induction false} HeardCells(sender: Sender, arrived: seq<bool>, rate: u32, n: nat)
    requires n <= |arrived| == |sender.packets| == |sender.times| && rate > 0 && Dated(sender, arrived, rate, n)
    ensures Cells(HeardItems(sender, arrived, rate, n)) == Rebuilt(sender, arrived, n)
  {
    if n > 0 {
      HeardCells(sender, arrived, rate, n - 1);
      if arrived[n - 1] {
        PacketItemsCells(sender, arrived, rate, n - 1);
        var items, more := HeardItems(sender, arrived, rate, n - 1), PacketItems(sender, arrived, rate, n - 1);
        assert Cells(items + more) == Cells(items) + Cells(more);
      }
      hide Dated, PacketItems, PacketCells, Span, Losses;
    }
  }

  lemma PacketItemsCells(sender: Sender, arrived: seq<bool>, rate: u32, i: nat)
    requires i < |arrived| == |sender.packets| == |sender.times| && rate > 0 && arrived[i] && Dated(sender, arrived, rate, i + 1)
    ensures Cells(PacketItems(sender, arrived, rate, i))
         == Blank(Span(sender, Losses(arrived, i) % 16)) + PacketCells(sender, i)
  {
    AllReadable(Readings(sender.packets[i]));
    hide Span, Losses, AddSamples, ToComplex, GapBegin;
    var missing := Span(sender, Losses(arrived, i) % 16);
    var items := PacketItems(sender, arrived, rate, i);
    assert Cells(items)[..missing] == Blank(missing);
    assert Cells(items)[missing..] == PacketCells(sender, i);
    assert Cells(items) == Cells(items)[..missing] + Cells(items)[missing..];
  }

  /** The processor hands on, in order and cut into windows, the stream it can rebuild
      from the packet counts; that is the sender's own stream with the lost samples
      masked exactly when no 16 packets in a row are lost. */
  lemma StreamRecovered(config: Config, listener: nat, sender: Sender, arrived: seq<bool>, s: StreamState, m: Metrics, n: nat)
    returns (items: seq<Item>)
    requires config.Valid() && 1 <= listener <= 4 && StreamOk(config, s) && s.metadataValid
    requires SenderOk(config, sender) && 0 < n <= |arrived| == |sender.packets|
    requires arrived[0] && arrived[n - 1] && s.packetCount.None? && s.samples == [] && Dated(sender, arrived, s.rate, n)
    ensures
      var (after, counters, windows) := Heard(config, listener, sender, arrived, s, m, n);
      Chunked(config, s.ordinal, items, windows, after)
    ensures Cells(items) == Masked(sender, arrived, n) <==> ShortLosses(arrived, n)
  {
    items := HeardItems(sender, arrived, s.rate, n);
    HeardChunks(config, listener, sender, arrived, s, m, n);
    HeardCells(sender, arrived, s.rate, n);
    RebuiltIsMasked(sender, arrived, n);
  }
}
