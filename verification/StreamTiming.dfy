/** When the sender stamps packets with their exact position in time, the begin of
    every spectrum is right to a picosecond, lost packets or not. */
module StreamTiming {
  import opened SpectrumTypes
  import opened Arithmetic
  import opened SampleTime
  import opened ProcessorSpec
  import opened Reassembly
  import opened StreamRecovery

  /** Packet i carries the epoch plus the duration of the samples before it. */
  predicate Stamped(sender: Sender, epoch: nat, rate: u32)
    requires rate > 0 && |sender.times| == |sender.packets|
  {
    forall i :: 0 <= i < |sender.times| ==>
      Normalised(sender.times[i]) && Ticks(sender.times[i]) == epoch + Elapsed(Span(sender, i), rate)
  }

  /** Within one picosecond of the time of this position. */
  predicate Near(t: ProtocolTime, epoch: nat, position: nat, rate: u32)
    requires rate > 0
  {
    epoch + Elapsed(position, rate) - 1 <= Ticks(t) <= epoch + Elapsed(position, rate) + 1
  }

  lemma StampAt(sender: Sender, epoch: nat, rate: u32, i: nat)
    requires rate > 0 && |sender.times| == |sender.packets| && i < |sender.times| && Stamped(sender, epoch, rate)
    ensures Normalised(sender.times[i]) && Ticks(sender.times[i]) == epoch + Elapsed(Span(sender, i), rate)
    ensures Ticks(sender.times[i]) < WORD * PICOSECONDS
  {
    hide Elapsed, Span;
  }

  /** Subtracting the samples lost just before a packet never fails on an exact stamp. */
  lemma LossDated(config: Config, sender: Sender, epoch: nat, rate: u32, i: nat, l: nat)
    requires config.Valid() && SenderOk(config, sender) && i < |sender.packets| && l < 16 && l <= i
    requires 0 < rate <= MAX_EXACT_RATE && Stamped(sender, epoch, rate)
    ensures 0 <= Span(sender, l) <= 15 * 2048 < WORD
    ensures
      var begin := SubtractSamples(sender.times[i], Span(sender, l), rate);
      && begin.Some? && Normalised(begin.value)
      && Ticks(begin.value) == epoch + Elapsed(Span(sender, i), rate) - Elapsed(Span(sender, l), rate)
  {
    hide *;
    SenderLengths(config, sender);
    LostSpan(config, sender, l);
    StampAt(sender, epoch, rate, i);
    SpanLaws(sender, l, i - l);
    ElapsedSum(Span(sender, l), Span(sender, i - l), rate);
    SubtractExact(sender.times[i], Span(sender, l), rate);
  }

  lemma SenderLengths(config: Config, sender: Sender)
    requires SenderOk(config, sender)
    ensures |sender.times| == |sender.packets| && sender.size > 0
  {}

  lemma LostSpan(config: Config, sender: Sender, l: nat)
    requires config.Valid() && SenderOk(config, sender) && l < 16
    ensures 0 <= Span(sender, l) <= 15 * 2048 < WORD
  {
    assert l * sender.size <= 15 * sender.size;
  }

  /** A stamp never precedes the samples lost before it. */
  lemma StampedIsDated(config: Config, sender: Sender, arrived: seq<bool>, epoch: nat, rate: u32, n: nat)
    requires config.Valid() && SenderOk(config, sender) && n <= |arrived| == |sender.packets|
    requires 0 < rate <= MAX_EXACT_RATE && Stamped(sender, epoch, rate)
    ensures Dated(sender, arrived, rate, n)
  {
    hide Span, SubtractSamples, Losses, Stamped, Config.Valid, Ticks, Elapsed;
    forall i | 0 <= i < n && arrived[i]
      ensures
        var missing := Span(sender, Losses(arrived, i) % 16);
        missing < WORD && (missing == 0 || SubtractSamples(sender.times[i], missing, rate).Some?)
    {
      LossDated(config, sender, epoch, rate, i, Losses(arrived, i) % 16);
    }
  }

  lemma GapBeginIs(sender: Sender, arrived: seq<bool>, rate: u32, i: nat, l: nat)
    requires i < |arrived| == |sender.packets| == |sender.times| && rate > 0 && arrived[i] && Dated(sender, arrived, rate, i + 1)
    requires l == Losses(arrived, i) < 16 && 0 < Span(sender, l) < WORD
    requires SubtractSamples(sender.times[i], Span(sender, l), rate).Some?
    ensures GapBegin(sender, arrived, rate, i) == SubtractSamples(sender.times[i], Span(sender, l), rate).value
  {
    hide Span, SubtractSamples, Losses;
  }

  /** A masked sample is dated back from the next stamp. */
  lemma GapDated(config: Config, sender: Sender, arrived: seq<bool>, epoch: nat, rate: u32, i: nat, offset: nat)
    requires config.Valid() && SenderOk(config, sender) && i < |arrived| == |sender.packets|
    requires 0 < rate <= MAX_EXACT_RATE && Stamped(sender, epoch, rate)
    requires arrived[i] && Losses(arrived, i) < 16 && Dated(sender, arrived, rate, i + 1)
    requires offset < Span(sender, Losses(arrived, i))
    ensures Span(sender, Losses(arrived, i)) < WORD
    ensures Near(AddSamples(GapBegin(sender, arrived, rate, i), offset, rate), epoch,
                 Span(sender, i - Losses(arrived, i)) + offset, rate)
  {
    hide *;
    SenderLengths(config, sender);
    var l := Losses(arrived, i);
    LossDated(config, sender, epoch, rate, i, l);
    StampAt(sender, epoch, rate, i);
    GapBeginIs(sender, arrived, rate, i, l);
    SpanLaws(sender, i - l, l);
    GapNear(GapBegin(sender, arrived, rate, i), epoch, rate, Span(sender, i - l), offset, Span(sender, l) - offset);
  }

  /** The arithmetic of it: three roundings cost at most one picosecond. */
  lemma GapNear(begin: ProtocolTime, epoch: nat, rate: u32, before: nat, offset: nat, rest: nat)
    requires 0 < rate <= MAX_EXACT_RATE && Normalised(begin) && offset + rest < WORD
    requires Ticks(begin) == epoch + Elapsed(before + (offset + rest), rate) - Elapsed(offset + rest, rate)
    requires epoch + Elapsed(before + (offset + rest), rate) < WORD * PICOSECONDS
    ensures Near(AddSamples(begin, offset, rate), epoch, before + offset, rate)
  {
    ElapsedSum(before, offset + rest, rate);
    ElapsedSum(offset, rest, rate);
    ElapsedSum(before, offset, rate);
    AddExact(begin, offset, rate);
    hide Elapsed, AddSamples, Ticks;
  }

  /** Sample r of packet q carries the time of the packet if it arrived, and its own time, to
      a picosecond, if it did not. */
  predicate TimedItem(items: seq<Item>, sender: Sender, arrived: seq<bool>, epoch: nat, rate: u32, q: nat, r: nat)
    requires rate > 0 && q < |arrived| && |arrived| == |sender.times|
  {
    && Span(sender, q) + r < |items|
    && var begin := items[Span(sender, q) + r].begin;
       if arrived[q] then begin == sender.times[q] else Near(begin, epoch, Span(sender, q) + r, rate)
  }

  predicate Timed(items: seq<Item>, sender: Sender, arrived: seq<bool>, epoch: nat, rate: u32, count: nat)
    requires rate > 0 && count <= |arrived| && |arrived| == |sender.times|
  {
    forall q: nat, r: nat :: q < count && r < sender.size ==> TimedItem(items, sender, arrived, epoch, rate, q, r)
  }

  lemma PacketTimed(config: Config, sender: Sender, arrived: seq<bool>, epoch: nat, rate: u32, i: nat, items: seq<Item>)
    requires config.Valid() && SenderOk(config, sender) && i < |arrived| == |sender.packets| == |sender.times|
    requires 0 < rate <= MAX_EXACT_RATE && Stamped(sender, epoch, rate)
    requires arrived[i] && Losses(arrived, i) < 16 && Dated(sender, arrived, rate, i + 1)
    requires |items| == Span(sender, i - Losses(arrived, i))
    requires Timed(items, sender, arrived, epoch, rate, i - Losses(arrived, i))
    ensures Timed(items + PacketItems(sender, arrived, rate, i), sender, arrived, epoch, rate, i + 1)
    ensures |PacketItems(sender, arrived, rate, i)| == Span(sender, Losses(arrived, i)) + sender.size
  {
    hide Span, Elapsed, AddSamples, Losses, PacketItems, Dated, Stamped, Config.Valid, SenderOk, GapBegin, Near, TimedItem;
    var l := Losses(arrived, i);
    var more := PacketItems(sender, arrived, rate, i);
    LostSpan(config, sender, l);
    PacketItemsShape(config, sender, arrived, rate, i);
    forall q: nat, r: nat | q < i + 1 && r < sender.size
      ensures TimedItem(items + more, sender, arrived, epoch, rate, q, r)
    {
      if q < i - l {
        TimedStays(items, more, sender, arrived, epoch, rate, q, r);
      } else if q < i {
        NotArrived(arrived, i, q);
        LostTimed(config, sender, arrived, epoch, rate, i, items, q, r);
      } else {
        ArrivedTimed(config, sender, arrived, epoch, rate, i, items, r);
      }
    }
  }

  lemma TimedStays(items: seq<Item>, more: seq<Item>, sender: Sender, arrived: seq<bool>, epoch: nat, rate: u32, q: nat, r: nat)
    requires rate > 0 && q < |arrived| && |arrived| == |sender.times| && TimedItem(items, sender, arrived, epoch, rate, q, r)
    ensures TimedItem(items + more, sender, arrived, epoch, rate, q, r)
  {
    hide Near, Span;
  }

  lemma {:induction false} NotArrived(arrived: seq<bool>, i: nat, q: nat)
    requires i <= |arrived| && i - Losses(arrived, i) <= q < i
    ensures !arrived[q]
  {
    if q < i - 1 {
      NotArrived(arrived, i - 1, q);
    }
  }

  lemma LostTimed(config: Config, sender: Sender, arrived: seq<bool>, epoch: nat, rate: u32, i: nat, items: seq<Item>,
                  q: nat, r: nat)
    requires config.Valid() && SenderOk(config, sender) && i < |arrived| == |sender.packets| == |sender.times|
    requires 0 < rate <= MAX_EXACT_RATE && Stamped(sender, epoch, rate)
    requires arrived[i] && Losses(arrived, i) < 16 && Dated(sender, arrived, rate, i + 1)
    requires |items| == Span(sender, i - Losses(arrived, i)) && Span(sender, Losses(arrived, i)) < WORD
    requires i - Losses(arrived, i) <= q < i && !arrived[q] && r < sender.size
    ensures TimedItem(items + PacketItems(sender, arrived, rate, i), sender, arrived, epoch, rate, q, r)
  {
    hide Span, Elapsed, AddSamples, Losses, PacketItems, Dated, Stamped, Config.Valid, SenderOk, GapBegin, Near;
    var (l, more) := (Losses(arrived, i), PacketItems(sender, arrived, rate, i));
    var d := q - (i - l);
    var offset := Span(sender, d) + r;
    PacketItemsShape(config, sender, arrived, rate, i);
    SpanLaws(sender, i - l, d);
    SpanLaws(sender, d, 1);
    SpanLaws(sender, d + 1, l - d - 1);
    GapDated(config, sender, arrived, epoch, rate, i, offset);
    assert Span(sender, q) + r == |items| + offset;
    assert (items + more)[Span(sender, q) + r] == more[offset];
  }

  lemma ArrivedTimed(config: Config, sender: Sender, arrived: seq<bool>, epoch: nat, rate: u32, i: nat, items: seq<Item>, r: nat)
    requires config.Valid() && SenderOk(config, sender) && i < |arrived| == |sender.packets| == |sender.times|
    requires rate > 0 && arrived[i] && Losses(arrived, i) < 16 && Dated(sender, arrived, rate, i + 1)
    requires |items| == Span(sender, i - Losses(arrived, i)) && Span(sender, Losses(arrived, i)) < WORD && r < sender.size
    ensures TimedItem(items + PacketItems(sender, arrived, rate, i), sender, arrived, epoch, rate, i, r)
  {
    hide Span, AddSamples, Losses, PacketItems, Dated, Config.Valid, SenderOk, GapBegin, Near;
    var (l, more) := (Losses(arrived, i), PacketItems(sender, arrived, rate, i));
    PacketItemsShape(config, sender, arrived, rate, i);
    SpanLaws(sender, i - l, l);
    assert (items + more)[Span(sender, i) + r] == more[Span(sender, l) + r];
  }

  lemma StampNear(sender: Sender, epoch: nat, rate: u32, i: nat)
    requires rate > 0 && |sender.times| == |sender.packets| && i < |sender.times| && Stamped(sender, epoch, rate)
    ensures Near(sender.times[i], epoch, Span(sender, i), rate)
  {
    hide Elapsed, Span, Ticks;
  }

  lemma PacketItemsShape(config: Config, sender: Sender, arrived: seq<bool>, rate: u32, i: nat)
    requires SenderOk(config, sender) && i < |arrived| == |sender.packets| && rate > 0
    requires arrived[i] && Losses(arrived, i) < 16 && Dated(sender, arrived, rate, i + 1)
    requires Span(sender, Losses(arrived, i)) < WORD
    ensures
      var more, lost := PacketItems(sender, arrived, rate, i), Span(sender, Losses(arrived, i));
      && |more| == lost + sender.size
      && (forall k :: lost <= k < lost + sender.size ==> more[k].begin == sender.times[i])
      && forall k :: 0 <= k < lost ==> more[k].begin == AddSamples(GapBegin(sender, arrived, rate, i), k, rate)
  {
    AllReadable(Readings(sender.packets[i]));
    hide Span, AddSamples, Losses, GapBegin, Dated, Readable;
  }

  /** With short losses, every sample of the rebuilt stream is timed this way. */
  lemma {:induction false} HeardTimed(config: Config, sender: Sender, arrived: seq<bool>, epoch: nat, rate: u32, n: nat)
    requires config.Valid() && SenderOk(config, sender) && 0 < n <= |arrived| == |sender.packets| == |sender.times|
    requires 0 < rate <= MAX_EXACT_RATE && Stamped(sender, epoch, rate)
    requires arrived[0] && ShortLosses(arrived, n) && Dated(sender, arrived, rate, n)
    ensures
      var items := HeardItems(sender, arrived, rate, n);
      && |items| == Span(sender, n - Losses(arrived, n))
      && Timed(items, sender, arrived, epoch, rate, n - Losses(arrived, n))
    decreases n
  {
    hide Span, Elapsed, PacketItems, Dated, Stamped, Config.Valid, SenderOk, Timed;
    var i := n - 1;
    DatedPrefixes(sender, arrived, rate, n);
    if n > 1 {
      HeardTimed(config, sender, arrived, epoch, rate, i);
    } else {
      SpanLaws(sender, 0, 0);
      assert Timed([], sender, arrived, epoch, rate, 0) by { NothingTimed(sender, arrived, epoch, rate); }
      assert HeardItems(sender, arrived, rate, 0) == [];
    }
    if arrived[i] {
      PacketTimed(config, sender, arrived, epoch, rate, i, HeardItems(sender, arrived, rate, i));
      SpanLaws(sender, i - Losses(arrived, i), Losses(arrived, i));
      SpanLaws(sender, i, 1);
    }
  }

  lemma NothingTimed(sender: Sender, arrived: seq<bool>, epoch: nat, rate: u32)
    requires rate > 0 && |arrived| == |sender.times|
    ensures Timed([], sender, arrived, epoch, rate, 0)
  {}

  lemma DatedPrefixes(sender: Sender, arrived: seq<bool>, rate: u32, n: nat)
    requires 0 < n <= |arrived| == |sender.packets| == |sender.times| && rate > 0 && Dated(sender, arrived, rate, n)
    ensures Dated(sender, arrived, rate, n - 1)
  {}

  /** When packets divide windows, window k starts at packet slot k * perWindow. */
  lemma {:induction false} WindowSlot(config: Config, sender: Sender, origin: nat, items: seq<Item>, windows: seq<Window>,
                                      done: nat, perWindow: nat, k: nat) returns (slot: nat)
    requires config.Fft() == Span(sender, perWindow) && k < |windows| && Cuts(config, origin, items, windows, done)
    ensures windows[k].ordinal == origin + Span(sender, slot)
    decreases k
  {
    hide Span, Cut;
    if k == 0 {
      SpanLaws(sender, 0, 0);
      slot := 0;
    } else {
      var before := WindowSlot(config, sender, origin, items, windows, done, perWindow, k - 1);
      SpanLaws(sender, before, perWindow);
      slot := before + perWindow;
    }
  }

  lemma SpanOrder(sender: Sender, a: nat, b: nat)
    requires Span(sender, a) < Span(sender, b)
    ensures a < b
  {
    if b <= a {
      SpanLaws(sender, b, a - b);
    }
  }

  /** Which packet a position lies in. */
  lemma SlotOf(sender: Sender, position: nat)
    requires sender.size > 0
    ensures
      var (q, r) := (position / sender.size, position % sender.size);
      0 <= q && 0 <= r < sender.size && Span(sender, q) + r == position
  {}

  /** A window that begins inside a packet that arrived carries the time of that packet, and
      one that begins among lost samples carries the true time to a picosecond. */
  lemma BeginsWhere(config: Config, listener: nat, sender: Sender, arrived: seq<bool>, s: StreamState, m: Metrics,
                    n: nat, epoch: nat, k: nat)
    requires config.Valid() && 1 <= listener <= 4 && StreamOk(config, s) && s.metadataValid
    requires SenderOk(config, sender) && 0 < n <= |arrived| == |sender.packets| == |sender.times|
    requires arrived[0] && s.packetCount.None? && s.samples == [] && ShortLosses(arrived, n)
    requires 0 < s.rate <= MAX_EXACT_RATE && Stamped(sender, epoch, s.rate)
    requires k < |Heard(config, listener, sender, arrived, s, m, n).2|
    ensures sender.size > 0
    ensures
      var window := Heard(config, listener, sender, arrived, s, m, n).2[k];
      && window.ordinal >= s.ordinal
      && (var position := window.ordinal - s.ordinal;
          var q := position / sender.size;
          && 0 <= q < n
          && (if arrived[q] then window.begin == sender.times[q] else Near(window.begin, epoch, position, s.rate)))
  {
    hide *;
    SenderLengths(config, sender);
    StampedIsDated(config, sender, arrived, epoch, s.rate, n);
    HeardChunks(config, listener, sender, arrived, s, m, n);
    HeardTimed(config, sender, arrived, epoch, s.rate, n);
    var items := HeardItems(sender, arrived, s.rate, n);
    var (after, counters, windows) := Heard(config, listener, sender, arrived, s, m, n);
    ChunkedCut(config, s.ordinal, items, windows, after, k);
    var position := windows[k].ordinal - s.ordinal;
    SlotOf(sender, position);
    SpanOrder(sender, position / sender.size, n - Losses(arrived, n));
    TimedAt(items, sender, arrived, epoch, s.rate, n - Losses(arrived, n), position);
  }

  /** So when packets divide the window, every window begins within one picosecond of the
      epoch plus the duration of the samples that truly precede it. */
  lemma BeginsAccurate(config: Config, listener: nat, sender: Sender, arrived: seq<bool>, s: StreamState, m: Metrics,
                       n: nat, epoch: nat, perWindow: nat, k: nat)
    requires config.Valid() && 1 <= listener <= 4 && StreamOk(config, s) && s.metadataValid
    requires SenderOk(config, sender) && 0 < n <= |arrived| == |sender.packets| == |sender.times|
    requires arrived[0] && s.packetCount.None? && s.samples == [] && ShortLosses(arrived, n)
    requires 0 < s.rate <= MAX_EXACT_RATE && Stamped(sender, epoch, s.rate)
    requires config.Fft() == Span(sender, perWindow)
    requires k < |Heard(config, listener, sender, arrived, s, m, n).2|
    ensures
      var window := Heard(config, listener, sender, arrived, s, m, n).2[k];
      window.ordinal >= s.ordinal && Near(window.begin, epoch, window.ordinal - s.ordinal, s.rate)
  {
    hide *;
    BeginsWhere(config, listener, sender, arrived, s, m, n, epoch, k);
    StampedIsDated(config, sender, arrived, epoch, s.rate, n);
    HeardChunks(config, listener, sender, arrived, s, m, n);
    var items := HeardItems(sender, arrived, s.rate, n);
    var (after, counters, windows) := Heard(config, listener, sender, arrived, s, m, n);
    ChunkedCut(config, s.ordinal, items, windows, after, k);
    var slot := WindowSlot(config, sender, s.ordinal, items, windows, |items| - |after.samples|, perWindow, k);
    SlotOfSpan(sender, slot);
    if arrived[slot] {
      StampNear(sender, epoch, s.rate, slot);
    }
  }

  lemma SlotOfSpan(sender: Sender, slot: nat)
    requires sender.size > 0
    ensures Span(sender, slot) / sender.size == slot
  {
    DivMod(sender.size, slot, 0);
    assert Span(sender, slot) == sender.size * slot + 0;
  }

  lemma ChunkedCut(config: Config, origin: nat, items: seq<Item>, windows: seq<Window>, s: StreamState, k: nat)
    requires Chunked(config, origin, items, windows, s) && k < |windows|
    ensures |s.samples| <= |items| && Cuts(config, origin, items, windows, |items| - |s.samples|)
    ensures origin <= windows[k].ordinal && windows[k].ordinal - origin < |items|
    ensures windows[k].begin == items[windows[k].ordinal - origin].begin
  {}

  lemma TimedAt(items: seq<Item>, sender: Sender, arrived: seq<bool>, epoch: nat, rate: u32, count: nat, position: nat)
    requires rate > 0 && count <= |arrived| && |arrived| == |sender.times| && sender.size > 0
    requires Timed(items, sender, arrived, epoch, rate, count)
    requires 0 <= position / sender.size < count && 0 <= position % sender.size < sender.size
    requires Span(sender, position / sender.size) + position % sender.size == position < |items|
    ensures
      var q := position / sender.size;
      if arrived[q] then items[position].begin == sender.times[q] else Near(items[position].begin, epoch, position, rate)
  {
    var (q, r) := (position / sender.size, position % sender.size);
    assert TimedItem(items, sender, arrived, epoch, rate, q, r);
    hide Span, Near;
  }
}
