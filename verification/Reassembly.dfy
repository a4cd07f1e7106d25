/** The stream a sender put on the wire, and the stream the processor rebuilds
    from the packets that arrive: the losses masked, nothing else changed. */
module Reassembly {
  import opened ComplexNumbers
  import opened SpectrumTypes
  import opened ProcessorSpec

  // ----- Windows cut the items into consecutive pieces -----

  /** These samples and flags are the items from this index on. */
  predicate Spells(samples: seq<Complex>, missing: seq<bool>, items: seq<Item>, from: nat) {
    && |samples| == |missing| && from + |samples| <= |items|
    && forall i :: 0 <= i < |samples| ==>
         samples[i] == items[from + i].sample && missing[i] == items[from + i].missing
  }

  /** The window is a full one and holds the items from this index on. */
  predicate Cut(config: Config, window: Window, items: seq<Item>, from: nat) {
    && |window.samples| == config.Fft() > 0
    && Spells(window.samples, window.missing, items, from)
    && window.begin == items[from].begin
  }

  /** The windows are consecutive pieces of the first `done` items, and each one's
      ordinal is its position counted from `origin`. */
  predicate Cuts(config: Config, origin: nat, items: seq<Item>, windows: seq<Window>, done: nat) {
    && (windows == [] ==> done == 0)
    && (windows != [] ==> windows[0].ordinal == origin && windows[|windows| - 1].ordinal + config.Fft() == origin + done)
    && (forall k :: 0 < k < |windows| ==> windows[k].ordinal == windows[k - 1].ordinal + config.Fft())
    && (forall k :: 0 <= k < |windows| ==>
          origin <= windows[k].ordinal && Cut(config, windows[k], items, windows[k].ordinal - origin))
  }

  /** The buffer of the stream is the items after the first `done`. */
  predicate Pending(config: Config, origin: nat, items: seq<Item>, s: StreamState, done: nat) {
    && done + |s.samples| == |items| && |s.samples| < config.Fft()
    && s.ordinal == origin + |items|
    && Spells(s.samples, s.missing, items, done)
    && (s.samples != [] ==> s.windowOrdinal == origin + done && s.windowBegin == items[done].begin)
  }

  /** Every window in order, then the pending buffer, spell out the items. */
  predicate Chunked(config: Config, origin: nat, items: seq<Item>, windows: seq<Window>, s: StreamState) {
    && |s.samples| <= |items|
    && Cuts(config, origin, items, windows, |items| - |s.samples|)
    && Pending(config, origin, items, s, |items| - |s.samples|)
  }

  lemma CutsGrow(config: Config, origin: nat, items: seq<Item>, windows: seq<Window>, done: nat, item: Item)
    requires Cuts(config, origin, items, windows, done)
    ensures Cuts(config, origin, items + [item], windows, done)
  {
    forall k | 0 <= k < |windows|
      ensures Cut(config, windows[k], items + [item], windows[k].ordinal - origin)
    {
      assert Cut(config, windows[k], items, windows[k].ordinal - origin);
    }
    hide Cut;
  }

  lemma CutsAppend(config: Config, origin: nat, items: seq<Item>, windows: seq<Window>, done: nat, window: Window)
    requires Cuts(config, origin, items, windows, done)
    requires window.ordinal == origin + done && Cut(config, window, items, done)
    ensures Cuts(config, origin, items, windows + [window], done + config.Fft())
  {
    hide Cut;
  }

  /** The item is buffered, or completes the window of everything pending. */
  lemma PendingPush(config: Config, origin: nat, items: seq<Item>, s: StreamState, done: nat, item: Item)
    requires Pending(config, origin, items, s, done)
    ensures
      var (after, full) := Push(config, s, item);
      if full == [] then Pending(config, origin, items + [item], after, done)
      else
        && |full| == 1 && full[0].ordinal == origin + done && Cut(config, full[0], items + [item], done)
        && Pending(config, origin, items + [item], after, done + config.Fft())
  {
    var samples, missing := s.samples + [item.sample], s.missing + [item.missing];
    assert Spells(samples, missing, items + [item], done);
    assert s.samples == [] ==> (items + [item])[done] == item;
    hide Spells;
  }

  lemma PushChunks(config: Config, origin: nat, items: seq<Item>, windows: seq<Window>, s: StreamState, item: Item)
    requires Chunked(config, origin, items, windows, s)
    ensures
      var (after, full) := Push(config, s, item);
      Chunked(config, origin, items + [item], windows + full, after)
  {
    hide Cuts, Cut, Push;
    var done := |items| - |s.samples|;
    var (after, full) := Push(config, s, item);
    PendingPush(config, origin, items, s, done, item);
    CutsGrow(config, origin, items, windows, done, item);
    if full != [] {
      CutsAppend(config, origin, items + [item], windows, done, full[0]);
      assert full == [full[0]];
      assert Pending(config, origin, items + [item], after, done + config.Fft());
    } else {
      assert windows + full == windows;
    }
    assert |items + [item]| - |after.samples| == if full == [] then done else done + config.Fft();
  }

  lemma {:induction false} PushAllChunks(config: Config, origin: nat, items: seq<Item>, windows: seq<Window>,
                                         s: StreamState, more: seq<Item>)
    requires Chunked(config, origin, items, windows, s)
    ensures
      var (after, full) := PushAll(config, s, more);
      Chunked(config, origin, items + more, windows + full, after)
  {
    hide Chunked, Push;
    if more == [] {
      assert items + more == items && windows + [] == windows;
    } else {
      var shorter, item := more[..|more| - 1], more[|more| - 1];
      var (before, full) := PushAll(config, s, shorter);
      PushAllChunks(config, origin, items, windows, s, shorter);
      PushChunks(config, origin, items + shorter, windows + full, before, item);
      assert items + more == items + shorter + [item];
      assert windows + (full + Push(config, before, item).1) == windows + full + Push(config, before, item).1;
    }
  }

  /** Counting a gap does not touch the samples. */
  lemma CountedChunks(config: Config, origin: nat, items: seq<Item>, windows: seq<Window>, s: StreamState, data: Data)
    requires data.samples.Some? && Chunked(config, origin, items, windows, s)
    ensures Chunked(config, origin, items, windows, Counted(s, data))
  {
    hide Cuts;
  }

  // ----- The sender and what arrives -----

  /** Packets of constant size, numbered modulo 16 from `firstCount`, with any trailers. */
  datatype Sender = Sender(size: nat, firstCount: u4, packets: seq<seq<Iq>>, times: seq<ProtocolTime>, trailer: nat -> bv32)

  predicate SenderOk(config: Config, sender: Sender) {
    && 0 < sender.size <= config.Fft()
    && |sender.times| == |sender.packets|
    && forall i :: 0 <= i < |sender.packets| ==> |sender.packets[i]| == sender.size
  }

  function PacketCount(sender: Sender, i: nat): u4 {
    (sender.firstCount + i) % 16
  }

  function Readings(pairs: seq<Iq>): (r: seq<Option<Iq>>)
    ensures |r| == |pairs| && forall i :: 0 <= i < |r| ==> r[i] == Some(pairs[i])
  {
    seq(|pairs|, i requires 0 <= i < |pairs| => Some(pairs[i]))
  }

  /** Packet i as the processor decodes it. */
  function Packet(sender: Sender, i: nat): Data
    requires i < |sender.packets| == |sender.times|
  {
    Data(true, true, true, true, Some(sender.trailer(i)), PacketCount(sender, i), sender.times[i], Some(Readings(sender.packets[i])))
  }

  /** How many packets just before packet n have not arrived; packet 0 has. */
  function Losses(arrived: seq<bool>, n: nat): (l: nat)
    requires n <= |arrived|
    ensures l <= n
  {
    if n <= 1 || arrived[n - 1] then 0 else 1 + Losses(arrived, n - 1)
  }

  /** One cell of a stream: a reading, or a masked sample. */
  datatype Cell = Cell(sample: Complex, missing: bool)

  function Cells(items: seq<Item>): (c: seq<Cell>)
    ensures |c| == |items|
  {
    seq(|items|, i requires 0 <= i < |items| => Cell(items[i].sample, items[i].missing))
  }

  function Blank(count: nat): (c: seq<Cell>)
    ensures |c| == count
  {
    seq(count, i => Cell(ZERO, true))
  }

  function PacketCells(sender: Sender, i: nat): (c: seq<Cell>)
    requires i < |sender.packets|
    ensures |c| == |sender.packets[i]|
  {
    seq(|sender.packets[i]|, k requires 0 <= k < |sender.packets[i]| => Cell(ToComplex(sender.packets[i][k]), false))
  }

  /** The samples of k packets. */
  function Span(sender: Sender, k: nat): nat {
    k * sender.size
  }

  lemma SpanLaws(sender: Sender, a: nat, b: nat)
    ensures Span(sender, 0) == 0 && Span(sender, 1) == sender.size
    ensures Span(sender, a + b) == Span(sender, a) + Span(sender, b)
  {}

  /** The sender's stream with the lost packets blank. */
  function Masked(sender: Sender, arrived: seq<bool>, n: nat): (c: seq<Cell>)
    requires n <= |arrived| == |sender.packets|
  {
    if n == 0 then []
    else Masked(sender, arrived, n - 1) + if arrived[n - 1] then PacketCells(sender, n - 1) else Blank(sender.size)
  }

  /** The stream the packet counts allow to be rebuilt: a gap is known modulo 16. */
  function Rebuilt(sender: Sender, arrived: seq<bool>, n: nat): (c: seq<Cell>)
    requires n <= |arrived| == |sender.packets|
  {
    if n == 0 then []
    else if !arrived[n - 1] then Rebuilt(sender, arrived, n - 1)
    else Rebuilt(sender, arrived, n - 1) + Blank(Span(sender, Losses(arrived, n - 1) % 16)) + PacketCells(sender, n - 1)
  }

  /** Every run of losses between two arrivals is shorter than 16. */
  predicate ShortLosses(arrived: seq<bool>, n: nat)
    requires n <= |arrived|
  {
    forall i :: 0 <= i < n && arrived[i] ==> Losses(arrived, i) < 16
  }

  lemma {:induction false} ShortLossesExact(sender: Sender, arrived: seq<bool>, n: nat)
    requires 0 < n <= |arrived| == |sender.packets| && arrived[0] && ShortLosses(arrived, n)
    requires forall i :: 0 <= i < |sender.packets| ==> |sender.packets[i]| == sender.size
    ensures Masked(sender, arrived, n) == Rebuilt(sender, arrived, n) + Blank(Span(sender, Losses(arrived, n)))
  {
    SpanLaws(sender, if n > 1 then Losses(arrived, n - 1) else 0, 1);
    hide Span;
    if n == 1 {
      assert Masked(sender, arrived, 1) == PacketCells(sender, 0) == Rebuilt(sender, arrived, 1) by {
        assert Masked(sender, arrived, 0) == [] && Rebuilt(sender, arrived, 0) == [];
      }
    } else {
      ShortLossesExact(sender, arrived, n - 1);
      var l := Losses(arrived, n - 1);
      if arrived[n - 1] {
        assert l % 16 == l && Blank(Span(sender, 0)) == [];
      } else {
        assert Blank(Span(sender, l + 1)) == Blank(Span(sender, l)) + Blank(sender.size);
      }
      hide Blank, PacketCells;
    }
  }

  /** The rebuilt stream is never longer than the true one, and is shorter as soon as
      one run of losses reaches 16. */
  lemma {:induction false} RebuiltLength(sender: Sender, arrived: seq<bool>, n: nat)
    requires 0 < n <= |arrived| == |sender.packets| && arrived[0] && sender.size > 0
    requires forall i :: 0 <= i < |sender.packets| ==> |sender.packets[i]| == sender.size
    ensures |Masked(sender, arrived, n)| == Span(sender, n)
    ensures |Rebuilt(sender, arrived, n)| + Span(sender, Losses(arrived, n)) <= Span(sender, n)
    ensures |Rebuilt(sender, arrived, n)| + Span(sender, Losses(arrived, n)) == Span(sender, n) ==> ShortLosses(arrived, n)
  {
    hide *;
    LengthsMore(sender, arrived, n - 1);
    SpanLaws(sender, n - 1, 1);
    SpanLaws(sender, 0, 0);
    ShortLossesMore(arrived, n - 1);
    if n == 1 {
      NothingLost(sender, arrived);
    } else {
      var l := Losses(arrived, n - 1);
      RebuiltLength(sender, arrived, n - 1);
      SpanLaws(sender, l, 1);
      SpanLaws(sender, l % 16, l - l % 16);
      SpanPositive(sender, l - l % 16);
    }
  }

  lemma NothingLost(sender: Sender, arrived: seq<bool>)
    requires 0 < |arrived| == |sender.packets|
    ensures Masked(sender, arrived, 0) == [] && Rebuilt(sender, arrived, 0) == []
    ensures Losses(arrived, 0) == Losses(arrived, 1) == 0 && ShortLosses(arrived, 0)
  {}

  lemma LengthsMore(sender: Sender, arrived: seq<bool>, n: nat)
    requires n < |arrived| == |sender.packets| && |sender.packets[n]| == sender.size
    ensures |Masked(sender, arrived, n + 1)| == |Masked(sender, arrived, n)| + sender.size
    ensures |Rebuilt(sender, arrived, n + 1)|
         == |Rebuilt(sender, arrived, n)| + if arrived[n] then Span(sender, Losses(arrived, n) % 16) + sender.size else 0
    ensures Losses(arrived, n + 1) == if n == 0 || arrived[n] then 0 else 1 + Losses(arrived, n)
  {
    hide Span, Blank, PacketCells;
  }

  lemma ShortLossesMore(arrived: seq<bool>, n: nat)
    requires n < |arrived|
    ensures ShortLosses(arrived, n + 1) <==> ShortLosses(arrived, n) && (arrived[n] ==> Losses(arrived, n) < 16)
  {
    hide Losses;
  }

  lemma SpanPositive(sender: Sender, k: nat)
    requires sender.size > 0
    ensures Span(sender, k) >= k
  {
    assert k * (sender.size - 1) >= 0;
  }

  /** The rebuilt stream is the sender's stream with the lost samples masked exactly
      when no 16 packets in a row are lost between two that arrive. */
  lemma RebuiltIsMasked(sender: Sender, arrived: seq<bool>, n: nat)
    requires 0 < n <= |arrived| == |sender.packets| && sender.size > 0
    requires arrived[0] && arrived[n - 1]
    requires forall i :: 0 <= i < |sender.packets| ==> |sender.packets[i]| == sender.size
    ensures Rebuilt(sender, arrived, n) == Masked(sender, arrived, n) <==> ShortLosses(arrived, n)
  {
    SpanLaws(sender, 0, 0);
    RebuiltLength(sender, arrived, n);
    if ShortLosses(arrived, n) {
      ShortLossesExact(sender, arrived, n);
      assert Blank(0) == [];
    }
    hide Span, Rebuilt, Masked;
  }
}
