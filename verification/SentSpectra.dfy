/** What stands in the datagrams the processor sends, said of what it received. */
module SentSpectra {
  import opened ComplexNumbers
  import opened SpectrumTypes
  import opened GapBitmap
  import opened SampleTime
  import opened Fft
  import opened SpectrumCodec
  import opened CodecRoundTrip
  import opened ProcessorSpec
  import opened Conservation
  import opened StreamRuns
  import opened StreamHistory
  import P = PowerSpectrum
  import S = Parseval

  // ----- One window -----

  /** The samples of a window, with zero for those that are missing. */
  function Present(window: Window): (x: seq<Complex>)
    requires |window.missing| == |window.samples|
    ensures |x| == |window.samples|
  {
    seq(|window.samples|, j requires 0 <= j < |window.samples| => if window.missing[j] then ZERO else window.samples[j])
  }

  /** Bin i shows output (i + n / 2) mod n of the transform: its squared magnitude over n squared. */
  function BinPower(x: seq<Complex>, w: Complex, i: nat): real
    requires i < |x|
  {
    Norm(DirectSum(x, w, (i + |x| / 2) % |x|, |x|)) / (|x| as real * |x| as real)
  }

  /** The bitmap marks the missing samples, and each power is that of its bin. */
  predicate Measures(config: Config, window: Window, s: Spectrum) {
    var n := config.Fft();
    && n > 0 && |window.samples| == |window.missing| == n == |s.power| == 8 * |s.gaps|
    && (forall i: nat :: i < n ==> (Marked(s.gaps, i) <==> window.missing[i]))
    && (forall i: nat :: i < n ==> s.power[i] == config.toFloat(BinPower(Present(window), config.w, i)))
  }

  /** The spectrum speaks of the window: where it lies in frequency and time, and what came before it. */
  predicate Describes(config: Config, listener: nat, window: Window, s: Spectrum) {
    && s.streamId == listener && s.fftSize == config.Fft() && s.hop == config.Fft()
    && s.sequence == window.sequence && s.center == window.center && s.sampleRate == window.rate > 0
    && s.epoch == window.epoch && s.begin == window.begin
    && (Ticks(s.end) == Ticks(s.begin) + Elapsed(config.Fft(), window.rate)
        <==> Ticks(s.begin) + Elapsed(config.Fft(), window.rate) < 0x1_0000_0000_0000_0000 * 1_000_000_000_000)
    && s.ordinal == window.ordinal % 0x1_0000_0000_0000_0000
    && s.discontinuities == window.discontinuities % 0x1_0000_0000_0000_0000
    && s.sequenceGaps == window.sequenceGaps % 0x1_0000_0000_0000_0000
  }

  lemma BinPowerIs(x: seq<Complex>, w: Complex, toFloat: real -> u32, i: nat)
    requires i < |x|
    ensures P.Powers(x, w, toFloat)[i] == toFloat(BinPower(x, w, i))
  {
    hide Norm, DirectSum;
    assert S.Scaled(|x|, |x| as real) == |x| as real * |x| as real;
    assert P.Rotated(|x|, i) == (i + |x| / 2) % |x|;
    assert P.OutputPower(x, w, i) == BinPower(x, w, i);
  }

  lemma WindowMeasured(config: Config, listener: u32, window: Window)
    requires config.Valid() && WindowOk(config, window) && 1 <= listener <= 4
    ensures Measures(config, window, SpectrumOf(config, listener, window))
  {
    var (n, s) := (config.Fft(), SpectrumOf(config, listener, window));
    FftSizeMultiple(n);
    hide Norm, DirectSum, Power, SampleOk, AddSamples, BinPower, P.Powers, Pack, Marked;
    assert P.Masked(window.samples, window.missing) == Present(window);
    assert s.gaps == Pack(window.missing) && s.power == P.Powers(Present(window), config.w, config.toFloat);
    forall i: nat | i < n
      ensures Marked(s.gaps, i) <==> window.missing[i]
      ensures s.power[i] == config.toFloat(BinPower(Present(window), config.w, i))
    {
      PackMarks(window.missing, i);
      BinPowerIs(Present(window), config.w, config.toFloat, i);
    }
  }

  lemma WindowDescribed(config: Config, listener: u32, window: Window)
    requires config.Valid() && WindowOk(config, window) && Normalised(window.begin)
    ensures Describes(config, listener, window, SpectrumOf(config, listener, window))
  {
    hide Norm, Power, SampleOk, AddSamples, P.Powers, Pack, Ticks, Elapsed;
    SizeFits(config);
    AddExact(window.begin, config.Fft(), window.rate);
  }

  lemma SizeFits(config: Config)
    requires config.Valid()
    ensures 0 < config.Fft() < WORD
  {
    hide Norm, Power;
  }

  /** A datagram of a window decodes to a spectrum of the window. */
  ghost predicate Tells(config: Config, listener: nat, window: Window, wire: seq<byte>) {
    && Decoded(wire).Some?
    && Describes(config, listener, window, Decoded(wire).value) && Measures(config, window, Decoded(wire).value)
  }

  lemma WindowSent(config: Config, listener: u32, window: Window)
    requires config.Valid() && WindowOk(config, window) && 1 <= listener <= 4 && Normalised(window.begin)
    ensures SpectrumOf(config, listener, window).Valid()
    ensures Tells(config, listener, window, Wire(SpectrumOf(config, listener, window)))
  {
    hide *;
    SpectrumValid(config, listener, window);
    DecodeEncoded(SpectrumOf(config, listener, window));
    WindowMeasured(config, listener, window);
    WindowDescribed(config, listener, window);
    TellsIs(config, listener, window, SpectrumOf(config, listener, window));
  }

  lemma TellsIs(config: Config, listener: u32, window: Window, s: Spectrum)
    requires s.Valid() && Decoded(Wire(s)) == Some(s) && Describes(config, listener, window, s) && Measures(config, window, s)
    ensures Tells(config, listener, window, Wire(s))
  {
    hide Decoded, Describes, Measures, Spectrum.Valid, Wire;
  }

  // ----- One datagram -----

  /** Some pair of its payload cannot be read. */
  predicate Garbled(d: Datagram) {
    && d.envelope.Some? && d.envelope.value.body.DataBody? && d.envelope.value.body.data.samples.Some?
    && exists i :: 0 <= i < |d.envelope.value.body.data.samples.value| && d.envelope.value.body.data.samples.value[i].None?
  }

  function AtMost(n: nat, limit: nat): nat {
    if n <= limit then n else limit
  }

  lemma ReadableIs(samples: seq<Option<Iq>>)
    ensures Readable(samples) == |samples| <==> forall i :: 0 <= i < |samples| ==> samples[i].Some?
  {}

  lemma DataSends(config: Config, listener: nat, s: StreamState, m: Metrics, data: Data)
    requires config.Valid() && 1 <= listener <= 4 && StreamOk(config, s) && s.metadataValid && SamplesOk(config, data)
    ensures
      var (after, counted, windows, output) := DataStep(config, listener, s, m, data);
      var kept := AtMost(|windows|, config.queueLimit);
      && (forall k :: 0 <= k < |windows| ==> WindowOk(config, windows[k]))
      && output == (if Readable(data.samples.value) == |data.samples.value| then Sent(config, listener, windows[..kept]) else [])
      && counted.spectra == m.spectra + kept && counted.unavailable == m.unavailable + |windows| - kept
  {
    DataStepOk(config, listener, s, m, data);
    MissingPairsBounded(config, s, data);
    hide PushAll, SampleOk, Norm, Power, WindowOk, Items, Readable, StreamOk, Gap, SpectrumOf;
  }

  /** What goes out: every window that was completed, in order and as far as the queue reaches,
      unless a sample of the packet cannot be read. */
  lemma StepSends(config: Config, core: Core, listener: nat, d: Datagram)
    requires config.Valid() && CoreOk(config, core)
    ensures
      var step := Consumed(config, core, listener, d);
      var kept := AtMost(|step.windows|, config.queueLimit);
      && (forall k :: 0 <= k < |step.windows| ==> WindowOk(config, step.windows[k]))
      && (step.windows != [] ==> 1 <= listener <= 4)
      && step.output == (if step.windows == [] || Garbled(d) then [] else Sent(config, listener, step.windows[..kept]))
      && step.core.metrics.spectra == core.metrics.spectra + kept
      && step.core.metrics.unavailable == core.metrics.unavailable + |step.windows| - kept
  {
    hide DataStep, SampleOk, Norm, Power, StreamOk, SdrEnvelope, WindowOk, Readable, AcceptedSettings, WithSettings, Sent;
    if 1 <= listener <= 4 && d.envelope.Some? && d.envelope.value.body.DataBody? {
      var (s, data) := (core.streams[listener - 1], d.envelope.value.body.data);
      if SamplesOk(config, data) && s.metadataValid {
        DataSends(config, listener, s, core.metrics.(datagrams := core.metrics.datagrams + 1), data);
        ReadableIs(data.samples.value);
        NoneSent(config, listener, DataStep(config, listener, s, core.metrics.(datagrams := core.metrics.datagrams + 1), data).2);
      }
    }
  }

  lemma NoneSent(config: Config, listener: nat, windows: seq<Window>)
    requires config.Valid() && 1 <= listener <= 4 && forall k :: 0 <= k < |windows| ==> WindowOk(config, windows[k])
    ensures windows == [] ==> Sent(config, listener, windows[..AtMost(|windows|, config.queueLimit)]) == []
  {
    hide SpectrumOf, Norm, Power, SampleOk;
  }

  // ----- Every run -----

  /** Where a window stands in everything its listener received: the context it was taken
      under, the packets skipped and the breaks so far, and its number on the stream. */
  ghost predicate Stands(config: Config, before: seq<Input>, input: Input, window: Window, k: nat)
    requires config.Valid() && 1 <= input.listener <= 4
  {
    var (l, now) := (input.listener, before + [input]);
    && LastContext(config, l, before) == Some(Setting(window.center, window.rate, window.epoch))
    && window.discontinuities == Breaks(Taken(config, l, now)) + CutOffs(config, l, now)
    && window.sequenceGaps == Skipped(Taken(config, l, now))
    && |Run(config, before).completed| == 4
    && window.sequence == (Run(config, before).completed[l - 1] + k) % 0x1_0000_0000
  }

  /** After every run, a datagram sends its completed windows in order, as far as the queue
      reaches, unless a sample of it cannot be read. What is sent decodes to spectra that tell
      of these windows, and each window stands where everything received says. */
  lemma SpectraSent(config: Config, before: seq<Input>, input: Input)
    requires config.Valid()
    ensures CoreOk(config, Run(config, before).core)
    ensures
      var (core, l) := (Run(config, before).core, input.listener);
      var step := Consumed(config, core, l, input.datagram);
      && (step.windows != [] ==> 1 <= l <= 4 && TakesData(config, l, input))
      && |step.output| == (if Garbled(input.datagram) then 0 else AtMost(|step.windows|, config.queueLimit))
      && (forall k :: 0 <= k < |step.output| ==> Tells(config, l, step.windows[k], step.output[k]))
      && (forall k :: 0 <= k < |step.windows| ==> Stands(config, before, input, step.windows[k], k))
  {
    hide *;
    var (h, l) := (Run(config, before), input.listener);
    HistoryParts(config, h);
    StepSends(config, h.core, l, input.datagram);
    var step := Consumed(config, h.core, l, input.datagram);
    if step.windows != [] {
      WindowsStand(config, before, input);
      SentTells(config, before, input);
    }
    Empty(step.windows, config.queueLimit);
  }

  lemma HistoryParts(config: Config, h: History)
    requires HistoryOk(config, h)
    ensures CoreOk(config, h.core) && |h.core.streams| == 4 && |h.completed| == 4
  {
    hide StreamOk, Config.Valid;
  }

  lemma Empty(windows: seq<Window>, limit: nat)
    ensures windows == [] ==> AtMost(|windows|, limit) == 0
    ensures AtMost(|windows|, limit) <= |windows|
  {}

  /** Windows come from data alone, and carry what the stream knows after it. */
  lemma WindowsStand(config: Config, before: seq<Input>, input: Input)
    requires config.Valid() && 1 <= input.listener <= 4 && CoreOk(config, Run(config, before).core)
    requires Consumed(config, Run(config, before).core, input.listener, input.datagram).windows != []
    ensures TakesData(config, input.listener, input)
    ensures
      var windows := Consumed(config, Run(config, before).core, input.listener, input.datagram).windows;
      forall k :: 0 <= k < |windows| ==>
        Stands(config, before, input, windows[k], k) && Normalised(windows[k].begin)
  {
    hide *;
    var (h, l, now) := (Run(config, before), input.listener, before + [input]);
    assert now[..|now| - 1] == before && now[|now| - 1] == input;
    HistoryParts(config, h);
    var s := h.core.streams[l - 1];
    var step := Consumed(config, h.core, l, input.datagram);
    OnlyData(config, h.core, input);
    RunRemembers(config, l, before);
    RunRemembers(config, l, now);
    Unfolds(config, l, now);
    StepRemembers(config, h.core, l, input, LastContext(config, l, before), Taken(config, l, before), CutOffs(config, l, before));
    AfterIs(config, h, input);
    Metadata(s, LastContext(config, l, before), Taken(config, l, before), CutOffs(config, l, before));
    SameContext(config, l, LastContext(config, l, before), input);
    var after := StreamAfter(config, l, now);
    assert after == step.core.streams[l - 1];
    forall k | 0 <= k < |step.windows|
      ensures Stands(config, before, input, step.windows[k], k) && Normalised(step.windows[k].begin)
    {
      WindowStands(config, before, input, after, step.windows, k);
    }
  }

  lemma SameContext(config: Config, listener: nat, context: Option<Setting>, input: Input)
    requires TakesData(config, listener, input)
    ensures NextContext(config, listener, context, input) == context
  {
    hide Refused;
  }

  lemma OnlyData(config: Config, core: Core, input: Input)
    requires config.Valid() && CoreOk(config, core) && 1 <= input.listener <= 4
    requires Consumed(config, core, input.listener, input.datagram).windows != []
    ensures TakesData(config, input.listener, input) && |core.streams| == 4 && core.streams[input.listener - 1].metadataValid
  {
    hide DataStep, SdrEnvelope, WithSettings, AcceptedSettings, StreamOk, Norm, Power;
  }

  lemma WindowStands(config: Config, before: seq<Input>, input: Input, after: StreamState, windows: seq<Window>, k: nat)
    requires config.Valid() && 1 <= input.listener <= 4 && k < |windows| && Carries(windows[k], after)
    requires |Run(config, before).completed| == 4 && |Run(config, before).core.streams| == 4
    requires
      var (l, now) := (input.listener, before + [input]);
      && Remembers(after, LastContext(config, l, before), Taken(config, l, now), CutOffs(config, l, now))
      && Run(config, before).core.streams[l - 1].metadataValid && LastContext(config, l, before).Some?
      && NumberedFrom(windows, Run(config, before).core.streams[l - 1].sequence)
      && Run(config, before).core.streams[l - 1].sequence == Run(config, before).completed[l - 1] % 0x1_0000_0000
    ensures Stands(config, before, input, windows[k], k) && Normalised(windows[k].begin)
  {
    hide Run, Taken, LastContext, CutOffs, Skipped, Breaks, Norm, Power, Normalised, Follows, Config.Valid, StreamOk, WindowOk;
    SequenceOn(Run(config, before).completed[input.listener - 1], k);
  }

  lemma SentTells(config: Config, before: seq<Input>, input: Input)
    requires config.Valid() && 1 <= input.listener <= 4 && CoreOk(config, Run(config, before).core)
    requires
      var windows := Consumed(config, Run(config, before).core, input.listener, input.datagram).windows;
      forall k :: 0 <= k < |windows| ==> WindowOk(config, windows[k]) && Normalised(windows[k].begin)
    ensures
      var windows := Consumed(config, Run(config, before).core, input.listener, input.datagram).windows;
      var kept := windows[..AtMost(|windows|, config.queueLimit)];
      forall k :: 0 <= k < |kept| ==> Tells(config, input.listener, windows[k], Sent(config, input.listener, kept)[k])
  {
    hide Run, Consumed, Tells, WindowOk, Normalised, SpectrumOf, Norm, Power, Wire, Config.Valid, StreamOk, CoreOk, Spectrum.Valid;
    var windows := Consumed(config, Run(config, before).core, input.listener, input.datagram).windows;
    var kept := windows[..AtMost(|windows|, config.queueLimit)];
    forall k | 0 <= k < |kept|
      ensures Tells(config, input.listener, windows[k], Sent(config, input.listener, kept)[k])
    {
      WindowSent(config, input.listener, kept[k]);
    }
  }
}
