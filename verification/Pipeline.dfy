/** Processor, codec and detector in a row, with nothing lost in between. */
module Pipeline {
  import opened ComplexNumbers
  import opened SpectrumTypes
  import opened GapBitmap
  import opened SampleTime
  import opened SpectrumCodec
  import opened CodecRoundTrip
  import opened ProcessorSpec
  import opened Conservation
  import opened Detector
  import opened ToneDetection
  import P = PowerSpectrum

  /** The detector is set up for what the processor sends, and one datagram's
      windows always fit the queue. */
  predicate Matching(config: Config, detector: DetectorConfig) {
    && detector.fftSize == config.Fft()
    && detector.receiveBytes >= WireSize(config.Fft())
    && config.queueLimit >= 16
  }

  /** Every pair of every payload can be read. */
  predicate Readables(d: Datagram) {
    d.envelope.Some? && d.envelope.value.body.DataBody? && d.envelope.value.body.data.samples.Some? ==>
      var samples := d.envelope.value.body.data.samples.value;
      Readable(samples) == |samples|
  }

  // ----- One window -----

  /** Whether any sample of the window was filled in. */
  predicate Filled(window: Window) {
    exists i :: 0 <= i < |window.missing| && window.missing[i]
  }

  lemma PackedGap(missing: seq<bool>)
    requires |missing| % 8 == 0
    ensures AnyGap(Pack(missing)) <==> exists i :: 0 <= i < |missing| && missing[i]
  {
    var gaps := Pack(missing);
    ZeroBytes(gaps);
    CountZero(gaps, 8 * |gaps|);
    forall i: nat | i < |missing|
      ensures Marked(gaps, i) <==> missing[i]
    {
      PackMarks(missing, i);
    }
    hide Pack, Marked;
  }

  /** A window sent by the processor is accepted by the detector, and is reported as
      gapped exactly when a sample of it was filled in. */
  lemma WindowDetected(config: Config, detector: DetectorConfig, streamId: u32, window: Window, state: DetectorState)
    requires config.Valid() && Matching(config, detector) && WindowOk(config, window) && 1 <= streamId <= 4
    requires |state.sequences| == |state.seen| == 4
    ensures SpectrumOf(config, streamId, window).Valid()
    ensures
      var s := SpectrumOf(config, streamId, window);
      var counted := state.(metrics := state.metrics.(datagrams := state.metrics.datagrams + 1));
      && Detect(detector, state, Wire(s)) == Observed(counted, s)
      && s.streamId == streamId && s.sequence == window.sequence
      && (Verdict(s).Gapped? <==> Filled(window))
  {
    hide *;
    SpectrumValid(config, streamId, window);
    var s := SpectrumOf(config, streamId, window);
    SpectrumFields(config, streamId, window);
    DetectAccepts(config, detector, s, state);
    PackedGap(window.missing);
    VerdictOfGaps(s);
    FilledMeaning(window);
  }

  lemma FilledMeaning(window: Window)
    ensures Filled(window) <==> exists i :: 0 <= i < |window.missing| && window.missing[i]
  {}

  lemma DetectAccepts(config: Config, detector: DetectorConfig, s: Spectrum, state: DetectorState)
    requires Matching(config, detector) && s.Valid() && s.fftSize == config.Fft()
    requires |state.sequences| == |state.seen| == 4
    ensures
      var counted := state.(metrics := state.metrics.(datagrams := state.metrics.datagrams + 1));
      Detect(detector, state, Wire(s)) == Observed(counted, s)
  {
    hide *;
    DecodeEncoded(s);
    WireSizeIs(config, detector, s);
    DetectIs(detector, state, Wire(s), s);
  }

  lemma WireSizeIs(config: Config, detector: DetectorConfig, s: Spectrum)
    requires Matching(config, detector) && s.Valid() && s.fftSize == config.Fft()
    ensures |Wire(s)| <= detector.receiveBytes && s.fftSize == detector.fftSize
  {
    hide Wire, Spectrum.Valid, Config.Fft, ProcessingConfig.Valid;
  }

  lemma VerdictOfGaps(s: Spectrum)
    requires s.Valid()
    ensures Verdict(s).Gapped? <==> AnyGap(s.gaps)
  {
    hide AnyGap, Spectrum.Valid;
  }

  lemma SpectrumFields(config: Config, streamId: u32, window: Window)
    requires config.Valid() && WindowOk(config, window) && 1 <= streamId <= 4
    ensures
      var s := SpectrumOf(config, streamId, window);
      && s.streamId == streamId && s.sequence == window.sequence && s.fftSize == config.Fft()
      && |window.missing| % 8 == 0 && |window.missing| == config.Fft() && s.gaps == Pack(window.missing)
  {
    FftSizeMultiple(config.Fft());
    hide P.Powers, Pack, Norm, Power, SampleOk, AddSamples;
  }

  // ----- Sequence numbers -----

  /** The windows of a stream carry consecutive numbers, modulo 2^32. */
  predicate Numbered(windows: seq<Window>, first: u32) {
    forall k :: 0 <= k < |windows| ==> windows[k].sequence == Advanced(first, k)
  }

  function Advanced(first: u32, n: nat): u32 {
    if n == 0 then first else NextSequence(Advanced(first, n - 1))
  }

  lemma {:induction false} PushAllNumbers(config: Config, s: StreamState, items: seq<Item>)
    ensures
      var (after, windows) := PushAll(config, s, items);
      Numbered(windows, s.sequence) && after.sequence == Advanced(s.sequence, |windows|)
  {
    if items != [] {
      PushAllNumbers(config, s, items[..|items| - 1]);
    }
  }

  lemma DataStepNumbers(config: Config, listener: nat, s: StreamState, m: Metrics, data: Data)
    requires config.Valid() && 1 <= listener <= 4 && StreamOk(config, s) && s.metadataValid && SamplesOk(config, data)
    ensures
      var (after, counted, windows, output) := DataStep(config, listener, s, m, data);
      && Numbered(windows, s.sequence) && after.sequence == Advanced(s.sequence, |windows|)
  {
    MissingPairsBounded(config, s, data);
    if MissingBegin(s, data).Some? {
      PushAllNumbers(config, Counted(s, data), Items(s, data));
    }
    hide PushAll, SampleOk, Norm, Power, WindowOk, Items, Readable, Sent, StreamOk, Gap;
  }

  // ----- A run -----

  /** The detector after some datagrams, and what it reported. */
  function DetectAll(detector: DetectorConfig, state: DetectorState, wires: seq<seq<byte>>)
    : (r: (DetectorState, seq<Option<Detection>>))
    requires |state.sequences| == |state.seen| == 4
    ensures |r.0.sequences| == |r.0.seen| == 4 && |r.1| == |wires|
  {
    if wires == [] then (state, [])
    else
      var before := DetectAll(detector, state, wires[..|wires| - 1]);
      var last := Detect(detector, before.0, wires[|wires| - 1]);
      (last.0, before.1 + [last.1])
  }

  /** The detector expects the next window of the stream, if it expects any. */
  predicate Expects(state: DetectorState, listener: nat, next: u32)
    requires |state.sequences| == 4 && 1 <= listener <= 4
  {
    state.sequences[listener - 1].Some? ==> NextSequence(state.sequences[listener - 1].value) == next
  }

  /** The report on a window: gapped exactly when some sample of it was filled in. */
  predicate Reports(report: Option<Detection>, window: Window) {
    report.Some? && (report.value.validity.Gapped? <==> Filled(window))
  }

  /** n more datagrams, all of one stream, none malformed, and no sequence gap. */
  predicate Undisturbed(before: DetectorState, after: DetectorState, listener: nat, n: nat, next: u32)
    requires |before.sequences| == |after.sequences| == 4 && 1 <= listener <= 4
  {
    && after.metrics.malformed == before.metrics.malformed
    && after.metrics.sequenceGaps == before.metrics.sequenceGaps
    && after.metrics.datagrams == before.metrics.datagrams + n
    && Expects(after, listener, next)
    && forall k :: 0 <= k < 4 && k != listener - 1 ==> after.sequences[k] == before.sequences[k]
  }

  /** Consecutive windows of one stream raise no alarm and are all reported on. */
  lemma {:induction false} WindowsDetected(config: Config, detector: DetectorConfig, listener: nat, windows: seq<Window>,
                                           first: u32, state: DetectorState)
    requires config.Valid() && Matching(config, detector) && 1 <= listener <= 4
    requires |state.sequences| == |state.seen| == 4
    requires forall k :: 0 <= k < |windows| ==> WindowOk(config, windows[k])
    requires Numbered(windows, first) && Expects(state, listener, first)
    ensures
      var (after, reports) := DetectAll(detector, state, Sent(config, listener, windows));
      && Undisturbed(state, after, listener, |windows|, Advanced(first, |windows|))
      && |reports| == |windows| && forall k :: 0 <= k < |windows| ==> Reports(reports[k], windows[k])
  {
    hide *;
    if windows == [] {
      NothingSent(config, detector, state, listener, windows, first);
    } else {
      var n := |windows| - 1;
      var shorter, window := windows[..n], windows[n];
      NumberedPrefix(windows, first);
      WindowsDetected(config, detector, listener, shorter, first, state);
      SentPrefix(config, listener, windows, n);
      DetectAllUnfolds(detector, state, Sent(config, listener, windows));
      var before := DetectAll(detector, state, Sent(config, listener, shorter)).0;
      UndisturbedExpects(state, before, listener, n, Advanced(first, n));
      NextWindow(config, detector, listener, window, before);
      var after := Detect(detector, before, Wire(SpectrumOf(config, listener, window))).0;
      UndisturbedChain(state, before, after, listener, n, Advanced(first, n), NextSequence(window.sequence));
    }
  }

  lemma NumberedPrefix(windows: seq<Window>, first: u32)
    requires Numbered(windows, first) && windows != []
    ensures Numbered(windows[..|windows| - 1], first)
    ensures windows[|windows| - 1].sequence == Advanced(first, |windows| - 1)
    ensures Advanced(first, |windows|) == NextSequence(windows[|windows| - 1].sequence)
  {
    hide NextSequence;
  }

  lemma DetectAllUnfolds(detector: DetectorConfig, state: DetectorState, wires: seq<seq<byte>>)
    requires |state.sequences| == |state.seen| == 4 && wires != []
    ensures
      var before := DetectAll(detector, state, wires[..|wires| - 1]);
      var last := Detect(detector, before.0, wires[|wires| - 1]);
      DetectAll(detector, state, wires) == (last.0, before.1 + [last.1])
  {
    hide Detect;
  }

  lemma NothingSent(config: Config, detector: DetectorConfig, state: DetectorState, listener: nat,
                    windows: seq<Window>, first: u32)
    requires config.Valid() && |state.sequences| == |state.seen| == 4 && 1 <= listener <= 4 && Expects(state, listener, first)
    requires windows == []
    ensures DetectAll(detector, state, Sent(config, listener, windows)) == (state, [])
    ensures Undisturbed(state, state, listener, 0, Advanced(first, 0))
  {
    hide Expects, Norm, Power;
  }

  lemma UndisturbedExpects(a: DetectorState, b: DetectorState, listener: nat, n: nat, next: u32)
    requires |a.sequences| == |b.sequences| == 4 && 1 <= listener <= 4 && Undisturbed(a, b, listener, n, next)
    ensures Expects(b, listener, next)
  {}

  lemma UndisturbedChain(a: DetectorState, b: DetectorState, c: DetectorState, listener: nat, n: nat, mid: u32, next: u32)
    requires |a.sequences| == |b.sequences| == |c.sequences| == 4 && 1 <= listener <= 4
    requires Undisturbed(a, b, listener, n, mid) && Undisturbed(b, c, listener, 1, next)
    ensures Undisturbed(a, c, listener, n + 1, next)
  {
    hide Expects;
  }

  lemma SentPrefix(config: Config, listener: nat, windows: seq<Window>, n: nat)
    requires config.Valid() && 1 <= listener <= 4 && n <= |windows|
    requires forall k :: 0 <= k < |windows| ==> WindowOk(config, windows[k])
    ensures Sent(config, listener, windows[..n]) == Sent(config, listener, windows)[..n]
    ensures forall k :: 0 <= k < |windows| ==> SpectrumOf(config, listener, windows[k]).Valid()
    ensures forall k :: 0 <= k < |windows| ==>
      Sent(config, listener, windows)[k] == Wire(SpectrumOf(config, listener, windows[k]))
  {
    WindowsValid(config, listener, windows);
    hide WindowOk, Wire, SpectrumOf, Spectrum.Valid, Config.Valid;
  }

  lemma NextWindow(config: Config, detector: DetectorConfig, listener: nat, window: Window, state: DetectorState)
    requires config.Valid() && Matching(config, detector) && 1 <= listener <= 4 && WindowOk(config, window)
    requires |state.sequences| == |state.seen| == 4 && Expects(state, listener, window.sequence)
    ensures SpectrumOf(config, listener, window).Valid()
    ensures
      var (after, report) := Detect(detector, state, Wire(SpectrumOf(config, listener, window)));
      && Undisturbed(state, after, listener, 1, NextSequence(window.sequence))
      && Reports(report, window)
  {
    hide *;
    WindowDetected(config, detector, listener, window, state);
    ObservedEffects(state, SpectrumOf(config, listener, window), listener, window);
  }

  lemma ObservedEffects(state: DetectorState, s: Spectrum, listener: nat, window: Window)
    requires |state.sequences| == |state.seen| == 4 && s.Valid() && s.streamId == listener && 1 <= listener <= 4
    requires Expects(state, listener, s.sequence) && (Verdict(s).Gapped? <==> Filled(window))
    ensures
      var counted := state.(metrics := state.metrics.(datagrams := state.metrics.datagrams + 1));
      var (after, report) := Observed(counted, s);
      && Undisturbed(state, after, listener, 1, NextSequence(s.sequence))
      && Reports(report, window)
  {
    hide Filled, Verdict, FrequencyOf, Spectrum.Valid;
  }

  // ----- Every run -----

  /** Processor and detector after a run, the windows completed and the reports on them. */
  datatype System = System(core: Core, detector: DetectorState, windows: seq<Window>, reports: seq<Option<Detection>>)

  ghost predicate SystemOk(config: Config, system: System) {
    CoreOk(config, system.core) && |system.detector.sequences| == |system.detector.seen| == 4
  }

  /** One datagram through the processor, and everything it sends through the detector. */
  ghost function Deliver(config: Config, detector: DetectorConfig, system: System, input: Input): (r: System)
    requires config.Valid() && SystemOk(config, system)
    ensures SystemOk(config, r)
  {
    ConsumedOk(config, system.core, input.listener, input.datagram);
    var step := Consumed(config, system.core, input.listener, input.datagram);
    var (after, reports) := DetectAll(detector, system.detector, step.output);
    System(step.core, after, system.windows + step.windows, system.reports + reports)
  }

  ghost function RunSystem(config: Config, detector: DetectorConfig, inputs: seq<Input>): (r: System)
    requires config.Valid()
    ensures SystemOk(config, r)
  {
    if inputs == [] then
      FreshConserved(config);
      StartOk(config);
      System(Start().core, IDLE, [], [])
    else Deliver(config, detector, RunSystem(config, detector, inputs[..|inputs| - 1]), inputs[|inputs| - 1])
  }

  lemma StartOk(config: Config)
    requires StreamOk(config, FRESH)
    ensures CoreOk(config, Start().core)
  {
    hide StreamOk, FRESH;
  }

  /** Nothing is malformed, out of sequence or left unsent, and every window has its report. */
  ghost predicate AllWell(config: Config, system: System)
    requires SystemOk(config, system)
  {
    && system.detector.metrics.malformed == 0 && system.detector.metrics.sequenceGaps == 0
    && system.detector.metrics.datagrams == |system.windows| == system.core.metrics.spectra
    && system.core.metrics.unavailable == 0
    && (forall k :: 0 <= k < 4 ==> Expects(system.detector, k + 1, system.core.streams[k].sequence))
    && |system.reports| == |system.windows|
    && forall k :: 0 <= k < |system.windows| ==> Reports(system.reports[k], system.windows[k])
  }

  /** What a readable datagram sends: all its windows, in sequence. */
  predicate Delivers(config: Config, core: Core, listener: nat, step: Step)
    requires |core.streams| == |step.core.streams| == 4
  {
    && (forall k :: 0 <= k < 4 && k != listener - 1 ==> step.core.streams[k].sequence == core.streams[k].sequence)
    && step.core.metrics.spectra == core.metrics.spectra + |step.windows|
    && step.core.metrics.unavailable == core.metrics.unavailable
    && (if 1 <= listener <= 4 then
          && Numbered(step.windows, core.streams[listener - 1].sequence)
          && step.core.streams[listener - 1].sequence == Advanced(core.streams[listener - 1].sequence, |step.windows|)
        else step.windows == [])
    && forall k :: 0 <= k < |step.windows| ==> WindowOk(config, step.windows[k])
  }

  lemma DataDelivers(config: Config, listener: nat, s: StreamState, m: Metrics, data: Data)
    requires config.Valid() && config.queueLimit >= 16 && 1 <= listener <= 4 && StreamOk(config, s) && s.metadataValid
    requires SamplesOk(config, data) && Readable(data.samples.value) == |data.samples.value|
    ensures
      var (after, counted, windows, output) := DataStep(config, listener, s, m, data);
      && (forall k :: 0 <= k < |windows| ==> WindowOk(config, windows[k]))
      && output == Sent(config, listener, windows)
      && counted.spectra == m.spectra + |windows| && counted.unavailable == m.unavailable
  {
    DataStepOk(config, listener, s, m, data);
    DataStepConserves(config, listener, s, m, data);
    DataStepSends(config, listener, s, m, data);
    hide *;
    var windows := DataStep(config, listener, s, m, data).2;
    AllKept(config, windows);
  }

  lemma AllKept(config: Config, windows: seq<Window>)
    requires config.queueLimit >= 16 && |windows| <= 16
    ensures Kept(config, windows) == |windows| && windows[..Kept(config, windows)] == windows
  {}

  lemma DataStepSends(config: Config, listener: nat, s: StreamState, m: Metrics, data: Data)
    requires config.Valid() && 1 <= listener <= 4 && StreamOk(config, s) && s.metadataValid
    requires SamplesOk(config, data) && Readable(data.samples.value) == |data.samples.value|
    ensures
      var (after, counted, windows, output) := DataStep(config, listener, s, m, data);
      && (forall k :: 0 <= k < |windows| ==> WindowOk(config, windows[k]))
      && output == Sent(config, listener, windows[..Kept(config, windows)])
      && counted.spectra == m.spectra + Kept(config, windows)
  {
    DataStepOk(config, listener, s, m, data);
    MissingPairsBounded(config, s, data);
    hide PushAll, SampleOk, Norm, Power, WindowOk, Items, Readable, StreamOk, Gap;
  }

  /** What one readable datagram does to the processor. */
  lemma ConsumedDelivers(config: Config, core: Core, listener: nat, d: Datagram)
    requires config.Valid() && config.queueLimit >= 16 && CoreOk(config, core) && Readables(d)
    ensures CoreOk(config, Consumed(config, core, listener, d).core)
    ensures |core.streams| == |Consumed(config, core, listener, d).core.streams| == 4
    ensures
      var step := Consumed(config, core, listener, d);
      && Delivers(config, core, listener, step)
      && step.output == if 1 <= listener <= 4 then Sent(config, listener, step.windows) else []
  {
    hide DataStep, SampleOk, Norm, Power, StreamOk, SdrEnvelope, WindowOk, Readable, NextSequence;
    ConsumedOk(config, core, listener, d);
    if 1 <= listener <= 4 && d.envelope.Some? {
      match d.envelope.value.body
      case ContextBody(context) =>
      case DataBody(data) =>
        var s, m := core.streams[listener - 1], core.metrics.(datagrams := core.metrics.datagrams + 1);
        if SamplesOk(config, data) && s.metadataValid {
          DataDelivers(config, listener, s, m, data);
          DataStepNumbers(config, listener, s, m, data);
        }
    }
  }

  lemma StepWell(config: Config, detector: DetectorConfig, system: System, input: Input)
    requires config.Valid() && Matching(config, detector) && SystemOk(config, system) && AllWell(config, system)
    requires Readables(input.datagram)
    ensures AllWell(config, Deliver(config, detector, system, input))
  {
    hide *;
    SystemShape(config, system);
    QueueLarge(config, detector);
    ConsumedDelivers(config, system.core, input.listener, input.datagram);
    var step := Consumed(config, system.core, input.listener, input.datagram);
    if 1 <= input.listener <= 4 {
      WellExpects(config, system, input.listener);
      DeliversParts(config, system.core, input.listener, step);
      WindowsDetected(config, detector, input.listener, step.windows,
                      system.core.streams[input.listener - 1].sequence, system.detector);
    } else {
      NoWindows(config, system.core, input.listener, step);
      NothingDetected(detector, system.detector);
    }
    var (after, reports) := DetectAll(detector, system.detector, step.output);
    DeliverIs(config, detector, system, input);
    WellStep(config, system, input.listener, step, after, reports);
  }

  lemma DeliverIs(config: Config, detector: DetectorConfig, system: System, input: Input)
    requires config.Valid() && SystemOk(config, system)
    ensures
      var step := Consumed(config, system.core, input.listener, input.datagram);
      var (after, reports) := DetectAll(detector, system.detector, step.output);
      Deliver(config, detector, system, input)
      == System(step.core, after, system.windows + step.windows, system.reports + reports)
  {
    hide Consumed, DetectAll, CoreOk, Norm, Power;
  }

  lemma NoWindows(config: Config, core: Core, listener: nat, step: Step)
    requires |core.streams| == |step.core.streams| == 4 && !(1 <= listener <= 4) && Delivers(config, core, listener, step)
    ensures step.windows == []
  {
    hide WindowOk, Numbered;
  }

  lemma SystemShape(config: Config, system: System)
    requires SystemOk(config, system)
    ensures CoreOk(config, system.core) && |system.core.streams| == 4
    ensures |system.detector.sequences| == |system.detector.seen| == 4
  {
    hide StreamOk;
  }

  lemma QueueLarge(config: Config, detector: DetectorConfig)
    requires Matching(config, detector)
    ensures config.queueLimit >= 16
  {}

  lemma WellExpects(config: Config, system: System, listener: nat)
    requires SystemOk(config, system) && AllWell(config, system) && 1 <= listener <= 4
    ensures Expects(system.detector, listener, system.core.streams[listener - 1].sequence)
  {
    hide Expects, StreamOk, Reports;
    assert Expects(system.detector, (listener - 1) + 1, system.core.streams[listener - 1].sequence);
  }

  lemma DeliversParts(config: Config, core: Core, listener: nat, step: Step)
    requires |core.streams| == |step.core.streams| == 4 && 1 <= listener <= 4 && Delivers(config, core, listener, step)
    ensures Numbered(step.windows, core.streams[listener - 1].sequence)
    ensures forall k :: 0 <= k < |step.windows| ==> WindowOk(config, step.windows[k])
  {
    hide WindowOk, Numbered;
  }

  lemma NothingDetected(detector: DetectorConfig, state: DetectorState)
    requires |state.sequences| == |state.seen| == 4
    ensures DetectAll(detector, state, []) == (state, [])
  {}

  lemma WellStep(config: Config, system: System, listener: nat, step: Step, after: DetectorState, reports: seq<Option<Detection>>)
    requires config.Valid() && SystemOk(config, system) && AllWell(config, system)
    requires CoreOk(config, step.core) && |after.sequences| == |after.seen| == 4
    requires |system.core.streams| == |step.core.streams| == 4 && Delivers(config, system.core, listener, step)
    requires |reports| == |step.windows| && forall k :: 0 <= k < |step.windows| ==> Reports(reports[k], step.windows[k])
    requires
      if 1 <= listener <= 4 then
        Undisturbed(system.detector, after, listener, |step.windows|,
                    Advanced(system.core.streams[listener - 1].sequence, |step.windows|))
      else after == system.detector
    ensures
      var r := System(step.core, after, system.windows + step.windows, system.reports + reports);
      SystemOk(config, r) && AllWell(config, r)
  {
    hide Reports, StreamOk, WindowOk, Advanced, Numbered, NextSequence, Config.Valid;
    var r := System(step.core, after, system.windows + step.windows, system.reports + reports);
    forall k | 0 <= k < 4
      ensures Expects(r.detector, k + 1, r.core.streams[k].sequence)
    {
      assert Expects(system.detector, k + 1, system.core.streams[k].sequence);
    }
  }

  /** Over every run of readable datagrams, whatever else is wrong with them, the
      detector counts no malformed datagram and no sequence gap, the processor leaves
      no window unsent, and each window is reported gapped exactly when it was filled. */
  lemma {:induction false} PipelineLossless(config: Config, detector: DetectorConfig, inputs: seq<Input>)
    requires config.Valid() && Matching(config, detector)
    requires forall i :: 0 <= i < |inputs| ==> Readables(inputs[i].datagram)
    ensures AllWell(config, RunSystem(config, detector, inputs))
  {
    hide *;
    RunSystemUnfolds(config, detector, inputs);
    if inputs == [] {
      StartWell(config, RunSystem(config, detector, inputs));
    } else {
      var before := inputs[..|inputs| - 1];
      PipelineLossless(config, detector, before);
      StepWell(config, detector, RunSystem(config, detector, before), inputs[|inputs| - 1]);
    }
  }

  lemma RunSystemUnfolds(config: Config, detector: DetectorConfig, inputs: seq<Input>)
    requires config.Valid()
    ensures inputs == [] ==> RunSystem(config, detector, inputs) == System(Start().core, IDLE, [], [])
    ensures inputs != [] ==>
      RunSystem(config, detector, inputs)
      == Deliver(config, detector, RunSystem(config, detector, inputs[..|inputs| - 1]), inputs[|inputs| - 1])
  {
    hide Deliver, Norm, Power, Start, IDLE;
  }

  lemma StartWell(config: Config, system: System)
    requires config.Valid() && SystemOk(config, system) && system == System(Start().core, IDLE, [], [])
    ensures AllWell(config, system)
  {
    NoReasons();
    hide NO_METRICS, Norm, Power, StreamOk, FRESH, NextSequence;
  }
}
