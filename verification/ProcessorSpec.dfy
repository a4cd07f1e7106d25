/** What one datagram does to the processor: the decoded inputs, the state of a
    stream, and the step as a function. */
module ProcessorSpec {
  import opened ComplexNumbers
  import opened SpectrumTypes
  import opened SampleTime
  import opened GapBitmap
  import opened Fft
  import opened Parseval
  import opened PowerSpectrum
  import opened SpectrumCodec
  import opened ToneDetection

  // ----- Inputs, as the packet codec delivers them -----

  type i16 = x: int | -0x8000 <= x < 0x8000
  type i64 = x: int | -0x8000_0000_0000_0000 <= x < 0x8000_0000_0000_0000
  type u4 = x: int | 0 <= x < 16

  datatype Iq = Iq(i: i16, q: i16)

  function ToComplex(pair: Iq): Complex {
    Complex(pair.i as real / 32768.0, pair.q as real / 32768.0)
  }

  /** One field of a context packet. Unreadable stands for a field of the wrong
      kind, attribute or type, or without a value; frequencies are multiples of 2^-20. */
  datatype ContextField =
    | Frequency(q20: i64)
    | SampleRate(q20: i64)
    | Bandwidth(q20: i64)
    | Gain(stage1: i16, stage2: i16)
    | Unreadable

  datatype Context = Context(classId: bool, utc: bool, picoseconds: bool, time: ProtocolTime, fields: seq<ContextField>)

  /** A signal packet; `samples` is None when the payload is not a whole number of
      pairs, and an element is None when that pair cannot be read. */
  datatype Data = Data(signal: bool, classMatches: bool, utc: bool, picoseconds: bool, trailer: Option<bv32>,
                       packetCount: u4, time: ProtocolTime, samples: Option<seq<Option<Iq>>>)

  datatype Body = ContextBody(context: Option<Context>) | DataBody(data: Data)

  datatype Envelope = Envelope(streamId: nat, body: Body)

  datatype Datagram = Datagram(size: nat, envelope: Option<Envelope>)

  // ----- State -----

  datatype StreamState = StreamState(
    center: u64, rate: u32, epoch: ProtocolTime, windowBegin: ProtocolTime,
    samples: seq<Complex>, missing: seq<bool>,
    packetCount: Option<u4>, previousPairs: nat,
    ordinal: nat, windowOrdinal: nat, discontinuities: nat, sequenceGaps: nat, sequence: u32,
    metadataValid: bool)

  const FRESH := StreamState(0, 0, ProtocolTime(0, 0), ProtocolTime(0, 0), [], [], None, 0, 0, 0, 0, 0, 0, false)

  datatype Discards = Discards(limits: nat, invalidEnvelope: nat, invalidContext: nat, invalidData: nat,
                               invalidSamples: nat, waitingContext: nat, timestampRange: nat)
  {
    function Total(): nat {
      limits + invalidEnvelope + invalidContext + invalidData + invalidSamples + waitingContext + timestampRange
    }
  }

  datatype Metrics = Metrics(datagrams: nat, malformed: nat, contextUpdates: nat, packetGaps: nat,
                             spectra: nat, unavailable: nat, discards: Discards)

  const NO_METRICS := Metrics(0, 0, 0, 0, 0, 0, Discards(0, 0, 0, 0, 0, 0, 0))

  /** The configuration, with the constants of the unseen profile (the range of
      centers), the root of the transform and the conversion to binary32. */
  datatype Config = Config(processing: ProcessingConfig, receiveBytes: nat, queueLimit: nat,
                           minCenter: nat, maxCenter: nat, w: Complex, toFloat: real -> u32)
  {
    function Fft(): nat {
      processing.fftSize
    }

    ghost predicate Valid() {
      && processing.Valid()
      && 1_000_000 <= minCenter && maxCenter <= 6_000_000_000
      && Norm(w) == 1.0 && Power(w, processing.fftSize / 2) == MINUS_ONE
      && forall power: real :: 0.0 <= power <= 2.0 ==> ValidPower(toFloat(power))
    }
  }

  /** What holds of every stream between datagrams. */
  predicate StreamOk(config: Config, s: StreamState) {
    && |s.samples| == |s.missing| < config.Fft()
    && s.previousPairs <= config.Fft()
    && (s.metadataValid ==> 1_000 <= s.rate <= 2_000_000 && config.minCenter <= s.center <= config.maxCenter)
    && (forall i :: 0 <= i < |s.samples| ==> SampleOk(s.samples[i]))
  }

  /** Readings are at most one in magnitude on each axis. */
  predicate SampleOk(x: Complex) {
    -1.0 <= x.re <= 1.0 && -1.0 <= x.im <= 1.0
  }

  // ----- Windows -----

  /** One sample on its way into a window. */
  datatype Item = Item(sample: Complex, missing: bool, begin: ProtocolTime)

  /** A full window and the stream's counters at the moment it filled up. */
  datatype Window = Window(samples: seq<Complex>, missing: seq<bool>, begin: ProtocolTime, ordinal: nat,
                           sequence: u32, center: u64, rate: u32, epoch: ProtocolTime,
                           discontinuities: nat, sequenceGaps: nat)

  /** The `append` closure: the first sample of a window fixes its time and
      position, and the last one empties the buffer. */
  function Push(config: Config, s: StreamState, item: Item): (r: (StreamState, seq<Window>)) {
    var begun := if s.samples == [] then s.(windowBegin := item.begin, windowOrdinal := s.ordinal) else s;
    var pushed := begun.(samples := begun.samples + [item.sample], missing := begun.missing + [item.missing],
                         ordinal := begun.ordinal + 1);
    if |pushed.samples| != config.Fft() then (pushed, [])
    else
      (pushed.(samples := [], missing := [], sequence := NextSequence(pushed.sequence)),
       [Window(pushed.samples, pushed.missing, pushed.windowBegin, pushed.windowOrdinal, pushed.sequence,
               pushed.center, pushed.rate, pushed.epoch, pushed.discontinuities, pushed.sequenceGaps)])
  }

  function PushAll(config: Config, s: StreamState, items: seq<Item>): (r: (StreamState, seq<Window>)) {
    if items == [] then (s, [])
    else
      var before := PushAll(config, s, items[..|items| - 1]);
      var last := Push(config, before.0, items[|items| - 1]);
      (last.0, before.1 + last.1)
  }

  predicate WindowOk(config: Config, window: Window) {
    && |window.samples| == |window.missing| == config.Fft()
    && 1_000 <= window.rate <= 2_000_000
    && config.minCenter <= window.center <= config.maxCenter
    && (forall i :: 0 <= i < |window.samples| ==> SampleOk(window.samples[i]))
  }

  /** The spectrum a window is sent as. */
  ghost function SpectrumOf(config: Config, streamId: u32, window: Window): Spectrum
    requires config.Valid() && WindowOk(config, window)
  {
    FftSizeMultiple(config.Fft());
    var m := Measure(window.samples, window.missing, config.w, config.toFloat);
    Spectrum(streamId, window.sequence, window.rate, config.Fft(), config.Fft(), window.center,
             window.begin, AddSamples(window.begin, config.Fft(), window.rate), window.epoch,
             Wrap(window.ordinal), Wrap(window.discontinuities), Wrap(window.sequenceGaps), m.gaps, m.power)
  }

  // ----- Context packets -----

  datatype Settings = Settings(center: Option<u64>, rate: Option<u32>, bandwidth: Option<i64>, gain: Option<(i16, i16)>)

  const HERTZ := 0x10_0000  // 2^20

  function ReadField(settings: Settings, field: ContextField): Option<Settings> {
    match field
    case Frequency(q20) =>
      if q20 < 0 || q20 % HERTZ != 0 then None else Some(settings.(center := Some(q20 / HERTZ)))
    case SampleRate(q20) =>
      if q20 <= 0 || q20 % HERTZ != 0 || q20 / HERTZ > 0xffff_ffff then None
      else Some(settings.(rate := Some(q20 / HERTZ)))
    case Bandwidth(q20) => Some(settings.(bandwidth := Some(q20)))
    case Gain(stage1, stage2) => Some(settings.(gain := Some((stage1, stage2))))
    case Unreadable => None
  }

  function ReadFields(fields: seq<ContextField>): Option<Settings> {
    if fields == [] then Some(Settings(None, None, None, None))
    else
      var before := ReadFields(fields[..|fields| - 1]);
      if before.None? then None else ReadField(before.value, fields[|fields| - 1])
  }

  /** The checks on a context packet, up to the new center and rate. */
  predicate SettingsOk(config: Config, settings: Settings) {
    && settings.center.Some? && settings.rate.Some? && settings.bandwidth.Some? && settings.gain.Some?
    && 0 < settings.bandwidth.value <= settings.rate.value * HERTZ
    && settings.gain.value.1 == 0 && -60 * 128 <= settings.gain.value.0 <= 60 * 128
    && ProcessingConfig(settings.rate.value, config.processing.fftSize, 0).Valid()
    && config.minCenter <= settings.center.value <= config.maxCenter
  }

  function AcceptedSettings(config: Config, context: Option<Context>): Option<Settings> {
    if context.None? || context.value.classId || !context.value.utc || !context.value.picoseconds
       || context.value.time.picoseconds >= PICOSECONDS || |context.value.fields| != 4
    then None
    else
      var settings := ReadFields(context.value.fields);
      if settings.None? || !SettingsOk(config, settings.value) then None else settings
  }

  predicate DropsPending(s: StreamState, center: nat, rate: nat) {
    s.samples != [] && (s.center != center || s.rate != rate)
  }

  function WithSettings(s: StreamState, center: u64, rate: u32, epoch: ProtocolTime): StreamState {
    var kept := if DropsPending(s, center, rate)
                then s.(samples := [], missing := [], discontinuities := s.discontinuities + 1) else s;
    kept.(center := center, rate := rate, epoch := epoch, metadataValid := true)
  }

  // ----- Data packets -----

  predicate SdrEnvelope(data: Data) {
    && data.signal && data.classMatches && data.utc && data.picoseconds
    && data.time.picoseconds < PICOSECONDS && data.trailer.Some?
    && data.trailer.value & !(0x0000_0c00 as bv32) == 0x00c0_0000
  }

  predicate SamplesOk(config: Config, data: Data) {
    data.samples.Some? && 0 < |data.samples.value| <= config.Fft()
  }

  /** How many packets the counter says are missing before this one. */
  function Gap(s: StreamState, packetCount: u4): (gap: nat)
    ensures gap < 16
  {
    if s.packetCount.None? then 0 else (packetCount - (s.packetCount.value + 1) % 16) % 16
  }

  function Counted(s: StreamState, data: Data): StreamState
    requires data.samples.Some?
  {
    var gap := Gap(s, data.packetCount);
    s.(discontinuities := s.discontinuities + (if gap > 0 then 1 else 0),
       sequenceGaps := s.sequenceGaps + gap,
       packetCount := Some(data.packetCount),
       previousPairs := |data.samples.value|)
  }

  function MissingPairs(s: StreamState, data: Data): nat {
    Gap(s, data.packetCount) * s.previousPairs
  }

  /** The time of the first missing sample; None when it would precede zero. */
  function MissingBegin(s: StreamState, data: Data): Option<ProtocolTime>
    requires s.rate > 0 && MissingPairs(s, data) < WORD
  {
    if MissingPairs(s, data) == 0 then Some(data.time) else SubtractSamples(data.time, MissingPairs(s, data), s.rate)
  }

  function GapItems(count: nat, begin: ProtocolTime, rate: u32): (items: seq<Item>)
    requires rate > 0 && count < WORD
    ensures |items| == count
  {
    seq(count, index requires 0 <= index < count => Item(ZERO, true, AddSamples(begin, index, rate)))
  }

  /** How many pairs are read before the first unreadable one. */
  function Readable(samples: seq<Option<Iq>>): (n: nat)
    ensures n <= |samples| && (forall i :: 0 <= i < n ==> samples[i].Some?)
    ensures n < |samples| ==> samples[n].None?
  {
    if samples == [] || samples[0].None? then 0 else 1 + Readable(samples[1..])
  }

  function PairItems(samples: seq<Option<Iq>>, time: ProtocolTime): (items: seq<Item>)
    ensures |items| == Readable(samples)
  {
    seq(Readable(samples), i requires 0 <= i < Readable(samples) => Item(ToComplex(samples[i].value), false, time))
  }

  function Items(s: StreamState, data: Data): seq<Item>
    requires s.rate > 0 && MissingPairs(s, data) < WORD && MissingBegin(s, data).Some? && data.samples.Some?
  {
    GapItems(MissingPairs(s, data), MissingBegin(s, data).value, s.rate) + PairItems(data.samples.value, data.time)
  }

  // ----- What every operation keeps -----

  lemma PushOk(config: Config, s: StreamState, item: Item)
    requires config.Valid() && StreamOk(config, s) && s.metadataValid && SampleOk(item.sample)
    ensures
      var (after, windows) := Push(config, s, item);
      && StreamOk(config, after) && after.metadataValid && after.rate == s.rate
      && forall k :: 0 <= k < |windows| ==> WindowOk(config, windows[k])
  {
    hide SampleOk;
  }

  lemma {:induction false} PushAllOk(config: Config, s: StreamState, items: seq<Item>)
    requires config.Valid() && StreamOk(config, s) && s.metadataValid
    requires forall i :: 0 <= i < |items| ==> SampleOk(items[i].sample)
    ensures
      var (after, windows) := PushAll(config, s, items);
      && StreamOk(config, after) && after.metadataValid && after.rate == s.rate
      && forall k :: 0 <= k < |windows| ==> WindowOk(config, windows[k])
  {
    if items != [] {
      PushAllOk(config, s, items[..|items| - 1]);
      PushOk(config, PushAll(config, s, items[..|items| - 1]).0, items[|items| - 1]);
      hide StreamOk, SampleOk, WindowOk, Push;
    }
  }

  lemma ReadingsOk(pair: Iq)
    ensures SampleOk(ToComplex(pair)) && SampleOk(ZERO)
  {}

  /** The masked samples of a window have squared magnitude at most two. */
  lemma MaskedBounded(config: Config, window: Window)
    requires config.Valid() && WindowOk(config, window)
    ensures
      var x := Masked(window.samples, window.missing);
      forall i :: 0 <= i < |x| ==> Norm(x[i]) <= 2.0
  {
    var x := Masked(window.samples, window.missing);
    forall i | 0 <= i < |x|
      ensures Norm(x[i]) <= 2.0
    {
      assert SampleOk(x[i]);
      UnitSquare(x[i].re);
      UnitSquare(x[i].im);
    }
  }

  lemma UnitSquare(x: real)
    requires -1.0 <= x <= 1.0
    ensures Product(x, x) <= 1.0
  {
    var y := if x < 0.0 then -x else x;
    ProductNegated(x, x);
    assert Product(y, y) == Product(x, x);
    AtMostOne(y, y);
  }

  lemma AtMostOne(x: real, y: real)
    requires 0.0 <= x <= 1.0 && 0.0 <= y <= 1.0
    ensures Product(x, y) <= 1.0
  {
    var slack := 1.0 - x;
    assert slack * y >= 0.0;
    assert slack * y == y - x * y;
  }

  /** Every full window makes a spectrum the encoder accepts. */
  lemma SpectrumValid(config: Config, streamId: u32, window: Window)
    requires config.Valid() && WindowOk(config, window) && 1 <= streamId <= 4
    ensures SpectrumOf(config, streamId, window).Valid()
  {
    var n := config.Fft();
    FftSizeMultiple(n);
    var p := SizeIsPower(n);
    assert p > 0 && n / 2 == Pow2(p - 1) && Primitive(config.w, p);
    MaskedBounded(config, window);
    var x := Masked(window.samples, window.missing);
    forall i: nat | i < n
      ensures ValidPower(Powers(x, config.w, config.toFloat)[i])
    {
      PowerBounded(x, config.w, p, 2.0, i);
      PowersAt(x, config.w, config.toFloat, i);
    }
    hide Pack, Powers, Masked, Power, Norm, Pow2, AddSamples, ValidPower;
  }

  lemma WindowsValid(config: Config, streamId: u32, windows: seq<Window>)
    requires config.Valid() && 1 <= streamId <= 4
    requires forall k :: 0 <= k < |windows| ==> WindowOk(config, windows[k])
    ensures forall k :: 0 <= k < |windows| ==> SpectrumOf(config, streamId, windows[k]).Valid()
  {
    forall k | 0 <= k < |windows|
      ensures SpectrumOf(config, streamId, windows[k]).Valid()
    {
      SpectrumValid(config, streamId, windows[k]);
    }
  }

  lemma ItemsOk(s: StreamState, data: Data)
    requires s.rate > 0 && MissingPairs(s, data) < WORD && MissingBegin(s, data).Some? && data.samples.Some?
    ensures forall i :: 0 <= i < |Items(s, data)| ==> SampleOk(Items(s, data)[i].sample)
  {
    forall i | 0 <= i < |Items(s, data)|
      ensures SampleOk(Items(s, data)[i].sample)
    {
      var m := MissingPairs(s, data);
      if i >= m {
        ReadingsOk(data.samples.value[i - m].value);
      }
    }
  }

  lemma MissingPairsBounded(config: Config, s: StreamState, data: Data)
    requires config.Valid() && StreamOk(config, s)
    ensures MissingPairs(s, data) <= 15 * config.Fft() < WORD
  {
    var gap := Gap(s, data.packetCount);
    assert gap * s.previousPairs <= 15 * config.Fft() by {
      Product15(gap, s.previousPairs, config.Fft());
    }
  }

  lemma Product15(gap: nat, pairs: nat, n: nat)
    requires gap <= 15 && pairs <= n
    ensures 0 <= gap * pairs <= 15 * n
  {
    assert gap * pairs <= 15 * pairs;
  }

  // ----- The step -----

  datatype Core = Core(streams: seq<StreamState>, metrics: Metrics)

  /** The new state, the windows completed, the datagrams sent, and how many
      pending samples a context change dropped. */
  datatype Step = Step(core: Core, windows: seq<Window>, output: seq<seq<byte>>, dropped: nat)

  predicate CoreOk(config: Config, core: Core) {
    |core.streams| == 4 && forall k :: 0 <= k < 4 ==> StreamOk(config, core.streams[k])
  }

  function Discarded(metrics: Metrics, discards: Discards): Metrics {
    metrics.(malformed := metrics.malformed + 1, discards := discards)
  }

  ghost function Sent(config: Config, streamId: u32, windows: seq<Window>): (output: seq<seq<byte>>)
    requires config.Valid() && 1 <= streamId <= 4
    requires forall k :: 0 <= k < |windows| ==> WindowOk(config, windows[k])
    ensures |output| == |windows|
  {
    WindowsValid(config, streamId, windows);
    seq(|windows|, k requires 0 <= k < |windows| => Wire(SpectrumOf(config, streamId, windows[k])))
  }

  /** How many of one datagram's windows fit the output queue. */
  function Kept(config: Config, windows: seq<Window>): (n: nat)
    ensures n <= |windows|
  {
    if |windows| <= config.queueLimit then |windows| else config.queueLimit
  }

  /** The counters once a datagram's windows are out. */
  function Tallied(config: Config, metrics: Metrics, windows: seq<Window>, complete: bool): Metrics {
    var kept := Kept(config, windows);
    var sent := metrics.(spectra := metrics.spectra + kept, unavailable := metrics.unavailable + |windows| - kept);
    if complete then sent
    else Discarded(sent, sent.discards.(invalidSamples := sent.discards.invalidSamples + 1))
  }

  /** Everything after the checks on a data packet: the new stream, metrics,
      windows and datagrams. */
  ghost function DataStep(config: Config, streamId: u32, s: StreamState, metrics: Metrics, data: Data)
    : (r: (StreamState, Metrics, seq<Window>, seq<seq<byte>>))
    requires config.Valid() && 1 <= streamId <= 4 && StreamOk(config, s) && s.metadataValid
    requires SamplesOk(config, data)
  {
    MissingPairsBounded(config, s, data);
    var gap := Gap(s, data.packetCount);
    var counted := Counted(s, data);
    var noted := metrics.(packetGaps := metrics.packetGaps + gap);
    if MissingBegin(s, data).None? then
      var discards := noted.discards;
      (counted, Discarded(noted, discards.(timestampRange := discards.timestampRange + 1)), [], [])
    else
      ItemsOk(s, data);
      PushAllOk(config, counted, Items(s, data));
      var (after, windows) := PushAll(config, counted, Items(s, data));
      var complete := Readable(data.samples.value) == |data.samples.value|;
      (after, Tallied(config, noted, windows, complete), windows,
       if complete then Sent(config, streamId, windows[..Kept(config, windows)]) else [])
  }

  /** ProcessorCore::consume, branch by branch. */
  ghost function Consumed(config: Config, core: Core, listener: nat, d: Datagram): (r: Step)
    requires config.Valid() && CoreOk(config, core)
  {
    var m := core.metrics.(datagrams := core.metrics.datagrams + 1);
    var discards := m.discards;
    if listener < 1 || listener > 4 || d.size > config.receiveBytes then
      Step(Core(core.streams, Discarded(m, discards.(limits := discards.limits + 1))), [], [], 0)
    else if d.envelope.None? || d.envelope.value.streamId != listener then
      Step(Core(core.streams, Discarded(m, discards.(invalidEnvelope := discards.invalidEnvelope + 1))), [], [], 0)
    else
      var s := core.streams[listener - 1];
      match d.envelope.value.body
      case ContextBody(context) =>
        var settings := AcceptedSettings(config, context);
        if settings.None? then
          Step(Core(core.streams, Discarded(m, discards.(invalidContext := discards.invalidContext + 1))), [], [], 0)
        else
          var center, rate := settings.value.center.value, settings.value.rate.value;
          Step(Core(core.streams[listener - 1 := WithSettings(s, center, rate, context.value.time)],
                    m.(contextUpdates := m.contextUpdates + 1)),
               [], [], if DropsPending(s, center, rate) then |s.samples| else 0)
      case DataBody(data) =>
        if !SdrEnvelope(data) then
          Step(Core(core.streams, Discarded(m, discards.(invalidData := discards.invalidData + 1))), [], [], 0)
        else if !SamplesOk(config, data) then
          Step(Core(core.streams, Discarded(m, discards.(invalidSamples := discards.invalidSamples + 1))), [], [], 0)
        else if !s.metadataValid then
          Step(Core(core.streams, Discarded(m, discards.(waitingContext := discards.waitingContext + 1))), [], [], 0)
        else
          var (after, metrics, windows, output) := DataStep(config, listener, s, m, data);
          Step(Core(core.streams[listener - 1 := after], metrics), windows, output, 0)
  }
}
