/** ProcessorCore: per-stream reassembly buffers updated datagram by datagram. */
module Processor {
  import opened ComplexNumbers
  import opened SpectrumTypes
  import opened SampleTime
  import opened SpectrumCodec
  import opened ProcessorSpec
  import P = PowerSpectrum

  class ProcessorCore {
    const config: Config
    var streams: seq<StreamState>
    var metrics: Metrics

    ghost predicate Valid()
      reads this
    {
      config.Valid() && CoreOk(config, Core(streams, metrics))
    }

    constructor (config: Config)
      requires config.Valid()
      ensures Valid() && this.config == config
      ensures streams == seq(4, k => FRESH) && metrics == NO_METRICS
    {
      this.config := config;
      streams := seq(4, k => FRESH);
      metrics := NO_METRICS;
    }

    /** The `append` closure on the stream of one listener. */
    method Append(listener: nat, item: Item, output: seq<seq<byte>>) returns (extended: seq<seq<byte>>)
      requires Valid() && 1 <= listener <= 4 && streams[listener - 1].metadataValid && SampleOk(item.sample)
      modifies this
      ensures Valid()
      ensures
        var (after, windows) := Push(config, old(streams[listener - 1]), item);
        && streams == old(streams)[listener - 1 := after]
        && (forall k :: 0 <= k < |windows| ==> WindowOk(config, windows[k]))
        && (if windows == [] then extended == output && metrics == old(metrics)
            else if |output| < config.queueLimit then
              && extended == output + Sent(config, listener, windows)
              && metrics == old(metrics).(spectra := old(metrics.spectra) + 1)
            else extended == output && metrics == old(metrics).(unavailable := old(metrics.unavailable) + 1))
    {
      hide SpectrumOf, Wire, Spectrum.Valid, Sent, SampleOk, Norm, Power, WindowOk;
      extended := output;
      var stream := streams[listener - 1];
      ghost var before := stream;
      PushOk(config, stream, item);
      if stream.samples == [] {
        stream := stream.(windowBegin := item.begin, windowOrdinal := stream.ordinal);
      }
      stream := stream.(samples := stream.samples + [item.sample], missing := stream.missing + [item.missing],
                        ordinal := stream.ordinal + 1);
      if |stream.samples| == config.Fft() {
        extended := Emit(listener, stream, output, Push(config, before, item).1[0]);
        stream := stream.(sequence := NextSequence(stream.sequence), samples := [], missing := []);
      }
      streams := streams[listener - 1 := stream];
    }

    /** Sends the spectrum of a full buffer if the queue has room, and counts it. */
    method Emit(listener: nat, stream: StreamState, output: seq<seq<byte>>, ghost window: Window)
      returns (extended: seq<seq<byte>>)
      requires Valid() && 1 <= listener <= 4 && WindowOk(config, window) && Holds(stream, window)
      modifies `metrics
      ensures extended == if |output| < config.queueLimit then output + Sent(config, listener, [window]) else output
      ensures metrics == if |output| < config.queueLimit then old(metrics).(spectra := old(metrics.spectra) + 1)
                         else old(metrics).(unavailable := old(metrics.unavailable) + 1)
    {
      hide SpectrumOf, Wire, Spectrum.Valid, Sent;
      extended := output;
      var spectrum := MakeSpectrum(listener, stream, window);
      if |extended| < config.queueLimit {
        var wire := EncodeSpectrum(spectrum);
        SentOne(config, listener, window);
        extended := extended + [wire.value];
        metrics := metrics.(spectra := metrics.spectra + 1);
      } else {
        metrics := metrics.(unavailable := metrics.unavailable + 1);
      }
    }

    /** The spectrum of a full buffer. */
    method MakeSpectrum(listener: nat, stream: StreamState, ghost window: Window) returns (spectrum: Spectrum)
      requires config.Valid() && 1 <= listener <= 4 && WindowOk(config, window) && Holds(stream, window)
      ensures spectrum == SpectrumOf(config, listener, window) && spectrum.Valid()
    {
      hide Wire, P.Measure, Power, Norm, Spectrum.Valid, AddSamples;
      SpectrumValid(config, listener, window);
      var measured := P.Compute(ProcessingConfig(stream.rate, config.processing.fftSize, 0),
                                stream.samples, stream.missing, config.w, config.toFloat);
      spectrum := Spectrum(
        listener, stream.sequence, stream.rate, config.processing.fftSize, config.processing.fftSize, stream.center,
        stream.windowBegin, AddSamples(stream.windowBegin, config.processing.fftSize, stream.rate), stream.epoch,
        Wrap(stream.windowOrdinal), Wrap(stream.discontinuities), Wrap(stream.sequenceGaps),
        measured.value.gaps, measured.value.power);
    }

    /** The state after the first n items of a datagram that found the stream as s. */
    ghost predicate Taken(listener: nat, s: StreamState, was: seq<StreamState>, had: Metrics,
                          items: seq<Item>, n: nat, windows: seq<Window>, output: seq<seq<byte>>)
      requires 1 <= listener <= 4
      reads this
    {
      && Valid() && |was| == 4 && n <= |items|
      && (streams[listener - 1], windows) == PushAll(config, s, items[..n])
      && streams == was[listener - 1 := streams[listener - 1]]
      && streams[listener - 1].metadataValid
      && (forall i :: 0 <= i < |items| ==> SampleOk(items[i].sample))
      && (forall k :: 0 <= k < |windows| ==> WindowOk(config, windows[k]))
      && output == Sent(config, listener, windows[..Kept(config, windows)])
      && metrics == Tallied(config, had, windows, true)
    }

    /** Appends the next item of a datagram. */
    method AppendNext(listener: nat, item: Item, output: seq<seq<byte>>, ghost s: StreamState, ghost was: seq<StreamState>,
                      ghost had: Metrics, ghost items: seq<Item>, ghost n: nat, ghost windows: seq<Window>)
      returns (extended: seq<seq<byte>>, ghost more: seq<Window>)
      requires 1 <= listener <= 4 && Taken(listener, s, was, had, items, n, windows, output)
      requires n < |items| && item == items[n]
      modifies this
      ensures Taken(listener, s, was, had, items, n + 1, more, extended)
    {
      hide Push, StreamOk, WindowOk, SampleOk, Sent;
      ghost var last := Push(config, streams[listener - 1], item).1;
      more := windows + last;
      assert items[..n + 1][..n] == items[..n];
      AtMostOneWindow(config, streams[listener - 1], item);
      PushOk(config, streams[listener - 1], item);
      extended := Append(listener, item, output);
      SentAppend(config, listener, windows, last);
      assert last == [] ==> more == windows;
    }

    /** Fills the gap, then takes the pairs up to the first unreadable one. */
    method TakeSamples(listener: nat, data: Data, missingPairs: nat, missingBegin: ProtocolTime)
      returns (output: seq<seq<byte>>, ghost windows: seq<Window>)
      requires Valid() && 1 <= listener <= 4 && streams[listener - 1].metadataValid
      requires data.samples.Some? && missingPairs < WORD
      modifies this
      ensures Valid()
      ensures
        var s := old(streams[listener - 1]);
        var items := GapItems(missingPairs, missingBegin, s.rate) + PairItems(data.samples.value, data.time);
        var complete := Readable(data.samples.value) == |data.samples.value|;
        && windows == PushAll(config, s, items).1
        && streams == old(streams)[listener - 1 := PushAll(config, s, items).0]
        && (forall k :: 0 <= k < |windows| ==> WindowOk(config, windows[k]))
        && output == (if complete then Sent(config, listener, windows[..Kept(config, windows)]) else [])
        && metrics == Tallied(config, old(metrics), windows, complete)
    {
      ghost var s := streams[listener - 1];
      assert s.rate > 0;
      hide PushAll, WindowOk, SampleOk, Sent, StreamOk, Readable, GapItems, PairItems;
      ghost var items := GapItems(missingPairs, missingBegin, s.rate) + PairItems(data.samples.value, data.time);
      output, windows := TakeItems(listener, data, missingPairs, missingBegin, items);
      assert items[..|items|] == items;
      if Readable(data.samples.value) < |data.samples.value| {
        metrics := metrics.(malformed := metrics.malformed + 1,
                            discards := metrics.discards.(invalidSamples := metrics.discards.invalidSamples + 1));
        output := [];
      }
    }

    method TakeItems(listener: nat, data: Data, missingPairs: nat, missingBegin: ProtocolTime, ghost items: seq<Item>)
      returns (output: seq<seq<byte>>, ghost windows: seq<Window>)
      requires Valid() && 1 <= listener <= 4 && streams[listener - 1].metadataValid && streams[listener - 1].rate > 0
      requires data.samples.Some? && missingPairs < WORD
      requires
        items == GapItems(missingPairs, missingBegin, streams[listener - 1].rate) + PairItems(data.samples.value, data.time)
      modifies this
      ensures Taken(listener, old(streams[listener - 1]), old(streams), old(metrics), items, |items|, windows, output)
    {
      ghost var s := streams[listener - 1];
      TakenItemsOk(GapItems(missingPairs, missingBegin, s.rate), data);
      hide PushAll, WindowOk, SampleOk, Sent, StreamOk, Readable, PairItems, GapItems;
      SentNothing(config, listener);
      NothingTaken(config, s, items);
      assert items[..missingPairs] == GapItems(missingPairs, missingBegin, s.rate);
      assert items[missingPairs..] == PairItems(data.samples.value, data.time);
      output, windows := FillGap(listener, missingPairs, missingBegin, s, metrics, items);
      output, windows := TakePairs(listener, data, missingPairs, output, s, old(streams), old(metrics), items, windows);
    }

    /** The checks on a context packet, field by field. */
    method ReadContext(context: Option<Context>) returns (accepted: Option<Settings>)
      ensures accepted == AcceptedSettings(config, context)
    {
      if context.None? || context.value.classId || !context.value.utc || !context.value.picoseconds
         || context.value.time.picoseconds >= PICOSECONDS || |context.value.fields| != 4 {
        return None;
      }
      var fields := context.value.fields;
      var settings := Settings(None, None, None, None);
      var index := 0;
      while index < |fields|
        invariant 0 <= index <= |fields|
        invariant ReadFields(fields[..index]) == Some(settings)
      {
        assert fields[..index + 1][..index] == fields[..index];
        var next := ReadField(settings, fields[index]);
        if next.None? {
          ReadFieldsStops(fields, index + 1);
          return None;
        }
        settings := next.value;
        index := index + 1;
      }
      assert fields[..index] == fields;
      if !SettingsOk(config, settings) {
        return None;
      }
      return Some(settings);
    }

    /** New metadata; a new center or rate drops the samples of an unfinished window. */
    method ConsumeContext(listener: nat, context: Option<Context>)
      requires Valid() && 1 <= listener <= 4
      modifies this
      ensures Valid()
      ensures
        var settings := AcceptedSettings(config, context);
        var s, discards := old(streams[listener - 1]), old(metrics.discards);
        if settings.None? then
          && streams == old(streams)
          && metrics == Discarded(old(metrics), discards.(invalidContext := discards.invalidContext + 1))
        else
          && streams == old(streams)[listener - 1 :=
               WithSettings(s, settings.value.center.value, settings.value.rate.value, context.value.time)]
          && metrics == old(metrics).(contextUpdates := old(metrics.contextUpdates) + 1)
    {
      hide Norm, Power, SampleOk;
      var settings := ReadContext(context);
      if settings.None? {
        metrics := metrics.(malformed := metrics.malformed + 1,
                            discards := metrics.discards.(invalidContext := metrics.discards.invalidContext + 1));
        return;
      }
      var center, rate := settings.value.center.value, settings.value.rate.value;
      var stream := streams[listener - 1];
      if stream.samples != [] && (stream.center != center || stream.rate != rate) {
        stream := stream.(samples := [], missing := [], discontinuities := stream.discontinuities + 1);
      }
      stream := stream.(center := center, rate := rate, epoch := context.value.time, metadataValid := true);
      streams := streams[listener - 1 := stream];
      metrics := metrics.(contextUpdates := metrics.contextUpdates + 1);
    }

    /** A data packet that passed the checks: count the gap, date it, take the samples. */
    method ConsumeData(listener: nat, data: Data) returns (output: seq<seq<byte>>, ghost windows: seq<Window>)
      requires Valid() && 1 <= listener <= 4 && streams[listener - 1].metadataValid && SamplesOk(config, data)
      modifies this
      ensures Valid()
      ensures
        var (after, counted, completed, sent) :=
          DataStep(config, listener, old(streams[listener - 1]), old(metrics), data);
        && streams == old(streams)[listener - 1 := after] && metrics == counted
        && windows == completed && output == sent
    {
      hide Norm, Power, SampleOk, PushAll, WindowOk, Readable, Sent, Counted, Tallied;
      ghost var s := streams[listener - 1];
      MissingPairsBounded(config, s, data);
      CountedOk(config, s, data);
      var missingPairs := CountGap(listener, data);
      var missingBegin := data.time;
      if missingPairs != 0 {
        var begin := SubtractSamples(data.time, missingPairs, streams[listener - 1].rate);
        if begin.None? {
          metrics := metrics.(malformed := metrics.malformed + 1,
                              discards := metrics.discards.(timestampRange := metrics.discards.timestampRange + 1));
          return [], [];
        }
        missingBegin := begin.value;
      }
      output, windows := TakeSamples(listener, data, missingPairs, missingBegin);
    }

    /** The packets missing before this one, modulo 16, and the samples they stood for. */
    method CountGap(listener: nat, data: Data) returns (missingPairs: nat)
      requires 1 <= listener <= |streams| && data.samples.Some?
      modifies this`streams, this`metrics
      ensures
        var s := old(streams[listener - 1]);
        && streams == old(streams)[listener - 1 := Counted(s, data)]
        && metrics == old(metrics).(packetGaps := old(metrics).packetGaps + Gap(s, data.packetCount))
        && missingPairs == MissingPairs(s, data)
    {
      var stream := streams[listener - 1];
      missingPairs := 0;
      if stream.packetCount.Some? {
        var expected := (stream.packetCount.value + 1) % 16;
        var gap := (data.packetCount - expected) % 16;
        if gap != 0 {
          missingPairs := gap * stream.previousPairs;
          stream := stream.(discontinuities := stream.discontinuities + 1, sequenceGaps := stream.sequenceGaps + gap);
          metrics := metrics.(packetGaps := metrics.packetGaps + gap);
        }
      }
      stream := stream.(packetCount := Some(data.packetCount), previousPairs := |data.samples.value|);
      streams := streams[listener - 1 := stream];
    }

    /** Counting a gap leaves the window alone. */
    lemma CountedOk(config: Config, s: StreamState, data: Data)
      requires config.Valid() && StreamOk(config, s) && s.metadataValid && SamplesOk(config, data)
      ensures StreamOk(config, Counted(s, data)) && Counted(s, data).metadataValid && Counted(s, data).rate == s.rate
    {}

    /** One datagram: the datagrams it makes the processor send, and the new state. */
    method Consume(listener: nat, d: Datagram) returns (output: seq<seq<byte>>)
      requires Valid()
      modifies this
      ensures Valid()
      ensures
        var step := Consumed(config, Core(old(streams), old(metrics)), listener, d);
        Core(streams, metrics) == step.core && output == step.output
    {
      hide Norm, Power, SampleOk, PushAll, WindowOk, Readable, Sent, DataStep, WithSettings, AcceptedSettings, SdrEnvelope;
      output := [];
      metrics := metrics.(datagrams := metrics.datagrams + 1);
      if listener < 1 || listener > 4 || d.size > config.receiveBytes {
        metrics := metrics.(malformed := metrics.malformed + 1,
                            discards := metrics.discards.(limits := metrics.discards.limits + 1));
        return;
      }
      if d.envelope.None? || d.envelope.value.streamId != listener {
        metrics := metrics.(malformed := metrics.malformed + 1,
                            discards := metrics.discards.(invalidEnvelope := metrics.discards.invalidEnvelope + 1));
        return;
      }
      match d.envelope.value.body {
        case ContextBody(context) =>
          ConsumeContext(listener, context);
        case DataBody(data) =>
          if !SdrEnvelope(data) {
            metrics := metrics.(malformed := metrics.malformed + 1,
                                discards := metrics.discards.(invalidData := metrics.discards.invalidData + 1));
            return;
          }
          if !SamplesOk(config, data) {
            metrics := metrics.(malformed := metrics.malformed + 1,
                                discards := metrics.discards.(invalidSamples := metrics.discards.invalidSamples + 1));
            return;
          }
          if !streams[listener - 1].metadataValid {
            metrics := metrics.(malformed := metrics.malformed + 1,
                                discards := metrics.discards.(waitingContext := metrics.discards.waitingContext + 1));
            return;
          }
          ghost var windows;
          output, windows := ConsumeData(listener, data);
      }
    }

    method FillGap(listener: nat, missingPairs: nat, missingBegin: ProtocolTime,
                   ghost s: StreamState, ghost had: Metrics, ghost items: seq<Item>)
      returns (output: seq<seq<byte>>, ghost windows: seq<Window>)
      requires 1 <= listener <= 4 && Taken(listener, s, streams, had, items, 0, [], [])
      requires s == streams[listener - 1] && s.rate > 0 && missingPairs < WORD
      requires missingPairs <= |items| && items[..missingPairs] == GapItems(missingPairs, missingBegin, s.rate)
      modifies this
      ensures Taken(listener, s, old(streams), had, items, missingPairs, windows, output)
    {
      hide PushAll, Sent, StreamOk, WindowOk, SampleOk;
      var rate := streams[listener - 1].rate;
      output, windows := [], [];
      var index := 0;
      while index < missingPairs
        invariant 0 <= index <= missingPairs
        invariant Taken(listener, s, old(streams), had, items, index, windows, output)
      {
        assert items[index] == items[..missingPairs][index];
        output, windows := AppendNext(listener, Item(ZERO, true, AddSamples(missingBegin, index, rate)), output,
                                      s, old(streams), had, items, index, windows);
        index := index + 1;
      }
    }

    method TakePairs(listener: nat, data: Data, ghost start: nat, output: seq<seq<byte>>, ghost s: StreamState,
                     ghost was: seq<StreamState>, ghost had: Metrics, ghost items: seq<Item>, ghost windows: seq<Window>)
      returns (extended: seq<seq<byte>>, ghost more: seq<Window>)
      requires 1 <= listener <= 4 && Taken(listener, s, was, had, items, start, windows, output)
      requires data.samples.Some? && items[start..] == PairItems(data.samples.value, data.time)
      modifies this
      ensures Taken(listener, s, was, had, items, |items|, more, extended)
    {
      hide PushAll, Sent, StreamOk, WindowOk, SampleOk, Readable;
      extended, more := output, windows;
      var index := 0;
      while index < |data.samples.value| && data.samples.value[index].Some?
        invariant 0 <= index <= Readable(data.samples.value)
        invariant Taken(listener, s, was, had, items, start + index, more, extended)
      {
        ReadableNext(data.samples.value, index);
        assert items[start + index] == items[start..][index];
        extended, more := AppendNext(listener, Item(ToComplex(data.samples.value[index].value), false, data.time), extended,
                                     s, was, had, items, start + index, more);
        index := index + 1;
      }
    }
  }

  /** The buffer of the stream is full with the samples of the window. */
  predicate Holds(stream: StreamState, window: Window) {
    window == Window(stream.samples, stream.missing, stream.windowBegin, stream.windowOrdinal, stream.sequence,
                     stream.center, stream.rate, stream.epoch, stream.discontinuities, stream.sequenceGaps)
  }

  lemma AtMostOneWindow(config: Config, s: StreamState, item: Item)
    ensures |Push(config, s, item).1| <= 1
  {}

  /** Sending window by window, as long as the queue has room, sends the kept ones. */
  lemma SentAppend(config: Config, listener: nat, windows: seq<Window>, last: seq<Window>)
    requires config.Valid() && 1 <= listener <= 4 && |last| <= 1
    requires forall k :: 0 <= k < |windows| ==> WindowOk(config, windows[k])
    requires forall k :: 0 <= k < |last| ==> WindowOk(config, last[k])
    ensures
      var sent := Sent(config, listener, windows[..Kept(config, windows)]);
      var more := windows + last;
      && (forall k :: 0 <= k < |more| ==> WindowOk(config, more[k]))
      && Sent(config, listener, more[..Kept(config, more)])
      == if |sent| < config.queueLimit && last != [] then sent + Sent(config, listener, last) else sent
  {
    hide WindowOk, SpectrumOf, Wire, Spectrum.Valid;
    var more, kept := windows + last, Kept(config, windows);
    if kept < config.queueLimit {
      assert more[..Kept(config, more)] == windows[..kept] + last;
    } else {
      assert more[..Kept(config, more)] == windows[..kept];
    }
  }

  lemma NothingTaken(config: Config, s: StreamState, items: seq<Item>)
    ensures PushAll(config, s, items[..0]) == (s, [])
  {}

  lemma SentOne(config: Config, listener: nat, window: Window)
    requires config.Valid() && 1 <= listener <= 4 && WindowOk(config, window)
    ensures SpectrumOf(config, listener, window).Valid()
    ensures Sent(config, listener, [window]) == [Wire(SpectrumOf(config, listener, window))]
  {
    SpectrumValid(config, listener, window);
    hide SpectrumOf, Wire, Spectrum.Valid;
  }

  lemma SentNothing(config: Config, listener: nat)
    requires config.Valid() && 1 <= listener <= 4
    ensures Sent(config, listener, []) == []
  {}

  /** Once a field is refused, so is every longer list. */
  lemma {:induction false} ReadFieldsStops(fields: seq<ContextField>, n: nat)
    requires 0 < n <= |fields| && ReadFields(fields[..n]).None?
    ensures ReadFields(fields).None?
    decreases |fields|
  {
    if n < |fields| {
      var shorter := fields[..|fields| - 1];
      assert shorter[..n] == fields[..n];
      ReadFieldsStops(shorter, n);
    } else {
      assert fields[..n] == fields;
    }
  }

  lemma ReadableNext(samples: seq<Option<Iq>>, index: nat)
    requires index <= Readable(samples) && index < |samples| && samples[index].Some?
    ensures index < Readable(samples)
  {}

  lemma TakenItemsOk(gap: seq<Item>, data: Data)
    requires data.samples.Some? && forall i :: 0 <= i < |gap| ==> gap[i].sample == ZERO
    ensures
      var items := gap + PairItems(data.samples.value, data.time);
      forall i :: 0 <= i < |items| ==> SampleOk(items[i].sample)
  {
    var items := gap + PairItems(data.samples.value, data.time);
    forall i | 0 <= i < |items|
      ensures SampleOk(items[i].sample)
    {
      if i >= |gap| {
        ReadingsOk(data.samples.value[i - |gap|].value);
      }
    }
  }
}
