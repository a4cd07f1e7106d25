/** What every run of the processor keeps, whatever the datagrams. */
module Conservation {
  import opened SpectrumTypes
  import opened ComplexNumbers
  import opened ProcessorSpec

  /** One datagram on one listener. */
  datatype Input = Input(listener: nat, datagram: Datagram)

  /** The processor after a run, with the number of windows each stream has
      completed and the number of samples each has dropped on a context change. */
  datatype History = History(core: Core, completed: seq<nat>, dropped: seq<nat>, output: seq<seq<byte>>)

  function Start(): History {
    History(Core(seq(4, k => FRESH), NO_METRICS), [0, 0, 0, 0], [0, 0, 0, 0], [])
  }

  ghost predicate HistoryOk(config: Config, h: History) {
    config.Valid() && CoreOk(config, h.core) && |h.completed| == |h.dropped| == 4
  }

  function AddAt(counts: seq<nat>, listener: nat, n: nat): seq<nat> {
    if 1 <= listener <= |counts| then counts[listener - 1 := counts[listener - 1] + n] else counts
  }

  ghost function After(config: Config, h: History, input: Input): History
    requires HistoryOk(config, h)
  {
    var step := Consumed(config, h.core, input.listener, input.datagram);
    History(step.core, AddAt(h.completed, input.listener, |step.windows|),
            AddAt(h.dropped, input.listener, step.dropped), h.output + step.output)
  }

  ghost function Run(config: Config, inputs: seq<Input>): (h: History)
    requires config.Valid()
    ensures HistoryOk(config, h)
  {
    if inputs == [] then Start()
    else
      var h := Run(config, inputs[..|inputs| - 1]);
      AfterOk(config, h, inputs[|inputs| - 1]);
      After(config, h, inputs[|inputs| - 1])
  }

  /** Every step keeps the streams in order, however malformed its datagram. */
  lemma AfterOk(config: Config, h: History, input: Input)
    requires HistoryOk(config, h)
    ensures HistoryOk(config, After(config, h, input))
  {
    ConsumedOk(config, h.core, input.listener, input.datagram);
    hide Consumed, CoreOk;
  }

  lemma ConsumedOk(config: Config, core: Core, listener: nat, d: Datagram)
    requires config.Valid() && CoreOk(config, core)
    ensures CoreOk(config, Consumed(config, core, listener, d).core)
  {
    hide DataStep, SampleOk, Norm, Power;
    if 1 <= listener <= 4 && d.envelope.Some? {
      match d.envelope.value.body
      case ContextBody(context) =>
      case DataBody(data) =>
        var s, m := core.streams[listener - 1], core.metrics.(datagrams := core.metrics.datagrams + 1);
        if SamplesOk(config, data) && s.metadataValid {
          DataStepOk(config, listener, s, m, data);
        }
    }
  }

  lemma DataStepOk(config: Config, listener: nat, s: StreamState, m: Metrics, data: Data)
    requires config.Valid() && 1 <= listener <= 4 && StreamOk(config, s) && s.metadataValid && SamplesOk(config, data)
    ensures
      var (after, metrics, windows, output) := DataStep(config, listener, s, m, data);
      && StreamOk(config, after) && after.metadataValid && after.rate == s.rate
      && forall k :: 0 <= k < |windows| ==> WindowOk(config, windows[k])
  {
    MissingPairsBounded(config, s, data);
    if MissingBegin(s, data).Some? {
      ItemsOk(s, data);
      PushAllOk(config, Counted(s, data), Items(s, data));
    }
    hide PushAll, SampleOk, Norm, Power, WindowOk, Items, Readable, Sent;
  }

  // ----- Where every sample goes -----

  function Held(config: Config, windows: nat): nat {
    config.Fft() * windows
  }

  lemma HeldOneMore(config: Config, windows: nat)
    ensures Held(config, 0) == 0 && Held(config, windows + 1) == Held(config, windows) + config.Fft()
  {}

  lemma {:induction false} HeldSum(config: Config, a: nat, b: nat)
    ensures Held(config, a + b) == Held(config, a) + Held(config, b)
  {
    HeldOneMore(config, a);
    if b > 0 {
      HeldSum(config, a, b - 1);
      HeldOneMore(config, a + b - 1);
      HeldOneMore(config, b - 1);
      assert a + b - 1 == a + (b - 1);
    }
  }

  /** Every item is in a completed window or pending, and the position advances by one for each. */
  lemma {:induction false} PushAllConserves(config: Config, s: StreamState, items: seq<Item>)
    requires |s.samples| < config.Fft()
    ensures
      var (after, windows) := PushAll(config, s, items);
      && after.ordinal == s.ordinal + |items| && |after.samples| < config.Fft()
      && |s.samples| + |items| == Held(config, |windows|) + |after.samples|
  {
    hide Held, Push;
    HeldOneMore(config, 0);
    if items != [] {
      var (before, windows) := PushAll(config, s, items[..|items| - 1]);
      PushAllConserves(config, s, items[..|items| - 1]);
      PushConserves(config, before, items[|items| - 1]);
      HeldOneMore(config, |windows|);
    }
  }

  lemma PushConserves(config: Config, s: StreamState, item: Item)
    requires |s.samples| < config.Fft()
    ensures
      var (after, windows) := Push(config, s, item);
      && after.ordinal == s.ordinal + 1 && |after.samples| < config.Fft() && |windows| <= 1
      && |s.samples| + 1 == (if windows == [] then 0 else config.Fft()) + |after.samples|
  {}

  /** Per stream: position = completed windows + pending + dropped samples. */
  predicate Accounted(config: Config, s: StreamState, completed: nat, dropped: nat) {
    s.ordinal == Held(config, completed) + |s.samples| + dropped
  }

  lemma StreamConserves(config: Config, h: History, input: Input)
    requires HistoryOk(config, h) && 1 <= input.listener <= 4
    requires Accounted(config, h.core.streams[input.listener - 1], h.completed[input.listener - 1], h.dropped[input.listener - 1])
    ensures
      var after := After(config, h, input);
      Accounted(config, after.core.streams[input.listener - 1], after.completed[input.listener - 1], after.dropped[input.listener - 1])
  {
    hide DataStep, SampleOk, Norm, Power, Held, StreamOk, SdrEnvelope;
    var k := input.listener - 1;
    var step := Consumed(config, h.core, input.listener, input.datagram);
    HeldSum(config, h.completed[k], |step.windows|);
    HeldOneMore(config, 0);
    if input.datagram.envelope.Some? {
      match input.datagram.envelope.value.body
      case ContextBody(context) =>
      case DataBody(data) =>
        var s, m := h.core.streams[k], h.core.metrics.(datagrams := h.core.metrics.datagrams + 1);
        if SamplesOk(config, data) && s.metadataValid {
          DataStepConserves(config, input.listener, s, m, data);
        }
    }
  }

  lemma DataStepConserves(config: Config, listener: nat, s: StreamState, m: Metrics, data: Data)
    requires config.Valid() && 1 <= listener <= 4 && StreamOk(config, s) && s.metadataValid && SamplesOk(config, data)
    ensures
      var (after, metrics, windows, output) := DataStep(config, listener, s, m, data);
      && after.ordinal - |after.samples| == s.ordinal - |s.samples| + Held(config, |windows|)
      && |windows| <= 16
      && metrics.spectra + metrics.unavailable == m.spectra + m.unavailable + |windows|
      && metrics.malformed - metrics.discards.Total() == m.malformed - m.discards.Total()
  {
    MissingPairsBounded(config, s, data);
    HeldOneMore(config, 0);
    if MissingBegin(s, data).Some? {
      var items := Items(s, data);
      PushAllConserves(config, Counted(s, data), items);
      assert |items| <= 16 * config.Fft();
      AtMostSixteen(config, |PushAll(config, Counted(s, data), items).1|);
    }
    hide PushAll, SampleOk, Norm, Power, WindowOk, Items, Readable, Sent, Held;
  }

  lemma AtMostSixteen(config: Config, windows: nat)
    requires config.Valid() && Held(config, windows) < 17 * config.Fft()
    ensures windows <= 16
  {
    if windows > 16 {
      HeldSum(config, 17, windows - 17);
    }
  }

  function Sum(counts: seq<nat>): nat
    requires |counts| == 4
  {
    counts[0] + counts[1] + counts[2] + counts[3]
  }

  lemma MetricsConserve(config: Config, h: History, input: Input)
    requires HistoryOk(config, h)
    ensures
      var after := After(config, h, input);
      && |Consumed(config, h.core, input.listener, input.datagram).windows| <= 16
      && after.core.metrics.datagrams == h.core.metrics.datagrams + 1
      && after.core.metrics.malformed - after.core.metrics.discards.Total()
         == h.core.metrics.malformed - h.core.metrics.discards.Total()
      && after.core.metrics.spectra + after.core.metrics.unavailable - Sum(after.completed)
         == h.core.metrics.spectra + h.core.metrics.unavailable - Sum(h.completed)
  {
    ConsumedCounts(config, h.core, input.listener, input.datagram);
    var step := Consumed(config, h.core, input.listener, input.datagram);
    SumAfter(h.completed, input.listener, |step.windows|);
    hide Consumed, CoreOk, Sum, AddAt;
  }

  lemma SumAfter(counts: seq<nat>, listener: nat, n: nat)
    requires |counts| == 4 && (n > 0 ==> 1 <= listener <= 4)
    ensures |AddAt(counts, listener, n)| == 4 && Sum(AddAt(counts, listener, n)) == Sum(counts) + n
  {}

  /** What one call of consume counts; `m` are the metrics before it. */
  predicate CountsOk(m: Metrics, listener: nat, step: Step) {
    var n := step.core.metrics;
    && |step.windows| <= 16 && (|step.windows| > 0 ==> 1 <= listener <= 4)
    && n.datagrams == m.datagrams + 1
    && n.malformed - n.discards.Total() == m.malformed - m.discards.Total()
    && n.spectra + n.unavailable == m.spectra + m.unavailable + |step.windows|
  }

  lemma ConsumedCounts(config: Config, core: Core, listener: nat, d: Datagram)
    requires config.Valid() && CoreOk(config, core)
    ensures CountsOk(core.metrics, listener, Consumed(config, core, listener, d))
  {
    hide DataStep, SamplesOk, SampleOk, Norm, Power, Held, StreamOk, SdrEnvelope, WithSettings, AcceptedSettings, DropsPending;
    var m := core.metrics.(datagrams := core.metrics.datagrams + 1);
    if 1 <= listener <= 4 && d.envelope.Some? && d.envelope.value.body.DataBody? {
      var (s, data) := (core.streams[listener - 1], d.envelope.value.body.data);
      if SamplesOk(config, data) && s.metadataValid {
        DataStepConserves(config, listener, s, m, data);
        DataStepDatagrams(config, listener, s, m, data);
      }
    }
  }

  lemma DataStepDatagrams(config: Config, listener: nat, s: StreamState, m: Metrics, data: Data)
    requires config.Valid() && 1 <= listener <= 4 && StreamOk(config, s) && s.metadataValid && SamplesOk(config, data)
    ensures DataStep(config, listener, s, m, data).1.datagrams == m.datagrams
  {
    MissingPairsBounded(config, s, data);
    hide PushAll, SampleOk, Norm, Power, WindowOk, Items, Readable, Sent;
  }

  /** No sample is lost or counted twice. */
  predicate StreamsConserved(config: Config, h: History)
    requires |h.core.streams| == |h.completed| == |h.dropped| == 4
  {
    && (forall k :: 0 <= k < 4 ==> Accounted(config, h.core.streams[k], h.completed[k], h.dropped[k]))
    && (forall k :: 0 <= k < 4 ==> |h.core.streams[k].samples| < config.Fft())
  }

  /** Every completed window is either sent or counted unavailable, and every
      malformed datagram has a reason. */
  predicate CountersConserved(m: Metrics, completed: nat, datagrams: nat) {
    && m.datagrams == datagrams
    && m.malformed == m.discards.Total()
    && m.spectra + m.unavailable == completed
  }

  predicate Conserved(config: Config, h: History, datagrams: nat)
    requires |h.core.streams| == |h.completed| == |h.dropped| == 4
  {
    StreamsConserved(config, h) && CountersConserved(h.core.metrics, Sum(h.completed), datagrams)
  }

  lemma StepConserves(config: Config, h: History, input: Input, datagrams: nat)
    requires HistoryOk(config, h) && Conserved(config, h, datagrams)
    ensures HistoryOk(config, After(config, h, input)) && Conserved(config, After(config, h, input), datagrams + 1)
  {
    hide After, Accounted, StreamOk, Norm, Power, Consumed;
    AfterOk(config, h, input);
    MetricsConserve(config, h, input);
    var after := After(config, h, input);
    forall k | 0 <= k < 4
      ensures Accounted(config, after.core.streams[k], after.completed[k], after.dropped[k])
      ensures |after.core.streams[k].samples| < config.Fft()
    {
      PendingBelow(config, after.core.streams[k]);
      if input.listener == k + 1 {
        StreamConserves(config, h, input);
      } else {
        OtherStream(config, h, input, k);
      }
    }
  }

  lemma PendingBelow(config: Config, s: StreamState)
    requires StreamOk(config, s)
    ensures |s.samples| < config.Fft()
  {}

  /** Conservation over every run. */
  lemma {:induction false} RunConserves(config: Config, inputs: seq<Input>)
    requires config.Valid()
    ensures Conserved(config, Run(config, inputs), |inputs|)
  {
    hide *;
    RunUnfolds(config, inputs);
    if inputs == [] {
      StartConserved(config);
    } else {
      RunConserves(config, inputs[..|inputs| - 1]);
      StepConserves(config, Run(config, inputs[..|inputs| - 1]), inputs[|inputs| - 1], |inputs| - 1);
    }
  }

  lemma RunUnfolds(config: Config, inputs: seq<Input>)
    requires config.Valid()
    ensures inputs == [] ==> Run(config, inputs) == Start()
    ensures inputs != [] ==>
      Run(config, inputs) == After(config, Run(config, inputs[..|inputs| - 1]), inputs[|inputs| - 1])
  {
    hide After, Norm, Power;
  }

  lemma StartConserved(config: Config)
    requires config.Valid()
    ensures HistoryOk(config, Start()) && Conserved(config, Start(), 0)
  {
    hide *;
    FreshConserved(config);
    StartStreams(config);
    StartCounters();
    ConservedParts(config, Start(), 0);
  }

  lemma ConservedParts(config: Config, h: History, datagrams: nat)
    requires |h.core.streams| == |h.completed| == |h.dropped| == 4
    requires StreamsConserved(config, h) && CountersConserved(h.core.metrics, Sum(h.completed), datagrams)
    ensures Conserved(config, h, datagrams)
  {}

  lemma StartStreams(config: Config)
    requires config.Valid() && StreamOk(config, FRESH) && Accounted(config, FRESH, 0, 0)
    requires |FRESH.samples| == 0 < config.Fft()
    ensures |Start().core.streams| == |Start().completed| == |Start().dropped| == 4
    ensures HistoryOk(config, Start()) && StreamsConserved(config, Start())
  {
    hide Held, Accounted, StreamOk, Config.Valid;
  }

  lemma StartCounters()
    ensures Sum(Start().completed) == 0 && CountersConserved(Start().core.metrics, 0, 0)
  {
    NoReasons();
    hide NO_METRICS, Discards.Total;
  }

  lemma NoReasons()
    ensures NO_METRICS.datagrams == 0 && NO_METRICS.spectra == 0 && NO_METRICS.unavailable == 0
    ensures NO_METRICS.malformed == NO_METRICS.discards.Total()
  {}

  lemma FreshConserved(config: Config)
    requires config.Valid()
    ensures StreamOk(config, FRESH) && Accounted(config, FRESH, 0, 0) && |FRESH.samples| == 0 < config.Fft()
  {
    HeldOneMore(config, 0);
    hide Held, Norm, Power, SampleOk;
  }

  /** A datagram touches no stream but its listener's. */
  lemma OtherStream(config: Config, h: History, input: Input, k: nat)
    requires HistoryOk(config, h) && k < 4 && input.listener != k + 1
    ensures
      var after := After(config, h, input);
      && |after.core.streams| == 4 && |after.completed| == 4 && |after.dropped| == 4
      && after.core.streams[k] == h.core.streams[k]
      && after.completed[k] == h.completed[k] && after.dropped[k] == h.dropped[k]
  {
    hide DataStep, SampleOk, Norm, Power, StreamOk, SdrEnvelope, WithSettings;
  }
}
