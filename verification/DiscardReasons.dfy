/** Why the processor discards datagrams, counted over a run. */
module DiscardReasons {
  import opened SpectrumTypes
  import opened SampleTime
  import opened ProcessorSpec
  import opened Conservation
  import opened StreamRuns
  import opened StreamHistory
  import opened SentSpectra

  datatype Fault = TooLarge | WrongEnvelope | BadContext | BadData | BadSamples | NoContext | BadTime

  /** The samples its count says are missing before it would begin before time zero. */
  predicate TooEarly(context: Setting, packets: seq<Data>, data: Data)
    requires forall i :: 0 <= i < |packets| ==> packets[i].samples.Some?
  {
    packets != [] && context.rate > 0 &&
    var last := packets[|packets| - 1];
    Ticks(data.time) < Elapsed(Between(last, data) * |last.samples.value|, context.rate)
  }

  /** The first thing wrong with a datagram, given what its listener received before. */
  function FaultOf(config: Config, context: Option<Setting>, packets: seq<Data>, input: Input): Option<Fault>
    requires forall i :: 0 <= i < |packets| ==> packets[i].samples.Some?
  {
    var (l, d) := (input.listener, input.datagram);
    if l < 1 || l > 4 || d.size > config.receiveBytes then Some(TooLarge)
    else if d.envelope.None? || d.envelope.value.streamId != l then Some(WrongEnvelope)
    else match d.envelope.value.body
      case ContextBody(_) => if TakesContext(config, l, input) then None else Some(BadContext)
      case DataBody(data) =>
        if !SdrEnvelope(data) then Some(BadData)
        else if !SamplesOk(config, data) then Some(BadSamples)
        else if context.None? then Some(NoContext)
        else if TooEarly(context.value, packets, data) then Some(BadTime)
        else if Garbled(d) then Some(BadSamples)
        else None
  }

  /** The discards with one more. */
  function Blame(discards: Discards, fault: Option<Fault>): Discards {
    match fault
    case None => discards
    case Some(TooLarge) => discards.(limits := discards.limits + 1)
    case Some(WrongEnvelope) => discards.(invalidEnvelope := discards.invalidEnvelope + 1)
    case Some(BadContext) => discards.(invalidContext := discards.invalidContext + 1)
    case Some(BadData) => discards.(invalidData := discards.invalidData + 1)
    case Some(BadSamples) => discards.(invalidSamples := discards.invalidSamples + 1)
    case Some(NoContext) => discards.(waitingContext := discards.waitingContext + 1)
    case Some(BadTime) => discards.(timestampRange := discards.timestampRange + 1)
  }

  /** What is wrong with the last datagram of a run. */
  function LastFault(config: Config, inputs: seq<Input>): Option<Fault>
    requires inputs != []
  {
    var (before, last) := (inputs[..|inputs| - 1], inputs[|inputs| - 1]);
    FaultOf(config, LastContext(config, last.listener, before), Taken(config, last.listener, before), last)
  }

  function Count(config: Config, inputs: seq<Input>, fault: Fault): nat {
    if inputs == [] then 0
    else Count(config, inputs[..|inputs| - 1], fault) + (if LastFault(config, inputs) == Some(fault) then 1 else 0)
  }

  // ----- One datagram -----

  lemma EarlyIs(config: Config, s: StreamState, data: Data, context: Setting, packets: seq<Data>, cutOffs: nat)
    requires config.Valid() && StreamOk(config, s) && s.metadataValid && Normalised(data.time)
    requires forall i :: 0 <= i < |packets| ==> packets[i].samples.Some?
    requires Remembers(s, Some(context), packets, cutOffs)
    ensures s.rate > 0 && MissingPairs(s, data) < WORD
    ensures MissingBegin(s, data).None? <==> TooEarly(context, packets, data)
  {
    assert WORD == 0x1_0000_0000_0000_0000;
    hide *;
    MissingPairsBounded(config, s, data);
    RateKnown(config, s, context, packets, cutOffs);
    MissingIs(s, data, Some(context), packets, cutOffs);
    var missing := MissingPairs(s, data);
    NoTime(s.rate);
    if missing > 0 {
      SubtractExact(data.time, missing, s.rate);
    }
    BeginIs(s, data);
    EarlyMeans(context, packets, data);
  }

  lemma RateKnown(config: Config, s: StreamState, context: Setting, packets: seq<Data>, cutOffs: nat)
    requires StreamOk(config, s) && s.metadataValid
    requires forall i :: 0 <= i < |packets| ==> packets[i].samples.Some?
    requires Remembers(s, Some(context), packets, cutOffs)
    ensures s.rate == context.rate && 0 < s.rate <= MAX_EXACT_RATE
  {
    hide Skipped, Breaks;
  }

  lemma MissingIs(s: StreamState, data: Data, context: Option<Setting>, packets: seq<Data>, cutOffs: nat)
    requires forall i :: 0 <= i < |packets| ==> packets[i].samples.Some?
    requires Remembers(s, context, packets, cutOffs)
    ensures
      MissingPairs(s, data)
      == if packets == [] then 0 else Between(packets[|packets| - 1], data) * |packets[|packets| - 1].samples.value|
  {
    hide Skipped, Breaks, Normalised;
    if packets != [] {
      assert Gap(s, data.packetCount) == Between(packets[|packets| - 1], data);
    }
  }

  lemma BeginIs(s: StreamState, data: Data)
    requires s.rate > 0 && MissingPairs(s, data) < WORD
    ensures
      MissingBegin(s, data)
      == if MissingPairs(s, data) == 0 then Some(data.time) else SubtractSamples(data.time, MissingPairs(s, data), s.rate)
  {
    hide MissingPairs, SubtractSamples;
  }

  lemma EarlyMeans(context: Setting, packets: seq<Data>, data: Data)
    requires forall i :: 0 <= i < |packets| ==> packets[i].samples.Some?
    requires context.rate > 0
    ensures
      TooEarly(context, packets, data) <==>
      packets != [] && Ticks(data.time) < Elapsed(Between(packets[|packets| - 1], data) * |packets[|packets| - 1].samples.value|, context.rate)
  {
    hide Ticks, Elapsed, Between;
  }

  lemma NoTime(rate: nat)
    requires rate > 0
    ensures Elapsed(0, rate) == 0
  {}

  /** The metrics are those before, with the datagram and what is wrong with it counted. */
  predicate Counts(m: Metrics, n: Metrics, fault: Option<Fault>) {
    && n.datagrams == m.datagrams + 1 && n.discards == Blame(m.discards, fault)
    && n.malformed == m.malformed + (if fault.Some? then 1 else 0)
  }

  lemma DataCounts(config: Config, listener: nat, s: StreamState, m: Metrics, data: Data, context: Setting, packets: seq<Data>, cutOffs: nat)
    requires config.Valid() && 1 <= listener <= 4 && StreamOk(config, s) && s.metadataValid
    requires SamplesOk(config, data) && SdrEnvelope(data)
    requires forall i :: 0 <= i < |packets| ==> packets[i].samples.Some?
    requires Remembers(s, Some(context), packets, cutOffs)
    ensures
      var n := DataStep(config, listener, s, m, data).1;
      var fault := if TooEarly(context, packets, data) then Some(BadTime)
                   else if Readable(data.samples.value) < |data.samples.value| then Some(BadSamples) else None;
      && n.datagrams == m.datagrams && n.discards == Blame(m.discards, fault)
      && n.malformed == m.malformed + (if fault.Some? then 1 else 0)
  {
    EarlyIs(config, s, data, context, packets, cutOffs);
    hide PushAll, SampleOk, WindowOk, Items, Readable, Sent, TooEarly, MissingBegin, Remembers, StreamOk, Gap, Counted;
  }

  lemma StepCounts(config: Config, core: Core, input: Input, context: Option<Setting>, packets: seq<Data>, cutOffs: nat)
    requires config.Valid() && CoreOk(config, core)
    requires forall i :: 0 <= i < |packets| ==> packets[i].samples.Some?
    requires 1 <= input.listener <= 4 ==> Remembers(core.streams[input.listener - 1], context, packets, cutOffs)
    ensures
      var step := Consumed(config, core, input.listener, input.datagram);
      Counts(core.metrics, step.core.metrics, FaultOf(config, context, packets, input))
  {
    hide DataStep, SampleOk, StreamOk, SdrEnvelope, AcceptedSettings, WithSettings, TooEarly, Remembers, Readable, SamplesOk, Blame;
    Unfaulted(core.metrics.discards);
    if 1 <= input.listener <= 4 {
      Metadata(core.streams[input.listener - 1], context, packets, cutOffs);
      if TakesData(config, input.listener, input) && context.Some? {
        var (s, data) := (core.streams[input.listener - 1], input.datagram.envelope.value.body.data);
        HasSamples(config, data);
        ReadableIs(data.samples.value);
        DataCounts(config, input.listener, s, core.metrics.(datagrams := core.metrics.datagrams + 1), data,
                   context.value, packets, cutOffs);
      }
    }
  }

  lemma HasSamples(config: Config, data: Data)
    requires SamplesOk(config, data)
    ensures data.samples.Some?
  {}

  lemma Unfaulted(d: Discards)
    ensures Blame(d, None) == d
    ensures Blame(d, Some(TooLarge)) == d.(limits := d.limits + 1)
    ensures Blame(d, Some(WrongEnvelope)) == d.(invalidEnvelope := d.invalidEnvelope + 1)
    ensures Blame(d, Some(BadContext)) == d.(invalidContext := d.invalidContext + 1)
    ensures Blame(d, Some(BadData)) == d.(invalidData := d.invalidData + 1)
    ensures Blame(d, Some(BadSamples)) == d.(invalidSamples := d.invalidSamples + 1)
    ensures Blame(d, Some(NoContext)) == d.(waitingContext := d.waitingContext + 1)
  {}

  // ----- Every run -----

  /** Every reason counts the datagrams of the run with this first fault, and the malformed
      ones are those with any. */
  lemma {:induction false} ReasonsCounted(config: Config, inputs: seq<Input>)
    requires config.Valid()
    ensures
      var m := Run(config, inputs).core.metrics;
      && m.datagrams == |inputs|
      && m.discards == Discards(Count(config, inputs, TooLarge), Count(config, inputs, WrongEnvelope),
                                Count(config, inputs, BadContext), Count(config, inputs, BadData),
                                Count(config, inputs, BadSamples), Count(config, inputs, NoContext),
                                Count(config, inputs, BadTime))
      && m.malformed == m.discards.Total()
  {
    if inputs == [] {
      RunUnfolds(config, inputs);
    } else {
      hide *;
      RunUnfolds(config, inputs);
      CountMore(config, inputs);
      var (before, last) := (inputs[..|inputs| - 1], inputs[|inputs| - 1]);
      ReasonsCounted(config, before);
      var (h, l) := (Run(config, before), last.listener);
      HistoryParts(config, h);
      if 1 <= l <= 4 {
        RunRemembers(config, l, before);
      }
      var cutOffs := if 1 <= l <= 4 then CutOffs(config, l, before) else 0;
      StepCounts(config, h.core, last, LastContext(config, l, before), Taken(config, l, before), cutOffs);
      FaultIs(config, inputs);
      CoreOf(config, h, last);
      Blamed(h.core.metrics, Run(config, inputs).core.metrics, LastFault(config, inputs));
    }
  }

  lemma Blamed(m: Metrics, n: Metrics, fault: Option<Fault>)
    requires Counts(m, n, fault)
    ensures n.datagrams == m.datagrams + 1 && n.discards == Blame(m.discards, fault)
    ensures m.malformed == m.discards.Total() ==> n.malformed == n.discards.Total()
  {}

  lemma CountMore(config: Config, inputs: seq<Input>)
    requires inputs != []
    ensures
      var before := inputs[..|inputs| - 1];
      Discards(Count(config, inputs, TooLarge), Count(config, inputs, WrongEnvelope), Count(config, inputs, BadContext),
               Count(config, inputs, BadData), Count(config, inputs, BadSamples), Count(config, inputs, NoContext),
               Count(config, inputs, BadTime))
      == Blame(Discards(Count(config, before, TooLarge), Count(config, before, WrongEnvelope), Count(config, before, BadContext),
                        Count(config, before, BadData), Count(config, before, BadSamples), Count(config, before, NoContext),
                        Count(config, before, BadTime)),
               LastFault(config, inputs))
  {
    hide LastFault;
  }

  lemma FaultIs(config: Config, inputs: seq<Input>)
    requires inputs != []
    ensures
      var (before, last) := (inputs[..|inputs| - 1], inputs[|inputs| - 1]);
      LastFault(config, inputs)
      == FaultOf(config, LastContext(config, last.listener, before), Taken(config, last.listener, before), last)
  {}

  lemma CoreOf(config: Config, h: History, input: Input)
    requires HistoryOk(config, h)
    ensures After(config, h, input).core == Consumed(config, h.core, input.listener, input.datagram).core
  {
    hide Consumed, CoreOk;
  }

  // ----- What was taken -----

  /** How many contexts were accepted, on all listeners. */
  function Contexts(config: Config, inputs: seq<Input>): nat {
    if inputs == [] then 0
    else
      var last := inputs[|inputs| - 1];
      Contexts(config, inputs[..|inputs| - 1])
      + (if 1 <= last.listener <= 4 && TakesContext(config, last.listener, last) then 1 else 0)
  }

  /** How many packets the counts of the packets taken leave room for, on all listeners. */
  function AllSkipped(config: Config, inputs: seq<Input>): nat {
    Skipped(Taken(config, 1, inputs)) + Skipped(Taken(config, 2, inputs))
    + Skipped(Taken(config, 3, inputs)) + Skipped(Taken(config, 4, inputs))
  }

  function StreamGaps(streams: seq<StreamState>): nat
    requires |streams| == 4
  {
    streams[0].sequenceGaps + streams[1].sequenceGaps + streams[2].sequenceGaps + streams[3].sequenceGaps
  }

  lemma StepEvents(config: Config, core: Core, input: Input)
    requires config.Valid() && CoreOk(config, core)
    ensures
      var step := Consumed(config, core, input.listener, input.datagram);
      && |step.core.streams| == 4
      && step.core.metrics.contextUpdates
         == core.metrics.contextUpdates + (if 1 <= input.listener <= 4 && TakesContext(config, input.listener, input) then 1 else 0)
      && step.core.metrics.packetGaps - StreamGaps(step.core.streams) == core.metrics.packetGaps - StreamGaps(core.streams)
  {
    hide DataStep, SampleOk, StreamOk, SdrEnvelope, AcceptedSettings;
    if 1 <= input.listener <= 4 && TakesData(config, input.listener, input) && core.streams[input.listener - 1].metadataValid {
      DataEvents(config, input.listener, core.streams[input.listener - 1],
                 core.metrics.(datagrams := core.metrics.datagrams + 1), input.datagram.envelope.value.body.data);
    }
  }

  lemma DataEvents(config: Config, listener: nat, s: StreamState, m: Metrics, data: Data)
    requires config.Valid() && 1 <= listener <= 4 && StreamOk(config, s) && s.metadataValid && SamplesOk(config, data)
    ensures
      var (after, n, windows, output) := DataStep(config, listener, s, m, data);
      && n.contextUpdates == m.contextUpdates
      && n.packetGaps - after.sequenceGaps == m.packetGaps - s.sequenceGaps
  {
    MissingPairsBounded(config, s, data);
    if MissingBegin(s, data).Some? {
      PushAllGaps(config, Counted(s, data), Items(s, data));
    }
    hide PushAll, SampleOk, WindowOk, Items, Readable, Sent, StreamOk, Gap;
  }

  lemma {:induction false} PushAllGaps(config: Config, s: StreamState, items: seq<Item>)
    ensures PushAll(config, s, items).0.sequenceGaps == s.sequenceGaps
  {
    if items != [] {
      PushAllGaps(config, s, items[..|items| - 1]);
    }
  }

  /** Over every run the context updates are the contexts accepted, and the packet gaps those
      the counts of the packets taken leave room for. */
  lemma EventsCounted(config: Config, inputs: seq<Input>)
    requires config.Valid()
    ensures
      var m := Run(config, inputs).core.metrics;
      m.contextUpdates == Contexts(config, inputs) && m.packetGaps == AllSkipped(config, inputs)
  {
    hide *;
    EventsGrow(config, inputs);
    GapsOn(config, 1, inputs);
    GapsOn(config, 2, inputs);
    GapsOn(config, 3, inputs);
    GapsOn(config, 4, inputs);
    HistoryParts(config, Run(config, inputs));
    Sums(config, inputs, Run(config, inputs).core.streams);
  }

  lemma Sums(config: Config, inputs: seq<Input>, streams: seq<StreamState>)
    requires |streams| == 4
    requires streams[0].sequenceGaps == Skipped(Taken(config, 1, inputs)) && streams[1].sequenceGaps == Skipped(Taken(config, 2, inputs))
    requires streams[2].sequenceGaps == Skipped(Taken(config, 3, inputs)) && streams[3].sequenceGaps == Skipped(Taken(config, 4, inputs))
    ensures StreamGaps(streams) == AllSkipped(config, inputs)
  {
    hide Skipped, Taken;
  }

  lemma GapsOn(config: Config, listener: nat, inputs: seq<Input>)
    requires config.Valid() && 1 <= listener <= 4
    ensures |Run(config, inputs).core.streams| == 4
    ensures Run(config, inputs).core.streams[listener - 1].sequenceGaps == Skipped(Taken(config, listener, inputs))
  {
    RunRemembers(config, listener, inputs);
    hide Run, Skipped, Taken, LastContext, CutOffs, Breaks;
  }

  lemma {:induction false} EventsGrow(config: Config, inputs: seq<Input>)
    requires config.Valid()
    ensures |Run(config, inputs).core.streams| == 4
    ensures
      var core := Run(config, inputs).core;
      core.metrics.contextUpdates == Contexts(config, inputs) && core.metrics.packetGaps == StreamGaps(core.streams)
  {
    HistoryParts(config, Run(config, inputs));
    if inputs == [] {
      RunUnfolds(config, inputs);
    } else {
      var (before, last) := (inputs[..|inputs| - 1], inputs[|inputs| - 1]);
      EventsGrow(config, before);
      RunUnfolds(config, inputs);
      HistoryParts(config, Run(config, before));
      StepEvents(config, Run(config, before).core, last);
      CoreOf(config, Run(config, before), last);
      hide Run, After, Consumed, TakesContext, StreamGaps, CoreOk;
    }
  }
}
