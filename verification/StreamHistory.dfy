/** What the state of a stream says about everything received before it. */
module StreamHistory {
  import opened SpectrumTypes
  import opened SampleTime
  import opened ProcessorSpec
  import opened Conservation
  import opened StreamRuns

  // ----- What was received -----

  datatype Setting = Setting(center: u64, rate: u32, epoch: ProtocolTime)

  predicate TakesContext(config: Config, listener: nat, input: Input) {
    input.listener == listener && !Refused(config, listener, input.datagram) && input.datagram.envelope.value.body.ContextBody?
  }

  function SettingOf(config: Config, listener: nat, input: Input): Setting
    requires TakesContext(config, listener, input)
  {
    var context := input.datagram.envelope.value.body.context;
    var settings := AcceptedSettings(config, context).value;
    Setting(settings.center.value, settings.rate.value, context.value.time)
  }

  function NextContext(config: Config, listener: nat, context: Option<Setting>, input: Input): Option<Setting> {
    if TakesContext(config, listener, input) then Some(SettingOf(config, listener, input)) else context
  }

  /** The center, rate and time of the last context accepted on the listener. */
  function LastContext(config: Config, listener: nat, inputs: seq<Input>): Option<Setting> {
    if inputs == [] then None
    else NextContext(config, listener, LastContext(config, listener, inputs[..|inputs| - 1]), inputs[|inputs| - 1])
  }

  function NextPacket(config: Config, listener: nat, context: Option<Setting>, input: Input): (packets: seq<Data>)
    ensures forall i :: 0 <= i < |packets| ==> packets[i].samples.Some?
  {
    if TakesData(config, listener, input) && context.Some? then [input.datagram.envelope.value.body.data] else []
  }

  /** The data packets taken since there was a context. */
  function Taken(config: Config, listener: nat, inputs: seq<Input>): (packets: seq<Data>)
    ensures forall i :: 0 <= i < |packets| ==> packets[i].samples.Some?
  {
    if inputs == [] then []
    else
      var before := inputs[..|inputs| - 1];
      Taken(config, listener, before)
      + NextPacket(config, listener, LastContext(config, listener, before), inputs[|inputs| - 1])
  }

  /** How many packets the counts of two packets leave room for in between. */
  function Between(a: Data, b: Data): (n: nat)
    ensures n < 16
  {
    (b.packetCount - a.packetCount + 15) % 16
  }

  function Skipped(packets: seq<Data>): nat {
    if |packets| < 2 then 0
    else Skipped(packets[..|packets| - 1]) + Between(packets[|packets| - 2], packets[|packets| - 1])
  }

  function Breaks(packets: seq<Data>): nat {
    if |packets| < 2 then 0
    else Breaks(packets[..|packets| - 1]) + (if Between(packets[|packets| - 2], packets[|packets| - 1]) > 0 then 1 else 0)
  }

  /** A new center or rate, while samples wait for the rest of their window. */
  predicate CutsOff(config: Config, listener: nat, context: Option<Setting>, waiting: bool, input: Input) {
    && waiting && TakesContext(config, listener, input) && context.Some?
    && var now := SettingOf(config, listener, input);
    context.value.center != now.center || context.value.rate != now.rate
  }

  ghost function CutOffs(config: Config, listener: nat, inputs: seq<Input>): nat
    requires config.Valid() && 1 <= listener <= 4
  {
    if inputs == [] then 0
    else
      var before := inputs[..|inputs| - 1];
      CutOffs(config, listener, before)
      + (if CutsOff(config, listener, LastContext(config, listener, before),
                    StreamAfter(config, listener, before).samples != [], inputs[|inputs| - 1]) then 1 else 0)
  }

  // ----- What the stream knows of it -----

  predicate Knows(s: StreamState, context: Option<Setting>) {
    && (s.metadataValid <==> context.Some?)
    && (context.Some? ==> context.value == Setting(s.center, s.rate, s.epoch))
    && (context.None? ==> s.samples == [])
  }

  predicate Follows(s: StreamState, packets: seq<Data>)
    requires forall i :: 0 <= i < |packets| ==> packets[i].samples.Some?
  {
    if packets == [] then s.packetCount.None? else
      var last := packets[|packets| - 1];
      s.packetCount == Some(last.packetCount) && s.previousPairs == |last.samples.value|
  }

  /** The stream knows the last context, the last packet, the packets skipped and the breaks. */
  predicate Remembers(s: StreamState, context: Option<Setting>, packets: seq<Data>, cutOffs: nat)
    requires forall i :: 0 <= i < |packets| ==> packets[i].samples.Some?
  {
    && Knows(s, context) && Follows(s, packets)
    && s.sequenceGaps == Skipped(packets) && s.discontinuities == Breaks(packets) + cutOffs
    && (s.samples != [] ==> Normalised(s.windowBegin))
  }

  // ----- Windows -----

  /** The window carries what its stream knew when it filled up. */
  predicate Carries(window: Window, s: StreamState) {
    && window.center == s.center && window.rate == s.rate && window.epoch == s.epoch
    && window.discontinuities == s.discontinuities && window.sequenceGaps == s.sequenceGaps
    && Normalised(window.begin)
  }

  predicate SameButSamples(s: StreamState, after: StreamState) {
    && after.center == s.center && after.rate == s.rate && after.epoch == s.epoch && after.metadataValid == s.metadataValid
    && after.packetCount == s.packetCount && after.previousPairs == s.previousPairs
    && after.discontinuities == s.discontinuities && after.sequenceGaps == s.sequenceGaps
  }

  /** The number of a window is that of the stream's next one, counted on modulo 2^32. */
  predicate NumberedFrom(windows: seq<Window>, first: u32) {
    forall k :: 0 <= k < |windows| ==> windows[k].sequence == (first + k) % 0x1_0000_0000
  }

  lemma {:induction false} PushAllCarries(config: Config, s: StreamState, items: seq<Item>)
    requires s.samples != [] ==> Normalised(s.windowBegin)
    requires forall i :: 0 <= i < |items| ==> Normalised(items[i].begin)
    ensures
      var (after, windows) := PushAll(config, s, items);
      && SameButSamples(s, after) && (after.samples != [] ==> Normalised(after.windowBegin))
      && (forall k :: 0 <= k < |windows| ==> Carries(windows[k], s))
  {
    if items != [] {
      hide Push, Normalised, Carries, SameButSamples;
      var (before, windows) := PushAll(config, s, items[..|items| - 1]);
      PushAllCarries(config, s, items[..|items| - 1]);
      PushCarries(config, before, items[|items| - 1]);
      CarriedOn(s, before, PushAll(config, s, items).0, Push(config, before, items[|items| - 1]).1);
    }
  }

  lemma CarriedOn(s: StreamState, before: StreamState, after: StreamState, windows: seq<Window>)
    requires SameButSamples(s, before)
    ensures SameButSamples(s, s) && (SameButSamples(before, after) ==> SameButSamples(s, after))
    ensures forall k :: 0 <= k < |windows| && Carries(windows[k], before) ==> Carries(windows[k], s)
  {}

  lemma PushCarries(config: Config, s: StreamState, item: Item)
    requires (s.samples != [] ==> Normalised(s.windowBegin)) && Normalised(item.begin)
    ensures
      var (after, windows) := Push(config, s, item);
      && SameButSamples(s, after) && (after.samples != [] ==> Normalised(after.windowBegin)) && |windows| <= 1
      && (forall k :: 0 <= k < |windows| ==> Carries(windows[k], s))
  {
    hide Normalised;
  }

  lemma {:induction false} PushAllNumbered(config: Config, s: StreamState, items: seq<Item>)
    ensures
      var (after, windows) := PushAll(config, s, items);
      NumberedFrom(windows, s.sequence) && after.sequence == (s.sequence + |windows|) % 0x1_0000_0000
  {
    if items != [] {
      hide Push;
      var before := PushAll(config, s, items[..|items| - 1]).0;
      PushAllNumbered(config, s, items[..|items| - 1]);
      PushNumbered(config, before, items[|items| - 1]);
    }
  }

  lemma PushNumbered(config: Config, s: StreamState, item: Item)
    ensures
      var (after, windows) := Push(config, s, item);
      && |windows| <= 1 && (windows != [] ==> windows[0].sequence == s.sequence)
      && after.sequence == (s.sequence + |windows|) % 0x1_0000_0000
  {}

  /** The samples of a packet and of the gap before it are dated in whole seconds and a rest. */
  lemma ItemsNormalised(s: StreamState, data: Data)
    requires 0 < s.rate <= MAX_EXACT_RATE && MissingPairs(s, data) < WORD && data.samples.Some?
    requires Normalised(data.time) && MissingBegin(s, data).Some?
    ensures forall i :: 0 <= i < |Items(s, data)| ==> Normalised(Items(s, data)[i].begin)
  {
    var missing := MissingPairs(s, data);
    if missing > 0 {
      SubtractExact(data.time, missing, s.rate);
    }
    var begin := MissingBegin(s, data).value;
    forall i | 0 <= i < |Items(s, data)| ensures Normalised(Items(s, data)[i].begin) {
      if i < missing {
        AddExact(begin, i, s.rate);
      }
    }
  }

  // ----- One datagram -----

  lemma MorePackets(packets: seq<Data>, data: Data)
    ensures
      var gap := if packets == [] then 0 else Between(packets[|packets| - 1], data);
      && Skipped(packets + [data]) == Skipped(packets) + gap
      && Breaks(packets + [data]) == Breaks(packets) + (if gap > 0 then 1 else 0)
  {
    assert (packets + [data])[..|packets|] == packets;
  }

  lemma CountedRemembers(s: StreamState, data: Data, context: Option<Setting>, packets: seq<Data>, cutOffs: nat)
    requires forall i :: 0 <= i < |packets| ==> packets[i].samples.Some?
    requires Remembers(s, context, packets, cutOffs) && data.samples.Some?
    ensures Remembers(Counted(s, data), context, packets + [data], cutOffs)
  {
    MorePackets(packets, data);
    assert packets != [] ==> Gap(s, data.packetCount) == Between(packets[|packets| - 1], data);
    hide Skipped, Breaks, Normalised;
  }

  lemma StillRemembers(s: StreamState, after: StreamState, context: Option<Setting>, packets: seq<Data>, cutOffs: nat)
    requires forall i :: 0 <= i < |packets| ==> packets[i].samples.Some?
    requires Remembers(s, context, packets, cutOffs) && s.metadataValid && SameButSamples(s, after)
    requires after.samples != [] ==> Normalised(after.windowBegin)
    ensures Remembers(after, context, packets, cutOffs)
  {
    hide Skipped, Breaks, Normalised;
  }

  /** What a data packet leaves, and what its windows carry. */
  lemma DataRemembers(config: Config, listener: nat, s: StreamState, m: Metrics, data: Data,
                      context: Option<Setting>, packets: seq<Data>, cutOffs: nat)
    requires config.Valid() && 1 <= listener <= 4 && StreamOk(config, s) && s.metadataValid
    requires SamplesOk(config, data) && SdrEnvelope(data)
    requires forall i :: 0 <= i < |packets| ==> packets[i].samples.Some?
    requires Remembers(s, context, packets, cutOffs)
    ensures
      var (after, counters, windows, output) := DataStep(config, listener, s, m, data);
      && Remembers(after, context, packets + [data], cutOffs)
      && (forall k :: 0 <= k < |windows| ==> Carries(windows[k], after))
      && NumberedFrom(windows, s.sequence) && after.sequence == (s.sequence + |windows|) % 0x1_0000_0000
  {
    hide Remembers, PushAll, Sent, Tallied, SampleOk, WindowOk, Carries, Skipped, Breaks, Items, Readable;
    MissingPairsBounded(config, s, data);
    var counted := Counted(s, data);
    CountedRemembers(s, data, context, packets, cutOffs);
    BeginKnown(s, context, packets, cutOffs);
    if MissingBegin(s, data).Some? {
      ItemsNormalised(s, data);
      PushAllCarries(config, counted, Items(s, data));
      PushAllNumbered(config, counted, Items(s, data));
      var (after, windows) := PushAll(config, counted, Items(s, data));
      StillRemembers(counted, after, context, packets + [data], cutOffs);
      CarriedBack(counted, after, windows);
    }
  }

  lemma BeginKnown(s: StreamState, context: Option<Setting>, packets: seq<Data>, cutOffs: nat)
    requires forall i :: 0 <= i < |packets| ==> packets[i].samples.Some?
    requires Remembers(s, context, packets, cutOffs)
    ensures s.samples != [] ==> Normalised(s.windowBegin)
  {}

  lemma CarriedBack(s: StreamState, after: StreamState, windows: seq<Window>)
    requires SameButSamples(s, after)
    ensures forall k :: 0 <= k < |windows| && Carries(windows[k], s) ==> Carries(windows[k], after)
  {}

  /** A context is remembered; unless it changes center or rate, the samples stay. */
  lemma ContextRemembers(s: StreamState, setting: Setting, context: Option<Setting>, packets: seq<Data>, cutOffs: nat)
    requires forall i :: 0 <= i < |packets| ==> packets[i].samples.Some?
    requires Remembers(s, context, packets, cutOffs)
    ensures
      var after := WithSettings(s, setting.center, setting.rate, setting.epoch);
      var cuts := context.Some? && (context.value.center != setting.center || context.value.rate != setting.rate) && s.samples != [];
      && Remembers(after, Some(setting), packets, cutOffs + (if cuts then 1 else 0))
      && after.samples == (if cuts then [] else s.samples) && after.missing == (if cuts then [] else s.missing)
      && after.sequence == s.sequence
  {
    hide Skipped, Breaks, Normalised;
  }

  lemma ContextConsumed(config: Config, core: Core, listener: nat, input: Input)
    requires config.Valid() && CoreOk(config, core) && 1 <= listener <= 4 && TakesContext(config, listener, input)
    ensures
      var (step, setting) := (Consumed(config, core, listener, input.datagram), SettingOf(config, listener, input));
      && step.core.streams
         == core.streams[listener - 1 := WithSettings(core.streams[listener - 1], setting.center, setting.rate, setting.epoch)]
      && step.windows == [] && step.output == []
  {
    hide DataStep, SdrEnvelope, WithSettings, AcceptedSettings, StreamOk;
  }

  lemma WaitingConsumed(config: Config, core: Core, listener: nat, input: Input)
    requires config.Valid() && CoreOk(config, core) && 1 <= listener <= 4 && TakesData(config, listener, input)
    requires !core.streams[listener - 1].metadataValid
    ensures
      var step := Consumed(config, core, listener, input.datagram);
      step.core.streams == core.streams && step.windows == [] && step.output == []
  {
    hide DataStep, SdrEnvelope, AcceptedSettings, StreamOk;
  }

  /** One datagram on the listener: what the stream remembers, and what its windows carry. */
  lemma StepRemembers(config: Config, core: Core, listener: nat, input: Input,
                      context: Option<Setting>, packets: seq<Data>, cutOffs: nat)
    requires config.Valid() && CoreOk(config, core) && 1 <= listener <= 4 && input.listener == listener
    requires forall i :: 0 <= i < |packets| ==> packets[i].samples.Some?
    requires Remembers(core.streams[listener - 1], context, packets, cutOffs)
    ensures
      var (s, step) := (core.streams[listener - 1], Consumed(config, core, listener, input.datagram));
      && |step.core.streams| == 4
      && var after := step.core.streams[listener - 1];
      && Remembers(after, NextContext(config, listener, context, input),
                   packets + NextPacket(config, listener, context, input),
                   cutOffs + (if CutsOff(config, listener, context, s.samples != [], input) then 1 else 0))
      && (forall k :: 0 <= k < |step.windows| ==> Carries(step.windows[k], after))
      && NumberedFrom(step.windows, s.sequence) && after.sequence == (s.sequence + |step.windows|) % 0x1_0000_0000
  {
    hide Remembers, Consumed, DataStep, Carries, Refused, WithSettings, StreamOk, SampleOk, SettingOf, Normalised;
    var s := core.streams[listener - 1];
    Metadata(s, context, packets, cutOffs);
    Kinds(config, listener, input);
    assert packets + [] == packets;
    if TakesContext(config, listener, input) {
      ContextConsumed(config, core, listener, input);
      ContextRemembers(s, SettingOf(config, listener, input), context, packets, cutOffs);
    } else if !TakesData(config, listener, input) {
      RefusedKeeps(config, core, listener, input.datagram);
    } else if context.Some? {
      TakenEnvelope(config, listener, input);
      DataConsumed(config, core, listener, input.datagram, core.metrics);
      DataRemembers(config, listener, s, core.metrics, input.datagram.envelope.value.body.data, context, packets, cutOffs);
    } else {
      WaitingConsumed(config, core, listener, input);
    }
  }

  lemma Metadata(s: StreamState, context: Option<Setting>, packets: seq<Data>, cutOffs: nat)
    requires forall i :: 0 <= i < |packets| ==> packets[i].samples.Some?
    requires Remembers(s, context, packets, cutOffs)
    ensures s.metadataValid <==> context.Some?
  {}

  lemma Kinds(config: Config, listener: nat, input: Input)
    requires input.listener == listener
    ensures TakesContext(config, listener, input) || TakesData(config, listener, input) || Refused(config, listener, input.datagram)
    ensures !(TakesContext(config, listener, input) && TakesData(config, listener, input))
  {}

  lemma TakenEnvelope(config: Config, listener: nat, input: Input)
    requires TakesData(config, listener, input)
    ensures !Refused(config, listener, input.datagram)
    ensures input.datagram.envelope.Some? && input.datagram.envelope.value.body.DataBody?
    ensures SdrEnvelope(input.datagram.envelope.value.body.data) && SamplesOk(config, input.datagram.envelope.value.body.data)
  {}

  // ----- Every run -----

  /** After every run a stream knows the last context that was accepted, the count and the
      size of the last packet, the packets its counts skipped, and the breaks: a skip between
      two packets, or a context that changed center or rate while samples were waiting. Its
      next window has the number of the windows before it, modulo 2^32. */
  lemma {:induction false} RunRemembers(config: Config, listener: nat, inputs: seq<Input>)
    requires config.Valid() && 1 <= listener <= 4
    ensures
      var s := StreamAfter(config, listener, inputs);
      && Remembers(s, LastContext(config, listener, inputs), Taken(config, listener, inputs), CutOffs(config, listener, inputs))
      && s.sequence == Run(config, inputs).completed[listener - 1] % 0x1_0000_0000
  {
    hide *;
    if inputs == [] {
      NothingTold(config, listener);
    } else {
      var (before, last) := (inputs[..|inputs| - 1], inputs[|inputs| - 1]);
      RunRemembers(config, listener, before);
      Unfolds(config, listener, inputs);
      var h := Run(config, before);
      var (s, context) := (h.core.streams[listener - 1], LastContext(config, listener, before));
      if last.listener == listener {
        StepRemembers(config, h.core, listener, last, context, Taken(config, listener, before), CutOffs(config, listener, before));
        AfterIs(config, h, last);
        SequenceOn(h.completed[listener - 1], |Consumed(config, h.core, listener, last.datagram).windows|);
      } else {
        OtherStream(config, h, last, listener - 1);
        NothingNext(config, listener, context, s.samples != [], last);
        assert Taken(config, listener, before) + [] == Taken(config, listener, before);
      }
    }
  }

  lemma SequenceOn(a: nat, b: nat)
    ensures (a % 0x1_0000_0000 + b) % 0x1_0000_0000 == (a + b) % 0x1_0000_0000
  {}

  lemma NothingTold(config: Config, listener: nat)
    requires config.Valid() && 1 <= listener <= 4
    ensures
      var s := StreamAfter(config, listener, []);
      && Remembers(s, LastContext(config, listener, []), Taken(config, listener, []), CutOffs(config, listener, []))
      && s.sequence == Run(config, []).completed[listener - 1] % 0x1_0000_0000
  {
    RunUnfolds(config, []);
  }

  lemma Unfolds(config: Config, listener: nat, inputs: seq<Input>)
    requires config.Valid() && 1 <= listener <= 4 && inputs != []
    ensures
      var (before, last) := (inputs[..|inputs| - 1], inputs[|inputs| - 1]);
      var (h, context) := (Run(config, before), LastContext(config, listener, before));
      && HistoryOk(config, h) && CoreOk(config, h.core) && |h.core.streams| == 4 && |h.completed| == 4
      && Run(config, inputs) == After(config, h, last) && HistoryOk(config, Run(config, inputs))
      && |Run(config, inputs).core.streams| == 4 && |Run(config, inputs).completed| == 4
      && StreamAfter(config, listener, before) == h.core.streams[listener - 1]
      && StreamAfter(config, listener, inputs) == Run(config, inputs).core.streams[listener - 1]
      && LastContext(config, listener, inputs) == NextContext(config, listener, context, last)
      && Taken(config, listener, inputs) == Taken(config, listener, before) + NextPacket(config, listener, context, last)
      && CutOffs(config, listener, inputs)
         == CutOffs(config, listener, before)
            + (if CutsOff(config, listener, context, h.core.streams[listener - 1].samples != [], last) then 1 else 0)
  {
    hide Run, After, NextContext, NextPacket, CutsOff, StreamOk, Config.Valid;
    RunUnfolds(config, inputs);
  }

  lemma AfterIs(config: Config, h: History, input: Input)
    requires HistoryOk(config, h) && 1 <= input.listener <= 4
    ensures
      var (step, after) := (Consumed(config, h.core, input.listener, input.datagram), After(config, h, input));
      && after.core == step.core && |after.completed| == 4
      && after.completed[input.listener - 1] == h.completed[input.listener - 1] + |step.windows|
  {
    hide Consumed, CoreOk;
  }

  lemma NothingNext(config: Config, listener: nat, context: Option<Setting>, waiting: bool, input: Input)
    requires input.listener != listener
    ensures NextContext(config, listener, context, input) == context && NextPacket(config, listener, context, input) == []
    ensures !CutsOff(config, listener, context, waiting, input)
  {}
}
