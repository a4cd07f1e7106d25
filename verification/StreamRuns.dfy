/** One sender's packets in the middle of everything else the processor receives. */
module StreamRuns {
  import opened ComplexNumbers
  import opened SampleTime
  import opened ProcessorSpec
  import opened Conservation
  import opened Reassembly
  import opened StreamRecovery
  import opened StreamTiming

  /** A datagram that consume turns away on this listener before it touches the stream. */
  predicate Refused(config: Config, listener: nat, d: Datagram) {
    || d.size > config.receiveBytes || d.envelope.None? || d.envelope.value.streamId != listener
    || (match d.envelope.value.body
        case ContextBody(context) => AcceptedSettings(config, context).None?
        case DataBody(data) => !SdrEnvelope(data) || !SamplesOk(config, data))
  }

  predicate TakesData(config: Config, listener: nat, input: Input) {
    input.listener == listener && !Refused(config, listener, input.datagram) && input.datagram.envelope.value.body.DataBody?
  }

  /** The data packets that are not turned away, in order. */
  function DataOf(config: Config, listener: nat, inputs: seq<Input>): seq<Data> {
    if inputs == [] then []
    else
      var (before, last) := (DataOf(config, listener, inputs[..|inputs| - 1]), inputs[|inputs| - 1]);
      if TakesData(config, listener, last) then before + [last.datagram.envelope.value.body.data] else before
  }

  /** No context is accepted on this listener. */
  predicate Steady(config: Config, listener: nat, inputs: seq<Input>) {
    forall k :: 0 <= k < |inputs| && inputs[k].listener == listener && !TakesData(config, listener, inputs[k]) ==>
      Refused(config, listener, inputs[k].datagram)
  }

  /** The sender's packets below n that arrived. */
  function Arrivals(sender: Sender, arrived: seq<bool>, n: nat): seq<Data>
    requires n <= |arrived| == |sender.packets| == |sender.times|
  {
    if n == 0 then []
    else if !arrived[n - 1] then Arrivals(sender, arrived, n - 1)
    else Arrivals(sender, arrived, n - 1) + [Packet(sender, n - 1)]
  }

  /** The stream of a listener after a run. */
  ghost function StreamAfter(config: Config, listener: nat, inputs: seq<Input>): StreamState
    requires config.Valid() && 1 <= listener <= 4
  {
    Run(config, inputs).core.streams[listener - 1]
  }

  /** The windows a listener's stream completes in `inputs`, which follow `before`. */
  ghost function WindowsOn(config: Config, listener: nat, before: seq<Input>, inputs: seq<Input>): seq<Window>
    requires config.Valid() && 1 <= listener <= 4
    decreases |inputs|
  {
    if inputs == [] then []
    else
      var (shorter, last) := (inputs[..|inputs| - 1], inputs[|inputs| - 1]);
      WindowsOn(config, listener, before, shorter)
      + if last.listener != listener then []
        else Consumed(config, Run(config, before + shorter).core, last.listener, last.datagram).windows
  }

  // ----- One datagram -----

  lemma RunStep(config: Config, before: seq<Input>, inputs: seq<Input>)
    requires config.Valid() && inputs != []
    ensures
      var (h, last) := (Run(config, before + inputs[..|inputs| - 1]), inputs[|inputs| - 1]);
      HistoryOk(config, h) && Run(config, before + inputs) == After(config, h, last)
  {
    hide *;
    var all := before + inputs;
    assert all[..|all| - 1] == before + inputs[..|inputs| - 1] && all[|all| - 1] == inputs[|inputs| - 1];
    RunUnfolds(config, all);
  }

  lemma RefusedKeeps(config: Config, core: Core, listener: nat, d: Datagram)
    requires config.Valid() && CoreOk(config, core) && 1 <= listener <= 4 && Refused(config, listener, d)
    ensures
      var step := Consumed(config, core, listener, d);
      step.core.streams == core.streams && step.windows == []
  {
    hide DataStep, AcceptedSettings, SdrEnvelope, StreamOk;
  }

  /** consume on an accepted data packet is the step on its stream. */
  lemma DataConsumed(config: Config, core: Core, listener: nat, d: Datagram, m: Metrics)
    requires config.Valid() && CoreOk(config, core) && 1 <= listener <= 4 && core.streams[listener - 1].metadataValid
    requires !Refused(config, listener, d) && d.envelope.value.body.DataBody?
    ensures SamplesOk(config, d.envelope.value.body.data) && StreamOk(config, core.streams[listener - 1])
    ensures
      var step := Consumed(config, core, listener, d);
      var (after, counters, windows, output) :=
        DataStep(config, listener, core.streams[listener - 1], m, d.envelope.value.body.data);
      step.core.streams == core.streams[listener - 1 := after] && step.windows == windows
  {
    MetricsApart(config, listener, core.streams[listener - 1], core.metrics.(datagrams := core.metrics.datagrams + 1), m,
                 d.envelope.value.body.data);
    hide DataStep, SdrEnvelope, StreamOk;
  }

  /** Stream and windows do not depend on the counters. */
  lemma MetricsApart(config: Config, listener: nat, s: StreamState, a: Metrics, b: Metrics, data: Data)
    requires config.Valid() && 1 <= listener <= 4 && StreamOk(config, s) && s.metadataValid && SamplesOk(config, data)
    ensures
      var (x, y) := (DataStep(config, listener, s, a, data), DataStep(config, listener, s, b, data));
      x.0 == y.0 && x.2 == y.2
  {
    MissingPairsBounded(config, s, data);
    if MissingBegin(s, data).Some? {
      ItemsOk(s, data);
      PushAllOk(config, Counted(s, data), Items(s, data));
    }
    hide PushAll, Items, Readable, Sent, Tallied, Gap, MissingBegin, StreamOk, SampleOk, WindowOk;
  }

  // ----- A run -----

  /** In a run whose data on this listener are the sender's packets, the stream and its
      windows are what the packets alone make of them, whatever else is received. */
  lemma {:induction false} RunHears(config: Config, listener: nat, sender: Sender, arrived: seq<bool>,
                                    before: seq<Input>, inputs: seq<Input>, n: nat)
    requires config.Valid() && 1 <= listener <= 4 && SenderOk(config, sender) && n <= |arrived| == |sender.packets|
    requires Steady(config, listener, inputs) && DataOf(config, listener, inputs) == Arrivals(sender, arrived, n)
    requires StreamAfter(config, listener, before).metadataValid
    ensures StreamOk(config, StreamAfter(config, listener, before))
    ensures
      var (s, m) := (StreamAfter(config, listener, before), Run(config, before).core.metrics);
      var (after, counters, windows) := Heard(config, listener, sender, arrived, s, m, n);
      StreamAfter(config, listener, before + inputs) == after && WindowsOn(config, listener, before, inputs) == windows
    decreases |inputs| + n
  {
    hide Run, Consumed, DataStep, Packet, TakesData, StreamOk, SampleOk, Norm, Power;
    StreamsOk(config, listener, before);
    var (s, m) := (StreamAfter(config, listener, before), Run(config, before).core.metrics);
    if n > 0 && !arrived[n - 1] {
      RunHears(config, listener, sender, arrived, before, inputs, n - 1);
    } else if inputs == [] {
      assert before + [] == before;
    } else {
      var (shorter, last) := (inputs[..|inputs| - 1], inputs[|inputs| - 1]);
      assert inputs[|inputs| - 1] == last;
      assert Steady(config, listener, shorter);
      if TakesData(config, listener, last) {
        assert n > 0;
        var packets := Arrivals(sender, arrived, n);
        assert packets[..|packets| - 1] == DataOf(config, listener, shorter);
        assert packets[..|packets| - 1] == Arrivals(sender, arrived, n - 1);
        RunHears(config, listener, sender, arrived, before, shorter, n - 1);
        TakenStep(config, listener, before, shorter, last, Heard(config, listener, sender, arrived, s, m, n - 1).1);
        assert inputs == shorter + [last];
        HeardUnfolds(config, listener, sender, arrived, s, m, n);
      } else {
        RunHears(config, listener, sender, arrived, before, shorter, n);
        QuietStep(config, listener, before, shorter, last);
        assert inputs == shorter + [last];
      }
    }
  }

  lemma StreamsOk(config: Config, listener: nat, inputs: seq<Input>)
    requires config.Valid() && 1 <= listener <= 4
    ensures StreamOk(config, StreamAfter(config, listener, inputs))
  {
    hide Run, StreamOk;
  }

  lemma TakenStep(config: Config, listener: nat, before: seq<Input>, shorter: seq<Input>, last: Input, m: Metrics)
    requires config.Valid() && 1 <= listener <= 4 && TakesData(config, listener, last)
    requires StreamAfter(config, listener, before + shorter).metadataValid
    ensures SamplesOk(config, last.datagram.envelope.value.body.data)
    ensures StreamOk(config, StreamAfter(config, listener, before + shorter))
    ensures
      var (after, counters, windows, output) :=
        DataStep(config, listener, StreamAfter(config, listener, before + shorter), m, last.datagram.envelope.value.body.data);
      && StreamAfter(config, listener, before + (shorter + [last])) == after
      && WindowsOn(config, listener, before, shorter + [last]) == WindowsOn(config, listener, before, shorter) + windows
  {
    StreamsOk(config, listener, before + shorter);
    var all := shorter + [last];
    assert all[..|all| - 1] == shorter && all[|all| - 1] == last;
    RunStep(config, before, all);
    DataConsumed(config, Run(config, before + shorter).core, listener, last.datagram, m);
    hide Run, Consumed, DataStep, Refused, StreamOk;
  }

  lemma QuietStep(config: Config, listener: nat, before: seq<Input>, shorter: seq<Input>, last: Input)
    requires config.Valid() && 1 <= listener <= 4
    requires last.listener == listener ==> Refused(config, listener, last.datagram)
    ensures StreamAfter(config, listener, before + (shorter + [last])) == StreamAfter(config, listener, before + shorter)
    ensures WindowsOn(config, listener, before, shorter + [last]) == WindowsOn(config, listener, before, shorter)
  {
    hide Run, Consumed, Refused, StreamOk;
    var all := shorter + [last];
    assert all[..|all| - 1] == shorter && all[|all| - 1] == last;
    RunStep(config, before, all);
    var h := Run(config, before + shorter);
    if last.listener == listener {
      RefusedKeeps(config, h.core, listener, last.datagram);
    } else {
      OtherStream(config, h, last, listener - 1);
    }
  }

  // ----- What the run makes of the stream -----

  /** A fresh stream that knows its rate. */
  predicate Ready(s: StreamState) {
    s.metadataValid && s.rate > 0 && s.packetCount.None? && s.samples == []
  }

  /** In every run whose data on a listener are some of a sender's packets, in order, and
      whatever else it receives, the windows and the pending samples are the sender's stream
      from the first packet on with exactly the lost samples zeroed and flagged, cut in order
      and numbered truly, if and only if no 16 packets in a row are lost. */
  lemma StreamRebuilt(config: Config, listener: nat, sender: Sender, arrived: seq<bool>,
                      before: seq<Input>, inputs: seq<Input>, n: nat) returns (items: seq<Item>)
    requires config.Valid() && 1 <= listener <= 4 && SenderOk(config, sender) && 0 < n <= |arrived| == |sender.packets|
    requires Steady(config, listener, inputs) && DataOf(config, listener, inputs) == Arrivals(sender, arrived, n)
    requires Ready(StreamAfter(config, listener, before))
    requires arrived[0] && arrived[n - 1] && Dated(sender, arrived, StreamAfter(config, listener, before).rate, n)
    ensures Chunked(config, StreamAfter(config, listener, before).ordinal, items,
                    WindowsOn(config, listener, before, inputs), StreamAfter(config, listener, before + inputs))
    ensures Cells(items) == Masked(sender, arrived, n) <==> ShortLosses(arrived, n)
  {
    hide *;
    ReadyMeans(StreamAfter(config, listener, before));
    RunHears(config, listener, sender, arrived, before, inputs, n);
    items := StreamRecovered(config, listener, sender, arrived, StreamAfter(config, listener, before),
                             Run(config, before).core.metrics, n);
  }

  lemma ReadyMeans(s: StreamState)
    requires Ready(s)
    ensures s.metadataValid && s.rate > 0 && s.packetCount.None? && s.samples == []
  {}

  lemma RateInRange(config: Config, s: StreamState)
    requires StreamOk(config, s) && s.metadataValid
    ensures s.rate <= MAX_EXACT_RATE
  {}

  /** When packets carry the exact time of their first sample, a window that begins inside a
      packet that arrived carries the time of that packet, and one that begins among lost
      samples carries the true time to a picosecond. */
  lemma BeginsAnywhere(config: Config, listener: nat, sender: Sender, arrived: seq<bool>,
                       before: seq<Input>, inputs: seq<Input>, n: nat, epoch: nat, k: nat)
    requires config.Valid() && 1 <= listener <= 4 && SenderOk(config, sender)
    requires 0 < n <= |arrived| == |sender.packets| == |sender.times|
    requires Steady(config, listener, inputs) && DataOf(config, listener, inputs) == Arrivals(sender, arrived, n)
    requires Ready(StreamAfter(config, listener, before)) && arrived[0] && ShortLosses(arrived, n)
    requires Stamped(sender, epoch, StreamAfter(config, listener, before).rate)
    requires k < |WindowsOn(config, listener, before, inputs)|
    ensures sender.size > 0
    ensures
      var (s, window) := (StreamAfter(config, listener, before), WindowsOn(config, listener, before, inputs)[k]);
      && window.ordinal >= s.ordinal
      && (var position := window.ordinal - s.ordinal;
          var q := position / sender.size;
          && 0 <= q < n
          && (if arrived[q] then window.begin == sender.times[q] else Near(window.begin, epoch, position, s.rate)))
  {
    hide *;
    ReadyMeans(StreamAfter(config, listener, before));
    RunHears(config, listener, sender, arrived, before, inputs, n);
    RateInRange(config, StreamAfter(config, listener, before));
    BeginsWhere(config, listener, sender, arrived, StreamAfter(config, listener, before),
                Run(config, before).core.metrics, n, epoch, k);
  }

  /** When such packets divide the window, every window of the run begins within a picosecond of its true time. */
  lemma BeginsTrue(config: Config, listener: nat, sender: Sender, arrived: seq<bool>,
                   before: seq<Input>, inputs: seq<Input>, n: nat, epoch: nat, perWindow: nat, k: nat)
    requires config.Valid() && 1 <= listener <= 4 && SenderOk(config, sender) && 0 < n <= |arrived| == |sender.packets|
    requires Steady(config, listener, inputs) && DataOf(config, listener, inputs) == Arrivals(sender, arrived, n)
    requires Ready(StreamAfter(config, listener, before)) && arrived[0] && ShortLosses(arrived, n)
    requires |sender.times| == |sender.packets| && Stamped(sender, epoch, StreamAfter(config, listener, before).rate)
    requires config.Fft() == Span(sender, perWindow) && k < |WindowsOn(config, listener, before, inputs)|
    ensures
      var (s, window) := (StreamAfter(config, listener, before), WindowsOn(config, listener, before, inputs)[k]);
      window.ordinal >= s.ordinal && Near(window.begin, epoch, window.ordinal - s.ordinal, s.rate)
  {
    hide *;
    ReadyMeans(StreamAfter(config, listener, before));
    RunHears(config, listener, sender, arrived, before, inputs, n);
    RateInRange(config, StreamAfter(config, listener, before));
    BeginsAccurate(config, listener, sender, arrived, StreamAfter(config, listener, before),
                   Run(config, before).core.metrics, n, epoch, perWindow, k);
  }
}
