/** A tone, from the sender's samples through processor and detector to the report. */
module ToneReports {
  import opened ComplexNumbers
  import opened SpectrumTypes
  import opened GapBitmap
  import opened Fft
  import opened Parseval
  import opened SampleTime
  import opened SpectrumCodec
  import opened ToneDetection
  import opened ProcessorSpec
  import opened Conservation
  import opened Reassembly
  import opened StreamRecovery
  import opened StreamRuns
  import opened StreamHistory
  import opened SentSpectra
  import opened Detector
  import opened DetectorVerdicts
  import opened Pipeline
  import P = PowerSpectrum
  import R = DetectorRuns

  // ----- The detector's side -----

  /** What the detector reports on a datagram does not depend on what came before. */
  lemma {:induction false} ReportsApart(detector: DetectorConfig, state: DetectorState, wires: seq<seq<byte>>, k: nat)
    requires |state.sequences| == |state.seen| == 4 && k < |wires|
    ensures DetectAll(detector, state, wires).1[k] == Detect(detector, IDLE, wires[k]).1
  {
    hide Detect;
    var n := |wires| - 1;
    DetectAllUnfolds(detector, state, wires);
    if k < n {
      ReportsApart(detector, state, wires[..n], k);
    } else {
      ReportApart(detector, DetectAll(detector, state, wires[..n]).0, IDLE, wires[n]);
    }
  }

  lemma ReportApart(detector: DetectorConfig, a: DetectorState, b: DetectorState, wire: seq<byte>)
    requires |a.sequences| == |a.seen| == |b.sequences| == |b.seen| == 4
    ensures Detect(detector, a, wire).1 == Detect(detector, b, wire).1
  {
    hide Decoded, FrequencyOf, Verdict, Spectrum.Valid;
    if Decoded(wire).Some? {
      DecodedValid(wire);
    }
  }

  // ----- One window -----

  /** N samples of a tone on bin b, all of them there. */
  ghost predicate TonalWindow(config: Config, window: Window, a: Complex, b: nat) {
    && |window.samples| == |window.missing| == config.Fft() && b < config.Fft()
    && IsTone(window.samples, a, config.w, b)
    && forall j :: 0 <= j < |window.missing| ==> !window.missing[j]
  }

  predicate ReportsAt(report: Option<Detection>, listener: u32, window: Window, power: u32, frequency: real) {
    && ValidPower(power) && report.Some?
    && report.value == if Magnitude(power) == 0 then Detection(listener, window.begin, None, Zero)
                       else Detection(listener, window.begin, Some(frequency), Good)
  }

  /** The report on a tone: center plus signed bin times rate over N, at the time the window
      began; or silence, when the power of the tone converts to zero. */
  ghost predicate ReportsTone(report: Option<Detection>, config: Config, listener: u32, window: Window, a: Complex, b: nat) {
    config.Fft() > 0 && ReportsAt(report, listener, window, config.toFloat(Norm(a)),
                                  ToneFrequency(window.center, window.rate, config.Fft(), b))
  }

  lemma WindowReported(config: Config, detector: DetectorConfig, listener: u32, window: Window, wire: seq<byte>, a: Complex, b: nat)
    requires config.Valid() && Matching(config, detector) && config.toFloat(0.0) == 0
    requires Tells(config, listener, window, wire) && TonalWindow(config, window, a, b)
    ensures ReportsTone(Detect(detector, IDLE, wire).1, config, listener, window, a, b)
  {
    hide *;
    IdleShape();
    Accepted(config, detector, listener, window, wire);
    DatagramAnswered(detector, IDLE, wire);
    var s := Decoded(wire).value;
    TonePowersSent(config, listener, window, wire, a, b);
    Described(config, listener, window, wire);
    AnswerToTone(config, listener, window, s, a, b, Detect(detector, IDLE, wire).1);
  }

  lemma Described(config: Config, listener: u32, window: Window, wire: seq<byte>)
    requires Tells(config, listener, window, wire)
    ensures Decoded(wire).Some? && Describes(config, listener, window, Decoded(wire).value)
  {
    hide Decoded, Describes, Measures;
  }

  lemma IdleShape()
    ensures |IDLE.sequences| == |IDLE.seen| == 4
  {}

  lemma Accepted(config: Config, detector: DetectorConfig, listener: u32, window: Window, wire: seq<byte>)
    requires Matching(config, detector) && Tells(config, listener, window, wire)
    ensures Decoded(wire).Some? && Decoded(wire).value.Valid() && !R.Rejects(detector, wire)
  {
    DecodedValid(wire);
    SizeOf(wire);
    hide Decoded, Measures, Spectrum.Valid, ProcessingConfig.Valid, WireSize;
  }

  lemma SizeOf(wire: seq<byte>)
    requires Decoded(wire).Some?
    ensures |wire| == WireSize(Decoded(wire).value.fftSize)
  {
    hide Spectrum.Valid, WireSize, ReadGaps, ReadPower, Missing;
  }

  /** The power of the tone stands in its bin, and zero everywhere else. */
  lemma TonePowersSent(config: Config, listener: u32, window: Window, wire: seq<byte>, a: Complex, b: nat)
    requires config.Valid() && config.toFloat(0.0) == 0
    requires Tells(config, listener, window, wire) && TonalWindow(config, window, a, b)
    ensures
      var (n, s) := (config.Fft(), Decoded(wire).value);
      && n % 2 == 0 && b < n && |s.power| == n && Whole(s)
      && (forall i: nat :: i < n ==> s.power[i] == if i == P.Rotated(n, b) then config.toFloat(Norm(a)) else 0)
      && (ValidPower(config.toFloat(Norm(a))) && Magnitude(config.toFloat(Norm(a))) != 0 ==>
            forall k: nat :: IsPeak(s.power, k) <==> k == P.Rotated(n, b))
      && BinFrequency(s.center, s.sampleRate, n, P.Rotated(n, b)) == ToneFrequency(s.center, s.sampleRate, n, b)
  {
    var (n, s, x) := (config.Fft(), Decoded(wire).value, window.samples);
    FftSizeMultiple(n);
    var p := P.SizeIsPower(n);
    assert p > 0 && n / 2 == Pow2(p - 1) && Primitive(config.w, p);
    assert Present(window) == x;
    hide Power, Norm, Pow2, BinPower, P.Powers, P.Rotated, IsTone, Decoded, Describes, Marked, HasSingleBit, Primitive,
         ToneFrequency, BinFrequency, IsPeak, ValidPower, Magnitude;
    TonePowers(x, a, config.w, p, b, config.toFloat);
    forall i: nat | i < n ensures s.power[i] == P.Powers(x, config.w, config.toFloat)[i] {
      BinPowerIs(x, config.w, config.toFloat, i);
    }
    assert s.power == P.Powers(x, config.w, config.toFloat);
    forall k: nat
      ensures ValidPower(config.toFloat(Norm(a))) && Magnitude(config.toFloat(Norm(a))) != 0 ==>
        (IsPeak(s.power, k) <==> k == P.Rotated(n, b))
    {
      if ValidPower(config.toFloat(Norm(a))) && Magnitude(config.toFloat(Norm(a))) != 0 {
        ToneDetected(x, a, config.w, p, b, config.toFloat, s.center, s.sampleRate, k);
      }
    }
    PeakFrequency(s.center, s.sampleRate, n, n / 2, b);
  }

  lemma AnswerToTone(config: Config, listener: u32, window: Window, s: Spectrum, a: Complex, b: nat, report: Option<Detection>)
    requires Answers(report, s) && s.Valid() && Describes(config, listener, window, s)
    requires
      var n := config.Fft();
      && n % 2 == 0 && b < n && |s.power| == n && Whole(s)
      && (forall i: nat :: i < n ==> s.power[i] == if i == P.Rotated(n, b) then config.toFloat(Norm(a)) else 0)
      && (ValidPower(config.toFloat(Norm(a))) && Magnitude(config.toFloat(Norm(a))) != 0 ==>
            forall k: nat :: IsPeak(s.power, k) <==> k == P.Rotated(n, b))
      && BinFrequency(s.center, s.sampleRate, n, P.Rotated(n, b)) == ToneFrequency(s.center, s.sampleRate, n, b)
    ensures ReportsTone(report, config, listener, window, a, b)
  {
    hide Whole, IsPeak, Norm, BinFrequency, ToneFrequency, P.Rotated, SignedBin, Spectrum.Valid, Elapsed, Ticks;
    var (n, power, peak) := (config.Fft(), config.toFloat(Norm(a)), P.Rotated(config.Fft(), b));
    ZeroPower();
    PowersValid(s);
    assert s.power[peak] == power && ValidPower(power);
    if Magnitude(power) != 0 {
      assert Sounds(s);
      assert IsPeak(s.power, peak);
    } else {
      assert !Sounds(s);
    }
  }

  // ----- In a run -----

  /** From position p on, the sender's stream is N samples of a tone that all arrived. */
  ghost predicate SendsTone(config: Config, sender: Sender, arrived: seq<bool>, n: nat, p: nat, a: Complex, b: nat)
    requires n <= |arrived| == |sender.packets|
  {
    && b < config.Fft() && p + config.Fft() <= |Masked(sender, arrived, n)|
    && forall j :: 0 <= j < config.Fft() ==>
         Masked(sender, arrived, n)[p + j] == Cell(Times(a, Power(ToneStep(config.w, b), j)), false)
  }

  /** Where a window lies on the rebuilt stream. */
  lemma WindowIsTonal(config: Config, origin: nat, items: seq<Item>, windows: seq<Window>, s: StreamState, k: nat,
                      sender: Sender, arrived: seq<bool>, n: nat, a: Complex, b: nat)
    requires Chunked(config, origin, items, windows, s) && k < |windows|
    requires n <= |arrived| == |sender.packets| && Cells(items) == Masked(sender, arrived, n)
    requires windows[k].ordinal >= origin ==> SendsTone(config, sender, arrived, n, windows[k].ordinal - origin, a, b)
    ensures TonalWindow(config, windows[k], a, b)
  {
    hide Power, Times, ToneStep, Masked, Pending;
    var (window, p) := (windows[k], windows[k].ordinal - origin);
    assert Cut(config, window, items, p);
    forall j | 0 <= j < config.Fft()
      ensures window.samples[j] == Times(a, Power(ToneStep(config.w, b), j)) && !window.missing[j]
    {
      assert Cells(items)[p + j] == Cell(items[p + j].sample, items[p + j].missing);
    }
  }

  /** The windows of the last datagram are the last windows of the run. */
  lemma LastWindows(config: Config, listener: nat, before: seq<Input>, inputs: seq<Input>)
    requires config.Valid() && 1 <= listener <= 4 && inputs != [] && inputs[|inputs| - 1].listener == listener
    ensures
      var (h, last) := (Run(config, before + inputs[..|inputs| - 1]), inputs[|inputs| - 1]);
      && CoreOk(config, h.core)
      && var (windows, full) := (Consumed(config, h.core, listener, last.datagram).windows, WindowsOn(config, listener, before, inputs));
         |windows| <= |full| && full[|full| - |windows|..] == windows
  {
    hide Run, Consumed, CoreOk, Norm, Power;
    HistoryParts(config, Run(config, before + inputs[..|inputs| - 1]));
  }

  /** In every run whose data on a listener are some of a sender's packets, whatever else it
      receives: when the samples of a window are a tone on bin b and all arrived, the spectrum
      sent for it makes the detector report exactly the center of the last context plus the
      signed bin times its rate over N, at the time the window began; unless the power of the
      tone converts to zero, which is reported as silence. */
  lemma ToneHeard(config: Config, detector: DetectorConfig, listener: u32, sender: Sender, arrived: seq<bool>,
                  before: seq<Input>, inputs: seq<Input>, n: nat, state: DetectorState, k: nat, a: Complex, b: nat)
    requires config.Valid() && Matching(config, detector) && config.toFloat(0.0) == 0 && 1 <= listener <= 4
    requires SenderOk(config, sender) && 0 < n <= |arrived| == |sender.packets|
    requires Steady(config, listener, inputs) && DataOf(config, listener, inputs) == Arrivals(sender, arrived, n)
    requires Ready(StreamAfter(config, listener, before))
    requires arrived[0] && arrived[n - 1] && Dated(sender, arrived, StreamAfter(config, listener, before).rate, n)
    requires ShortLosses(arrived, n) && |state.sequences| == |state.seen| == 4
    requires inputs != [] && inputs[|inputs| - 1].listener == listener
    requires CoreOk(config, Run(config, before + inputs[..|inputs| - 1]).core)
    requires
      var step := Consumed(config, Run(config, before + inputs[..|inputs| - 1]).core, listener, inputs[|inputs| - 1].datagram);
      var origin := StreamAfter(config, listener, before).ordinal;
      && k < |step.output| && k < |step.windows|
      && (step.windows[k].ordinal >= origin ==>
            SendsTone(config, sender, arrived, n, step.windows[k].ordinal - origin, a, b))
    ensures
      var step := Consumed(config, Run(config, before + inputs[..|inputs| - 1]).core, listener, inputs[|inputs| - 1].datagram);
      var (window, report) := (step.windows[k], DetectAll(detector, state, step.output).1[k]);
      && ReportsTone(report, config, listener, window, a, b)
      && LastContext(config, listener, before + inputs[..|inputs| - 1]).Some?
      && LastContext(config, listener, before + inputs[..|inputs| - 1]).value == Setting(window.center, window.rate, window.epoch)
  {
    hide *;
    var (shorter, last) := (before + inputs[..|inputs| - 1], inputs[|inputs| - 1]);
    var step := Consumed(config, Run(config, shorter).core, listener, last.datagram);
    var full := WindowsOn(config, listener, before, inputs);
    var items := StreamRebuilt(config, listener, sender, arrived, before, inputs, n);
    LastWindows(config, listener, before, inputs);
    var i := |full| - |step.windows| + k;
    assert full[i] == step.windows[k];
    WindowIsTonal(config, StreamAfter(config, listener, before).ordinal, items, full,
                  StreamAfter(config, listener, before + inputs), i, sender, arrived, n, a, b);
    SpectraSent(config, shorter, last);
    StandsContext(config, shorter, last, step.windows[k], k);
    WindowReported(config, detector, listener, step.windows[k], step.output[k], a, b);
    ReportsApart(detector, state, step.output, k);
  }

  lemma StandsContext(config: Config, before: seq<Input>, input: Input, window: Window, k: nat)
    requires config.Valid() && 1 <= input.listener <= 4 && Stands(config, before, input, window, k)
    ensures LastContext(config, input.listener, before) == Some(Setting(window.center, window.rate, window.epoch))
  {
    hide Run, Taken, LastContext, CutOffs, Skipped, Breaks;
  }
}
