/** What the detector answers, said of the samples marked and the powers received. */
module DetectorVerdicts {
  import opened SpectrumTypes
  import opened GapBitmap
  import opened SpectrumCodec
  import opened ToneDetection
  import opened Detector
  import opened DetectorRuns

  /** No sample of the spectrum is marked as missing. */
  predicate Whole(s: Spectrum) {
    forall i: nat :: i < 8 * |s.gaps| ==> !Marked(s.gaps, i)
  }

  /** Some power is not zero. */
  predicate Sounds(s: Spectrum) {
    exists i: nat :: i < |s.power| && ValidPower(s.power[i]) && Magnitude(s.power[i]) != 0
  }

  // The three classes of spectra.

  predicate IsTonal(s: Spectrum) {
    Whole(s) && Sounds(s)
  }

  predicate IsSilent(s: Spectrum) {
    Whole(s) && !Sounds(s)
  }

  predicate IsGapped(s: Spectrum) {
    !Whole(s)
  }

  // ----- One spectrum -----

  /** The answer to a spectrum: its class, its stream and time, and for a whole one that is
      not silent the frequency of its first strongest bin. */
  ghost predicate Answers(report: Option<Detection>, s: Spectrum) {
    && report.Some? && s.fftSize > 0
    && var d := report.value;
    && d.streamId == s.streamId && d.time == s.begin
    && (d.validity.Good? <==> IsTonal(s)) && (d.validity.Zero? <==> IsSilent(s)) && (d.validity.Gapped? <==> IsGapped(s))
    && (d.frequency.Some? <==> IsTonal(s))
    && (forall k: nat :: IsPeak(s.power, k) && IsTonal(s) ==>
          d.frequency == Some(BinFrequency(s.center, s.sampleRate, s.fftSize, k)))
  }

  /** Which counter a spectrum moves. */
  predicate Counted(m: DetectorMetrics, n: DetectorMetrics, s: Spectrum) {
    && n.detections == m.detections + (if IsTonal(s) then 1 else 0)
    && n.zero == m.zero + (if IsSilent(s) then 1 else 0)
    && n.gapped == m.gapped + (if IsGapped(s) then 1 else 0)
  }

  lemma WholeMeans(s: Spectrum)
    requires s.Valid()
    ensures s.fftSize == 8 * |s.gaps| == |s.power| && s.fftSize > 0
    ensures Whole(s) <==> !AnyGap(s.gaps)
    ensures Whole(s) <==> forall i: nat :: i < s.fftSize ==> !Marked(s.gaps, i)
  {
    FftSizeMultiple(s.fftSize);
    ZeroBytes(s.gaps);
    CountZero(s.gaps, 8 * |s.gaps|);
    hide Marked, CountMarked, ValidPower, ValidFftSize;
  }

  lemma FrequencyIs(s: Spectrum)
    requires s.Valid()
    ensures FrequencyOf(s).Some? <==> IsTonal(s)
    ensures forall k: nat :: IsPeak(s.power, k) && IsTonal(s) ==>
      FrequencyOf(s) == Some(BinFrequency(s.center, s.sampleRate, s.fftSize, k))
  {
    WholeMeans(s);
    PowersValid(s);
    PeakOf(s);
    hide IsPeak, Marked, FrequencyOf, ValidPower, Magnitude, BinFrequency, Spectrum.Valid;
    forall k: nat | IsPeak(s.power, k)
      ensures FrequencyOf(s).Some? <==> IsTonal(s)
      ensures IsTonal(s) ==> FrequencyOf(s) == Some(BinFrequency(s.center, s.sampleRate, s.fftSize, k))
    {
      FrequencyMeaning(s, k);
    }
  }

  lemma ObservedAnswers(state: DetectorState, s: Spectrum)
    requires s.Valid() && |state.sequences| == |state.seen| == 4
    ensures Answers(Observed(state, s).1, s) && Counted(state.metrics, Observed(state, s).0.metrics, s)
  {
    WholeMeans(s);
    FrequencyIs(s);
    StreamIdInRange(s);
    hide Whole, Sounds, FrequencyOf, BinFrequency, IsPeak, Spectrum.Valid, AnyGap, NextSequence;
  }

  /** An accepted datagram is answered as valid exactly when no sample of its spectrum is
      marked and some power is not zero, as zero exactly when none is marked and all powers
      are zero, and as gapped otherwise; a rejected one is not answered. */
  lemma DatagramAnswered(config: DetectorConfig, state: DetectorState, wire: seq<byte>)
    requires |state.sequences| == |state.seen| == 4
    ensures
      var (after, report) := Detect(config, state, wire);
      if Rejects(config, wire) then
        report.None? && after == state.(metrics := after.metrics) && Same(state.metrics, after.metrics)
      else Answers(report, Decoded(wire).value) && Counted(state.metrics, after.metrics, Decoded(wire).value)
  {
    if !Rejects(config, wire) {
      var s := Decoded(wire).value;
      hide *;
      Accepts(config, wire);
      DetectIs(config, state, wire, s);
      var counted := state.(metrics := state.metrics.(datagrams := state.metrics.datagrams + 1));
      ObservedAnswers(counted, s);
      OnlyDatagrams(state, Observed(counted, s).0.metrics, s);
    }
    hide Decoded, Observed, Answers, Counted, Spectrum.Valid;
  }

  predicate Same(m: DetectorMetrics, n: DetectorMetrics) {
    n.detections == m.detections && n.zero == m.zero && n.gapped == m.gapped && n.malformed == m.malformed + 1
  }

  lemma Accepts(config: DetectorConfig, wire: seq<byte>)
    requires !Rejects(config, wire)
    ensures Decoded(wire).Some? && |wire| <= config.receiveBytes && Decoded(wire).value.fftSize == config.fftSize
  {
    hide Decoded;
  }

  lemma OnlyDatagrams(state: DetectorState, n: DetectorMetrics, s: Spectrum)
    requires Counted(state.metrics.(datagrams := state.metrics.datagrams + 1), n, s)
    ensures Counted(state.metrics, n, s)
  {
    hide IsTonal, IsSilent, IsGapped;
  }

  // ----- Every run -----

  ghost function Count(spectra: seq<Spectrum>, class_: Spectrum -> bool): nat {
    if spectra == [] then 0
    else Count(spectra[..|spectra| - 1], class_) + (if class_(spectra[|spectra| - 1]) then 1 else 0)
  }

  lemma CountMore(spectra: seq<Spectrum>, s: Spectrum, class_: Spectrum -> bool)
    ensures Count(spectra + [s], class_) == Count(spectra, class_) + (if class_(s) then 1 else 0)
  {
    assert (spectra + [s])[..|spectra|] == spectra;
  }

  /** Over every run, the detections, zero and gapped answers are the accepted spectra of each class. */
  lemma {:induction false} ClassesCounted(config: DetectorConfig, wires: seq<seq<byte>>)
    ensures
      var (m, spectra) := (Run(config, wires).metrics, Accepted(config, wires));
      && m.detections == Count(spectra, IsTonal) && m.zero == Count(spectra, IsSilent)
      && m.gapped == Count(spectra, IsGapped)
  {
    if wires != [] {
      var (before, last) := (wires[..|wires| - 1], wires[|wires| - 1]);
      ClassesCounted(config, before);
      RunUnfolds(config, wires);
      DatagramAnswered(config, Run(config, before), last);
      if !Rejects(config, last) {
        var s := Decoded(last).value;
        CountMore(Accepted(config, before), s, IsTonal);
        CountMore(Accepted(config, before), s, IsSilent);
        CountMore(Accepted(config, before), s, IsGapped);
      }
      assert Run(config, wires) == Detect(config, Run(config, before), last).0;
      hide Detect, Decoded, Observed, Rejects, Answers, IsTonal, IsSilent, IsGapped, Accepted, Run, Count;
    }
  }
}
