/** DetectorCore: decodes datagrams, watches sequence numbers, and classifies. */
module Detector {
  import opened SpectrumTypes
  import opened SpectrumCodec
  import opened ToneDetection

  datatype DetectorConfig = DetectorConfig(fftSize: nat, receiveBytes: nat)

  datatype Validity = Good | Gapped | Zero

  datatype Detection = Detection(streamId: u32, time: ProtocolTime, frequency: Option<real>, validity: Validity)

  datatype DetectorMetrics = DetectorMetrics(datagrams: nat, detections: nat, malformed: nat, sequenceGaps: nat,
                                             gapped: nat, zero: nat, unavailable: nat)

  datatype DetectorState = DetectorState(sequences: seq<Option<u32>>, seen: seq<bool>, metrics: DetectorMetrics)

  /** Before the first datagram. */
  const IDLE := DetectorState([None, None, None, None], [false, false, false, false], DetectorMetrics(0, 0, 0, 0, 0, 0, 0))

  predicate AnyGap(gaps: seq<bv8>) {
    exists j :: 0 <= j < |gaps| && gaps[j] != 0
  }

  function Verdict(s: Spectrum): Validity
    requires s.Valid()
  {
    if AnyGap(s.gaps) then Gapped else if FrequencyOf(s).None? then Zero else Good
  }

  function Tally(m: DetectorMetrics, verdict: Validity): DetectorMetrics {
    match verdict
    case Gapped => m.(gapped := m.gapped + 1)
    case Zero => m.(zero := m.zero + 1)
    case Good => m.(detections := m.detections + 1)
  }

  /** What an accepted spectrum does. */
  function Observed(state: DetectorState, s: Spectrum): (r: (DetectorState, Option<Detection>))
    requires s.Valid() && |state.sequences| == |state.seen| == 4
  {
    var k := s.streamId - 1;
    var gap := state.sequences[k].Some? && s.sequence != NextSequence(state.sequences[k].value);
    var m := state.metrics.(sequenceGaps := state.metrics.sequenceGaps + if gap then 1 else 0);
    (DetectorState(state.sequences[k := Some(s.sequence)], state.seen[k := true], Tally(m, Verdict(s))),
     Some(Detection(s.streamId, s.begin, FrequencyOf(s), Verdict(s))))
  }

  /** One datagram. */
  function Detect(config: DetectorConfig, state: DetectorState, wire: seq<byte>): (r: (DetectorState, Option<Detection>))
    requires |state.sequences| == |state.seen| == 4
    ensures |r.0.sequences| == |r.0.seen| == 4
  {
    var counted := state.(metrics := state.metrics.(datagrams := state.metrics.datagrams + 1));
    var rejected := counted.(metrics := counted.metrics.(malformed := counted.metrics.malformed + 1));
    if |wire| > config.receiveBytes then (rejected, None)
    else
      var s := Decoded(wire);
      if s.None? || s.value.fftSize != config.fftSize then (rejected, None)
      else DecodedValid(wire); Observed(counted, s.value)
  }

  lemma DetectIs(config: DetectorConfig, state: DetectorState, wire: seq<byte>, s: Spectrum)
    requires |state.sequences| == |state.seen| == 4 && Decoded(wire) == Some(s)
    requires |wire| <= config.receiveBytes && s.fftSize == config.fftSize
    ensures s.Valid()
    ensures
      Detect(config, state, wire) == Observed(state.(metrics := state.metrics.(datagrams := state.metrics.datagrams + 1)), s)
  {
    hide Decoded, Observed, Spectrum.Valid;
    DecodedValid(wire);
  }

  lemma DecodedValid(wire: seq<byte>)
    requires Decoded(wire).Some?
    ensures Decoded(wire).value.Valid()
  {
    hide Framed, Parsed, Spectrum.Valid;
  }

  class DetectorCore {
    const config: DetectorConfig
    var sequences: seq<Option<u32>>
    var seen: seq<bool>
    var metrics: DetectorMetrics

    predicate Valid()
      reads this
    {
      |sequences| == |seen| == 4
    }

    constructor (config: DetectorConfig)
      ensures Valid() && this.config == config
      ensures DetectorState(sequences, seen, metrics) == IDLE
    {
      this.config := config;
      sequences := [None, None, None, None];
      seen := [false, false, false, false];
      metrics := DetectorMetrics(0, 0, 0, 0, 0, 0, 0);
    }

    method Consume(wire: seq<byte>) returns (r: Option<Detection>)
      requires Valid()
      modifies this
      ensures Valid()
      ensures (DetectorState(sequences, seen, metrics), r)
           == Detect(config, DetectorState(old(sequences), old(seen), old(metrics)), wire)
    {
      hide Spectrum.Valid, FrequencyOf, Decoded;
      metrics := metrics.(datagrams := metrics.datagrams + 1);
      if |wire| > config.receiveBytes {
        metrics := metrics.(malformed := metrics.malformed + 1);
        return None;
      }
      var decoded := DecodeSpectrum(wire);
      if decoded.None? || decoded.value.fftSize != config.fftSize {
        metrics := metrics.(malformed := metrics.malformed + 1);
        return None;
      }
      DecodedValid(wire);
      var spectrum := decoded.value;
      StreamIdInRange(spectrum);
      var k := spectrum.streamId - 1;
      if sequences[k].Some? {
        var expected := NextSequence(sequences[k].value);
        if spectrum.sequence != expected {
          metrics := metrics.(sequenceGaps := metrics.sequenceGaps + 1);
        }
      }
      sequences := sequences[k := Some(spectrum.sequence)];
      seen := seen[k := true];
      var frequency := DetectFrequency(spectrum);
      var gapped := HasGap(spectrum.gaps);
      var validity := Good;
      if gapped {
        validity := Gapped;
        metrics := metrics.(gapped := metrics.gapped + 1);
      } else if frequency.value.None? {
        validity := Zero;
        metrics := metrics.(zero := metrics.zero + 1);
      } else {
        metrics := metrics.(detections := metrics.detections + 1);
      }
      r := Some(Detection(spectrum.streamId, spectrum.begin, frequency.value, validity));
    }

    /** finish: every stream never seen counts as unavailable. */
    method Finish()
      requires Valid()
      modifies `metrics
      ensures metrics == old(metrics).(unavailable := old(metrics.unavailable) + Unseen(seen, 4))
    {
      var count := 0;
      for k := 0 to 4
        invariant count == Unseen(seen, k) && seen == old(seen) && metrics == old(metrics)
      {
        count := count + if seen[k] then 0 else 1;
      }
      metrics := metrics.(unavailable := metrics.unavailable + count);
    }
  }

  function Unseen(seen: seq<bool>, n: nat): nat
    requires n <= |seen|
  {
    if n == 0 then 0 else Unseen(seen, n - 1) + if seen[n - 1] then 0 else 1
  }

  lemma StreamIdInRange(s: Spectrum)
    requires s.Valid()
    ensures 1 <= s.streamId <= 4
  {}

  method HasGap(gaps: seq<bv8>) returns (r: bool)
    ensures r <==> AnyGap(gaps)
  {
    var index := 0;
    while index < |gaps|
      invariant 0 <= index <= |gaps|
      invariant forall j :: 0 <= j < index ==> gaps[j] == 0
    {
      if gaps[index] != 0 {
        return true;
      }
      index := index + 1;
    }
    r := false;
  }
}
