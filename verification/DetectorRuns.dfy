/** What every run of the detector counts. */
module DetectorRuns {
  import opened SpectrumTypes
  import opened SpectrumCodec
  import opened Detector

  /** The state after these datagrams. */
  function Run(config: DetectorConfig, wires: seq<seq<byte>>): (state: DetectorState)
    ensures |state.sequences| == |state.seen| == 4
  {
    if wires == [] then IDLE else Detect(config, Run(config, wires[..|wires| - 1]), wires[|wires| - 1]).0
  }

  /** Too long, not a spectrum, or of another size. */
  predicate Rejects(config: DetectorConfig, wire: seq<byte>) {
    |wire| > config.receiveBytes || Decoded(wire).None? || Decoded(wire).value.fftSize != config.fftSize
  }

  /** The spectra of all other datagrams. */
  function Accepted(config: DetectorConfig, wires: seq<seq<byte>>): seq<Spectrum> {
    if wires == [] then []
    else
      var (before, last) := (Accepted(config, wires[..|wires| - 1]), wires[|wires| - 1]);
      if Rejects(config, last) then before else before + [Decoded(last).value]
  }

  /** The number of the last spectrum of a stream. */
  function LastNumber(spectra: seq<Spectrum>, streamId: nat): Option<u32> {
    if spectra == [] then None
    else
      var last := spectra[|spectra| - 1];
      if last.streamId == streamId then Some(last.sequence) else LastNumber(spectra[..|spectra| - 1], streamId)
  }

  /** Spectra whose number does not follow the one before it on their stream. */
  function OutOfOrder(spectra: seq<Spectrum>): nat {
    if spectra == [] then 0
    else
      var (before, last) := (spectra[..|spectra| - 1], spectra[|spectra| - 1]);
      var previous := LastNumber(before, last.streamId);
      OutOfOrder(before) + (if previous.Some? && last.sequence != NextSequence(previous.value) then 1 else 0)
  }

  predicate StreamTallied(state: DetectorState, spectra: seq<Spectrum>, k: nat)
    requires k < |state.sequences| == |state.seen|
  {
    state.sequences[k] == LastNumber(spectra, k + 1) && (state.seen[k] <==> state.sequences[k].Some?)
  }

  /** Each datagram is counted once, as malformed, gapped, zero or a detection; sequence gaps
      are the spectra out of order on their stream; a stream is seen exactly when a spectrum
      of it was accepted. */
  predicate Tallied(state: DetectorState, datagrams: nat, spectra: seq<Spectrum>)
    requires |state.sequences| == |state.seen| == 4
  {
    && state.metrics.datagrams == datagrams == state.metrics.malformed + |spectra|
    && |spectra| == state.metrics.gapped + state.metrics.zero + state.metrics.detections
    && state.metrics.sequenceGaps == OutOfOrder(spectra)
    && (forall k: nat :: k < 4 ==> StreamTallied(state, spectra, k))
  }

  lemma OneMore(spectra: seq<Spectrum>, s: Spectrum)
    ensures forall k: nat ::
      LastNumber(spectra + [s], k) == if s.streamId == k then Some(s.sequence) else LastNumber(spectra, k)
    ensures
      var previous := LastNumber(spectra, s.streamId);
      OutOfOrder(spectra + [s])
      == OutOfOrder(spectra) + (if previous.Some? && s.sequence != NextSequence(previous.value) then 1 else 0)
  {
    var all := spectra + [s];
    assert all[..|all| - 1] == spectra && all[|all| - 1] == s;
  }

  lemma ObservedTallies(state: DetectorState, datagrams: nat, spectra: seq<Spectrum>, s: Spectrum)
    requires |state.sequences| == |state.seen| == 4 && Tallied(state, datagrams, spectra) && s.Valid()
    ensures
      var counted := state.(metrics := state.metrics.(datagrams := state.metrics.datagrams + 1));
      Tallied(Observed(counted, s).0, datagrams + 1, spectra + [s])
  {
    StreamIdInRange(s);
    OneMore(spectra, s);
    assert StreamTallied(state, spectra, s.streamId - 1);
    hide Verdict, Spectrum.Valid, OutOfOrder, LastNumber, NextSequence;
    var after := Observed(state.(metrics := state.metrics.(datagrams := state.metrics.datagrams + 1)), s).0;
    forall k: nat | k < 4 ensures StreamTallied(after, spectra + [s], k) {
      assert StreamTallied(state, spectra, k);
    }
  }

  lemma RejectedTallies(state: DetectorState, datagrams: nat, spectra: seq<Spectrum>)
    requires |state.sequences| == |state.seen| == 4 && Tallied(state, datagrams, spectra)
    ensures Tallied(Rejected(state), datagrams + 1, spectra)
  {
    hide OutOfOrder, LastNumber;
    forall k: nat | k < 4
      ensures state.sequences[k] == LastNumber(spectra, k + 1) && (state.seen[k] <==> state.sequences[k].Some?)
    {
      assert StreamTallied(state, spectra, k);
    }
  }

  function Rejected(state: DetectorState): (r: DetectorState)
    requires |state.sequences| == |state.seen| == 4
    ensures |r.sequences| == |r.seen| == 4
  {
    state.(metrics := state.metrics.(datagrams := state.metrics.datagrams + 1, malformed := state.metrics.malformed + 1))
  }

  lemma RunUnfolds(config: DetectorConfig, wires: seq<seq<byte>>)
    requires wires != []
    ensures
      var (before, last) := (wires[..|wires| - 1], wires[|wires| - 1]);
      var state := Run(config, before);
      if Rejects(config, last) then
        Run(config, wires) == Rejected(state) && Accepted(config, wires) == Accepted(config, before)
      else
        && Decoded(last).Some? && Decoded(last).value.Valid()
        && Run(config, wires)
           == Observed(state.(metrics := state.metrics.(datagrams := state.metrics.datagrams + 1)), Decoded(last).value).0
        && Accepted(config, wires) == Accepted(config, before) + [Decoded(last).value]
  {
    var last := wires[|wires| - 1];
    if Decoded(last).Some? {
      DecodedValid(last);
    }
    hide Decoded, Observed, Spectrum.Valid;
  }

  /** So it is over every run. */
  lemma {:induction false} DetectorConserves(config: DetectorConfig, wires: seq<seq<byte>>)
    ensures Tallied(Run(config, wires), |wires|, Accepted(config, wires))
  {
    if wires == [] {
      NothingTallied(config);
    } else {
      hide *;
      var (before, last) := (wires[..|wires| - 1], wires[|wires| - 1]);
      RunUnfolds(config, wires);
      DetectorConserves(config, before);
      if Rejects(config, last) {
        RejectedTallies(Run(config, before), |before|, Accepted(config, before));
      } else {
        ObservedTallies(Run(config, before), |before|, Accepted(config, before), Decoded(last).value);
      }
    }
  }

  lemma NothingTallied(config: DetectorConfig)
    ensures Tallied(Run(config, []), 0, Accepted(config, []))
  {}
}
