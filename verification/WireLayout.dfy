/** Where each field of a spectrum stands in its datagram. */
module WireLayout {
  import opened SpectrumTypes
  import opened GapBitmap
  import opened SpectrumCodec
  import opened CodecRoundTrip
  import B = BigEndian

  /** The number in these bytes, the most significant first. */
  function At(wire: seq<byte>, offset: nat, count: nat): nat
    requires offset + count <= |wire|
  {
    B.Value(wire[offset..offset + count])
  }

  /** The 128 bytes of the header, then the bitmap, then the powers. */
  predicate LaidOut(wire: seq<byte>, s: Spectrum) {
    && |wire| == 128 + |s.gaps| + 4 * |s.power| && |s.gaps| == s.fftSize / 8 && |s.power| == s.fftSize
    && At(wire, 0, 4) == 0x53445231 && At(wire, 4, 2) == 1 && At(wire, 6, 2) == 128 && At(wire, 8, 4) == |wire|
    && At(wire, 12, 4) == s.streamId && At(wire, 16, 4) == s.sequence
    && At(wire, 20, 4) == s.fftSize && At(wire, 24, 4) == s.hop && At(wire, 28, 4) == 0
    && At(wire, 32, 8) == s.center && At(wire, 40, 8) == s.sampleRate
    && At(wire, 48, 8) == s.begin.seconds && At(wire, 56, 8) == s.begin.picoseconds
    && At(wire, 64, 8) == s.end.seconds && At(wire, 72, 8) == s.end.picoseconds
    && s.fftSize <= 8 * |s.gaps|
    && At(wire, 84, 4) == CountMarked(s.gaps, s.fftSize) && At(wire, 80, 4) == s.fftSize - CountMarked(s.gaps, s.fftSize)
    && At(wire, 88, 8) == s.discontinuities
    && At(wire, 96, 8) == s.epoch.seconds && At(wire, 104, 8) == s.epoch.picoseconds
    && At(wire, 112, 8) == s.ordinal && At(wire, 120, 8) == s.sequenceGaps
    && (forall j :: 0 <= j < |s.gaps| ==> wire[128 + j] as bv8 == s.gaps[j])
    && (forall i: nat :: i < |s.power| ==> At(wire, 128 + |s.gaps| + 4 * i, 4) == s.power[i])
  }

  lemma FieldIs(b: seq<byte>, offset: nat, count: nat)
    requires offset + count <= |b|
    ensures Field(b, offset, count) == At(b, offset, count)
  {}

  lemma LongIs(b: seq<byte>, offset: nat)
    requires offset + 8 <= |b|
    ensures Field64(b, offset) == At(b, offset, 8)
  {}

  /** Every encoded spectrum is laid out like this. */
  lemma EncodedLaidOut(s: Spectrum)
    requires s.Valid()
    ensures LaidOut(Wire(s), s)
  {
    var wire := Wire(s);
    HeaderInPlace(s);
    PayloadInPlace(s);
    hide Wire, At, Spectrum.Valid, CountMarked;
  }

  lemma HeaderInPlace(s: Spectrum)
    requires s.Valid()
    ensures
      var wire := Wire(s);
      && 128 <= |wire| == At(wire, 8, 4) && s.fftSize <= 8 * |s.gaps|
      && At(wire, 0, 4) == 0x53445231 && At(wire, 4, 2) == 1 && At(wire, 6, 2) == 128
      && At(wire, 12, 4) == s.streamId && At(wire, 16, 4) == s.sequence
      && At(wire, 20, 4) == s.fftSize && At(wire, 24, 4) == s.hop && At(wire, 28, 4) == 0
      && At(wire, 32, 8) == s.center && At(wire, 40, 8) == s.sampleRate
      && At(wire, 48, 8) == s.begin.seconds && At(wire, 56, 8) == s.begin.picoseconds
      && At(wire, 64, 8) == s.end.seconds && At(wire, 72, 8) == s.end.picoseconds
      && At(wire, 84, 4) == CountMarked(s.gaps, s.fftSize) && At(wire, 80, 4) == s.fftSize - CountMarked(s.gaps, s.fftSize)
      && At(wire, 88, 8) == s.discontinuities
      && At(wire, 96, 8) == s.epoch.seconds && At(wire, 104, 8) == s.epoch.picoseconds
      && At(wire, 112, 8) == s.ordinal && At(wire, 120, 8) == s.sequenceGaps
  {
    assert MAGIC == 0x53445231 && VERSION == 1;
    MissingIs(s);
    hide *;
    var wire := Wire(s);
    WireFits(s);
    WireSizeOf(s);
    IdentityReadsBack(s);
    ShapeReadsBack(s);
    CountsReadBack(s);
    PairsReadBack(s);
    FieldIs(wire, 0, 4);
    FieldIs(wire, 4, 2);
    FieldIs(wire, 6, 2);
    FieldIs(wire, 8, 4);
    FieldIs(wire, 12, 4);
    FieldIs(wire, 16, 4);
    FieldIs(wire, 20, 4);
    FieldIs(wire, 24, 4);
    FieldIs(wire, 28, 4);
    FieldIs(wire, 80, 4);
    FieldIs(wire, 84, 4);
    LongIs(wire, 32);
    LongIs(wire, 40);
    LongIs(wire, 48);
    LongIs(wire, 56);
    LongIs(wire, 64);
    LongIs(wire, 72);
    LongIs(wire, 88);
    LongIs(wire, 96);
    LongIs(wire, 104);
    LongIs(wire, 112);
    LongIs(wire, 120);
  }

  lemma WireSizeOf(s: Spectrum)
    requires s.Valid()
    ensures |Wire(s)| == WireSize(s.fftSize)
  {
    hide Words, GapBytes, Missing;
  }

  lemma MissingIs(s: Spectrum)
    requires s.Valid()
    ensures s.fftSize <= 8 * |s.gaps| && Missing(s) == CountMarked(s.gaps, s.fftSize)
  {
    FftSizeMultiple(s.fftSize);
    hide CountMarked;
  }

  lemma PayloadInPlace(s: Spectrum)
    requires s.Valid()
    ensures
      var wire := Wire(s);
      && |wire| == 128 + |s.gaps| + 4 * |s.power| && |s.gaps| == s.fftSize / 8 && |s.power| == s.fftSize
      && (forall j :: 0 <= j < |s.gaps| ==> wire[128 + j] as bv8 == s.gaps[j])
      && (forall i: nat :: i < |s.power| ==> At(wire, 128 + |s.gaps| + 4 * i, 4) == s.power[i])
  {
    var (wire, offset) := (Wire(s), 128 + |s.gaps|);
    WireFits(s);
    WireSizeOf(s);
    PayloadReadsBack(s);
    hide Wire, Words, GapBytes, Spectrum.Valid, Field32, At, WireSize, ReadPower;
    forall j | 0 <= j < |s.gaps| ensures wire[128 + j] as bv8 == s.gaps[j] {
      assert ReadGaps(wire, |s.gaps|)[j] == wire[128 + j] as bv8;
    }
    forall i: nat | i < |s.power| ensures At(wire, offset + 4 * i, 4) == s.power[i] {
      ReadAt(wire, offset, |s.power|, i);
      NarrowField(wire, offset + 4 * i);
      FieldIs(wire, offset + 4 * i, 4);
    }
  }
}
