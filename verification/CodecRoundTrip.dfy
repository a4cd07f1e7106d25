/** The codec loses nothing: decoding an encoded spectrum gives it back, and an
    accepted datagram is the encoding of what it decodes to, except for the four
    bytes of the sample rate that the decoder drops. */
module CodecRoundTrip {
  import opened SpectrumTypes
  import opened BigEndian
  import opened SpectrumCodec
  import BitVectors

  // ----- decode(encode(s)) == s -----

  /** A field that holds the bytes of a value reads as the value. */
  lemma FieldOfBytes(a: seq<byte>, value: nat, count: nat, b: seq<byte>)
    requires value < Limit(count)
    ensures Field(a + Bytes(value, count) + b, |a|, count) == value
  {
    ValueOfBytes(value, count);
    assert (a + Bytes(value, count) + b)[|a|..|a| + count] == Bytes(value, count);
  }

  lemma Row0Fields(streamId: u32, size: nat)
    requires size < Limit(4)
    ensures
      var r := Row0(streamId, size);
      && Field(r, 0, 4) == MAGIC && Field(r, 4, 2) == VERSION && Field(r, 6, 2) == HEADER_BYTES
      && Field(r, 8, 4) == size && Field(r, 12, 4) == streamId
  {
    Limits();
    hide Bytes, Field, Limit;
    var m, v, h, z, i := Bytes(MAGIC, 4), Bytes(VERSION, 2), Bytes(HEADER_BYTES, 2), Bytes(size, 4), Bytes(streamId, 4);
    var r := Row0(streamId, size);
    assert Field(r, 0, 4) == MAGIC by {
      FieldOfBytes([], MAGIC, 4, v + h + z + i);
      assert r == [] + m + (v + h + z + i);
    }
    assert Field(r, 4, 2) == VERSION by {
      FieldOfBytes(m, VERSION, 2, h + z + i);
      assert r == m + v + (h + z + i);
    }
    assert Field(r, 6, 2) == HEADER_BYTES by {
      FieldOfBytes(m + v, HEADER_BYTES, 2, z + i);
      assert r == m + v + h + (z + i);
    }
    FieldOfBytes(m + v + h, size, 4, i);
    assert Field(r, 12, 4) == streamId by {
      FieldOfBytes(m + v + h + z, streamId, 4, []);
      assert r == m + v + h + z + i + [];
    }
  }

  lemma Row1Fields(sequence: u32, fftSize: u32, hop: u32)
    ensures
      var r := Row1(sequence, fftSize, hop);
      && Field(r, 0, 4) == sequence && Field(r, 4, 4) == fftSize && Field(r, 8, 4) == hop && Field(r, 12, 4) == 0
  {
    Limits();
    var s, f, h, z := Bytes(sequence, 4), Bytes(fftSize, 4), Bytes(hop, 4), Bytes(0, 4);
    hide Bytes, Field;
    FieldOfBytes([], sequence, 4, f + h + z);
    FieldOfBytes(s, fftSize, 4, h + z);
    FieldOfBytes(s + f, hop, 4, z);
    FieldOfBytes(s + f + h, 0, 4, []);
    FourParts(s, f, h, z);
  }

  lemma FourParts(s: seq<byte>, f: seq<byte>, h: seq<byte>, z: seq<byte>)
    ensures s + f + h + z == [] + s + (f + h + z)
    ensures s + f + h + z == s + f + (h + z)
    ensures s + f + h + z == s + f + h + z + []
  {}

  lemma PairFields(first: u64, second: u64)
    ensures
      var r := Bytes(first, 8) + Bytes(second, 8);
      Field(r, 0, 8) == first && Field(r, 8, 8) == second
  {
    Limits();
    var a, b := Bytes(first, 8), Bytes(second, 8);
    hide Bytes, Field;
    FieldOfBytes([], first, 8, b);
    FieldOfBytes(a, second, 8, []);
    assert a + b == [] + a + b && a + b == a + b + [];
  }

  lemma Row5Fields(present: nat, missing: nat, discontinuities: u64)
    requires present < Limit(4) && missing < Limit(4)
    ensures
      var r := Row5(present, missing, discontinuities);
      Field(r, 0, 4) == present && Field(r, 4, 4) == missing && Field(r, 8, 8) == discontinuities
  {
    Limits();
    var p, m, d := Bytes(present, 4), Bytes(missing, 4), Bytes(discontinuities, 8);
    hide Bytes, Field;
    var r := Row5(present, missing, discontinuities);
    FieldOfBytes([], present, 4, m + d);
    FieldOfBytes(p, missing, 4, d);
    FieldOfBytes(p + m, discontinuities, 8, []);
    assert r == [] + p + (m + d) && r == p + m + d && r == p + m + d + [];
  }

  /** Where each row lies in the datagram. */
  lemma RowsInPlace(rows: seq<seq<byte>>, rest: seq<byte>, k: nat, offset: nat, count: nat)
    requires |rows| == 8 && (forall i :: 0 <= i < 8 ==> |rows[i]| == 16) && k < 8 && offset + count <= 16
    ensures
      var wire := rows[0] + rows[1] + rows[2] + rows[3] + rows[4] + rows[5] + rows[6] + rows[7] + rest;
      Field(wire, 16 * k + offset, count) == Field(rows[k], offset, count)
  {
    var wire := rows[0] + rows[1] + rows[2] + rows[3] + rows[4] + rows[5] + rows[6] + rows[7] + rest;
    assert wire[16 * k..16 * k + 16] == rows[k];
    assert wire[16 * k + offset..16 * k + offset + count] == wire[16 * k..16 * k + 16][offset..offset + count];
  }

  lemma {:induction false} WordAt(power: seq<u32>, i: nat)
    requires i < |power|
    ensures Words(power)[4 * i..4 * i + 4] == Bytes(power[i], 4)
  {
    hide Bytes;
    var n := |power| - 1;
    if i < n {
      WordAt(power[..n], i);
      assert Words(power)[4 * i..4 * i + 4] == Words(power[..n])[4 * i..4 * i + 4];
    }
  }

  lemma GapsReadBack(h: seq<byte>, gaps: seq<bv8>, rest: seq<byte>)
    requires |h| == HEADER_BYTES
    ensures ReadGaps(h + GapBytes(gaps) + rest, |gaps|) == gaps
  {}

  lemma PowerReadsBack(a: seq<byte>, power: seq<u32>)
    ensures ReadPower(a + Words(power), |a|, |power|) == power
  {
    hide *;
    var wire := a + Words(power);
    var read := ReadPower(wire, |a|, |power|);
    forall i | 0 <= i < |power|
      ensures read[i] == power[i]
    {
      ReadAt(wire, |a|, |power|, i);
      WordReadsBack(a, power, i);
    }
  }

  lemma ReadAt(b: seq<byte>, offset: nat, n: nat, i: nat)
    requires i < n && offset + 4 * n <= |b|
    ensures offset + 4 * i + 4 <= |b| && ReadPower(b, offset, n)[i] == Field32(b, offset + 4 * i)
  {
    hide Field32;
  }

  lemma WordReadsBack(a: seq<byte>, power: seq<u32>, i: nat)
    requires i < |power|
    ensures Field32(a + Words(power), |a| + 4 * i) == power[i]
  {
    hide *;
    Limits();
    WordAt(power, i);
    ValueOfBytes(power[i], 4);
    SliceOfSuffix(a, Words(power), 4 * i, 4 * i + 4);
    FieldValue(a + Words(power), |a| + 4 * i);
    assert |a| + (4 * i + 4) == |a| + 4 * i + 4;
  }

  lemma FieldValue(b: seq<byte>, offset: nat)
    requires offset + 4 <= |b|
    ensures Field32(b, offset) == Value(b[offset..offset + 4])
  {
    hide Value;
  }

  lemma SliceOfSuffix(a: seq<byte>, b: seq<byte>, lo: nat, hi: nat)
    requires lo <= hi <= |b|
    ensures (a + b)[|a| + lo..|a| + hi] == b[lo..hi]
  {}

  function Rows(s: Spectrum, size: nat, missing: nat): (rows: seq<seq<byte>>)
    requires missing <= s.fftSize
    ensures |rows| == 8 && forall i :: 0 <= i < 8 ==> |rows[i]| == 16
  {
    [Row0(s.streamId, size), Row1(s.sequence, s.fftSize, s.hop), Row2(s.center, s.sampleRate),
     RowTime(s.begin), RowTime(s.end), Row5(s.fftSize - missing, missing, s.discontinuities),
     RowTime(s.epoch), Row7(s.ordinal, s.sequenceGaps)]
  }

  lemma WireField(s: Spectrum, k: nat, offset: nat, count: nat)
    requires s.Valid() && k < 8 && offset + count <= 16
    ensures Field(Wire(s), 16 * k + offset, count)
         == Field(Rows(s, WireSize(s.fftSize), Missing(s))[k], offset, count)
  {
    var rest := GapBytes(s.gaps) + Words(s.power);
    WireRows(s);
    hide Field, Rows, Wire, Words, GapBytes, Missing;
    RowsInPlace(Rows(s, WireSize(s.fftSize), Missing(s)), rest, k, offset, count);
  }

  lemma WireRows(s: Spectrum)
    requires s.Valid()
    ensures
      var rows := Rows(s, WireSize(s.fftSize), Missing(s));
      var rest := GapBytes(s.gaps) + Words(s.power);
      Wire(s) == rows[0] + rows[1] + rows[2] + rows[3] + rows[4] + rows[5] + rows[6] + rows[7] + rest
  {
    hide Row0, Row1, Row2, RowTime, Row5, Row7, Words, GapBytes, Missing, ProcessingConfig.Valid;
    assert Wire(s) == Header(s, WireSize(s.fftSize), Missing(s)) + (GapBytes(s.gaps) + Words(s.power));
  }

  lemma RowsAt(s: Spectrum, size: nat, missing: nat)
    requires missing <= s.fftSize
    ensures
      var rows := Rows(s, size, missing);
      && rows[0] == Row0(s.streamId, size) && rows[1] == Row1(s.sequence, s.fftSize, s.hop)
      && rows[2] == Bytes(s.center, 8) + Bytes(s.sampleRate, 8)
      && rows[3] == Bytes(s.begin.seconds, 8) + Bytes(s.begin.picoseconds, 8)
      && rows[4] == Bytes(s.end.seconds, 8) + Bytes(s.end.picoseconds, 8)
      && rows[5] == Row5(s.fftSize - missing, missing, s.discontinuities)
      && rows[6] == Bytes(s.epoch.seconds, 8) + Bytes(s.epoch.picoseconds, 8)
      && rows[7] == Bytes(s.ordinal, 8) + Bytes(s.sequenceGaps, 8)
  {
    hide Bytes, Row0, Row1, Row5;
  }

  lemma IdentityReadsBack(s: Spectrum)
    requires s.Valid()
    ensures
      var wire := Wire(s);
      && Field(wire, 0, 4) == MAGIC && Field(wire, 4, 2) == VERSION && Field(wire, 6, 2) == HEADER_BYTES
      && Field(wire, 8, 4) == |wire| && Field(wire, 12, 4) == s.streamId
  {
    hide *;
    var size := WireSize(s.fftSize);
    WireFits(s);
    Row0Fields(s.streamId, size);
    RowsAt(s, size, Missing(s));
    WireField(s, 0, 0, 4);
    WireField(s, 0, 4, 2);
    WireField(s, 0, 6, 2);
    WireField(s, 0, 8, 4);
    WireField(s, 0, 12, 4);
  }

  lemma WireFits(s: Spectrum)
    requires s.Valid()
    ensures HEADER_BYTES == 128 <= WireSize(s.fftSize) < Limit(4) && s.fftSize < Limit(4)
    ensures HEADER_BYTES + s.fftSize / 8 + 4 * s.fftSize == WireSize(s.fftSize)
    ensures |s.gaps| == s.fftSize / 8 && |s.power| == s.fftSize && ValidFftSize(s.fftSize)
  {
    Limits();
  }

  lemma ShapeReadsBack(s: Spectrum)
    requires s.Valid()
    ensures
      var wire := Wire(s);
      && Field(wire, 16, 4) == s.sequence && Field(wire, 20, 4) == s.fftSize && Field(wire, 24, 4) == s.hop
      && Field(wire, 28, 4) == 0
  {
    hide *;
    Row1Fields(s.sequence, s.fftSize, s.hop);
    RowsAt(s, WireSize(s.fftSize), Missing(s));
    WireField(s, 1, 0, 4);
    WireField(s, 1, 4, 4);
    WireField(s, 1, 8, 4);
    WireField(s, 1, 12, 4);
  }

  lemma CountsReadBack(s: Spectrum)
    requires s.Valid()
    ensures
      var wire := Wire(s);
      && Field(wire, 80, 4) == s.fftSize - Missing(s) && Field(wire, 84, 4) == Missing(s)
      && Field64(wire, 88) == s.discontinuities
  {
    hide *;
    WireFits(s);
    Row5Fields(s.fftSize - Missing(s), Missing(s), s.discontinuities);
    RowsAt(s, WireSize(s.fftSize), Missing(s));
    WireField(s, 5, 0, 4);
    WireField(s, 5, 4, 4);
    WireField(s, 5, 8, 8);
    WideField(Wire(s), 88);
  }

  lemma WideField(b: seq<byte>, offset: nat)
    requires offset + 8 <= |b|
    ensures Field64(b, offset) == Field(b, offset, 8)
  {
    hide Field;
  }

  lemma PairReadsBack(s: Spectrum, k: nat, first: u64, second: u64)
    requires s.Valid() && k < 8
    requires Rows(s, WireSize(s.fftSize), Missing(s))[k] == Bytes(first, 8) + Bytes(second, 8)
    ensures Field64(Wire(s), 16 * k) == first && Field64(Wire(s), 16 * k + 8) == second
  {
    hide *;
    WireFits(s);
    PairFields(first, second);
    WireField(s, k, 0, 8);
    WireField(s, k, 8, 8);
    WideField(Wire(s), 16 * k);
    WideField(Wire(s), 16 * k + 8);
  }

  lemma PairsReadBack(s: Spectrum)
    requires s.Valid()
    ensures
      var wire := Wire(s);
      && Field64(wire, 32) == s.center && Field64(wire, 40) == s.sampleRate
      && Field64(wire, 48) == s.begin.seconds && Field64(wire, 56) == s.begin.picoseconds
      && Field64(wire, 64) == s.end.seconds && Field64(wire, 72) == s.end.picoseconds
      && Field64(wire, 96) == s.epoch.seconds && Field64(wire, 104) == s.epoch.picoseconds
      && Field64(wire, 112) == s.ordinal && Field64(wire, 120) == s.sequenceGaps
  {
    hide *;
    RowsAt(s, WireSize(s.fftSize), Missing(s));
    PairReadsBack(s, 2, s.center, s.sampleRate);
    PairReadsBack(s, 3, s.begin.seconds, s.begin.picoseconds);
    PairReadsBack(s, 4, s.end.seconds, s.end.picoseconds);
    PairReadsBack(s, 6, s.epoch.seconds, s.epoch.picoseconds);
    PairReadsBack(s, 7, s.ordinal, s.sequenceGaps);
  }

  lemma WireParts(s: Spectrum)
    requires s.Valid()
    ensures
      var h := Header(s, WireSize(s.fftSize), Missing(s));
      Wire(s) == h + GapBytes(s.gaps) + Words(s.power)
  {
    hide Header, Words, GapBytes, Missing;
  }

  lemma PayloadReadsBack(s: Spectrum)
    requires s.Valid()
    ensures ReadGaps(Wire(s), s.fftSize / 8) == s.gaps
    ensures ReadPower(Wire(s), HEADER_BYTES + s.fftSize / 8, s.fftSize) == s.power
  {
    hide *;
    var h := Header(s, WireSize(s.fftSize), Missing(s));
    WireFits(s);
    WireParts(s);
    GapsReadBack(h, s.gaps, Words(s.power));
    PowerReadsBack(h + GapBytes(s.gaps), s.power);
  }

  lemma EncodedIsFramed(s: Spectrum)
    requires s.Valid()
    ensures Framed(Wire(s)) && Parsed(Wire(s)) == s
  {
    hide *;
    WireFits(s);
    IdentityReadsBack(s);
    ShapeReadsBack(s);
    CountsReadBack(s);
    PairsReadBack(s);
    PayloadReadsBack(s);
    var wire := Wire(s);
    FramedBy(wire, s.fftSize);
    NarrowField(wire, 12);
    NarrowField(wire, 16);
    NarrowField(wire, 20);
    NarrowField(wire, 24);
    ParsedFields(wire);
  }

  lemma NarrowField(b: seq<byte>, offset: nat)
    requires offset + 4 <= |b|
    ensures Field32(b, offset) == Field(b, offset, 4)
  {
    hide Field;
  }

  lemma FramedBy(wire: seq<byte>, n: nat)
    requires |wire| >= HEADER_BYTES && Field(wire, 0, 4) == MAGIC && Field(wire, 4, 2) == VERSION
    requires Field(wire, 6, 2) == HEADER_BYTES && Field(wire, 8, 4) == |wire| && Field(wire, 28, 4) == 0
    requires Field(wire, 20, 4) == n && ValidFftSize(n) && |wire| == WireSize(n)
    ensures Framed(wire)
  {
    hide Field, ValidFftSize;
  }

  lemma ParsedFields(wire: seq<byte>)
    requires Framed(wire)
    ensures HEADER_BYTES + Field32(wire, 20) / 8 + 4 * Field32(wire, 20) == |wire|
    ensures
      var s, n := Parsed(wire), Field32(wire, 20);
      && s.streamId == Field32(wire, 12) && s.sequence == Field32(wire, 16) && s.fftSize == n
      && s.hop == Field32(wire, 24) && s.center == Field64(wire, 32)
      && s.sampleRate == Field64(wire, 40) % 0x1_0000_0000
      && s.begin.seconds == Field64(wire, 48) && s.begin.picoseconds == Field64(wire, 56)
      && s.end.seconds == Field64(wire, 64) && s.end.picoseconds == Field64(wire, 72)
      && s.discontinuities == Field64(wire, 88)
      && s.epoch.seconds == Field64(wire, 96) && s.epoch.picoseconds == Field64(wire, 104)
      && s.ordinal == Field64(wire, 112) && s.sequenceGaps == Field64(wire, 120)
      && s.gaps == ReadGaps(wire, n / 8) && s.power == ReadPower(wire, HEADER_BYTES + n / 8, n)
  {
    NarrowField(wire, 20);
    hide Field, Field32, Field64, ValidFftSize, ReadGaps, ReadPower;
  }

  /** Decoding an encoded spectrum gives the spectrum back, bit for bit. */
  lemma DecodeEncoded(s: Spectrum)
    requires s.Valid()
    ensures Decoded(Wire(s)) == Some(s)
  {
    EncodedIsFramed(s);
    CountsReadBack(s);
    hide Field, Wire, Framed, Parsed, Missing, Spectrum.Valid;
  }

  // ----- encode(decode(b)) == b -----

  lemma BytesOfField(b: seq<byte>, offset: nat, count: nat)
    requires offset + count <= |b|
    ensures Bytes(Field(b, offset, count), count) == b[offset..offset + count]
  {
    BytesOfValue(b[offset..offset + count]);
    hide Value, Bytes;
  }

  /** Row k of a datagram. */
  function Slice(b: seq<byte>, k: nat): (r: seq<byte>)
    requires 16 * k + 16 <= |b|
    ensures |r| == 16
  {
    b[16 * k..16 * k + 16]
  }

  lemma Join2(b: seq<byte>, i: nat, j: nat, k: nat)
    requires i <= j <= k <= |b|
    ensures b[i..j] + b[j..k] == b[i..k]
  {}

  lemma Row0Written(b: seq<byte>)
    requires |b| >= HEADER_BYTES && Field(b, 0, 4) == MAGIC && Field(b, 4, 2) == VERSION && Field(b, 6, 2) == HEADER_BYTES
    ensures Row0(Field32(b, 12), Field(b, 8, 4)) == Slice(b, 0)
  {
    NarrowField(b, 12);
    hide Field, Field32, Bytes;
    BytesOfField(b, 0, 4);
    BytesOfField(b, 4, 2);
    BytesOfField(b, 6, 2);
    BytesOfField(b, 8, 4);
    BytesOfField(b, 12, 4);
    Join2(b, 0, 4, 6);
    Join2(b, 0, 6, 8);
    Join2(b, 0, 8, 12);
    Join2(b, 0, 12, 16);
  }

  lemma Row1Written(b: seq<byte>)
    requires |b| >= HEADER_BYTES && Field(b, 28, 4) == 0
    ensures Row1(Field32(b, 16), Field32(b, 20), Field32(b, 24)) == Slice(b, 1)
  {
    NarrowField(b, 16);
    NarrowField(b, 20);
    NarrowField(b, 24);
    hide Field, Field32, Bytes;
    BytesOfField(b, 16, 4);
    BytesOfField(b, 20, 4);
    BytesOfField(b, 24, 4);
    BytesOfField(b, 28, 4);
    Join2(b, 16, 20, 24);
    Join2(b, 16, 24, 28);
    Join2(b, 16, 28, 32);
  }

  lemma Row5Written(b: seq<byte>)
    requires |b| >= HEADER_BYTES
    ensures Row5(Field(b, 80, 4), Field(b, 84, 4), Field64(b, 88)) == Slice(b, 5)
  {
    WideField(b, 88);
    hide Field, Field64, Bytes;
    BytesOfField(b, 80, 4);
    BytesOfField(b, 84, 4);
    BytesOfField(b, 88, 8);
    Join2(b, 80, 84, 88);
    Join2(b, 80, 88, 96);
  }

  lemma PairWritten(b: seq<byte>, k: nat)
    requires 16 * k + 16 <= |b|
    ensures Bytes(Field64(b, 16 * k), 8) + Bytes(Field64(b, 16 * k + 8), 8) == Slice(b, k)
  {
    WideField(b, 16 * k);
    WideField(b, 16 * k + 8);
    hide Field, Field64, Bytes;
    BytesOfField(b, 16 * k, 8);
    BytesOfField(b, 16 * k + 8, 8);
    Join2(b, 16 * k, 16 * k + 8, 16 * k + 16);
  }

  /** The sample rate keeps its low four bytes, so its high four must have been zero. */
  lemma TruncatedRate(b: seq<byte>)
    requires |b| >= HEADER_BYTES
    ensures Bytes(Field64(b, 40) % 0x1_0000_0000, 8) == [0, 0, 0, 0] + b[44..48]
  {
    hide Value, Bytes, Limit;
    var high, low := b[40..44], b[44..48];
    WideField(b, 40);
    Limits();
    assert b[40..48] == high + low;
    ValueAppend(high, low);
    BytesOfValue(low);
    ValueOfPadded(low);
    BytesOfValue([0, 0, 0, 0] + low);
    assert Field64(b, 40) == Value(high + low) by {
      hide Value;
    }
    assert (Value(high) * 0x1_0000_0000 + Value(low)) % 0x1_0000_0000 == Value(low);
  }

  lemma GapsWritten(b: seq<byte>, n: nat)
    requires HEADER_BYTES + n <= |b|
    ensures GapBytes(ReadGaps(b, n)) == b[HEADER_BYTES..HEADER_BYTES + n]
  {
    var written := GapBytes(ReadGaps(b, n));
    forall j | 0 <= j < n
      ensures written[j] == b[HEADER_BYTES + j]
    {
      BitVectors.ByteAsVector(b[HEADER_BYTES + j]);
    }
  }

  lemma {:induction false} PowerWritten(b: seq<byte>, offset: nat, n: nat)
    requires offset + 4 * n <= |b|
    ensures Words(ReadPower(b, offset, n)) == b[offset..offset + 4 * n]
  {
    hide Field32, Bytes;
    if n > 0 {
      PowerWritten(b, offset, n - 1);
      var power := ReadPower(b, offset, n);
      assert power[..n - 1] == ReadPower(b, offset, n - 1);
      NarrowField(b, offset + 4 * (n - 1));
      BytesOfField(b, offset + 4 * (n - 1), 4);
      Join2(b, offset, offset + 4 * (n - 1), offset + 4 * n);
    }
  }

  lemma PayloadWritten(b: seq<byte>, s: Spectrum)
    requires Framed(b) && s == Parsed(b)
    ensures GapBytes(s.gaps) + Words(s.power) == b[HEADER_BYTES..]
  {
    hide *;
    ParsedFields(b);
    HeaderIs128();
    var n := Field32(b, 20);
    GapsWritten(b, n / 8);
    PowerWritten(b, HEADER_BYTES + n / 8, n);
    Join2(b, HEADER_BYTES, HEADER_BYTES + n / 8, |b|);
    assert b[HEADER_BYTES..|b|] == b[HEADER_BYTES..];
  }

  lemma HeaderIs128()
    ensures HEADER_BYTES == 128
  {}

  /** Every row but the one with the sample rate is written back as it was read. */
  lemma RowsWritten(b: seq<byte>, s: Spectrum)
    requires Decoded(b) == Some(s)
    ensures s.Valid() && |b| == WireSize(s.fftSize) >= HEADER_BYTES == 128
    ensures
      var rows := Rows(s, WireSize(s.fftSize), Missing(s));
      && rows[0] == Slice(b, 0) && rows[1] == Slice(b, 1)
      && rows[2] == b[32..40] + [0, 0, 0, 0] + b[44..48]
      && rows[3] == Slice(b, 3) && rows[4] == Slice(b, 4) && rows[5] == Slice(b, 5)
      && rows[6] == Slice(b, 6) && rows[7] == Slice(b, 7)
    ensures GapBytes(s.gaps) + Words(s.power) == b[HEADER_BYTES..]
  {
    hide *;
    DecodedFacts(b, s);
    HeaderIs128();
    RowsAt(s, WireSize(s.fftSize), Missing(s));
    ParsedFields(b);
    PayloadWritten(b, s);
    Row0Written(b);
    Row1Written(b);
    TruncatedRate(b);
    WideField(b, 32);
    BytesOfField(b, 32, 8);
    PairWritten(b, 3);
    PairWritten(b, 4);
    Row5Written(b);
    PairWritten(b, 6);
    PairWritten(b, 7);
  }

  lemma DecodedFacts(b: seq<byte>, s: Spectrum)
    requires Decoded(b) == Some(s)
    ensures Framed(b) && s == Parsed(b) && s.Valid() && |b| == WireSize(s.fftSize) >= HEADER_BYTES
    ensures Field(b, 0, 4) == MAGIC && Field(b, 4, 2) == VERSION && Field(b, 6, 2) == HEADER_BYTES
    ensures Field(b, 8, 4) == |b| && Field(b, 28, 4) == 0
    ensures Field(b, 80, 4) == s.fftSize - Missing(s) && Field(b, 84, 4) == Missing(s)
  {
    NarrowFieldFramed(b);
    hide Field, Spectrum.Valid, Missing, ValidFftSize;
  }

  lemma NarrowFieldFramed(b: seq<byte>)
    ensures Framed(b) ==> Field32(b, 20) == Field(b, 20, 4)
  {
    if Framed(b) {
      NarrowField(b, 20);
    }
  }

  /** Encoding what an accepted datagram decodes to gives the datagram back exactly
      when the four bytes the decoder drops were zero. */
  lemma EncodeDecoded(b: seq<byte>, s: Spectrum)
    requires Decoded(b) == Some(s)
    ensures s.Valid() && |b| >= HEADER_BYTES
    ensures Wire(s) == b <==> b[40..44] == [0, 0, 0, 0]
  {
    hide *;
    RowsWritten(b, s);
    WireRows(s);
    var rows := Rows(s, WireSize(s.fftSize), Missing(s));
    SplitRows(b);
    var rest := b[128..];
    var before, after := Slice(b, 0) + Slice(b, 1), Slice(b, 3) + Slice(b, 4) + Slice(b, 5) + Slice(b, 6) + Slice(b, 7) + rest;
    assert Wire(s) == before + rows[2] + after;
    assert b == before + Slice(b, 2) + after;
    MiddleDecides(before, rows[2], Slice(b, 2), after);
    RateRow(b);
  }

  lemma SplitRows(b: seq<byte>)
    requires |b| >= 128
    ensures b == Slice(b, 0) + Slice(b, 1) + Slice(b, 2) + Slice(b, 3) + Slice(b, 4) + Slice(b, 5) + Slice(b, 6) + Slice(b, 7) + b[128..]
  {}

  lemma MiddleDecides(a: seq<byte>, x: seq<byte>, y: seq<byte>, c: seq<byte>)
    requires |x| == |y|
    ensures a + x + c == a + y + c <==> x == y
  {
    if a + x + c == a + y + c {
      assert (a + x + c)[|a|..|a| + |x|] == x;
      assert (a + y + c)[|a|..|a| + |y|] == y;
    }
  }

  lemma RateRow(b: seq<byte>)
    requires |b| >= 128
    ensures b[32..40] + [0, 0, 0, 0] + b[44..48] == Slice(b, 2) <==> b[40..44] == [0, 0, 0, 0]
  {
    assert Slice(b, 2) == b[32..40] + b[40..44] + b[44..48];
    MiddleDecides(b[32..40], [0, 0, 0, 0], b[40..44], b[44..48]);
  }

  // ----- The bytes the decoder drops -----

  /** The datagram with other bytes 40 to 43. */
  function WithRateHigh(b: seq<byte>, high: seq<byte>): (r: seq<byte>)
    requires |b| >= HEADER_BYTES && |high| == 4
    ensures |r| == |b| && r[40..44] == high
    ensures forall i :: 0 <= i < |b| && !(40 <= i < 44) ==> r[i] == b[i]
  {
    b[..40] + high + b[44..]
  }

  lemma FieldApart(b: seq<byte>, high: seq<byte>, offset: nat, count: nat)
    requires |b| >= HEADER_BYTES && |high| == 4 && offset + count <= |b| && (offset + count <= 40 || 44 <= offset)
    ensures Field(WithRateHigh(b, high), offset, count) == Field(b, offset, count)
  {
    assert WithRateHigh(b, high)[offset..offset + count] == b[offset..offset + count];
  }

  lemma Field32Apart(b: seq<byte>, high: seq<byte>, offset: nat)
    requires |b| >= HEADER_BYTES && |high| == 4 && offset + 4 <= |b| && (offset + 4 <= 40 || 44 <= offset)
    ensures Field32(WithRateHigh(b, high), offset) == Field32(b, offset)
  {
    FieldApart(b, high, offset, 4);
    hide Field, WithRateHigh;
  }

  lemma Field64Apart(b: seq<byte>, high: seq<byte>, offset: nat)
    requires |b| >= HEADER_BYTES && |high| == 4 && offset + 8 <= |b| && (offset + 8 <= 40 || 44 <= offset)
    ensures Field64(WithRateHigh(b, high), offset) == Field64(b, offset)
  {
    FieldApart(b, high, offset, 8);
    hide Field, WithRateHigh;
  }

  lemma FramedApart(b: seq<byte>, high: seq<byte>)
    requires |b| >= HEADER_BYTES && |high| == 4
    ensures Framed(WithRateHigh(b, high)) <==> Framed(b)
  {
    FieldApart(b, high, 0, 4);
    FieldApart(b, high, 4, 2);
    FieldApart(b, high, 6, 2);
    FieldApart(b, high, 8, 4);
    FieldApart(b, high, 28, 4);
    FieldApart(b, high, 20, 4);
    hide Field, WithRateHigh, ValidFftSize;
  }

  lemma ParsedApart(b: seq<byte>, high: seq<byte>)
    requires |b| >= HEADER_BYTES && |high| == 4 && Framed(b) && Framed(WithRateHigh(b, high))
    ensures Parsed(WithRateHigh(b, high)) == Parsed(b)
  {
    var r := WithRateHigh(b, high);
    ParsedFields(b);
    ParsedFields(r);
    Field32Apart(b, high, 12);
    Field32Apart(b, high, 16);
    Field32Apart(b, high, 20);
    Field32Apart(b, high, 24);
    Field64Apart(b, high, 32);
    Field64Apart(b, high, 48);
    Field64Apart(b, high, 56);
    Field64Apart(b, high, 64);
    Field64Apart(b, high, 72);
    Field64Apart(b, high, 88);
    Field64Apart(b, high, 96);
    Field64Apart(b, high, 104);
    Field64Apart(b, high, 112);
    Field64Apart(b, high, 120);
    RateApart(b, high);
    PayloadApart(b, high, Field32(b, 20));
    hide *;
    SameSpectrum(Parsed(r), Parsed(b));
  }

  lemma SameSpectrum(s: Spectrum, t: Spectrum)
    requires s.streamId == t.streamId && s.sequence == t.sequence && s.sampleRate == t.sampleRate
    requires s.fftSize == t.fftSize && s.hop == t.hop && s.center == t.center
    requires s.begin.seconds == t.begin.seconds && s.begin.picoseconds == t.begin.picoseconds
    requires s.end.seconds == t.end.seconds && s.end.picoseconds == t.end.picoseconds
    requires s.epoch.seconds == t.epoch.seconds && s.epoch.picoseconds == t.epoch.picoseconds
    requires s.ordinal == t.ordinal && s.discontinuities == t.discontinuities && s.sequenceGaps == t.sequenceGaps
    requires s.gaps == t.gaps && s.power == t.power
    ensures s == t
  {}

  lemma RateApart(b: seq<byte>, high: seq<byte>)
    requires |b| >= HEADER_BYTES && |high| == 4
    ensures Field64(WithRateHigh(b, high), 40) % 0x1_0000_0000 == Field64(b, 40) % 0x1_0000_0000
  {
    TruncatedRate(b);
    TruncatedRate(WithRateHigh(b, high));
    assert WithRateHigh(b, high)[44..48] == b[44..48];
    var (x, y) := (Field64(WithRateHigh(b, high), 40) % 0x1_0000_0000, Field64(b, 40) % 0x1_0000_0000);
    Limits();
    hide Field64, WithRateHigh, Bytes, Value, Limit;
    ValueOfBytes(x, 8);
    ValueOfBytes(y, 8);
  }

  lemma PayloadApart(b: seq<byte>, high: seq<byte>, n: nat)
    requires |b| >= HEADER_BYTES && |high| == 4 && HEADER_BYTES + n / 8 + 4 * n <= |b|
    ensures ReadGaps(WithRateHigh(b, high), n / 8) == ReadGaps(b, n / 8)
    ensures ReadPower(WithRateHigh(b, high), HEADER_BYTES + n / 8, n) == ReadPower(b, HEADER_BYTES + n / 8, n)
  {
    var (r, offset) := (WithRateHigh(b, high), HEADER_BYTES + n / 8);
    forall i: nat | i < n
      ensures Field32(r, offset + 4 * i) == Field32(b, offset + 4 * i)
    {
      Field32Apart(b, high, offset + 4 * i);
    }
    hide Field32, WithRateHigh;
  }

  /** Whatever bytes 40 to 43 are, a datagram decodes to the same spectrum or is refused all
      the same. So every spectrum has accepted datagrams that do not encode back. */
  lemma RateHighIgnored(b: seq<byte>, high: seq<byte>)
    requires |b| >= HEADER_BYTES && |high| == 4
    ensures Decoded(WithRateHigh(b, high)) == Decoded(b)
  {
    hide Framed, Parsed, Field, Spectrum.Valid, Missing, WithRateHigh;
    FramedApart(b, high);
    if Framed(b) {
      ParsedApart(b, high);
      FieldApart(b, high, 80, 4);
      FieldApart(b, high, 84, 4);
    }
  }

  lemma OtherDatagrams(s: Spectrum, high: seq<byte>)
    requires s.Valid() && |high| == 4
    ensures |Wire(s)| >= HEADER_BYTES && Decoded(WithRateHigh(Wire(s), high)) == Some(s)
    ensures high != [0, 0, 0, 0] ==> WithRateHigh(Wire(s), high) != Wire(s)
  {
    DecodeEncoded(s);
    WireLong(s);
    RateHighIgnored(Wire(s), high);
    EncodeDecoded(WithRateHigh(Wire(s), high), s);
    hide *;
  }

  lemma WireLong(s: Spectrum)
    requires s.Valid()
    ensures |Wire(s)| >= HEADER_BYTES
  {}
}
