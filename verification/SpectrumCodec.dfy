/** encode_spectrum and decode_spectrum: a 128-byte header of eight 16-byte rows,
    the gap bitmap, and one binary32 word per bin. */
module SpectrumCodec {
  import opened SpectrumTypes
  import opened GapBitmap
  import opened BigEndian

  const MAGIC := 0x53445231
  const VERSION := 1
  const HEADER_BYTES := 128

  function WireSize(fftSize: nat): nat {
    HEADER_BYTES + fftSize / 8 + 4 * fftSize
  }

  // ----- The wire form of a spectrum -----

  function Header(s: Spectrum, size: nat, missing: nat): (h: seq<byte>)
    requires missing <= s.fftSize
    ensures |h| == HEADER_BYTES
  {
    Row0(s.streamId, size) + Row1(s.sequence, s.fftSize, s.hop) + Row2(s.center, s.sampleRate)
    + RowTime(s.begin) + RowTime(s.end)
    + Row5(s.fftSize - missing, missing, s.discontinuities)
    + RowTime(s.epoch) + Row7(s.ordinal, s.sequenceGaps)
  }

  function Row0(streamId: u32, size: nat): (r: seq<byte>)
    ensures |r| == 16
  {
    Bytes(MAGIC, 4) + Bytes(VERSION, 2) + Bytes(HEADER_BYTES, 2) + Bytes(size, 4) + Bytes(streamId, 4)
  }

  function Row1(sequence: u32, fftSize: u32, hop: u32): (r: seq<byte>)
    ensures |r| == 16
  {
    Bytes(sequence, 4) + Bytes(fftSize, 4) + Bytes(hop, 4) + Bytes(0, 4)
  }

  function Row2(center: u64, sampleRate: nat): (r: seq<byte>)
    ensures |r| == 16
  {
    Bytes(center, 8) + Bytes(sampleRate, 8)
  }

  function RowTime(t: ProtocolTime): (r: seq<byte>)
    ensures |r| == 16
  {
    Bytes(t.seconds, 8) + Bytes(t.picoseconds, 8)
  }

  function Row5(present: nat, missing: nat, discontinuities: u64): (r: seq<byte>)
    ensures |r| == 16
  {
    Bytes(present, 4) + Bytes(missing, 4) + Bytes(discontinuities, 8)
  }

  function Row7(ordinal: u64, sequenceGaps: u64): (r: seq<byte>)
    ensures |r| == 16
  {
    Bytes(ordinal, 8) + Bytes(sequenceGaps, 8)
  }

  function GapBytes(gaps: seq<bv8>): (b: seq<byte>)
    ensures |b| == |gaps|
  {
    seq(|gaps|, j requires 0 <= j < |gaps| => gaps[j] as int)
  }

  function Words(power: seq<u32>): (b: seq<byte>)
    ensures |b| == 4 * |power|
  {
    if power == [] then [] else Words(power[..|power| - 1]) + Bytes(power[|power| - 1], 4)
  }

  /** The datagram that stands for a valid spectrum. */
  function Wire(s: Spectrum): (b: seq<byte>)
    requires s.Valid()
    ensures |b| == WireSize(s.fftSize)
  {
    Header(s, WireSize(s.fftSize), Missing(s)) + GapBytes(s.gaps) + Words(s.power)
  }

  function Missing(s: Spectrum): (missing: nat)
    requires s.Valid()
    ensures missing <= s.fftSize
  {
    FftSizeMultiple(s.fftSize);
    CountMarked(s.gaps, s.fftSize)
  }

  /** None is the exception on an invalid spectrum. */
  method EncodeSpectrum(s: Spectrum) returns (r: Option<seq<byte>>)
    ensures r == if s.Valid() then Some(Wire(s)) else None
  {
    if !s.Valid() {
      return None;
    }
    FftSizeMultiple(s.fftSize);
    hide Bytes, Words;
    var missing := MissingCount(s.gaps, s.fftSize);
    var output := new byte[WireSize(s.fftSize)](i => 0);
    PutHeader(output, s, missing);
    ghost var header := Header(s, output.Length, missing);
    PutGaps(output, s.gaps, header);
    PutPower(output, s.power, header + GapBytes(s.gaps));
    assert output[..] == output[..output.Length];
    r := Some(output[..]);
  }

  method PutHeader(output: array<byte>, s: Spectrum, missing: nat)
    requires missing <= s.fftSize && HEADER_BYTES <= output.Length
    modifies output
    ensures output[..HEADER_BYTES] == Header(s, output.Length, missing)
  {
    hide Bytes;
    PutShape(output, s);
    ghost var rows := output[..48];
    PutTime(output, 48, s.begin);
    PutTime(output, 64, s.end);
    rows := rows + RowTime(s.begin) + RowTime(s.end);
    assert output[..80] == rows;
    PutCounts(output, s.fftSize - missing, missing, s.discontinuities);
    rows := rows + Row5(s.fftSize - missing, missing, s.discontinuities);
    hide RowTime, Row5, Row7;
    PutTime(output, 96, s.epoch);
    PutPair(output, 112, s.ordinal, s.sequenceGaps);
  }

  /** Identity, shape and rate: the first three rows. */
  method PutShape(output: array<byte>, s: Spectrum)
    requires HEADER_BYTES <= output.Length
    modifies output
    ensures output[..48]
         == Row0(s.streamId, output.Length) + Row1(s.sequence, s.fftSize, s.hop) + Row2(s.center, s.sampleRate)
  {
    hide Bytes;
    var ok := Put(output, 0, MAGIC, 4);
    ok := Put(output, 4, VERSION, 2);
    ok := Put(output, 6, HEADER_BYTES, 2);
    ok := Put(output, 8, output.Length, 4);
    ok := Put(output, 12, s.streamId, 4);
    ghost var rows := Row0(s.streamId, output.Length);
    assert output[..16] == rows;
    ok := Put(output, 16, s.sequence, 4);
    ok := Put(output, 20, s.fftSize, 4);
    ok := Put(output, 24, s.hop, 4);
    ok := Put(output, 28, 0, 4);
    rows := rows + Row1(s.sequence, s.fftSize, s.hop);
    assert output[..32] == rows;
    PutPair(output, 32, s.center, s.sampleRate);
  }

  method PutPair(output: array<byte>, offset: nat, first: u64, second: u64)
    requires offset + 16 <= output.Length
    modifies output
    ensures output[..offset + 16] == old(output[..offset]) + (Bytes(first, 8) + Bytes(second, 8))
  {
    hide Bytes;
    var ok := Put(output, offset, first, 8);
    ok := Put(output, offset + 8, second, 8);
  }

  method PutCounts(output: array<byte>, present: nat, missing: nat, discontinuities: u64)
    requires HEADER_BYTES <= output.Length
    modifies output
    ensures output[..96] == old(output[..80]) + Row5(present, missing, discontinuities)
  {
    hide Bytes;
    var ok := Put(output, 80, present, 4);
    ok := Put(output, 84, missing, 4);
    ok := Put(output, 88, discontinuities, 8);
  }

  method PutTime(output: array<byte>, offset: nat, t: ProtocolTime)
    requires offset + 16 <= output.Length
    modifies output
    ensures output[..offset + 16] == old(output[..offset]) + RowTime(t)
    ensures output[offset + 16..] == old(output[offset + 16..])
  {
    hide Bytes;
    var ok := Put(output, offset, t.seconds, 8);
    ok := Put(output, offset + 8, t.picoseconds, 8);
  }

  method PutGaps(output: array<byte>, gaps: seq<bv8>, ghost prefix: seq<byte>)
    requires HEADER_BYTES + |gaps| <= output.Length && output[..HEADER_BYTES] == prefix
    modifies output
    ensures output[..HEADER_BYTES + |gaps|] == prefix + GapBytes(gaps)
  {
    for index := 0 to |gaps|
      invariant output[..HEADER_BYTES] == prefix
      invariant forall j :: 0 <= j < index ==> output[HEADER_BYTES + j] == GapBytes(gaps)[j]
    {
      output[HEADER_BYTES + index] := gaps[index] as int;
    }
    assert output[HEADER_BYTES..HEADER_BYTES + |gaps|] == GapBytes(gaps);
    assert output[..HEADER_BYTES + |gaps|] == output[..HEADER_BYTES] + output[HEADER_BYTES..HEADER_BYTES + |gaps|];
  }

  method PutPower(output: array<byte>, power: seq<u32>, ghost prefix: seq<byte>)
    requires output.Length == |prefix| + 4 * |power| && output[..|prefix|] == prefix
    modifies output
    ensures output[..] == prefix + Words(power)
  {
    hide Bytes;
    var powerOffset := output.Length - 4 * |power|;
    assert output[..powerOffset] == prefix + Words(power[..0]);
    for index := 0 to |power|
      invariant output[..powerOffset + 4 * index] == prefix + Words(power[..index])
    {
      var ok := Put(output, powerOffset + index * 4, power[index], 4);
      assert power[..index + 1][..index] == power[..index];
      assert Words(power[..index + 1]) == Words(power[..index]) + Bytes(power[index], 4);
    }
    assert power[..|power|] == power;
    assert output[..] == output[..powerOffset + 4 * |power|];
  }

  // ----- Reading it back -----

  function Field(b: seq<byte>, offset: nat, count: nat): (v: nat)
    requires offset + count <= |b|
    ensures v < Limit(count)
  {
    BytesOfValue(b[offset..offset + count]);
    Value(b[offset..offset + count])
  }

  function Field32(b: seq<byte>, offset: nat): u32
    requires offset + 4 <= |b|
  {
    Limits();
    Field(b, offset, 4)
  }

  function Field64(b: seq<byte>, offset: nat): u64
    requires offset + 8 <= |b|
  {
    Limits();
    Field(b, offset, 8)
  }

  function FieldTime(b: seq<byte>, offset: nat): ProtocolTime
    requires offset + 16 <= |b|
  {
    ProtocolTime(Field64(b, offset), Field64(b, offset + 8))
  }

  /** What the first check and the size check of the decoder ask for. */
  predicate Framed(wire: seq<byte>) {
    && |wire| >= HEADER_BYTES
    && Field(wire, 0, 4) == MAGIC
    && Field(wire, 4, 2) == VERSION
    && Field(wire, 6, 2) == HEADER_BYTES
    && Field(wire, 8, 4) == |wire|
    && Field(wire, 28, 4) == 0
    && ValidFftSize(Field(wire, 20, 4))
    && |wire| == WireSize(Field(wire, 20, 4))
  }

  function ReadGaps(wire: seq<byte>, n: nat): (gaps: seq<bv8>)
    requires HEADER_BYTES + n <= |wire|
    ensures |gaps| == n
  {
    seq(n, j requires 0 <= j < n => wire[HEADER_BYTES + j] as bv8)
  }

  function ReadPower(wire: seq<byte>, offset: nat, n: nat): (power: seq<u32>)
    requires offset + 4 * n <= |wire|
    ensures |power| == n
  {
    seq(n, i requires 0 <= i < n => Field32(wire, offset + 4 * i))
  }

  /** The spectrum the fields spell. The sample rate is eight bytes on the wire
      and keeps its low four. */
  function Parsed(wire: seq<byte>): Spectrum
    requires Framed(wire)
  {
    var n := Field32(wire, 20);
    Spectrum(Field32(wire, 12), Field32(wire, 16), Field64(wire, 40) % 0x1_0000_0000, n,
             Field32(wire, 24), Field64(wire, 32),
             FieldTime(wire, 48), FieldTime(wire, 64), FieldTime(wire, 96),
             Field64(wire, 112), Field64(wire, 88), Field64(wire, 120),
             ReadGaps(wire, n / 8), ReadPower(wire, HEADER_BYTES + n / 8, n))
  }

  function Decoded(wire: seq<byte>): Option<Spectrum> {
    if !Framed(wire) then None
    else
      var s := Parsed(wire);
      if !s.Valid() then None
      else
        if Field(wire, 80, 4) == s.fftSize - Missing(s) && Field(wire, 84, 4) == Missing(s) then Some(s) else None
  }

  /** None is the exception on a malformed datagram. */
  method DecodeSpectrum(wire: seq<byte>) returns (r: Option<Spectrum>)
    ensures r == Decoded(wire)
  {
    hide Value, Limit;
    if |wire| < HEADER_BYTES {
      return None;
    }
    var magic := Get(wire, 0, 4);
    var version := Get(wire, 4, 2);
    var headerBytes := Get(wire, 6, 2);
    var size := Get(wire, 8, 4);
    var reserved := Get(wire, 28, 4);
    var fftSize := Get(wire, 20, 4);
    if magic.value != MAGIC || version.value != VERSION || headerBytes.value != HEADER_BYTES
       || size.value != |wire| || reserved.value != 0
       || !ValidFftSize(fftSize.value) || |wire| != WireSize(fftSize.value) {
      return None;
    }
    var result := GetFields(wire);
    if !result.Valid() {
      return None;
    }
    FftSizeMultiple(result.fftSize);
    var missing := MissingCount(result.gaps, result.fftSize);
    var present := Get(wire, 80, 4);
    var absent := Get(wire, 84, 4);
    if present.value != result.fftSize - missing || absent.value != missing {
      return None;
    }
    r := Some(result);
  }

  /** The gap bytes behind the header. */
  method GetGaps(wire: seq<byte>, count: nat) returns (gaps: seq<bv8>)
    requires HEADER_BYTES + count <= |wire|
    ensures gaps == ReadGaps(wire, count)
  {
    var bytes := new bv8[count](i => 0);
    for index := 0 to count
      invariant forall j :: 0 <= j < index ==> bytes[j] == wire[HEADER_BYTES + j] as bv8
    {
      bytes[index] := wire[HEADER_BYTES + index] as bv8;
    }
    assert bytes[..] == ReadGaps(wire, count);
    return bytes[..];
  }

  method GetFields(wire: seq<byte>) returns (s: Spectrum)
    requires Framed(wire)
    ensures s == Parsed(wire)
  {
    hide Value, Limit;
    Limits();
    var streamId := Get(wire, 12, 4);
    var sequence := Get(wire, 16, 4);
    var fftSize := Get(wire, 20, 4);
    var hop := Get(wire, 24, 4);
    var center := Get(wire, 32, 8);
    var sampleRate := Get(wire, 40, 8);
    var begin := GetTime(wire, 48);
    var end := GetTime(wire, 64);
    var discontinuities := Get(wire, 88, 8);
    var epoch := GetTime(wire, 96);
    var ordinal := Get(wire, 112, 8);
    var sequenceGaps := Get(wire, 120, 8);
    var n := fftSize.value;
    var gaps := GetGaps(wire, n / 8);
    var power := GetPower(wire, HEADER_BYTES + n / 8, n);
    s := Spectrum(streamId.value, sequence.value, sampleRate.value % 0x1_0000_0000, n, hop.value, center.value,
                  begin, end, epoch, ordinal.value, discontinuities.value, sequenceGaps.value, gaps, power);
  }

  method GetTime(wire: seq<byte>, offset: nat) returns (t: ProtocolTime)
    requires offset + 16 <= |wire|
    ensures t == FieldTime(wire, offset)
  {
    Limits();
    var seconds := Get(wire, offset, 8);
    var picoseconds := Get(wire, offset + 8, 8);
    t := ProtocolTime(seconds.value, picoseconds.value);
  }

  method GetPower(wire: seq<byte>, powerOffset: nat, n: nat) returns (power: seq<u32>)
    requires powerOffset + 4 * n <= |wire|
    ensures power == ReadPower(wire, powerOffset, n)
  {
    hide Value, Limit;
    Limits();
    var words := new u32[n](i => 0);
    for index := 0 to n
      invariant forall i :: 0 <= i < index ==> words[i] == Field32(wire, powerOffset + 4 * i)
    {
      var word := Get(wire, powerOffset + index * 4, 4);
      words[index] := word.value;
    }
    power := words[..];
  }
}
