/** The records shared by the processor, the wire codec and the detector. */
module SpectrumTypes {

  datatype Option<+T> = None | Some(value: T)

  type byte = x: int | 0 <= x < 0x100
  type u32 = x: int | 0 <= x < 0x1_0000_0000
  type u64 = x: int | 0 <= x < 0x1_0000_0000_0000_0000

  const MIN_FFT := 64
  const MAX_FFT := 2048

  datatype ProtocolTime = ProtocolTime(seconds: u64, picoseconds: u64)

  /** std::has_single_bit */
  predicate HasSingleBit(n: nat) {
    if n <= 1 then n == 1 else n % 2 == 0 && HasSingleBit(n / 2)
  }

  predicate ValidFftSize(n: nat) {
    MIN_FFT <= n <= MAX_FFT && HasSingleBit(n)
  }

  datatype ProcessingConfig = ProcessingConfig(sampleRate: u32, fftSize: u32, overlap: u32) {
    predicate Valid() {
      && 1_000 <= sampleRate <= 2_000_000
      && ValidFftSize(fftSize)
      && overlap < fftSize
      && (overlap == 0 || overlap * 2 == fftSize || overlap * 4 == fftSize * 3)
    }
  }

  /** `a - b` on 32-bit unsigned values. */
  function WrappingMinus(a: u32, b: u32): u32 {
    if a >= b then a - b else a - b + 0x1_0000_0000
  }

  /** `n + 1` on 32-bit unsigned values. */
  function NextSequence(n: u32): u32 {
    if n == 0xffff_ffff then 0 else n + 1
  }

  /** Powers are the 32-bit words of binary32 values (section 3.4 of IEEE 754). */
  predicate IsFinite(word: u32) {
    (word / 0x80_0000) % 0x100 != 0xff
  }

  const NEGATIVE_ZERO: u32 := 0x8000_0000

  /** `std::isfinite(value) && value >= 0`; minus zero passes the comparison. */
  predicate ValidPower(word: u32) {
    IsFinite(word) && word <= NEGATIVE_ZERO
  }

  /** Words of non-negative values are ordered like the values, once the two zeros are one. */
  function Magnitude(word: u32): u32
    requires ValidPower(word)
  {
    if word == NEGATIVE_ZERO then 0 else word
  }

  datatype Spectrum = Spectrum(
    streamId: u32, sequence: u32, sampleRate: u32, fftSize: u32, hop: u32, center: u64,
    begin: ProtocolTime, end: ProtocolTime, epoch: ProtocolTime,
    ordinal: u64, discontinuities: u64, sequenceGaps: u64,
    gaps: seq<bv8>, power: seq<u32>)
  {
    predicate Valid() {
      && ProcessingConfig(sampleRate, fftSize, WrappingMinus(fftSize, hop)).Valid()
      && 1 <= streamId <= 4
      && 1_000_000 <= center <= 6_000_000_000
      && |gaps| == fftSize / 8
      && |power| == fftSize
      && forall i :: 0 <= i < |power| ==> ValidPower(power[i])
    }
  }

  /** A size in the accepted range is a multiple of eight. */
  lemma FftSizeMultiple(n: nat)
    requires ValidFftSize(n)
    ensures n % 8 == 0
  {
    assert HasSingleBit(n / 2) && HasSingleBit(n / 2 / 2);
    assert n % 2 == 0 && (n / 2) % 2 == 0 && (n / 2 / 2) % 2 == 0;
  }
}

/** The bitmap of missing samples: bit 7 of byte 0 is sample 0. */
module GapBitmap {
  import opened SpectrumTypes

  /** `1 << (7 - j)` */
  function Weight(j: nat): bv8
    requires j < 8
  {
    match j
    case 0 => 128
    case 1 => 64
    case 2 => 32
    case 3 => 16
    case 4 => 8
    case 5 => 4
    case 6 => 2
    case _ => 1
  }

  predicate HasBit(b: bv8, j: nat)
    requires j < 8
  {
    b & Weight(j) != 0
  }

  /** `b |= 1 << (7 - j)` */
  function SetBit(b: bv8, j: nat): bv8
    requires j < 8
  {
    b | Weight(j)
  }

  lemma SetBitEffect(b: bv8, j: nat, k: nat)
    requires j < 8 && k < 8
    ensures HasBit(SetBit(b, j), k) <==> k == j || HasBit(b, k)
  {}

  lemma SameBits(a: bv8, b: bv8)
    requires forall j: nat :: j < 8 ==> (HasBit(a, j) <==> HasBit(b, j))
    ensures a == b
  {
    assert HasBit(a, 0) <==> HasBit(b, 0);
    assert HasBit(a, 1) <==> HasBit(b, 1);
    assert HasBit(a, 2) <==> HasBit(b, 2);
    assert HasBit(a, 3) <==> HasBit(b, 3);
    assert HasBit(a, 4) <==> HasBit(b, 4);
    assert HasBit(a, 5) <==> HasBit(b, 5);
    assert HasBit(a, 6) <==> HasBit(b, 6);
    assert HasBit(a, 7) <==> HasBit(b, 7);
  }

  /** Whether the bitmap marks sample i. */
  predicate Marked(gaps: seq<bv8>, i: nat)
    requires i < 8 * |gaps|
  {
    HasBit(gaps[i / 8], i % 8)
  }

  function PackByte(flags: seq<bool>): bv8
    requires |flags| == 8
  {
      (if flags[0] then 128 else 0) | (if flags[1] then 64 else 0)
    | (if flags[2] then 32 else 0) | (if flags[3] then 16 else 0)
    | (if flags[4] then 8 else 0) | (if flags[5] then 4 else 0)
    | (if flags[6] then 2 else 0) | (if flags[7] then 1 else 0)
  }

  /** The bitmap of a list of flags, eight at a time. */
  function Pack(flags: seq<bool>): (gaps: seq<bv8>)
    requires |flags| % 8 == 0
    ensures |gaps| == |flags| / 8
  {
    seq(|flags| / 8, j requires 0 <= j < |flags| / 8 => PackByte(flags[8 * j..8 * j + 8]))
  }

  lemma PackByteBit(flags: seq<bool>, j: nat)
    requires |flags| == 8 && j < 8
    ensures HasBit(PackByte(flags), j) <==> flags[j]
  {}

  lemma PackMarks(flags: seq<bool>, i: nat)
    requires |flags| % 8 == 0 && i < |flags|
    ensures Marked(Pack(flags), i) <==> flags[i]
  {
    var j := i / 8;
    var eight := flags[8 * j..8 * j + 8];
    PackByteBit(eight, i % 8);
    assert eight[i % 8] == flags[8 * j + i % 8];
  }

  /** The marks determine the bitmap. */
  lemma MarksDetermine(a: seq<bv8>, b: seq<bv8>)
    requires |a| == |b|
    requires forall i: nat :: i < 8 * |a| ==> (Marked(a, i) <==> Marked(b, i))
    ensures a == b
  {
    forall j | 0 <= j < |a|
      ensures a[j] == b[j]
    {
      forall k: nat | k < 8
        ensures HasBit(a[j], k) <==> HasBit(b[j], k)
      {
        var i: nat := 8 * j + k;
        assert i / 8 == j && i % 8 == k;
        assert Marked(a, i) <==> Marked(b, i);
      }
      SameBits(a[j], b[j]);
    }
  }

  /** Marking one more sample changes that mark and no other. */
  lemma MarkOne(gaps: seq<bv8>, index: nat, i: nat)
    requires index < 8 * |gaps| && i < 8 * |gaps|
    ensures Marked(gaps[index / 8 := SetBit(gaps[index / 8], index % 8)], i) <==> i == index || Marked(gaps, i)
  {
    if i / 8 == index / 8 {
      SetBitEffect(gaps[index / 8], index % 8, i % 8);
    }
    hide HasBit, SetBit;
  }

  /** How many of the first n samples are marked. */
  function CountMarked(gaps: seq<bv8>, n: nat): (c: nat)
    requires n <= 8 * |gaps|
    ensures c <= n
  {
    if n == 0 then 0 else CountMarked(gaps, n - 1) + if Marked(gaps, n - 1) then 1 else 0
  }

  method MissingCount(gaps: seq<bv8>, size: nat) returns (count: nat)
    requires size <= 8 * |gaps|
    ensures count == CountMarked(gaps, size)
  {
    count := 0;
    for index := 0 to size
      invariant count == CountMarked(gaps, index)
    {
      count := count + if HasBit(gaps[index / 8], index % 8) then 1 else 0;
    }
  }

  /** No sample is missing exactly when every byte of the bitmap is zero. */
  lemma {:induction false} CountZero(gaps: seq<bv8>, n: nat)
    requires n <= 8 * |gaps|
    ensures CountMarked(gaps, n) == 0 <==> forall i: nat :: i < n ==> !Marked(gaps, i)
  {
    if n > 0 {
      CountZero(gaps, n - 1);
      hide HasBit;
    }
  }

  lemma ZeroBytes(gaps: seq<bv8>)
    ensures CountMarked(gaps, 8 * |gaps|) == 0 <==> forall j :: 0 <= j < |gaps| ==> gaps[j] == 0
  {
    CountZero(gaps, 8 * |gaps|);
    if forall i: nat :: i < 8 * |gaps| ==> !Marked(gaps, i) {
      var zeros: seq<bv8> := seq(|gaps|, j => 0);
      forall i: nat | i < 8 * |gaps|
        ensures Marked(gaps, i) <==> Marked(zeros, i)
      {}
      MarksDetermine(gaps, zeros);
    }
  }
}
