/** power_spectrum and detect_frequency: masking, transform, half rotation,
    and the peak that turns a spectrum back into a frequency. */
module PowerSpectrum {
  import opened ComplexNumbers
  import opened Fft
  import opened FftKernel
  import opened Parseval
  import opened SpectrumTypes
  import opened GapBitmap

  datatype Measurement = Measurement(gaps: seq<bv8>, power: seq<u32>)

  /** Missing samples count as zero. */
  function Masked(samples: seq<Complex>, missing: seq<bool>): (x: seq<Complex>)
    requires |samples| == |missing|
    ensures |x| == |samples|
  {
    seq(|samples|, i requires 0 <= i < |samples| => if missing[i] then ZERO else samples[i])
  }

  /** The rotation that puts frequency zero in the middle. */
  function Rotated(n: nat, i: nat): (k: nat)
    requires i < n
    ensures k < n
  {
    (i + n / 2) % n
  }

  /** The squared magnitude of one rotated output, scaled by the squared size. */
  function OutputPower(x: seq<Complex>, w: Complex, i: nat): real
    requires i < |x|
  {
    Norm(DirectSum(x, w, Rotated(|x|, i), |x|)) / Scaled(|x|, |x| as real)
  }

  function Powers(x: seq<Complex>, w: Complex, toFloat: real -> u32): (power: seq<u32>)
    ensures |power| == |x|
  {
    seq(|x|, i requires 0 <= i < |x| => toFloat(OutputPower(x, w, i)))
  }

  function Measure(samples: seq<Complex>, missing: seq<bool>, w: Complex, toFloat: real -> u32): Measurement
    requires |samples| == |missing| && |missing| % 8 == 0
  {
    Measurement(Pack(missing), Powers(Masked(samples, missing), w, toFloat))
  }

  lemma {:induction false} SizeIsPower(n: nat) returns (p: nat)
    requires HasSingleBit(n)
    ensures n == Pow2(p)
  {
    if n == 1 {
      p := 0;
    } else {
      var q := SizeIsPower(n / 2);
      p := q + 1;
    }
  }

  /** The first loop: present samples go to the work array, missing ones to the bitmap. */
  method LoadWindow(samples: seq<Complex>, missing: seq<bool>, values: array<Complex>, gaps: array<bv8>)
    requires |samples| == |missing| == values.Length == 8 * gaps.Length
    requires forall j :: 0 <= j < gaps.Length ==> gaps[j] == 0
    requires forall i :: 0 <= i < values.Length ==> values[i] == ZERO
    modifies values, gaps
    ensures values[..] == Masked(samples, missing) && gaps[..] == Pack(missing)
  {
    hide HasBit, SetBit, Pack;
    AllClear(gaps[..]);
    var index := 0;
    while index < |samples|
      invariant 0 <= index <= |samples|
      invariant forall i: nat :: i < |samples| ==> (Marked(gaps[..], i) <==> i < index && missing[i])
      invariant forall i: nat :: i < |samples| ==> values[i] == if i < index && !missing[i] then samples[i] else ZERO
    {
      if missing[index] {
        ghost var before := gaps[..];
        gaps[index / 8] := SetBit(gaps[index / 8], index % 8);
        assert gaps[..] == before[index / 8 := SetBit(before[index / 8], index % 8)];
        forall i: nat | i < |samples|
          ensures Marked(gaps[..], i) <==> i == index || Marked(before, i)
        {
          MarkOne(before, index, i);
        }
      } else {
        values[index] := samples[index];
      }
      index := index + 1;
    }
    assert values[..] == Masked(samples, missing);
    forall i: nat | i < |samples|
      ensures Marked(gaps[..], i) <==> Marked(Pack(missing), i)
    {
      PackMarks(missing, i);
    }
    MarksDetermine(gaps[..], Pack(missing));
  }

  lemma AllClear(gaps: seq<bv8>)
    requires forall j :: 0 <= j < |gaps| ==> gaps[j] == 0
    ensures forall i: nat :: i < 8 * |gaps| ==> !Marked(gaps, i)
  {}

  /** The last loop: half rotation, squared magnitude and scale. */
  method ScalePowers(values: seq<Complex>, toFloat: real -> u32, ghost x: seq<Complex>, ghost w: Complex)
    returns (power: seq<u32>)
    requires |x| == |values| > 0
    requires forall k :: 0 <= k < |x| ==> values[k] == DirectSum(x, w, k, |x|)
    ensures power == Powers(x, w, toFloat)
  {
    hide DirectSum, Norm, Scaled;
    ScalePositive(|values|);
    var output := new u32[|values|](i => 0);
    var index := 0;
    while index < |values|
      invariant 0 <= index <= |values|
      invariant forall i :: 0 <= i < index ==> output[i] == toFloat(OutputPower(x, w, i))
    {
      var value := values[(index + |values| / 2) % |values|];
      output[index] := toFloat(Norm(value) / Scaled(|values|, |values| as real));
      assert output[index] == toFloat(OutputPower(x, w, index));
      index := index + 1;
    }
    power := output[..];
  }

  lemma ScalePositive(n: nat)
    requires n > 0
    ensures Scaled(n, n as real) > 0.0
  {
    assert n as real * n as real > 0.0;
  }

  /** The transform of one window. `w` is exp(-2 pi i / size), of which only half
      a turn being minus one is used; `toFloat` is the conversion to binary32. */
  method Compute(config: ProcessingConfig, samples: seq<Complex>, missing: seq<bool>,
                 w: Complex, toFloat: real -> u32) returns (r: Option<Measurement>)
    requires config.Valid() ==> Power(w, config.fftSize / 2) == MINUS_ONE
    ensures r.Some? <==> config.Valid() && |samples| == |missing| == config.fftSize
    ensures r.Some? ==> |missing| % 8 == 0 && r.value == Measure(samples, missing, w, toFloat)
  {
    if !config.Valid() || |samples| != config.fftSize || |missing| != config.fftSize {
      return None;
    }
    var size := config.fftSize;
    FftSizeMultiple(size);
    ghost var p := SizeIsPower(size);
    assert p > 0 && size / 2 == Pow2(p - 1);
    hide Power, Pow2, DirectSum, Norm, Powers, Pack;
    var gaps := new bv8[size / 8](i => 0);
    var values := new Complex[size](i => ZERO);
    LoadWindow(samples, missing, values, gaps);
    ghost var x := values[..];
    Transform(values, w, p);
    var power := ScalePowers(values[..], toFloat, x, w);
    r := Some(Measurement(gaps[..], power));
  }
}
