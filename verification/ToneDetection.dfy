/** detect_frequency, and what it finds in the spectrum of a tone. */
module ToneDetection {
  import opened ComplexNumbers
  import opened Arithmetic
  import opened Fft
  import opened Parseval
  import opened SpectrumTypes
  import opened GapBitmap
  import opened PowerSpectrum

  /** The first index of the largest power, as std::max_element finds it. */
  ghost predicate IsPeak(power: seq<u32>, k: nat) {
    && k < |power|
    && (forall i :: 0 <= i < |power| ==> ValidPower(power[i]))
    && (forall i :: 0 <= i < |power| ==> Magnitude(power[i]) <= Magnitude(power[k]))
    && (forall i :: 0 <= i < k ==> Magnitude(power[i]) < Magnitude(power[k]))
  }

  /** The frequency of bin k: the middle bin is the center. */
  function BinFrequency(center: nat, rate: nat, size: nat, k: nat): real
    requires size > 0
  {
    center as real + (k as real - size as real / 2.0) * rate as real / size as real
  }

  /** The index std::max_element stops at among the first n powers. */
  function Peak(power: seq<u32>, n: nat): (k: nat)
    requires 0 < n <= |power| && forall i :: 0 <= i < |power| ==> ValidPower(power[i])
    ensures k < n
    ensures forall i :: 0 <= i < n ==> Magnitude(power[i]) <= Magnitude(power[k])
    ensures forall i :: 0 <= i < k ==> Magnitude(power[i]) < Magnitude(power[k])
  {
    if n == 1 then 0
    else
      var k := Peak(power, n - 1);
      if Magnitude(power[k]) < Magnitude(power[n - 1]) then n - 1 else k
  }

  method MaxElement(power: seq<u32>) returns (k: nat)
    requires |power| > 0 && forall i :: 0 <= i < |power| ==> ValidPower(power[i])
    ensures IsPeak(power, k) && k == Peak(power, |power|)
  {
    k := 0;
    for i := 1 to |power|
      invariant k == Peak(power, i)
    {
      if Magnitude(power[k]) < Magnitude(power[i]) {
        k := i;
      }
    }
  }

  /** The frequency of a valid spectrum: none if samples are missing or all powers are zero. */
  function FrequencyOf(s: Spectrum): Option<real>
    requires s.Valid()
  {
    FftSizeMultiple(s.fftSize);
    if CountMarked(s.gaps, s.fftSize) != 0 then None
    else
      var k := Peak(s.power, s.fftSize);
      if Magnitude(s.power[k]) == 0 then None else Some(BinFrequency(s.center, s.sampleRate, s.fftSize, k))
  }

  /** The outer None is the exception on an invalid spectrum, the inner one "no frequency". */
  method DetectFrequency(s: Spectrum) returns (r: Option<Option<real>>)
    ensures r == if s.Valid() then Some(FrequencyOf(s)) else None
  {
    if !s.Valid() {
      return None;
    }
    hide BinFrequency, HasBit, ProcessingConfig.Valid;
    FftSizeMultiple(s.fftSize);
    var missing := MissingCount(s.gaps, s.fftSize);
    if missing != 0 {
      return Some(None);
    }
    var peak := MaxElement(s.power);
    if Magnitude(s.power[peak]) == 0 {
      return Some(None);
    }
    r := Some(Some(BinFrequency(s.center, s.sampleRate, s.fftSize, peak)));
  }

  /** A frequency is found exactly when nothing is missing and some power is not
      zero, and it is the one of the first strongest bin. */
  lemma FrequencyMeaning(s: Spectrum, k: nat)
    requires s.Valid() && IsPeak(s.power, k)
    ensures s.fftSize == 8 * |s.gaps|
    ensures FrequencyOf(s).Some? <==>
      (forall i: nat :: i < s.fftSize ==> !Marked(s.gaps, i)) && exists i :: 0 <= i < |s.power| && Magnitude(s.power[i]) != 0
    ensures FrequencyOf(s).Some? ==> FrequencyOf(s).value == BinFrequency(s.center, s.sampleRate, s.fftSize, k)
  {
    FftSizeMultiple(s.fftSize);
    CountZero(s.gaps, s.fftSize);
    var peak := Peak(s.power, s.fftSize);
    assert IsPeak(s.power, peak);
    PeakUnique(s.power, peak, k);
    assert forall i :: 0 <= i < |s.power| ==> Magnitude(s.power[i]) <= Magnitude(s.power[peak]);
    hide Marked, ValidPower, BinFrequency;
  }

  lemma PeakUnique(power: seq<u32>, j: nat, k: nat)
    requires IsPeak(power, j) && IsPeak(power, k)
    ensures j == k
  {
    assert Magnitude(power[j]) <= Magnitude(power[k]) <= Magnitude(power[j]);
  }

  // ----- Tones -----

  /** Bins above the middle are negative frequencies. */
  function SignedBin(size: nat, b: nat): int {
    if b < size / 2 then b else b - size
  }

  /** The center plus the signed bin times the bin width. */
  function ToneFrequency(center: nat, rate: nat, size: nat, b: nat): real
    requires size > 0
  {
    center as real + SignedBin(size, b) as real * rate as real / size as real
  }

  /** The samples a w^(-b n) of a tone on bin b. */
  ghost predicate IsTone(x: seq<Complex>, a: Complex, w: Complex, b: nat) {
    forall n :: 0 <= n < |x| ==> x[n] == Times(a, Power(ToneStep(w, b), n))
  }

  lemma ToneIsTone(x: seq<Complex>, a: Complex, w: Complex, b: nat)
    requires IsTone(x, a, w, b)
    ensures x == Tone(a, ToneStep(w, b), |x|)
  {
    var tone := Tone(a, ToneStep(w, b), |x|);
    forall n | 0 <= n < |x|
      ensures x[n] == tone[n]
    {
      ToneSample(a, ToneStep(w, b), |x|, n);
    }
  }

  lemma PowersOfTwoAreEven(p: nat)
    requires p > 0
    ensures Pow2(p) == 2 * Pow2(p - 1)
  {}

  /** The rotation swaps the halves, so it undoes itself. */
  lemma RotatedHalf(n: nat, h: nat, i: nat)
    requires n == 2 * h && i < n
    ensures Rotated(n, i) == if i < h then i + h else i - h
    ensures Rotated(n, Rotated(n, i)) == i
  {
    RotatedOnce(n, h, i);
    RotatedOnce(n, h, Rotated(n, i));
  }

  lemma RotatedOnce(n: nat, h: nat, i: nat)
    requires n == 2 * h && i < n
    ensures Rotated(n, i) == if i < h then i + h else i - h
  {
    if i < h {
      DivMod(n, 0, i + h);
    } else {
      DivMod(n, 1, i - h);
    }
  }

  /** The output that bin i shows, as an evaluated polynomial. */
  lemma OutputPowerAt(x: seq<Complex>, w: Complex, i: nat)
    requires i < |x|
    ensures Scaled(|x|, |x| as real) > 0.0
    ensures OutputPower(x, w, i) == Norm(Evaluate(x, Power(w, Rotated(|x|, i)))) / Scaled(|x|, |x| as real)
  {
    ScalePositive(|x|);
    hide Norm, Evaluate, DirectSum, Power, Scaled, Rotated;
    EvaluateIsDirectSum(x, w, Rotated(|x|, i), |x|);
    assert x[..|x|] == x;
  }

  /** All of a tone's power, |a|^2, is in its own bin. */
  lemma TonePower(x: seq<Complex>, a: Complex, w: Complex, p: nat, b: nat, i: nat)
    requires |x| == Pow2(p) && p > 0 && Norm(w) == 1.0 && Primitive(w, p)
    requires b < |x| && i < |x| && IsTone(x, a, w, b)
    ensures OutputPower(x, w, i) == if i == Rotated(|x|, b) then Norm(a) else 0.0
  {
    hide *;
    PowersOfTwoAreEven(p);
    ToneIsTone(x, a, w, b);
    MultipleLaws(|x|, a);
    NormNonNegative(ZERO);
    RotatedHalf(|x|, Pow2(p - 1), i);
    RotatedHalf(|x|, Pow2(p - 1), b);
    OutputPowerAt(x, w, i);
    ToneOutput(a, w, p, b, Rotated(|x|, i));
    ScaledQuotient(|x|, Norm(a));
  }

  lemma ScaledQuotient(n: nat, x: real)
    requires n > 0
    ensures Scaled(n, n as real) > 0.0
    ensures Scaled(n, Scaled(n, x)) / Scaled(n, n as real) == x
    ensures 0.0 / Scaled(n, n as real) == 0.0
  {
    ScalePositive(n);
    var d := Scaled(n, n as real);
    assert Scaled(n, Scaled(n, x)) == d * x by { Reassociate(n as real, x); }
    hide Scaled;
    QuotientOfProduct(d, x);
  }

  lemma Reassociate(n: real, x: real)
    ensures n * (n * x) == (n * n) * x
  {}

  lemma QuotientOfProduct(d: real, x: real)
    requires d > 0.0
    ensures d * x / d == x
  {}

  /** The spectrum of an ungapped tone peaks at its bin, and the peak reads back as
      the center plus the signed bin times the bin width. */
  lemma ToneDetected(x: seq<Complex>, a: Complex, w: Complex, p: nat, b: nat, toFloat: real -> u32,
                     center: nat, rate: nat, k: nat)
    requires |x| == Pow2(p) && p > 0 && Norm(w) == 1.0 && Primitive(w, p)
    requires b < |x| && IsTone(x, a, w, b)
    requires toFloat(0.0) == 0 && ValidPower(toFloat(Norm(a))) && Magnitude(toFloat(Norm(a))) != 0
    ensures IsPeak(Powers(x, w, toFloat), k) <==> k == Rotated(|x|, b)
    ensures BinFrequency(center, rate, |x|, Rotated(|x|, b)) == ToneFrequency(center, rate, |x|, b)
    ensures Powers(x, w, toFloat)[Rotated(|x|, b)] == toFloat(Norm(a))
  {
    hide *;
    var power, peak := Powers(x, w, toFloat), Rotated(|x|, b);
    PowersOfTwoAreEven(p);
    TonePowers(x, a, w, p, b, toFloat);
    PeakAlone(power, peak, k);
    PeakFrequency(center, rate, |x|, Pow2(p - 1), b);
  }

  /** The spectrum measured from a window that is a tone, with nothing missing, is answered
      with exactly the center plus the signed bin times the bin width, unless the power of
      the tone is too small for the conversion. */
  lemma ToneReported(s: Spectrum, samples: seq<Complex>, missing: seq<bool>, a: Complex, w: Complex, p: nat, b: nat,
                     toFloat: real -> u32)
    requires s.Valid() && |samples| == |missing| == s.fftSize && |missing| % 8 == 0
    requires s.gaps == Measure(samples, missing, w, toFloat).gaps && s.power == Measure(samples, missing, w, toFloat).power
    requires forall i :: 0 <= i < |missing| ==> !missing[i]
    requires |samples| == Pow2(p) && p > 0 && Norm(w) == 1.0 && Primitive(w, p)
    requires b < |samples| && IsTone(samples, a, w, b) && toFloat(0.0) == 0
    ensures ValidPower(toFloat(Norm(a)))
    ensures FrequencyOf(s)
         == if Magnitude(toFloat(Norm(a))) == 0 then None
            else Some(ToneFrequency(s.center, s.sampleRate, s.fftSize, b))
  {
    hide *;
    MeasuredWhole(s, samples, missing, w, toFloat);
    TonePowers(samples, a, w, p, b, toFloat);
    PowersValid(s);
    PeakOf(s);
    var k: nat :| IsPeak(s.power, k);
    NothingMarked(s, missing);
    FrequencyMeaning(s, k);
    var peak := Rotated(|samples|, b);
    assert s.power[peak] == toFloat(Norm(a));
    if Magnitude(s.power[peak]) != 0 {
      ToneDetected(samples, a, w, p, b, toFloat, s.center, s.sampleRate, k);
    } else {
      ZeroPower();
      assert forall i: nat :: i < |s.power| ==> Magnitude(s.power[i]) == 0;
    }
  }

  lemma MeasuredWhole(s: Spectrum, samples: seq<Complex>, missing: seq<bool>, w: Complex, toFloat: real -> u32)
    requires |samples| == |missing| && |missing| % 8 == 0
    requires s.gaps == Measure(samples, missing, w, toFloat).gaps && s.power == Measure(samples, missing, w, toFloat).power
    requires forall i :: 0 <= i < |missing| ==> !missing[i]
    ensures s.gaps == Pack(missing) && s.power == Powers(samples, w, toFloat)
  {
    assert Masked(samples, missing) == samples;
    hide Pack, Powers;
  }

  lemma ZeroPower()
    ensures Magnitude(0) == 0
  {}

  lemma PowersValid(s: Spectrum)
    requires s.Valid()
    ensures |s.power| == s.fftSize > 0 && forall i: nat :: i < |s.power| ==> ValidPower(s.power[i])
  {}

  lemma PeakOf(s: Spectrum)
    requires s.Valid()
    ensures exists k: nat :: IsPeak(s.power, k)
  {
    FftSizeMultiple(s.fftSize);
    assert IsPeak(s.power, Peak(s.power, s.fftSize));
  }

  lemma NothingMarked(s: Spectrum, missing: seq<bool>)
    requires |missing| % 8 == 0 && s.gaps == Pack(missing) && |missing| == s.fftSize
    requires forall i :: 0 <= i < |missing| ==> !missing[i]
    ensures s.fftSize <= 8 * |s.gaps| && forall i: nat :: i < s.fftSize ==> !Marked(s.gaps, i)
  {
    forall i: nat | i < s.fftSize ensures !Marked(s.gaps, i) {
      PackMarks(missing, i);
    }
  }

  lemma TonePowers(x: seq<Complex>, a: Complex, w: Complex, p: nat, b: nat, toFloat: real -> u32)
    requires |x| == Pow2(p) && p > 0 && Norm(w) == 1.0 && Primitive(w, p)
    requires b < |x| && IsTone(x, a, w, b) && toFloat(0.0) == 0
    ensures forall i: nat :: i < |x| ==> Powers(x, w, toFloat)[i] == if i == Rotated(|x|, b) then toFloat(Norm(a)) else 0
  {
    hide *;
    forall i: nat | i < |x|
      ensures Powers(x, w, toFloat)[i] == if i == Rotated(|x|, b) then toFloat(Norm(a)) else 0
    {
      TonePower(x, a, w, p, b, i);
      PowersAt(x, w, toFloat, i);
    }
  }

  lemma PowersAt(x: seq<Complex>, w: Complex, toFloat: real -> u32, i: nat)
    requires i < |x|
    ensures Powers(x, w, toFloat)[i] == toFloat(OutputPower(x, w, i))
  {
    hide OutputPower;
  }

  lemma PeakAlone(power: seq<u32>, peak: nat, k: nat)
    requires peak < |power|
    requires ValidPower(power[peak]) && Magnitude(power[peak]) != 0
    requires forall i :: 0 <= i < |power| && i != peak ==> power[i] == 0
    ensures IsPeak(power, k) <==> k == peak
  {
    assert ValidPower(0) && Magnitude(0) == 0;
    if IsPeak(power, k) {
      assert Magnitude(power[peak]) <= Magnitude(power[k]);
    }
  }

  lemma PeakFrequency(center: nat, rate: nat, n: nat, h: nat, b: nat)
    requires n == 2 * h && b < n
    ensures BinFrequency(center, rate, n, Rotated(n, b)) == ToneFrequency(center, rate, n, b)
  {
    RotatedHalf(n, h, b);
    hide Rotated;
    assert Rotated(n, b) as real - n as real / 2.0 == SignedBin(n, b) as real;
  }

  // ----- Energy -----

  /** The powers of the first n bins together. */
  function TotalPower(x: seq<Complex>, w: Complex, n: nat): real
    requires n <= |x|
  {
    if n == 0 then 0.0 else TotalPower(x, w, n - 1) + OutputPower(x, w, n - 1)
  }

  /** The outputs the first n bins show: the upper half of them comes first. */
  function ShownEnergy(x: seq<Complex>, w: Complex, h: nat, n: nat): real {
    if n <= h then OutputEnergy(x, w, h, n) else OutputEnergy(x, w, h, h) + OutputEnergy(x, w, 0, n - h)
  }

  lemma ShownEnergyStep(x: seq<Complex>, w: Complex, h: nat, n: nat)
    requires |x| == 2 * h && n < |x|
    ensures ShownEnergy(x, w, h, n + 1) == ShownEnergy(x, w, h, n) + Norm(Evaluate(x, Power(w, Rotated(|x|, n))))
  {
    RotatedHalf(|x|, h, n);
    hide Norm, Evaluate, Power, Rotated;
    if n >= h {
      assert n + 1 - h == n - h + 1 && OutputEnergy(x, w, 0, 0) == 0.0;
    }
  }

  lemma {:induction false} TotalPowerIsEnergy(x: seq<Complex>, w: Complex, h: nat, n: nat)
    requires |x| == 2 * h > 0 && n <= |x|
    ensures Scaled(|x|, |x| as real) > 0.0
    ensures TotalPower(x, w, n) == ShownEnergy(x, w, h, n) / Scaled(|x|, |x| as real)
  {
    hide Scaled, Norm, Evaluate, Power, Rotated;
    ScalePositive(|x|);
    var d := Scaled(|x|, |x| as real);
    if n == 0 {
      assert ShownEnergy(x, w, h, 0) == 0.0;
      QuotientSum(d, 0.0, 0.0);
    } else {
      TotalPowerIsEnergy(x, w, h, n - 1);
      OutputPowerAt(x, w, n - 1);
      ShownEnergyStep(x, w, h, n - 1);
      hide OutputPower, ShownEnergy;
      QuotientSum(d, ShownEnergy(x, w, h, n - 1), Norm(Evaluate(x, Power(w, Rotated(|x|, n - 1)))));
    }
  }

  lemma QuotientSum(d: real, a: real, b: real)
    requires d > 0.0
    ensures (a + b) / d == a / d + b / d && 0.0 / d == 0.0
  {}

  /** For a unit root the powers add up to the mean energy of a sample. */
  lemma PowerConservesEnergy(x: seq<Complex>, w: Complex, p: nat)
    requires |x| == Pow2(p) && p > 0 && Norm(w) == 1.0 && Primitive(w, p)
    ensures Scaled(|x|, TotalPower(x, w, |x|)) == Energy(x)
  {
    var h, n := Pow2(p - 1), |x|;
    PowersOfTwoAreEven(p);
    assert ShownEnergy(x, w, h, n) == OutputEnergy(x, w, h, h) + OutputEnergy(x, w, 0, h) by {
      hide OutputEnergy;
      assert OutputEnergy(x, w, 0, 0) == 0.0 by { NoOutputs(x, w); }
    }
    hide *;
    TotalPowerIsEnergy(x, w, h, n);
    OutputEnergySplit(x, w, h, h);
    EnergyPreserved(x, w, p);
    MeanTimesCount(n, Energy(x));
  }

  lemma NoOutputs(x: seq<Complex>, w: Complex)
    ensures OutputEnergy(x, w, 0, 0) == 0.0
  {}

  lemma MeanTimesCount(n: nat, e: real)
    requires n > 0
    ensures Scaled(n, n as real) > 0.0
    ensures Scaled(n, Scaled(n, e) / Scaled(n, n as real)) == e
  {
    ScalePositive(n);
    var r := n as real;
    var mean := Scaled(n, e) / Scaled(n, r);
    assert mean * (r * r) == r * e;
    Cancel(r, r * mean, e);
  }

  lemma Cancel(n: real, u: real, v: real)
    requires n > 0.0 && n * u == n * v
    ensures u == v
  {}

  lemma OutputPowerNonNegative(x: seq<Complex>, w: Complex, i: nat)
    requires i < |x|
    ensures OutputPower(x, w, i) >= 0.0
  {
    ScalePositive(|x|);
    NormNonNegative(DirectSum(x, w, Rotated(|x|, i), |x|));
    hide Norm, DirectSum, Scaled, Rotated;
    QuotientSign(Norm(DirectSum(x, w, Rotated(|x|, i), |x|)), Scaled(|x|, |x| as real));
  }

  lemma QuotientSign(a: real, d: real)
    requires a >= 0.0 && d > 0.0
    ensures a / d >= 0.0
  {}

  lemma {:induction false} OnePowerOfTotal(x: seq<Complex>, w: Complex, n: nat, i: nat)
    requires i < n <= |x|
    ensures 0.0 <= OutputPower(x, w, i) <= TotalPower(x, w, n)
  {
    hide OutputPower;
    OutputPowerNonNegative(x, w, i);
    if i < n - 1 {
      OnePowerOfTotal(x, w, n - 1, i);
      OutputPowerNonNegative(x, w, n - 1);
    } else {
      TotalPowerNonNegative(x, w, n - 1);
    }
  }

  lemma {:induction false} TotalPowerNonNegative(x: seq<Complex>, w: Complex, n: nat)
    requires n <= |x|
    ensures TotalPower(x, w, n) >= 0.0
  {
    hide OutputPower;
    if n > 0 {
      TotalPowerNonNegative(x, w, n - 1);
      OutputPowerNonNegative(x, w, n - 1);
    }
  }

  lemma {:induction false} EnergyBounded(x: seq<Complex>, bound: real)
    requires forall i :: 0 <= i < |x| ==> Norm(x[i]) <= bound
    ensures Energy(x) <= Scaled(|x|, bound)
  {
    hide Norm;
    if x == [] {
      assert Scaled(0, bound) == 0.0;
    } else {
      EnergyBounded(x[1..], bound);
      assert Scaled(|x|, bound) == Scaled(|x| - 1, bound) + bound;
    }
  }

  /** If no sample has more than this squared magnitude, no bin has more power. */
  lemma PowerBounded(x: seq<Complex>, w: Complex, p: nat, bound: real, i: nat)
    requires |x| == Pow2(p) && p > 0 && Norm(w) == 1.0 && Primitive(w, p)
    requires forall i :: 0 <= i < |x| ==> Norm(x[i]) <= bound
    requires i < |x|
    ensures 0.0 <= OutputPower(x, w, i) <= bound
  {
    hide *;
    PowerConservesEnergy(x, w, p);
    EnergyBounded(x, bound);
    OnePowerOfTotal(x, w, |x|, i);
    ScaledOrder(|x|, TotalPower(x, w, |x|), bound);
  }

  lemma ScaledOrder(n: nat, a: real, b: real)
    requires n > 0 && Scaled(n, a) <= Scaled(n, b)
    ensures a <= b
  {
    var r := n as real;
    assert r * (b - a) >= 0.0;
    if a > b {
      SignedProduct(r, a - b);
    }
  }

  lemma SignedProduct(a: real, b: real)
    requires a > 0.0 && b > 0.0
    ensures a * b > 0.0
  {}
}
