/** What the transform does to energy, and to a tone that sits on a bin. */
module Parseval {
  import opened ComplexNumbers
  import opened Fft

  function Energy(s: seq<Complex>): real {
    if s == [] then 0.0 else Norm(s[0]) + Energy(s[1..])
  }

  /** The energy of the outputs from, from + 1, ..., from + n - 1. */
  function OutputEnergy(s: seq<Complex>, w: Complex, from: nat, n: nat): real {
    if n == 0 then 0.0
    else OutputEnergy(s, w, from, n - 1) + Norm(Evaluate(s, Power(w, from + n - 1)))
  }

  lemma {:induction false} OutputEnergySplit(s: seq<Complex>, w: Complex, m: nat, n: nat)
    ensures OutputEnergy(s, w, 0, m + n) == OutputEnergy(s, w, 0, m) + OutputEnergy(s, w, m, n)
  {
    hide Norm, Evaluate, Power;
    if n > 0 {
      OutputEnergySplit(s, w, m, n - 1);
      assert m + n - 1 == m + (n - 1);
    }
  }

  lemma {:induction false} EnergySplit(s: seq<Complex>)
    ensures Energy(s) == Energy(Evens(s)) + Energy(Odds(s))
  {
    hide Norm;
    if s != [] {
      EnergySplit(s[1..]);
      assert Evens(s)[1..] == Odds(s[1..]);
      assert Odds(s) == Evens(s[1..]);
    }
  }

  /** Outputs k and k + half together carry twice the energy of the two half-size
      outputs they are made of. */
  lemma PairEnergy(s: seq<Complex>, w: Complex, half: nat, k: nat)
    requires Norm(w) == 1.0 && Power(w, half) == MINUS_ONE
    ensures Norm(Evaluate(s, Power(w, k))) + Norm(Evaluate(s, Power(w, half + k)))
         == 2.0 * (Norm(Evaluate(Evens(s), Power(Times(w, w), k))) + Norm(Evaluate(Odds(s), Power(Times(w, w), k))))
  {
    var z := Power(w, k);
    NormPower(w, k);
    PowerAdd(w, k, half);
    PowerOfProduct(w, w, k);
    EvaluateSplit(s, z);
    EvaluateSplit(s, Times(z, MINUS_ONE));
    hide *;
    var e, o := Evaluate(Evens(s), Times(z, z)), Evaluate(Odds(s), Times(z, z));
    NegatedFactor(e, z, o);
    ButterflyEnergy(e, z, o);
    assert half + k == k + half;
  }

  lemma {:induction false} HalfEnergy(s: seq<Complex>, w: Complex, half: nat, n: nat)
    requires Norm(w) == 1.0 && Power(w, half) == MINUS_ONE
    ensures OutputEnergy(s, w, 0, n) + OutputEnergy(s, w, half, n)
         == 2.0 * (OutputEnergy(Evens(s), Times(w, w), 0, n) + OutputEnergy(Odds(s), Times(w, w), 0, n))
  {
    hide Norm, Evaluate, Power, Times, Evens, Odds;
    if n > 0 {
      HalfEnergy(s, w, half, n - 1);
      PairEnergy(s, w, half, n - 1);
      assert half + n - 1 == half + (n - 1);
    }
  }

  function Scaled(n: nat, x: real): real {
    n as real * x
  }

  lemma ScaledDouble(n: nat, x: real, y: real)
    ensures 2.0 * (Scaled(n, x) + Scaled(n, y)) == Scaled(2 * n, x + y)
  {}

  /** w generates the transform of size 2^p: half a turn is minus one. */
  predicate Primitive(w: Complex, p: nat) {
    p > 0 ==> Power(w, Pow2(p - 1)) == MINUS_ONE
  }

  lemma PrimitiveSquare(w: Complex, p: nat)
    requires p > 0 && Primitive(w, p)
    ensures Primitive(Times(w, w), p - 1)
  {
    hide Times, Power;
    if p > 1 {
      PowerOfProduct(w, w, Pow2(p - 2));
      PowerAdd(w, Pow2(p - 2), Pow2(p - 2));
    }
  }

  /** Parseval: the outputs carry exactly size times the energy of the input. */
  lemma {:induction false} EnergyPreserved(s: seq<Complex>, w: Complex, p: nat)
    requires |s| == Pow2(p) && Norm(w) == 1.0 && Primitive(w, p)
    ensures OutputEnergy(s, w, 0, Pow2(p)) == Scaled(Pow2(p), Energy(s))
    decreases p
  {
    if p == 0 {
      assert s == [s[0]] && s[1..] == [];
      EvaluateOne(s);
      assert OutputEnergy(s, w, 0, 1) == OutputEnergy(s, w, 0, 0) + Norm(Evaluate(s, Power(w, 0)));
    } else {
      var half := Pow2(p - 1);
      NormTimes(w, w);
      PrimitiveSquare(w, p);
      EnergySplit(s);
      hide Norm, Evaluate, Power, Times, Evens, Odds, Scaled;
      OutputEnergySplit(s, w, half, half);
      HalfEnergy(s, w, half, half);
      EnergyPreserved(Evens(s), Times(w, w), p - 1);
      EnergyPreserved(Odds(s), Times(w, w), p - 1);
      ScaledDouble(half, Energy(Evens(s)), Energy(Odds(s)));
    }
  }

  lemma EvaluateOne(s: seq<Complex>)
    requires |s| == 1
    ensures Evaluate(s, ONE) == s[0]
  {
    EvaluateSingle(s, ONE);
  }

  lemma {:induction false} OutputEnergyNonNegative(s: seq<Complex>, w: Complex, from: nat, n: nat)
    ensures OutputEnergy(s, w, from, n) >= 0.0
  {
    if n > 0 {
      OutputEnergyNonNegative(s, w, from, n - 1);
      NormNonNegative(Evaluate(s, Power(w, from + n - 1)));
      hide Norm, Evaluate, Power;
    }
  }

  /** Two different outputs carry no more than all of them. */
  lemma {:induction false} TwoOutputs(s: seq<Complex>, w: Complex, n: nat, a: nat, b: nat)
    requires a < n && b < n && a != b
    ensures Norm(Evaluate(s, Power(w, a))) + Norm(Evaluate(s, Power(w, b))) <= OutputEnergy(s, w, 0, n)
  {
    hide Evaluate, Power;
    NormNonNegative(Evaluate(s, Power(w, n - 1)));
    hide Norm;
    if a == n - 1 {
      OneOutput(s, w, n - 1, b);
    } else if b == n - 1 {
      OneOutput(s, w, n - 1, a);
    } else {
      TwoOutputs(s, w, n - 1, a, b);
    }
  }

  lemma {:induction false} OneOutput(s: seq<Complex>, w: Complex, n: nat, a: nat)
    requires a < n
    ensures Norm(Evaluate(s, Power(w, a))) <= OutputEnergy(s, w, 0, n)
  {
    hide Evaluate, Power;
    NormNonNegative(Evaluate(s, Power(w, n - 1)));
    OutputEnergyNonNegative(s, w, 0, n - 1);
    hide Norm;
    if a < n - 1 {
      OneOutput(s, w, n - 1, a);
    }
  }

  // ----- A tone -----

  /** a, a u, a u^2, ... */
  function Tone(a: Complex, u: Complex, n: nat): (s: seq<Complex>)
    ensures |s| == n
    decreases n
  {
    if n == 0 then [] else [a] + Tone(Times(a, u), u, n - 1)
  }

  lemma {:induction false} ToneSample(a: Complex, u: Complex, n: nat, i: nat)
    requires i < n
    ensures Tone(a, u, n)[i] == Times(a, Power(u, i))
    decreases n
  {
    hide Times;
    if i == 0 {
      TimesOne(a);
    } else {
      ToneSample(Times(a, u), u, n - 1, i - 1);
      TimesAssociative(a, u, Power(u, i - 1));
    }
  }

  function Multiple(n: nat, a: Complex): Complex {
    Complex(n as real * a.re, n as real * a.im)
  }

  lemma MultipleLaws(n: nat, a: Complex)
    ensures Multiple(0, a) == ZERO
    ensures Multiple(n + 1, a) == Plus(a, Multiple(n, a))
    ensures Norm(Multiple(n, a)) == Scaled(n, Scaled(n, Norm(a)))
  {
    MultipleNorm(n as real, a.re, a.im);
    assert n as real * (n as real * Norm(a)) == Scaled(n, Scaled(n, Norm(a)));
  }

  lemma MultipleNorm(n: real, x: real, y: real)
    ensures Product(n * x, n * x) + Product(n * y, n * y) == n * (n * (Product(x, x) + Product(y, y)))
  {}

  lemma TimesMultiple(z: Complex, n: nat, a: Complex)
    ensures Times(z, Multiple(n, a)) == Multiple(n, Times(z, a))
  {}

  /** At its own frequency a tone adds up in phase. */
  lemma {:induction false} ToneResonance(a: Complex, u: Complex, z: Complex, n: nat)
    requires Times(u, z) == ONE
    ensures Evaluate(Tone(a, u, n), z) == Multiple(n, a)
    decreases n
  {
    hide Times, Multiple, Plus;
    if n == 0 {
      MultipleLaws(0, a);
    } else {
      var rest := Tone(Times(a, u), u, n - 1);
      assert Tone(a, u, n)[1..] == rest;
      ToneResonance(Times(a, u), u, z, n - 1);
      TimesMultiple(z, n - 1, Times(a, u));
      TimesCommutative(z, Times(a, u));
      TimesAssociative(a, u, z);
      TimesOne(a);
      MultipleLaws(n - 1, a);
    }
  }

  lemma {:induction false} ToneEnergy(a: Complex, u: Complex, n: nat)
    requires Norm(u) == 1.0
    ensures Energy(Tone(a, u, n)) == Scaled(n, Norm(a))
    decreases n
  {
    if n > 0 {
      NormTimes(a, u);
      assert Norm(Times(a, u)) == Norm(a);
      hide Times, Norm;
      ToneEnergy(Times(a, u), u, n - 1);
      assert Tone(a, u, n)[1..] == Tone(Times(a, u), u, n - 1);
    }
  }

  /** The step of the tone on bin b, w^(-b): it turns against the transform. */
  function ToneStep(w: Complex, b: nat): Complex {
    Power(Conjugate(w), b)
  }

  lemma ToneStepLaws(w: Complex, b: nat)
    requires Norm(w) == 1.0
    ensures Norm(ToneStep(w, b)) == 1.0 && Times(ToneStep(w, b), Power(w, b)) == ONE
  {
    ConjugateInverse(w);
    hide Times, Norm;
    NormPower(Conjugate(w), b);
    PowerOfProduct(Conjugate(w), w, b);
    PowerOfOne(b);
  }

  /** A tone on bin b leaves nothing in any other bin: bin b alone already holds
      all the energy there is. */
  lemma ToneOutput(a: Complex, w: Complex, p: nat, b: nat, k: nat)
    requires Norm(w) == 1.0 && Primitive(w, p) && b < Pow2(p) && k < Pow2(p)
    ensures
      var output := Evaluate(Tone(a, ToneStep(w, b), Pow2(p)), Power(w, k));
      output == if k == b then Multiple(Pow2(p), a) else ZERO
  {
    var n, u := Pow2(p), ToneStep(w, b);
    var tone := Tone(a, u, n);
    ToneStepLaws(w, b);
    ToneResonance(a, u, Power(w, b), n);
    if k != b {
      ToneEnergy(a, u, n);
      MultipleLaws(n, a);
      EnergyPreserved(tone, w, p);
      NormNonNegative(Evaluate(tone, Power(w, k)));
      hide *;
      TwoOutputs(tone, w, n, b, k);
    }
  }
}
