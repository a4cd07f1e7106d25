/** The radix-2 transform of power_spectrum: bit-reversal swaps, then butterfly
    stages, both in place. The specification is the direct sum over all samples,
    reached through polynomial evaluation: the k-th output is the polynomial
    with the samples as coefficients, evaluated at w^k. */
module Fft {
  import opened ComplexNumbers
  import opened Arithmetic

  // ----- Powers of two and bit reversal -----

  function Pow2(n: nat): (r: nat)
    ensures r > 0
  {
    if n == 0 then 1 else 2 * Pow2(n - 1)
  }

  lemma {:induction false} Pow2Add(m: nat, n: nat)
    ensures Pow2(m + n) == Pow2(m) * Pow2(n)
  {
    if m > 0 {
      Pow2Add(m - 1, n);
    }
  }

  /** The value of digit b at bit position n. */
  function Bit(b: nat, n: nat): nat
    requires b < 2
  {
    if b == 0 then 0 else Pow2(n)
  }

  /** i with its lowest p bits in reverse order. */
  function Reverse(p: nat, i: nat): (r: nat)
    requires i < Pow2(p)
    ensures r < Pow2(p)
  {
    if p == 0 then 0 else Bit(i % 2, p - 1) + Reverse(p - 1, i / 2)
  }

  /** The same number, read from the top bit of i instead of the bottom one. */
  lemma {:induction false} ReverseTop(p: nat, low: nat, high: nat)
    requires p > 0 && low < Pow2(p - 1) && high < 2
    ensures low + Bit(high, p - 1) < Pow2(p)
    ensures Reverse(p, low + Bit(high, p - 1)) == 2 * Reverse(p - 1, low) + high
  {
    if p > 1 {
      HalveBit(low, high, p - 1);
      ReverseTop(p - 1, low / 2, high);
    }
  }

  lemma HalveBit(low: nat, high: nat, n: nat)
    requires high < 2 && n > 0
    ensures (low + Bit(high, n)) % 2 == low % 2
    ensures (low + Bit(high, n)) / 2 == low / 2 + Bit(high, n - 1)
  {}

  /** Bit reversal undoes itself. */
  lemma {:induction false} ReverseInvolution(p: nat, i: nat)
    requires i < Pow2(p)
    ensures Reverse(p, Reverse(p, i)) == i
  {
    if p > 0 {
      ReverseInvolution(p - 1, i / 2);
      ReverseTop(p, Reverse(p - 1, i / 2), i % 2);
    }
  }

  /** Adding one from the top: clear the leading ones, set the first zero. */
  function ReverseIncrement(p: nat, r: nat): nat
    requires r + 1 < Pow2(p)
  {
    if r >= Pow2(p - 1) then ReverseIncrement(p - 1, r - Pow2(p - 1)) else r + Pow2(p - 1)
  }

  lemma {:induction false} ReverseSuccessor(p: nat, i: nat)
    requires i + 1 < Pow2(p)
    ensures Reverse(p, i) + 1 < Pow2(p)
    ensures Reverse(p, i + 1) == ReverseIncrement(p, Reverse(p, i))
  {
    if i % 2 == 1 {
      assert (i + 1) / 2 == i / 2 + 1;
      ReverseSuccessor(p - 1, i / 2);
    }
  }

  // ----- The discrete Fourier transform as polynomial evaluation -----

  /** s[0] + s[1] z + s[2] z^2 + ... */
  function Evaluate(s: seq<Complex>, z: Complex): Complex {
    if s == [] then ZERO else Plus(s[0], Times(z, Evaluate(s[1..], z)))
  }

  /** The transform as its textbook sum, s[0] w^(0 k) + ... + s[n-1] w^((n-1) k). */
  function DirectSum(s: seq<Complex>, w: Complex, k: nat, n: nat): Complex
    requires n <= |s|
  {
    if n == 0 then ZERO else Plus(DirectSum(s, w, k, n - 1), Times(s[n - 1], Power(w, (n - 1) * k)))
  }

  lemma {:induction false} EvaluateSnoc(s: seq<Complex>, a: Complex, z: Complex)
    ensures Evaluate(s + [a], z) == Plus(Evaluate(s, z), Times(a, Power(z, |s|)))
  {
    hide Plus, Times;
    if s == [] {
      assert s + [a] == [a];
      assert [a][1..] == [];
      PlusZero(z);
      PlusZero(a);
      PlusZero(Times(a, ONE));
      TimesOne(a);
    } else {
      assert (s + [a])[1..] == s[1..] + [a];
      EvaluateSnoc(s[1..], a, z);
      var rest, power := Evaluate(s[1..], z), Power(z, |s| - 1);
      Distributes(z, rest, Times(a, power));
      TimesAssociative(z, a, power);
      TimesCommutative(z, a);
      TimesAssociative(a, z, power);
      PlusAssociative(s[0], Times(z, rest), Times(a, Times(z, power)));
    }
  }

  lemma {:induction false} EvaluateIsDirectSum(s: seq<Complex>, w: Complex, k: nat, n: nat)
    requires n <= |s|
    ensures Evaluate(s[..n], Power(w, k)) == DirectSum(s, w, k, n)
  {
    hide Plus, Times;
    if n > 0 {
      EvaluateIsDirectSum(s, w, k, n - 1);
      assert s[..n] == s[..n - 1] + [s[n - 1]];
      EvaluateSnoc(s[..n - 1], s[n - 1], Power(w, k));
      PowerOfPower(w, k, n - 1);
      assert k * (n - 1) == (n - 1) * k;
    }
  }

  // ----- Decimation -----

  function Evens<T>(s: seq<T>): (r: seq<T>)
    ensures |r| == (|s| + 1) / 2
  {
    if s == [] then [] else [s[0]] + Odds(s[1..])
  }

  function Odds<T>(s: seq<T>): (r: seq<T>)
    ensures |r| == |s| / 2
  {
    if s == [] then [] else Evens(s[1..])
  }

  lemma {:induction false} HalvesElement<T>(s: seq<T>, i: nat)
    ensures 2 * i < |s| ==> Evens(s)[i] == s[2 * i]
    ensures 2 * i + 1 < |s| ==> Odds(s)[i] == s[2 * i + 1]
  {
    if i == 0 {
      if |s| > 1 {
        assert Odds(s) == Evens(s[1..]);
      }
    } else if |s| > 1 {
      HalvesElement(s[1..][1..], i - 1);
      assert Evens(s) == [s[0]] + Evens(s[1..][1..]);
      assert Odds(s) == [s[1]] + Odds(s[1..][1..]);
    }
  }

  /** A polynomial splits into its even and its odd part, both in z^2. */
  lemma {:induction false} EvaluateSplit(s: seq<Complex>, z: Complex)
    ensures Evaluate(s, z)
         == Plus(Evaluate(Evens(s), Times(z, z)), Times(z, Evaluate(Odds(s), Times(z, z))))
  {
    hide Plus, Times;
    var zz := Times(z, z);
    if s == [] {
      PlusZero(z);
      PlusZero(ZERO);
    } else {
      var rest := s[1..];
      EvaluateSplit(rest, z);
      var even, odd := Evaluate(Evens(rest), zz), Evaluate(Odds(rest), zz);
      assert Evens(s)[1..] == Odds(rest);
      assert Evaluate(Evens(s), zz) == Plus(s[0], Times(zz, odd));
      Distributes(z, even, Times(z, odd));
      TimesAssociative(z, z, odd);
      PlusCommutative(Times(z, even), Times(zz, odd));
      PlusAssociative(s[0], Times(zz, odd), Times(z, even));
    }
  }

  lemma PlusCommutative(a: Complex, b: Complex)
    ensures Plus(a, b) == Plus(b, a)
  {}

  /** The q-fold decimation of x that ends up in block j: at every level the low
      bit of j chooses the even or the odd elements. */
  function Decimated<T>(x: seq<T>, p: nat, q: nat, j: nat): (r: seq<T>)
    requires |x| == Pow2(p) && q <= p && j < Pow2(q)
    ensures |r| == Pow2(p - q)
    decreases q
  {
    if q == 0 then x
    else
      var coarser := Decimated(x, p, q - 1, j / 2);
      if j % 2 == 0 then Evens(coarser) else Odds(coarser)
  }

  /** n shifted left by q bits. */
  function Shift(n: nat, q: nat): nat {
    if q == 0 then n else 2 * Shift(n, q - 1)
  }

  lemma {:induction false} ShiftStep(n: nat, b: nat, q: nat)
    requires b < 2
    ensures Shift(2 * n + b, q) == 2 * Shift(n, q) + Bit(b, q)
  {
    if q > 0 {
      ShiftStep(n, b, q - 1);
    }
  }

  lemma {:induction false} DecimatedElement<T>(x: seq<T>, p: nat, q: nat, j: nat, n: nat)
    requires |x| == Pow2(p) && q <= p && j < Pow2(q) && n < Pow2(p - q)
    ensures Reverse(q, j) + Shift(n, q) < |x|
    ensures Decimated(x, p, q, j)[n] == x[Reverse(q, j) + Shift(n, q)]
    decreases q
  {
    if q > 0 {
      DecimatedStep(x, p, q, j, n);
      DecimatedElement(x, p, q - 1, j / 2, 2 * n + j % 2);
      ShiftStep(n, j % 2, q - 1);
    }
  }

  lemma DecimatedStep<T>(x: seq<T>, p: nat, q: nat, j: nat, n: nat)
    requires |x| == Pow2(p) && 0 < q <= p && j < Pow2(q) && n < Pow2(p - q)
    ensures 2 * n + j % 2 < Pow2(p - (q - 1))
    ensures Decimated(x, p, q, j)[n] == Decimated(x, p, q - 1, j / 2)[2 * n + j % 2]
  {
    assert Pow2(p - (q - 1)) == 2 * Pow2(p - q);
    hide Pow2, Evens, Odds;
    var coarser := Decimated(x, p, q - 1, j / 2);
    HalvesElement(coarser, n);
    if j % 2 == 0 {
      assert Decimated(x, p, q, j) == Evens(coarser);
    } else {
      assert Decimated(x, p, q, j) == Odds(coarser);
    }
  }

  // ----- What the stages leave in the array -----

  /** The root of unity of the stage that makes blocks of 2^l cells. */
  function Root(p: nat, w: Complex, l: nat): Complex
    requires l <= p
  {
    Power(w, Pow2(p - l))
  }

  /** Frequency k of block j once blocks of 2^l cells are transformed: the
      transform of the samples decimated into that block. */
  function Cell(x: seq<Complex>, p: nat, w: Complex, l: nat, j: nat, k: nat): Complex
    requires |x| == Pow2(p) && l <= p && j < Pow2(p - l)
  {
    Evaluate(Decimated(x, p, p - l, j), Power(Root(p, w, l), k))
  }

  /** Bit reversal is the decimation into single samples. */
  lemma CellZero(x: seq<Complex>, p: nat, w: Complex, i: nat)
    requires |x| == Pow2(p) && i < Pow2(p)
    ensures Cell(x, p, w, 0, i, 0) == x[Reverse(p, i)]
  {
    DecimatedElement(x, p, p, i, 0);
    ShiftStep(0, 0, p);
    assert Pow2(0) == 1;
    hide Plus, Times, Pow2, Decimated, Reverse, Root;
    EvaluateSingle(Decimated(x, p, p, i), ONE);
  }

  lemma EvaluateSingle(s: seq<Complex>, z: Complex)
    requires |s| == 1
    ensures Evaluate(s, z) == s[0]
  {
    assert s[1..] == [];
    PlusZero(s[0]);
    PlusZero(z);
  }

  /** After the last stage there is one block, the whole input. */
  lemma CellLast(x: seq<Complex>, p: nat, w: Complex, k: nat)
    requires |x| == Pow2(p)
    ensures Cell(x, p, w, p, 0, k) == Evaluate(x, Power(w, k))
  {
    assert Pow2(0) == 1 && Power(w, 1) == Times(w, Power(w, 0));
    TimesOne(w);
  }

  /** One butterfly: frequency k of two adjacent half blocks becomes frequencies
      k and k + half of the joined block. */
  lemma Butterfly(x: seq<Complex>, p: nat, w: Complex, l: nat, j: nat, k: nat)
    requires |x| == Pow2(p) && l < p && j < Pow2(p - l - 1)
    requires Power(w, Pow2(p - 1)) == MINUS_ONE
    ensures 2 * j + 1 < Pow2(p - l)
    ensures
      var even, odd := Cell(x, p, w, l, 2 * j, k), Cell(x, p, w, l, 2 * j + 1, k);
      var factor := Power(Root(p, w, l + 1), k);
      && Cell(x, p, w, l + 1, j, k) == Plus(even, Times(factor, odd))
      && Cell(x, p, w, l + 1, j, k + Pow2(l)) == Minus(even, Times(factor, odd))
  {
    var whole := Decimated(x, p, p - l - 1, j);
    var factor := Power(Root(p, w, l + 1), k);
    var square := Times(factor, factor);
    DecimatedHalves(x, p, p - l, j);
    RootSquared(p, w, l, k);
    OppositeFactor(p, w, l, k);
    assert Pow2(p - l) == 2 * Pow2(p - l - 1);
    hide *;
    var even, odd := Cell(x, p, w, l, 2 * j, k), Cell(x, p, w, l, 2 * j + 1, k);
    assert even == Evaluate(Evens(whole), square) && odd == Evaluate(Odds(whole), square) by {
      CellHalves(x, p, w, l, j, k);
    }
    EvaluateSplit(whole, factor);
    EvaluateSplit(whole, Times(factor, MINUS_ONE));
    NegatedFactor(Evaluate(Evens(whole), square), factor, Evaluate(Odds(whole), square));
  }

  lemma CellHalves(x: seq<Complex>, p: nat, w: Complex, l: nat, j: nat, k: nat)
    requires |x| == Pow2(p) && l < p && j < Pow2(p - l - 1) && 2 * j + 1 < Pow2(p - l)
    ensures
      var whole, root := Decimated(x, p, p - l - 1, j), Root(p, w, l + 1);
      var square := Times(Power(root, k), Power(root, k));
      && Cell(x, p, w, l, 2 * j, k) == Evaluate(Evens(whole), square)
      && Cell(x, p, w, l, 2 * j + 1, k) == Evaluate(Odds(whole), square)
  {
    DecimatedHalves(x, p, p - l, j);
    RootSquared(p, w, l, k);
    hide Times, Power, Decimated, Evaluate, Evens, Odds, Root, Pow2;
  }

  /** The root of a stage is the square of the next stage's root. */
  lemma RootSquared(p: nat, w: Complex, l: nat, k: nat)
    requires l < p
    ensures Power(Root(p, w, l), k) == Times(Power(Root(p, w, l + 1), k), Power(Root(p, w, l + 1), k))
  {
    var half := Pow2(p - l - 1);
    assert Pow2(p - l) == half + half;
    hide Times, Power, Pow2;
    PowerAdd(w, half, half);
    PowerOfProduct(Power(w, half), Power(w, half), k);
  }

  /** Half a turn further the factor changes sign. */
  lemma OppositeFactor(p: nat, w: Complex, l: nat, k: nat)
    requires l < p
    requires Power(w, Pow2(p - 1)) == MINUS_ONE
    ensures Power(Root(p, w, l + 1), k + Pow2(l)) == Times(Power(Root(p, w, l + 1), k), MINUS_ONE)
  {
    Pow2Add(p - l - 1, l);
    hide Times, Power, Pow2;
    PowerOfPower(w, Pow2(p - l - 1), Pow2(l));
    PowerAdd(Root(p, w, l + 1), k, Pow2(l));
  }

  lemma DecimatedHalves<T>(x: seq<T>, p: nat, q: nat, j: nat)
    requires |x| == Pow2(p) && 0 < q <= p && j < Pow2(q - 1)
    ensures Decimated(x, p, q, 2 * j) == Evens(Decimated(x, p, q - 1, j))
    ensures Decimated(x, p, q, 2 * j + 1) == Odds(Decimated(x, p, q - 1, j))
  {
    assert (2 * j) / 2 == j && (2 * j + 1) / 2 == j;
  }

  lemma HalfIndices(half: nat, blocks: nat, j: nat, k: nat)
    requires j < blocks && k < half
    ensures 0 <= 2 * half * j && 2 * half * j + k + half < blocks * (2 * half)
    ensures
      var even, odd := 2 * half * j + k, 2 * half * j + k + half;
      && even / half == 2 * j && even % half == k
      && odd / half == 2 * j + 1 && odd % half == k
      && even / (2 * half) == j && even % (2 * half) == k
      && odd / (2 * half) == j && odd % (2 * half) == k + half
  {
    LessMultiple(j, blocks, 2 * half);
    assert half * (2 * j) == 2 * half * j;
    assert half * (2 * j + 1) == 2 * half * j + half;
    DivMod(half, 2 * j, k);
    DivMod(half, 2 * j + 1, k);
    DivMod(2 * half, j, k);
    DivMod(2 * half, j, k + half);
  }

  lemma LessMultiple(j: nat, blocks: nat, d: nat)
    requires j < blocks
    ensures 0 <= d * j && d * j + d <= blocks * d
  {
    assert d * (j + 1) <= d * blocks;
  }
}
