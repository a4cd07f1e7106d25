/** The two in-place loops of the transform, proved against the direct sum. */
module FftKernel {
  import opened ComplexNumbers
  import opened Arithmetic
  import opened Fft

  /** The bit at the position of a power of two, as `n & bit` tests it. */
  predicate BitSet(n: nat, bit: nat)
    requires bit > 0
  {
    (n / bit) % 2 == 1
  }

  /** Flipping that bit, as `n ^ bit` does. */
  function FlipBit(n: nat, bit: nat): nat
    requires bit > 0
  {
    if BitSet(n, bit) then BitSetAtLeast(n, bit); n - bit else n + bit
  }

  lemma BitSetAtLeast(n: nat, bit: nat)
    requires bit > 0 && BitSet(n, bit)
    ensures n >= bit
  {
    if n < bit {
      DivMod(bit, 0, n);
    }
  }

  lemma TopBit(n: nat, bit: nat)
    requires bit > 0 && n < 2 * bit
    ensures BitSet(n, bit) <==> n >= bit
    ensures FlipBit(n, bit) == if n >= bit then n - bit else n + bit
  {
    if n >= bit {
      DivMod(bit, 1, n - bit);
    } else {
      DivMod(bit, 0, n);
    }
  }

  /** One step of the reversed counter: clear the leading ones, set the next bit. */
  method NextReversed(size: nat, reversed: nat, ghost p: nat) returns (next: nat)
    requires size == Pow2(p) && reversed + 1 < Pow2(p)
    ensures next == ReverseIncrement(p, reversed)
  {
    next := reversed;
    var bit := size / 2;
    ghost var b := p - 1;
    TopBit(next, bit);
    while BitSet(next, bit)
      invariant 0 <= b < p && bit == Pow2(b) && next + 1 < Pow2(b + 1)
      invariant BitSet(next, bit) <==> next >= bit
      invariant FlipBit(next, bit) == if next >= bit then next - bit else next + bit
      invariant ReverseIncrement(b + 1, next) == ReverseIncrement(p, reversed)
      decreases b
    {
      next := FlipBit(next, bit);
      bit := bit / 2;
      b := b - 1;
      TopBit(next, bit);
    }
    next := FlipBit(next, bit);
  }

  /** What the swaps have done once every index below `done` has been visited. */
  ghost predicate Swapped(x: seq<Complex>, y: seq<Complex>, p: nat, done: nat)
    requires |x| == |y| == Pow2(p)
  {
    forall i: nat :: i < Pow2(p) ==>
      y[i] == if i < done || Reverse(p, i) < done then x[Reverse(p, i)] else x[i]
  }

  /** Counting upwards while keeping the reversed counter in step, and swapping
      each pair once, leaves every value at its bit-reversed index. */
  method BitReverse(values: array<Complex>, ghost p: nat)
    requires values.Length == Pow2(p)
    modifies values
    ensures forall i: nat :: i < Pow2(p) ==> values[i] == old(values[Reverse(p, i)])
  {
    ghost var x := values[..];
    var index, reversed := 1, 0;
    FirstSwap(x, p);
    while index < values.Length
      invariant 1 <= index <= values.Length
      invariant reversed == Reverse(p, index - 1)
      invariant Swapped(x, values[..], p, index)
    {
      ReverseSuccessor(p, index - 1);
      reversed := NextReversed(values.Length, reversed, p);
      ghost var before := values[..];
      if index < reversed {
        values[index], values[reversed] := values[reversed], values[index];
        assert values[..] == before[index := before[reversed]][reversed := before[index]];
      }
      SwapStep(x, before, values[..], p, index);
      index := index + 1;
    }
  }

  lemma FirstSwap(x: seq<Complex>, p: nat)
    requires |x| == Pow2(p)
    ensures Reverse(p, 0) == 0 && Swapped(x, x, p, 1)
  {
    ReverseZero(p);
    forall i: nat | i < Pow2(p) && Reverse(p, i) == 0
      ensures i == 0
    {
      ReverseInvolution(p, i);
    }
  }

  lemma SwapStep(x: seq<Complex>, before: seq<Complex>, after: seq<Complex>, p: nat, index: nat)
    requires |x| == |before| == |after| == Pow2(p) && index < Pow2(p)
    requires Swapped(x, before, p, index)
    requires
      var reversed := Reverse(p, index);
      after == if index < reversed then before[index := before[reversed]][reversed := before[index]] else before
    ensures Swapped(x, after, p, index + 1)
  {
    hide Pow2;
    ReverseInvolution(p, index);
    forall i: nat | i < Pow2(p)
      ensures after[i] == if i < index + 1 || Reverse(p, i) < index + 1 then x[Reverse(p, i)] else x[i]
    {
      ReverseInvolution(p, i);
      hide Reverse;
    }
  }

  lemma {:induction false} ReverseZero(p: nat)
    ensures Reverse(p, 0) == 0
  {
    if p > 0 {
      ReverseZero(p - 1);
    }
  }

  // ----- Butterfly stages -----

  /** The block of index i, and the frequency within it, for blocks of 2^l. */
  ghost function Block(l: nat, i: nat): nat {
    BlockNonNegative(i, Pow2(l));
    i / Pow2(l)
  }

  lemma BlockNonNegative(i: nat, d: nat)
    requires d > 0
    ensures i / d >= 0
  {}

  ghost function Frequency(l: nat, i: nat): nat {
    i % Pow2(l)
  }

  /** The joined block j of the stage that joins half blocks of 2^l starts at `base`. */
  ghost predicate Starts(l: nat, j: nat, base: nat) {
    base == 2 * Pow2(l) * j
  }

  lemma BlockBound(p: nat, l: nat, i: nat)
    requires l <= p && i < Pow2(p)
    ensures Block(l, i) < Pow2(p - l)
  {
    Pow2Add(p - l, l);
    Quotient(i, Pow2(p - l), Pow2(l));
  }

  lemma Quotient(i: nat, m: nat, n: nat)
    requires n > 0 && i < m * n
    ensures 0 <= i / n < m
  {
    assert i == n * (i / n) + i % n;
  }

  lemma ButterflyIndices(p: nat, l: nat, j: nat, base: nat, k: nat)
    requires l < p && j < Pow2(p - l - 1) && k < Pow2(l) && Starts(l, j, base)
    ensures base + k + Pow2(l) < Pow2(p)
    ensures Block(l, base + k) == 2 * j && Frequency(l, base + k) == k
    ensures Block(l, base + k + Pow2(l)) == 2 * j + 1 && Frequency(l, base + k + Pow2(l)) == k
    ensures Block(l + 1, base + k) == j && Frequency(l + 1, base + k) == k
    ensures Block(l + 1, base + k + Pow2(l)) == j && Frequency(l + 1, base + k + Pow2(l)) == k + Pow2(l)
  {
    Pow2Add(p - l - 1, l + 1);
    HalfIndices(Pow2(l), Pow2(p - l - 1), j, k);
  }

  /** The content of array index i after the stage that makes blocks of 2^l. */
  ghost function At(x: seq<Complex>, p: nat, w: Complex, l: nat, i: nat): Complex
    requires |x| == Pow2(p) && l <= p && i < Pow2(p)
  {
    BlockBound(p, l, i);
    Cell(x, p, w, l, Block(l, i), Frequency(l, i))
  }

  /** The array when the butterflies below `offset` of the block at `base` are
      done, and every block before it. */
  ghost predicate StageProgress(x: seq<Complex>, y: seq<Complex>, p: nat, w: Complex, l: nat, base: nat, offset: nat)
    requires |x| == |y| == Pow2(p) && l < p
  {
    forall i: nat :: i < Pow2(p) ==>
      y[i] == At(x, p, w, if i < base + offset || base + Pow2(l) <= i < base + Pow2(l) + offset then l + 1 else l, i)
  }

  /** A butterfly reads two finished cells of stage l and writes two of stage l + 1. */
  lemma ButterflyAt(x: seq<Complex>, p: nat, w: Complex, l: nat, j: nat, base: nat, k: nat)
    requires |x| == Pow2(p) && l < p && j < Pow2(p - l - 1) && k < Pow2(l) && Starts(l, j, base)
    requires Power(w, Pow2(p - 1)) == MINUS_ONE
    requires base + k + Pow2(l) < Pow2(p)
    ensures
      var even, odd := base + k, base + k + Pow2(l);
      var term := Times(Power(Root(p, w, l + 1), k), At(x, p, w, l, odd));
      && At(x, p, w, l + 1, even) == Plus(At(x, p, w, l, even), term)
      && At(x, p, w, l + 1, odd) == Minus(At(x, p, w, l, even), term)
  {
    hide Plus, Minus, Times, Power, Root, Cell, Pow2, Block, Frequency, Starts;
    ButterflyIndices(p, l, j, base, k);
    Butterfly(x, p, w, l, j, k);
  }

  lemma ButterflyStep(x: seq<Complex>, y: seq<Complex>, p: nat, w: Complex, l: nat, j: nat, base: nat, k: nat)
    requires |x| == |y| == Pow2(p) && l < p && j < Pow2(p - l - 1) && k < Pow2(l) && Starts(l, j, base)
    requires Power(w, Pow2(p - 1)) == MINUS_ONE
    requires StageProgress(x, y, p, w, l, base, k)
    ensures base + k + Pow2(l) < Pow2(p)
    ensures
      var even, odd := base + k, base + k + Pow2(l);
      var term := Times(Power(Root(p, w, l + 1), k), y[odd]);
      StageProgress(x, y[even := Plus(y[even], term)][odd := Minus(y[even], term)], p, w, l, base, k + 1)
  {
    hide Plus, Minus, Times, Power, Root, Pow2, At, Block, Frequency, Starts;
    ButterflyIndices(p, l, j, base, k);
    ButterflyAt(x, p, w, l, j, base, k);
  }

  /** One pass of the outer loop: every block of half the length is joined with its neighbour. */
  method ButterflyStage(values: array<Complex>, length: nat, root: Complex,
                        ghost x: seq<Complex>, ghost p: nat, ghost w: Complex, ghost l: nat)
    requires l < p && values.Length == |x| == Pow2(p) && length == Pow2(l + 1)
    requires Power(w, Pow2(p - 1)) == MINUS_ONE && root == Root(p, w, l + 1)
    requires forall i: nat :: i < Pow2(p) ==> values[i] == At(x, p, w, l, i)
    modifies values
    ensures forall i: nat :: i < Pow2(p) ==> values[i] == At(x, p, w, l + 1, i)
  {
    hide Plus, Minus, Times, Root, At, Pow2, Starts, Power;
    var half := length / 2;
    UnfoldPow2(l);
    var base := 0;
    ghost var j := 0;
    NextStart(p, l, 0, 0, length);
    while base < values.Length
      invariant base <= values.Length && Starts(l, j, base)
      invariant base < values.Length <==> j < Pow2(p - l - 1)
      invariant StageProgress(x, values[..], p, w, l, base, 0)
      decreases values.Length - base
    {
      var factor := ONE;
      var offset := 0;
      PowerZero(root);
      while offset < half
        invariant 0 <= offset <= half
        invariant factor == Power(root, offset)
        invariant StageProgress(x, values[..], p, w, l, base, offset)
      {
        ghost var y := values[..];
        ButterflyStep(x, y, p, w, l, j, base, offset);
        var even := values[base + offset];
        var odd := Times(factor, values[base + offset + half]);
        values[base + offset] := Plus(even, odd);
        values[base + offset + half] := Minus(even, odd);
        assert values[..] == y[base + offset := Plus(even, odd)][base + offset + half := Minus(even, odd)];
        PowerNext(root, offset);
        factor := Times(factor, root);
        offset := offset + 1;
      }
      NextStart(p, l, j, base, length);
      base := base + length;
      j := j + 1;
    }
  }

  lemma PowerZero(z: Complex)
    ensures Power(z, 0) == ONE
  {}

  lemma PowerNext(z: Complex, n: nat)
    ensures Power(z, n + 1) == Times(Power(z, n), z)
  {
    TimesCommutative(Power(z, n), z);
  }

  lemma NextStart(p: nat, l: nat, j: nat, base: nat, length: nat)
    requires l < p && length == Pow2(l + 1)
    requires Starts(l, j, base)
    ensures Starts(l, 0, 0) && Starts(l, j + 1, base + length)
    ensures base < Pow2(p) <==> j < Pow2(p - l - 1)
    ensures base + length < Pow2(p) <==> j + 1 < Pow2(p - l - 1)
    ensures base < Pow2(p) ==> base + length <= Pow2(p)
  {
    Pow2Add(p - l - 1, l + 1);
    Multiples(length, j, Pow2(p - l - 1));
    Multiples(length, j + 1, Pow2(p - l - 1));
  }

  lemma Multiples(d: nat, j: nat, m: nat)
    requires d > 0
    ensures d * j < m * d <==> j < m
    ensures d * j <= m * d <==> j <= m
    ensures d * (j + 1) == d * j + d
  {}

  lemma UnfoldPow2(l: nat)
    ensures Pow2(0) == 1 && Pow2(l + 1) == 2 * Pow2(l)
  {}

  /** The root of one stage, exp(-2 pi i / length), from that of the whole transform. */
  function StageFactor(w: Complex, size: nat, length: nat): Complex
    requires length > 0
  {
    Power(w, size / length)
  }

  /** The whole transform: values[k] becomes the sum of x[n] w^(n k). */
  method Transform(values: array<Complex>, w: Complex, ghost p: nat)
    requires p > 0 && values.Length == Pow2(p)
    requires Power(w, Pow2(p - 1)) == MINUS_ONE
    modifies values
    ensures forall k: nat :: k < Pow2(p) ==> values[k] == DirectSum(old(values[..]), w, k, Pow2(p))
  {
    ghost var x := values[..];
    BitReverse(values, p);
    forall i: nat | i < Pow2(p)
      ensures values[i] == At(x, p, w, 0, i)
    {
      FirstStage(x, p, w, i);
    }
    hide At, Root, Power, Reverse, DirectSum, Pow2, StageFactor;
    UnfoldPow2(0);
    var length := 2;
    ghost var l := 0;
    while length <= values.Length
      invariant 0 <= l <= p && length == Pow2(l + 1)
      invariant forall i: nat :: i < Pow2(p) ==> values[i] == At(x, p, w, l, i)
    {
      StageCount(l, p);
      StageRoot(p, w, l + 1);
      UnfoldPow2(l + 1);
      var root := StageFactor(w, values.Length, length);
      ButterflyStage(values, length, root, x, p, w, l);
      length := length * 2;
      l := l + 1;
    }
    StageCount(l, p);
    forall k: nat | k < Pow2(p)
      ensures values[k] == DirectSum(x, w, k, Pow2(p))
    {
      LastStage(x, p, w, k);
    }
  }

  lemma FirstStage(x: seq<Complex>, p: nat, w: Complex, i: nat)
    requires |x| == Pow2(p) && i < Pow2(p)
    ensures At(x, p, w, 0, i) == x[Reverse(p, i)]
  {
    assert Block(0, i) == i && Frequency(0, i) == 0;
    CellZero(x, p, w, i);
  }

  lemma LastStage(x: seq<Complex>, p: nat, w: Complex, k: nat)
    requires |x| == Pow2(p) && k < Pow2(p)
    ensures At(x, p, w, p, k) == DirectSum(x, w, k, Pow2(p))
  {
    DivMod(Pow2(p), 0, k);
    assert Block(p, k) == 0 && Frequency(p, k) == k;
    CellLast(x, p, w, k);
    EvaluateIsDirectSum(x, w, k, Pow2(p));
    assert x[..Pow2(p)] == x;
  }

  lemma {:induction false} StageCount(l: nat, p: nat)
    requires l <= p
    ensures Pow2(l + 1) <= Pow2(p) <==> l < p
    decreases p - l
  {
    if l < p {
      StageCount(l + 1, p);
    }
  }

  lemma StageRoot(p: nat, w: Complex, l: nat)
    requires l <= p
    ensures StageFactor(w, Pow2(p), Pow2(l)) == Root(p, w, l)
  {
    Pow2Add(p - l, l);
    FactorOfMultiple(w, Pow2(p - l), Pow2(l));
    hide StageFactor, Pow2, Power;
  }

  lemma FactorOfMultiple(w: Complex, m: nat, length: nat)
    requires length > 0
    ensures 0 <= m * length && StageFactor(w, m * length, length) == Power(w, m)
  {
    DivMod(length, m, 0);
    hide Power;
  }
}
