/** Sample counts as times: add_samples and subtract_samples on seconds and
    picoseconds held in 64-bit unsigned words. */
module SampleTime {
  import opened SpectrumTypes
  import opened Arithmetic

  const PICOSECONDS := 1_000_000_000_000
  const WORD := 0x1_0000_0000_0000_0000

  function Wrap(x: nat): u64 {
    x % WORD
  }

  function WrappingDifference(a: u64, b: u64): u64 {
    if a >= b then a - b else a - b + WORD
  }

  /** `samples / rate` */
  function WholeSeconds(samples: u64, rate: u32): u64
    requires rate > 0
  {
    QuotientFits(samples, rate);
    samples / rate
  }

  /** `samples % rate * picoseconds_per_second / rate`, in 64 bits */
  function PartialSecond(samples: u64, rate: u32): u64
    requires rate > 0
  {
    QuotientFits(Wrap(samples % rate * PICOSECONDS), rate);
    Wrap(samples % rate * PICOSECONDS) / rate
  }

  lemma QuotientFits(n: u64, d: nat)
    requires d > 0
    ensures 0 <= n / d < WORD
  {
    QuotientBounds(n, d);
    AtLeast(d, n / d);
  }

  lemma AtLeast(d: nat, q: nat)
    requires d > 0
    ensures q <= d * q
  {}

  lemma QuotientBounds(n: nat, d: nat)
    requires d > 0
    ensures 0 <= n / d && d * (n / d) <= n < d * (n / d) + d
  {}

  function AddSamples(time: ProtocolTime, samples: u64, rate: u32): ProtocolTime
    requires rate > 0
  {
    var seconds := Wrap(time.seconds + WholeSeconds(samples, rate));
    var picoseconds := Wrap(time.picoseconds + PartialSecond(samples, rate));
    ProtocolTime(Wrap(seconds + picoseconds / PICOSECONDS), picoseconds % PICOSECONDS)
  }

  /** None is the "sample timestamp underflow" exception. */
  function SubtractSamples(time: ProtocolTime, samples: u64, rate: u32): Option<ProtocolTime>
    requires rate > 0
  {
    var whole, delta := WholeSeconds(samples, rate), PartialSecond(samples, rate);
    if time.picoseconds < delta then
      if time.seconds <= whole then None
      else Some(ProtocolTime(time.seconds - (whole + 1), WrappingDifference(Wrap(time.picoseconds + PICOSECONDS), delta)))
    else if time.seconds < whole then None
    else Some(ProtocolTime(time.seconds - whole, time.picoseconds - delta))
  }

  // ----- Times as whole picoseconds -----

  function Ticks(t: ProtocolTime): nat {
    t.seconds * PICOSECONDS + t.picoseconds
  }

  predicate Normalised(t: ProtocolTime) {
    t.picoseconds < PICOSECONDS
  }

  /** The duration of n samples, rounded down. */
  function Elapsed(n: nat, rate: nat): nat
    requires rate > 0
  {
    QuotientBounds(n * PICOSECONDS, rate);
    n * PICOSECONDS / rate
  }

  /** The largest rate for which `remainder * 10^12` never leaves 64 bits. */
  const MAX_EXACT_RATE := 18_446_745

  /** Splitting off whole seconds first gives the same quotient. */
  lemma ElapsedSplit(n: nat, rate: nat)
    requires rate > 0
    ensures 0 <= n / rate && 0 <= n % rate < rate
    ensures 0 <= n % rate * PICOSECONDS / rate < PICOSECONDS
    ensures Elapsed(n, rate) == n / rate * PICOSECONDS + n % rate * PICOSECONDS / rate
  {
    var whole, rest := n / rate, n % rate;
    assert n == rate * whole + rest;
    var q := rest * PICOSECONDS / rate;
    QuotientBounds(rest * PICOSECONDS, rate);
    assert q < PICOSECONDS by {
      SmallQuotient(rest, rate, q);
    }
    Shares(rate, whole, rest);
    QuotientOfSum(rate, whole * PICOSECONDS, rest * PICOSECONDS);
  }

  lemma Shares(rate: nat, whole: nat, rest: nat)
    ensures (rate * whole + rest) * PICOSECONDS == rate * (whole * PICOSECONDS) + rest * PICOSECONDS
  {}

  lemma SmallQuotient(rest: nat, rate: nat, q: nat)
    requires rest < rate && rate * q <= rest * PICOSECONDS
    ensures q < PICOSECONDS
  {}

  lemma QuotientOfSum(d: nat, k: nat, x: nat)
    requires d > 0
    ensures (d * k + x) / d == k + x / d
  {
    QuotientBounds(x, d);
    QuotientBounds(d * k + x, d);
    var n := (d * k + x) / d;
    SmallMultiple(d, n - k - x / d, d * n - d * k - d * (x / d));
  }

  /** In the exact range the two parts are the true ones. */
  lemma PartsExact(n: u64, rate: u32)
    requires 0 < rate <= MAX_EXACT_RATE
    ensures PartialSecond(n, rate) < PICOSECONDS
    ensures Elapsed(n, rate) == WholeSeconds(n, rate) * PICOSECONDS + PartialSecond(n, rate)
  {
    ElapsedSplit(n, rate);
    assert n % rate * PICOSECONDS < WORD;
    hide Elapsed;
  }

  /** Adding samples adds exactly their duration, as long as the seconds fit. */
  lemma AddExact(t: ProtocolTime, n: u64, rate: u32)
    requires 0 < rate <= MAX_EXACT_RATE && Normalised(t)
    ensures Normalised(AddSamples(t, n, rate))
    ensures Ticks(AddSamples(t, n, rate)) == Ticks(t) + Elapsed(n, rate)
       <==> Ticks(t) + Elapsed(n, rate) < WORD * PICOSECONDS
  {
    PartsExact(n, rate);
    hide Elapsed, WholeSeconds, PartialSecond;
    AddNormalised(t, WholeSeconds(n, rate), PartialSecond(n, rate), AddSamples(t, n, rate));
  }

  lemma AddNormalised(t: ProtocolTime, whole: u64, delta: nat, r: ProtocolTime)
    requires Normalised(t) && delta < PICOSECONDS
    requires
      var picoseconds := Wrap(t.picoseconds + delta);
      r == ProtocolTime(Wrap(Wrap(t.seconds + whole) + picoseconds / PICOSECONDS), picoseconds % PICOSECONDS)
    ensures Normalised(r)
    ensures Ticks(r) == Ticks(t) + whole * PICOSECONDS + delta
       <==> Ticks(t) + whole * PICOSECONDS + delta < WORD * PICOSECONDS
  {
    var carry := if t.picoseconds + delta >= PICOSECONDS then 1 else 0;
    assert Wrap(t.picoseconds + delta) == t.picoseconds + delta;
    assert (t.picoseconds + delta) / PICOSECONDS == carry;
    var sum := t.seconds + whole + carry;
    assert r.seconds == if sum < WORD then sum else sum - WORD;
  }

  /** Subtracting samples takes off exactly their duration, and fails exactly when
      that would go below zero. */
  lemma SubtractExact(t: ProtocolTime, n: u64, rate: u32)
    requires 0 < rate <= MAX_EXACT_RATE && Normalised(t)
    ensures SubtractSamples(t, n, rate).None? <==> Ticks(t) < Elapsed(n, rate)
    ensures
      var r := SubtractSamples(t, n, rate);
      r.Some? ==> Normalised(r.value) && Ticks(r.value) == Ticks(t) - Elapsed(n, rate)
  {
    PartsExact(n, rate);
    hide Elapsed, WholeSeconds, PartialSecond;
    assert Wrap(t.picoseconds + PICOSECONDS) == t.picoseconds + PICOSECONDS;
  }

  lemma TicksInjective(a: ProtocolTime, b: ProtocolTime)
    requires Normalised(a) && Normalised(b) && Ticks(a) == Ticks(b)
    ensures a == b
  {}

  /** The two operations undo each other. */
  lemma SubtractUndoesAdd(t: ProtocolTime, n: u64, rate: u32)
    requires 0 < rate <= MAX_EXACT_RATE && Normalised(t)
    requires Ticks(t) + Elapsed(n, rate) < WORD * PICOSECONDS
    ensures SubtractSamples(AddSamples(t, n, rate), n, rate) == Some(t)
  {
    AddExact(t, n, rate);
    var later := AddSamples(t, n, rate);
    SubtractExact(later, n, rate);
    TicksInjective(SubtractSamples(later, n, rate).value, t);
  }

  lemma AddUndoesSubtract(t: ProtocolTime, n: u64, rate: u32)
    requires 0 < rate <= MAX_EXACT_RATE && Normalised(t)
    requires SubtractSamples(t, n, rate).Some?
    ensures AddSamples(SubtractSamples(t, n, rate).value, n, rate) == t
  {
    SubtractExact(t, n, rate);
    var earlier := SubtractSamples(t, n, rate).value;
    AddExact(earlier, n, rate);
    TicksInjective(AddSamples(earlier, n, rate), t);
  }

  /** Rounding two parts separately loses at most one picosecond. */
  lemma ElapsedSum(a: nat, b: nat, rate: nat)
    requires rate > 0
    ensures Elapsed(a, rate) + Elapsed(b, rate) <= Elapsed(a + b, rate) <= Elapsed(a, rate) + Elapsed(b, rate) + 1
  {
    QuotientBounds(a * PICOSECONDS, rate);
    QuotientBounds(b * PICOSECONDS, rate);
    QuotientBounds((a + b) * PICOSECONDS, rate);
    var excess := Elapsed(a + b, rate) - Elapsed(a, rate) - Elapsed(b, rate);
    BetweenTwo(rate, excess,
               rate * Elapsed(a + b, rate) - rate * Elapsed(a, rate) - rate * Elapsed(b, rate));
  }

  lemma BetweenTwo(d: nat, e: int, t: int)
    requires 0 - d < t < 2 * d && d * e == t
    ensures 0 <= e <= 1
  {}

  // ----- Above the exact range -----

  /** Above the exact range the product overflows, so that one sample less than a second is
      added as too little. */
  lemma InexactRate(rate: u32)
    requires rate > MAX_EXACT_RATE
    ensures Ticks(AddSamples(ProtocolTime(0, 0), rate - 1, rate)) < Elapsed(rate - 1, rate)
  {
    var product := (rate - 1) * PICOSECONDS;
    SmallCount(rate - 1, rate);
    Overflows(rate, product);
    SmallerDividend(Wrap(product), product, rate);
    SmallQuotientBound(rate);
    assert PartialSecond(rate - 1, rate) < Elapsed(rate - 1, rate) && WholeSeconds(rate - 1, rate) == 0;
    hide PartialSecond, WholeSeconds, Elapsed, Wrap, AddSamples;
    FromZero(rate - 1, rate);
  }

  lemma Overflows(rate: u32, product: nat)
    requires rate > MAX_EXACT_RATE && product == (rate - 1) * PICOSECONDS
    ensures Wrap(product) + rate <= product
  {}

  lemma FromZero(n: u64, rate: u32)
    requires rate > 0 && WholeSeconds(n, rate) == 0 && PartialSecond(n, rate) < PICOSECONDS
    ensures Ticks(AddSamples(ProtocolTime(0, 0), n, rate)) == PartialSecond(n, rate)
  {
    hide PartialSecond, WholeSeconds;
  }

  lemma SmallCount(n: nat, rate: nat)
    requires n < rate
    ensures n / rate == 0 && n % rate == n
  {}

  /** A dividend smaller by at least the divisor gives a smaller quotient. */
  lemma SmallerDividend(a: nat, b: nat, d: nat)
    requires d > 0 && a + d <= b
    ensures a / d < b / d
  {
    QuotientBounds(a, d);
    QuotientBounds(b, d);
    Positive(d, b / d - a / d);
  }

  lemma Positive(d: nat, e: int)
    requires d * e > 0
    ensures e > 0
  {}

  /** Adding samples is exact at this rate for all times and counts that fit. */
  ghost predicate ExactRate(rate: u32)
    requires rate > 0
  {
    forall t: ProtocolTime, n: u64 :: Normalised(t) && Ticks(t) + Elapsed(n, rate) < WORD * PICOSECONDS ==>
      Ticks(AddSamples(t, n, rate)) == Ticks(t) + Elapsed(n, rate)
  }

  /** The exact rates are those up to 18446745 Hz. */
  lemma ExactRates(rate: u32)
    requires rate > 0
    ensures ExactRate(rate) <==> rate <= MAX_EXACT_RATE
  {
    if rate <= MAX_EXACT_RATE {
      forall t: ProtocolTime, n: u64 | Normalised(t) && Ticks(t) + Elapsed(n, rate) < WORD * PICOSECONDS
        ensures Ticks(AddSamples(t, n, rate)) == Ticks(t) + Elapsed(n, rate)
      {
        AddExact(t, n, rate);
      }
    } else {
      InexactRate(rate);
      SmallCount(rate - 1, rate);
      SmallQuotientBound(rate);
      var t := ProtocolTime(0, 0);
      assert Normalised(t) && Ticks(t) + Elapsed(rate - 1, rate) < WORD * PICOSECONDS;
    }
    hide Elapsed, AddSamples;
  }

  lemma SmallQuotientBound(rate: u32)
    requires rate > 0
    ensures Elapsed(rate - 1, rate) < PICOSECONDS
  {
    QuotientBounds((rate - 1) * PICOSECONDS, rate);
    SmallQuotient(rate - 1, rate, Elapsed(rate - 1, rate));
  }
}
