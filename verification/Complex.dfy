/** Exact complex arithmetic for the spectrum kernel.

    The program computes with complex<double>; here a complex number is a pair
    of reals, so every identity below is exact and rounding plays no part. */
module ComplexNumbers {

  datatype Complex = Complex(re: real, im: real)

  const ZERO := Complex(0.0, 0.0)
  const ONE := Complex(1.0, 0.0)
  const MINUS_ONE := Complex(-1.0, 0.0)

  function Plus(a: Complex, b: Complex): Complex {
    Complex(a.re + b.re, a.im + b.im)
  }

  function Minus(a: Complex, b: Complex): Complex {
    Complex(a.re - b.re, a.im - b.im)
  }

  function Times(a: Complex, b: Complex): Complex {
    Complex(a.re * b.re - a.im * b.im, a.re * b.im + a.im * b.re)
  }

  /** The squared magnitude, as std::norm computes it. */
  function Norm(a: Complex): real {
    Product(a.re, a.re) + Product(a.im, a.im)
  }

  function Product(x: real, y: real): real {
    x * y
  }

  function Conjugate(a: Complex): Complex {
    Complex(a.re, -a.im)
  }

  function Power(z: Complex, n: nat): Complex {
    if n == 0 then ONE else Times(z, Power(z, n - 1))
  }

  // ----- Ring laws -----

  lemma TimesAssociative(a: Complex, b: Complex, c: Complex)
    ensures Times(Times(a, b), c) == Times(a, Times(b, c))
  {}

  lemma TimesCommutative(a: Complex, b: Complex)
    ensures Times(a, b) == Times(b, a)
  {}

  lemma TimesOne(a: Complex)
    ensures Times(a, ONE) == a && Times(ONE, a) == a
  {}

  lemma Distributes(a: Complex, b: Complex, c: Complex)
    ensures Times(a, Plus(b, c)) == Plus(Times(a, b), Times(a, c))
  {}

  lemma PlusAssociative(a: Complex, b: Complex, c: Complex)
    ensures Plus(Plus(a, b), c) == Plus(a, Plus(b, c))
  {}

  lemma PlusZero(a: Complex)
    ensures Plus(a, ZERO) == a && Plus(ZERO, a) == a && Times(a, ZERO) == ZERO && Times(ZERO, a) == ZERO
  {}

  /** Negating the factor of a butterfly turns its sum into its difference. */
  lemma NegatedFactor(a: Complex, z: Complex, b: Complex)
    ensures Plus(a, Times(Times(z, MINUS_ONE), b)) == Minus(a, Times(z, b))
    ensures Times(Times(z, MINUS_ONE), Times(z, MINUS_ONE)) == Times(z, z)
  {}

  // ----- Powers -----

  lemma {:induction false} PowerAdd(z: Complex, m: nat, n: nat)
    ensures Power(z, m + n) == Times(Power(z, m), Power(z, n))
  {
    hide Times, Plus;
    if m == 0 {
      TimesOne(Power(z, n));
    } else {
      PowerAdd(z, m - 1, n);
      TimesAssociative(z, Power(z, m - 1), Power(z, n));
    }
  }

  lemma {:induction false} PowerOfPower(z: Complex, m: nat, n: nat)
    ensures Power(Power(z, m), n) == Power(z, m * n)
  {
    hide Times, Plus;
    if n == 0 {
    } else {
      PowerOfPower(z, m, n - 1);
      assert m * n == m + m * (n - 1);
      PowerAdd(z, m, m * (n - 1));
    }
  }

  lemma {:induction false} PowerOfOne(n: nat)
    ensures Power(ONE, n) == ONE
  {
    hide Times;
    if n > 0 {
      PowerOfOne(n - 1);
      TimesOne(ONE);
    }
  }

  /** Powers of a product: (ab)^n = a^n b^n. */
  lemma {:induction false} PowerOfProduct(a: Complex, b: Complex, n: nat)
    ensures Power(Times(a, b), n) == Times(Power(a, n), Power(b, n))
  {
    hide Times, Plus;
    if n == 0 {
      TimesOne(ONE);
    } else {
      PowerOfProduct(a, b, n - 1);
      var p, q := Power(a, n - 1), Power(b, n - 1);
      TimesAssociative(a, b, Times(p, q));
      TimesAssociative(b, p, q);
      TimesCommutative(b, p);
      TimesAssociative(p, b, q);
      TimesAssociative(a, p, Times(b, q));
    }
  }

  // ----- Squared magnitude -----

  lemma NormTimes(a: Complex, b: Complex)
    ensures Norm(Times(a, b)) == Norm(a) * Norm(b)
  {}

  lemma {:induction false} NormPower(z: Complex, n: nat)
    requires Norm(z) == 1.0
    ensures Norm(Power(z, n)) == 1.0
  {
    hide Times, Norm;
    if n == 0 {
      assert Norm(ONE) == 1.0 by { NormOne(); }
    } else {
      NormPower(z, n - 1);
      NormTimes(z, Power(z, n - 1));
    }
  }

  lemma NormOne()
    ensures Norm(ONE) == 1.0
  {}

  lemma NormNonNegative(a: Complex)
    ensures Norm(a) >= 0.0
    ensures Norm(a) == 0.0 <==> a == ZERO
  {
    SquareSign(a.re);
    SquareSign(a.im);
    hide Product;
  }

  lemma SquareSign(x: real)
    ensures Product(x, x) >= 0.0
    ensures Product(x, x) == 0.0 <==> x == 0.0
  {
    if x > 0.0 {
      ProductPositive(x, x);
    } else if x < 0.0 {
      ProductPositive(-x, -x);
      ProductNegated(x, x);
    } else {
      ProductZero();
    }
    hide Product;
  }

  lemma ProductPositive(x: real, y: real)
    requires x > 0.0 && y > 0.0
    ensures Product(x, y) > 0.0
  {}

  lemma ProductNegated(x: real, y: real)
    ensures Product(-x, -y) == Product(x, y)
  {}

  lemma ProductZero()
    ensures Product(0.0, 0.0) == 0.0
  {}

  /** On the unit circle the conjugate is the inverse. */
  lemma ConjugateInverse(z: Complex)
    requires Norm(z) == 1.0
    ensures Times(Conjugate(z), z) == ONE && Norm(Conjugate(z)) == 1.0
  {}

  /** The parallelogram law for one butterfly with a unit factor. */
  lemma ButterflyEnergy(e: Complex, z: Complex, o: Complex)
    requires Norm(z) == 1.0
    ensures Norm(Plus(e, Times(z, o))) + Norm(Minus(e, Times(z, o))) == 2.0 * (Norm(e) + Norm(o))
  {
    NormTimes(z, o);
    var t := Times(z, o);
    assert Norm(t) == Norm(o);
    Parallelogram(e, t);
  }

  lemma Parallelogram(a: Complex, b: Complex)
    ensures Norm(Plus(a, b)) + Norm(Minus(a, b)) == 2.0 * (Norm(a) + Norm(b))
  {}
}
