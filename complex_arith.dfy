/**
  Textbook complex arithmetic over exact reals: the reference the packed kernel's
  shuffle recipes are proved against.
*/
module ComplexArith {

  datatype Complex = Complex(re: real, im: real)

  function CAdd(x: Complex, y: Complex): Complex
  {
    Complex(x.re + y.re, x.im + y.im)
  }

  function CSub(x: Complex, y: Complex): Complex
  {
    Complex(x.re - y.re, x.im - y.im)
  }

  function CNeg(x: Complex): Complex
  {
    Complex(-x.re, -x.im)
  }

  function CConj(x: Complex): Complex
  {
    Complex(x.re, -x.im)
  }

  /** (a + bi)(c + di) = (ac - bd) + (ad + bc)i. */
  function CMul(x: Complex, y: Complex): Complex
  {
    Complex(x.re * y.re - x.im * y.im, x.re * y.im + x.im * y.re)
  }

  /** The squared modulus re^2 + im^2. */
  function Norm2(x: Complex): real
  {
    x.re * x.re + x.im * x.im
  }

  /** x / y = x * conj(y) / |y|^2, defined when y is not zero. */
  function CDiv(x: Complex, y: Complex): Complex
    requires Norm2(y) != 0.0
  {
    var n := CMul(x, CConj(y));
    Complex(n.re / Norm2(y), n.im / Norm2(y))
  }

  lemma ConjInvolution(x: Complex)
    ensures CConj(CConj(x)) == x
  {
  }

  /** Conjugation distributes over the product. */
  lemma ConjOfProduct(x: Complex, y: Complex)
    ensures CConj(CMul(x, y)) == CMul(CConj(x), CConj(y))
  {
  }

  /** Division undoes multiplication: (x / y) * y == x for every nonzero y. */
  lemma DivThenMul(x: Complex, y: Complex)
    requires Norm2(y) != 0.0
    ensures CMul(CDiv(x, y), y) == x
  {
    var d := Norm2(y);
    var n := CMul(x, CConj(y));
    var q := CDiv(x, y);
    assert n.re == x.re * y.re + x.im * y.im;
    assert n.im == x.im * y.re - x.re * y.im;
    calc {
      q.re * y.re - q.im * y.im;
      (n.re * y.re - n.im * y.im) / d;
      { assert n.re * y.re - n.im * y.im == x.re * (y.re * y.re + y.im * y.im); }
      x.re * d / d;
      x.re;
    }
    calc {
      q.re * y.im + q.im * y.re;
      (n.re * y.im + n.im * y.re) / d;
      { assert n.re * y.im + n.im * y.re == x.im * (y.re * y.re + y.im * y.im); }
      x.im * d / d;
      x.im;
    }
  }
}
