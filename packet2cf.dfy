/**
  `Packet2cf`: two single-precision complex numbers packed in one four-lane float
  register as (re0, im0, re1, im1), and the register-only operations of the AltiVec
  kernel on it. Float lanes are exact reals; `vec_madd(x, y, 0)` is read as x * y.

  Every operation is proved against the textbook formula of `ComplexArith`, element by
  element, and the shuffle recipes are built from the derived masks of `Masks`.
*/
module PacketComplex {
  import opened AltiVec
  import opened Masks
  import opened ComplexArith

  datatype Packet2cf = Packet2cf(v: Quad<real>)
  {
    /** The complex number in lanes 0-1. */
    function Elem0(): Complex
    {
      Complex(v.w0, v.w1)
    }

    /** The complex number in lanes 2-3. */
    function Elem1(): Complex
    {
      Complex(v.w2, v.w3)
    }
  }

  /** The packet holding `e0` in lanes 0-1 and `e1` in lanes 2-3. */
  function Pack(e0: Complex, e1: Complex): (p: Packet2cf)
    ensures p.Elem0() == e0 && p.Elem1() == e1
  {
    Packet2cf(Quad(e0.re, e0.im, e1.re, e1.im))
  }

  /** A packet is determined by its two elements. */
  lemma PackElements(p: Packet2cf)
    ensures Pack(p.Elem0(), p.Elem1()) == p
  {
  }

  // ---------------------------------------------------------------------------
  // Arithmetic core
  // ---------------------------------------------------------------------------

  /** `ei_padd`: element-wise complex sum. */
  function PAdd(a: Packet2cf, b: Packet2cf): (r: Packet2cf)
    ensures r.Elem0() == CAdd(a.Elem0(), b.Elem0())
    ensures r.Elem1() == CAdd(a.Elem1(), b.Elem1())
  {
    Packet2cf(AddF(a.v, b.v))
  }

  /** `ei_psub`: element-wise complex difference. */
  function PSub(a: Packet2cf, b: Packet2cf): (r: Packet2cf)
    ensures r.Elem0() == CSub(a.Elem0(), b.Elem0())
    ensures r.Elem1() == CSub(a.Elem1(), b.Elem1())
  {
    Packet2cf(SubF(a.v, b.v))
  }

  /** `ei_pnegate`: 0 - a on every lane, the element-wise complex negation. */
  function PNegate(a: Packet2cf): (r: Packet2cf)
    ensures r.Elem0() == CNeg(a.Elem0())
    ensures r.Elem1() == CNeg(a.Elem1())
  {
    Packet2cf(SubF(Zero4f, a.v))
  }

  lemma PNegateInvolution(a: Packet2cf)
    ensures PNegate(PNegate(a)) == a
  {
    PackElements(a);
    PackElements(PNegate(PNegate(a)));
  }

  /**
    `ei_pconj`: XOR with CONJ_XOR, read on float lanes: the imaginary lanes change sign,
    the real lanes are untouched.
  */
  function PConj(a: Packet2cf): (r: Packet2cf)
    ensures r.Elem0() == CConj(a.Elem0())
    ensures r.Elem1() == CConj(a.Elem1())
  {
    ConjXorValue();
    Packet2cf(XorSign(a.v, ConjXor))
  }

  lemma PConjInvolution(a: Packet2cf)
    ensures PConj(PConj(a)) == a
  {
    ConjInvolution(a.Elem0());
    ConjInvolution(a.Elem1());
    PackElements(a);
    PackElements(PConj(PConj(a)));
  }

  /** Bit `k` (0 = least significant) of a word. */
  predicate BitOf(x: bv32, k: bv32)
    requires k < 32
  {
    (x >> k) & 1 == 1
  }

  /** `ei_pconj` on the raw bits of the four lanes: `vec_xor` with CONJ_XOR. */
  function PConjBits(a: Quad<bv32>): (r: Quad<bv32>)
    ensures r.w0 == a.w0 && r.w2 == a.w2
    ensures r.w1 == a.w1 ^ SignBit && r.w3 == a.w3 ^ SignBit
  {
    ConjXorValue();
    XorU(a, ConjXor)
  }

  /** XOR with the sign bit flips bit 31 and keeps every other bit. */
  lemma XorSignBitFlipsBit31(x: bv32, k: bv32)
    requires k < 32
    ensures BitOf(x ^ SignBit, k) <==> (BitOf(x, k) != (k == 31))
  {
  }

  /**
    The raw-bit conjugate flips exactly bit 31 (the sign) of lanes 1 and 3 and leaves every
    other bit of the register as it was, NaN payloads included.
  */
  lemma PConjBitsFlipsOnlyImagSigns(a: Quad<bv32>, k: bv32)
    requires k < 32
    ensures PConjBits(a).w0 == a.w0 && PConjBits(a).w2 == a.w2
    ensures BitOf(PConjBits(a).w1, k) <==> (BitOf(a.w1, k) != (k == 31))
    ensures BitOf(PConjBits(a).w3, k) <==> (BitOf(a.w3, k) != (k == 31))
  {
    var r := PConjBits(a);
    var x1, x3 := a.w1, a.w3;
    assert r.w1 == x1 ^ SignBit && r.w3 == x3 ^ SignBit;
    XorSignBitFlipsBit31(x1, k);
    XorSignBitFlipsBit31(x3, k);
  }

  /** The raw-bit conjugate is an involution on every bit pattern. */
  lemma PConjBitsInvolution(a: Quad<bv32>)
    ensures PConjBits(PConjBits(a)) == a
  {
    var r := PConjBits(PConjBits(a));
    assert r.w1 == (a.w1 ^ SignBit) ^ SignBit == a.w1;
    assert r.w3 == (a.w3 ^ SignBit) ^ SignBit == a.w3;
  }

  /** `vec_perm(x, x, COMPLEX_RE)`: each element's real lane in both of its lanes. */
  function DupReal(x: Quad<real>): (r: Quad<real>)
    ensures r == Quad(x.w0, x.w0, x.w2, x.w2)
  {
    ComplexReLanes(x, x);
    PermLanes(x, x, ComplexRe)
  }

  /** `vec_perm(x, x, COMPLEX_IM)`: each element's imaginary lane in both of its lanes. */
  function DupImag(x: Quad<real>): (r: Quad<real>)
    ensures r == Quad(x.w1, x.w1, x.w3, x.w3)
  {
    ComplexImLanes(x, x);
    PermLanes(x, x, ComplexIm)
  }

  /** `vec_perm(x, x, COMPLEX_REV)`: the two lanes of each element swapped. */
  function SwapInElement(x: Quad<real>): (r: Quad<real>)
    ensures r == Quad(x.w1, x.w0, x.w3, x.w2)
  {
    ComplexRevLanes(x, x);
    PermLanes(x, x, ComplexRev)
  }

  /**
    `ei_pmul`: the RE/IM permutes, two multiplies, the CONJ_XOR sign flip and the
    within-element reverse produce the textbook complex product of each element.
  */
  function PMul(a: Packet2cf, b: Packet2cf): (r: Packet2cf)
    ensures r.Elem0() == CMul(a.Elem0(), b.Elem0())
    ensures r.Elem1() == CMul(a.Elem1(), b.Elem1())
  {
    var v1 := MaddF(DupReal(a.v), b.v, Zero4f);
    var v2 := MaddF(DupImag(a.v), b.v, Zero4f);
    var v3 := PConj(Packet2cf(v2)).v;
    var v4 := SwapInElement(v3);
    assert v4 == Quad(-v2.w1, v2.w0, -v2.w3, v2.w2);
    var r := Packet2cf(AddF(v1, v4));
    MulRecipe(a.Elem0(), b.Elem0(), r.Elem0());
    MulRecipe(a.Elem1(), b.Elem1(), r.Elem1());
    r
  }

  /** One element of the `ei_pmul` recipe: re*b + swap(conj(im*b)) is the product x * y. */
  lemma MulRecipe(x: Complex, y: Complex, z: Complex)
    requires z.re == (x.re * y.re + 0.0) + -(x.im * y.im + 0.0)
    requires z.im == (x.re * y.im + 0.0) + (x.im * y.re + 0.0)
    ensures z == CMul(x, y)
  {
  }

  /** Raw bitwise operations on the lanes; they carry no complex meaning. */
  function PAnd(a: Quad<bv32>, b: Quad<bv32>): Quad<bv32>
  {
    AndU(a, b)
  }

  function POr(a: Quad<bv32>, b: Quad<bv32>): Quad<bv32>
  {
    OrU(a, b)
  }

  function PXor(a: Quad<bv32>, b: Quad<bv32>): Quad<bv32>
  {
    XorU(a, b)
  }

  /** `ei_pandnot`: a AND (b NOR b), which is a AND NOT b on every lane. */
  function PAndNot(a: Quad<bv32>, b: Quad<bv32>): (r: Quad<bv32>)
    ensures r.w0 == a.w0 & !b.w0 && r.w1 == a.w1 & !b.w1
    ensures r.w2 == a.w2 & !b.w2 && r.w3 == a.w3 & !b.w3
  {
    AndU(a, NorU(b, b))
  }

  /** a AND b and a AND NOT b split `a` into disjoint parts whose OR is `a`. */
  lemma AndAndNotPartition(a: Quad<bv32>, b: Quad<bv32>)
    ensures POr(PAnd(a, b), PAndNot(a, b)) == a
    ensures PAnd(PAnd(a, b), PAndNot(a, b)) == Quad(0, 0, 0, 0)
  {
    WordPartition(a.w0, b.w0);
    WordPartition(a.w1, b.w1);
    WordPartition(a.w2, b.w2);
    WordPartition(a.w3, b.w3);
  }

  /** One word of the partition: x AND y and x AND NOT y are disjoint and cover x. */
  lemma WordPartition(x: bv32, y: bv32)
    ensures (x & y) | (x & !y) == x
    ensures (x & y) & (x & !y) == 0
  {
  }

  /** XOR with the same mask twice gives the packet back, whatever the mask. */
  lemma PXorCancel(a: Quad<bv32>, b: Quad<bv32>)
    ensures PXor(PXor(a, b), b) == a
  {
    WordXorCancel(a.w0, b.w0);
    WordXorCancel(a.w1, b.w1);
    WordXorCancel(a.w2, b.w2);
    WordXorCancel(a.w3, b.w3);
  }

  /** One word of the cancellation: (x XOR y) XOR y is x. */
  lemma WordXorCancel(x: bv32, y: bv32)
    ensures (x ^ y) ^ y == x
  {
  }

  // ---------------------------------------------------------------------------
  // Reversal, reductions and realignment
  // ---------------------------------------------------------------------------

  /** `ei_preverse`: the two elements swap places, each kept whole. */
  function PReverse(a: Packet2cf): (r: Packet2cf)
    ensures r.Elem0() == a.Elem1() && r.Elem1() == a.Elem0()
  {
    ComplexRev2Lanes(a.v, a.v);
    Packet2cf(PermLanes(a.v, a.v, ComplexRev2))
  }

  lemma PReverseInvolution(a: Packet2cf)
    ensures PReverse(PReverse(a)) == a
  {
    PackElements(a);
    PackElements(PReverse(PReverse(a)));
  }

  /**
    `ei_predux`: rotate by one element, add, and take element 0: the sum of the two
    elements. Line 137 of the source passes an undeclared `sum`; this model passes the
    local `b` computed just before, which is evidently what was meant.
  */
  function PRedux(a: Packet2cf): (r: Complex)
    ensures r == CAdd(a.Elem0(), a.Elem1())
  {
    var rotated := SldLanes(a.v, a.v, 8);
    var b := AddF(a.v, rotated);
    Packet2cf(b).Elem0()
  }

  /**
    `ei_preduxp` on `vecs[0]`, `vecs[1]`: three `vec_sld` steps and an add give, in element
    k, the horizontal sum of packet k (not a cross-packet combination).
  */
  function PReduxp(vecs0: Packet2cf, vecs1: Packet2cf): (r: Packet2cf)
    ensures r.Elem0() == CAdd(vecs0.Elem1(), vecs0.Elem0())
    ensures r.Elem1() == CAdd(vecs1.Elem0(), vecs1.Elem1())
  {
    var b1 := SldLanes(vecs0.v, vecs1.v, 8);
    var b2 := SldLanes(vecs1.v, vecs0.v, 8);
    var b3 := SldLanes(b2, b2, 8);
    Packet2cf(AddF(b1, b3))
  }

  /** Over exact reals element k of `ei_preduxp` is `ei_predux` of packet k. */
  lemma PReduxpIsPerPacketRedux(vecs0: Packet2cf, vecs1: Packet2cf)
    ensures PReduxp(vecs0, vecs1).Elem0() == PRedux(vecs0)
    ensures PReduxp(vecs0, vecs1).Elem1() == PRedux(vecs1)
  {
  }

  /** `ei_predux_mul`: multiply by the element-rotated copy and take element 0: e0 * e1. */
  function PReduxMul(a: Packet2cf): (r: Complex)
    ensures r == CMul(a.Elem0(), a.Elem1())
  {
    var b := SldLanes(a.v, a.v, 8);
    PMul(a, Packet2cf(b)).Elem0()
  }

  /**
    `ei_palign_impl<Offset, Packet2cf>::run`: `first` is updated in place; for Offset 1 it
    becomes {first.e1, second.e0}, for every other Offset it is left as it was.
  */
  method PAlignRun(offset: int, first: Packet2cf, second: Packet2cf) returns (first': Packet2cf)
    ensures offset != 1 ==> first' == first
    ensures offset == 1 ==> first'.Elem0() == first.Elem1() && first'.Elem1() == second.Elem0()
  {
    first' := first;
    if offset == 1 {
      first' := Packet2cf(SldLanes(first.v, second.v, 8));
    }
  }

  // ---------------------------------------------------------------------------
  // The three conjugate helpers
  // ---------------------------------------------------------------------------

  /** `ei_conj_helper<Packet2cf, Packet2cf, false, true>::pmul`: a * conj(b). */
  function ConjRightPMul(a: Packet2cf, b: Packet2cf): (r: Packet2cf)
    ensures r.Elem0() == CMul(a.Elem0(), CConj(b.Elem0()))
    ensures r.Elem1() == CMul(a.Elem1(), CConj(b.Elem1()))
  {
    PMul(a, PConj(b))
  }

  /** `ei_conj_helper<Packet2cf, Packet2cf, false, true>::pmadd`: x * conj(y) + c. */
  function ConjRightPMAdd(x: Packet2cf, y: Packet2cf, c: Packet2cf): (r: Packet2cf)
    ensures r.Elem0() == CAdd(CMul(x.Elem0(), CConj(y.Elem0())), c.Elem0())
    ensures r.Elem1() == CAdd(CMul(x.Elem1(), CConj(y.Elem1())), c.Elem1())
  {
    PAdd(ConjRightPMul(x, y), c)
  }

  /** `ei_conj_helper<Packet2cf, Packet2cf, true, false>::pmul`: conj(a) * b. */
  function ConjLeftPMul(a: Packet2cf, b: Packet2cf): (r: Packet2cf)
    ensures r.Elem0() == CMul(CConj(a.Elem0()), b.Elem0())
    ensures r.Elem1() == CMul(CConj(a.Elem1()), b.Elem1())
  {
    PMul(PConj(a), b)
  }

  /** `ei_conj_helper<Packet2cf, Packet2cf, true, false>::pmadd`: conj(x) * y + c. */
  function ConjLeftPMAdd(x: Packet2cf, y: Packet2cf, c: Packet2cf): (r: Packet2cf)
    ensures r.Elem0() == CAdd(CMul(CConj(x.Elem0()), y.Elem0()), c.Elem0())
    ensures r.Elem1() == CAdd(CMul(CConj(x.Elem1()), y.Elem1()), c.Elem1())
  {
    PAdd(ConjLeftPMul(x, y), c)
  }

  /** `ei_conj_helper<Packet2cf, Packet2cf, true, true>::pmul`: conj(a * b) = conj(a) * conj(b). */
  function ConjBothPMul(a: Packet2cf, b: Packet2cf): (r: Packet2cf)
    ensures r.Elem0() == CMul(CConj(a.Elem0()), CConj(b.Elem0()))
    ensures r.Elem1() == CMul(CConj(a.Elem1()), CConj(b.Elem1()))
  {
    ConjOfProduct(a.Elem0(), b.Elem0());
    ConjOfProduct(a.Elem1(), b.Elem1());
    PConj(PMul(a, b))
  }

  /** `ei_conj_helper<Packet2cf, Packet2cf, true, true>::pmadd`: conj(x) * conj(y) + c. */
  function ConjBothPMAdd(x: Packet2cf, y: Packet2cf, c: Packet2cf): (r: Packet2cf)
    ensures r.Elem0() == CAdd(CMul(CConj(x.Elem0()), CConj(y.Elem0())), c.Elem0())
    ensures r.Elem1() == CAdd(CMul(CConj(x.Elem1()), CConj(y.Elem1())), c.Elem1())
  {
    PAdd(ConjBothPMul(x, y), c)
  }

  /** The post-hoc conjugate of the both-conjugated helper equals conjugating both operands first. */
  lemma ConjBothPMulConjugatesOperands(a: Packet2cf, b: Packet2cf)
    ensures ConjBothPMul(a, b) == PMul(PConj(a), PConj(b))
  {
    PackElements(ConjBothPMul(a, b));
    PackElements(PMul(PConj(a), PConj(b)));
  }

  // ---------------------------------------------------------------------------
  // Division
  // ---------------------------------------------------------------------------

  /**
    The denominator of `ei_pdiv`: s = b * b lane-wise, then s + (s with each element's lanes
    swapped) holds |e|^2 in both lanes of each element e of b.
  */
  function Modulus2Lanes(b: Packet2cf): (d: Quad<real>)
    ensures d == Quad(Norm2(b.Elem0()), Norm2(b.Elem0()), Norm2(b.Elem1()), Norm2(b.Elem1()))
  {
    var s := MaddF(b.v, b.v, Zero4f);
    var d := AddF(s, SwapInElement(s));
    assert d.w0 == Norm2(b.Elem0()) && d.w1 == Norm2(b.Elem0());
    assert d.w2 == Norm2(b.Elem1()) && d.w3 == Norm2(b.Elem1());
    d
  }

  /**
    `ei_pdiv`: a * conj(b) divided lane-wise by the modulus lanes, which is the textbook
    quotient of each element. A zero element of b (IEEE Inf/NaN lanes) is outside the model.
  */
  function PDiv(a: Packet2cf, b: Packet2cf): (r: Packet2cf)
    requires Norm2(b.Elem0()) != 0.0 && Norm2(b.Elem1()) != 0.0
    ensures r.Elem0() == CDiv(a.Elem0(), b.Elem0())
    ensures r.Elem1() == CDiv(a.Elem1(), b.Elem1())
  {
    var res := ConjRightPMul(a, b);
    Packet2cf(DivF(res.v, Modulus2Lanes(b)))
  }

  /** Multiplying the quotient back by the divisor gives the dividend. */
  lemma PDivThenPMul(a: Packet2cf, b: Packet2cf)
    requires Norm2(b.Elem0()) != 0.0 && Norm2(b.Elem1()) != 0.0
    ensures PMul(PDiv(a, b), b) == a
  {
    DivThenMul(a.Elem0(), b.Elem0());
    DivThenMul(a.Elem1(), b.Elem1());
    PackElements(a);
    PackElements(PMul(PDiv(a, b), b));
  }

  /** (1 + 2i)(3 + 4i) = -5 + 10i and (1 + 2i) / (3 + 4i) = 0.44 + 0.08i, in both elements. */
  lemma PMulPDivExample()
    ensures PMul(Pack(Complex(1.0, 2.0), Complex(1.0, 2.0)), Pack(Complex(3.0, 4.0), Complex(3.0, 4.0)))
            == Pack(Complex(-5.0, 10.0), Complex(-5.0, 10.0))
    ensures Norm2(Complex(3.0, 4.0)) == 25.0
    ensures PDiv(Pack(Complex(1.0, 2.0), Complex(1.0, 2.0)), Pack(Complex(3.0, 4.0), Complex(3.0, 4.0)))
            == Pack(Complex(0.44, 0.08), Complex(0.44, 0.08))
  {
    var x := Pack(Complex(1.0, 2.0), Complex(1.0, 2.0));
    var y := Pack(Complex(3.0, 4.0), Complex(3.0, 4.0));
    PackElements(PMul(x, y));
    PackElements(PDiv(x, y));
  }
}
