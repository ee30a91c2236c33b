/**
  The process-wide shuffle and sign masks of the packed-complex kernel, derived from the
  base patterns exactly as the kernel derives them with `vec_splat`, `vec_mergeh` and
  `vec_sld`, together with the literal tables they are meant to equal and the lane
  permutation each permute mask performs.

  The four base patterns are defined in a file that is not part of this model; their
  values here are stated assumptions:
  - `ei_p16uc_FORWARD` is the identity control vector 0 .. 15;
  - `ei_p16uc_REVERSE` is the word reversal 12..15, 8..11, 4..7, 0..3;
  - `ei_p4i_ZERO` is four zero words;
  - `ei_p4f_ZERO_` is four words 0x80000000 (the float -0.0, sign bit alone).
*/
module Masks {
  import opened AltiVec

  const Forward: seq<Byte> := [0, 1, 2, 3, 4, 5, 6, 7, 8, 9, 10, 11, 12, 13, 14, 15]
  const Reverse: seq<Byte> := [12, 13, 14, 15, 8, 9, 10, 11, 4, 5, 6, 7, 0, 1, 2, 3]
  const ZeroWords: Quad<bv32> := Quad(0, 0, 0, 0)
  const NegZeroWords: Quad<bv32> := Quad(SignBit, SignBit, SignBit, SignBit)

  /** `vec_splat((Packet4ui) ei_p16uc_FORWARD, n)` cast back to bytes: word n of the identity, four times. */
  function ForwardSplat(n: nat): (r: seq<Byte>)
    requires n < 4
    ensures |r| == 16
  {
    WordsFlatten(Splat(Words(Forward), n));
    Flatten(Splat(Words(Forward), n))
  }

  /** `ei_p4ui_CONJ_XOR`. */
  const ConjXor: Quad<bv32> := MergeHigh(ZeroWords, NegZeroWords)
  /** `ei_p16uc_COMPLEX_RE`. */
  const ComplexRe: seq<Byte> := Sld(ForwardSplat(0), ForwardSplat(2), 8)
  /** `ei_p16uc_COMPLEX_IM`. */
  const ComplexIm: seq<Byte> := Sld(ForwardSplat(1), ForwardSplat(3), 8)
  /** `ei_p16uc_COMPLEX_REV`. */
  const ComplexRev: seq<Byte> := Sld(Reverse, Reverse, 8)
  /** `ei_p16uc_COMPLEX_REV2`. */
  const ComplexRev2: seq<Byte> := Sld(Forward, Forward, 8)
  /** `ei_p16uc_PSET_HI`. */
  const PsetHi: seq<Byte> := Flatten(MergeHigh(Splat(Words(Forward), 0), Splat(Words(Forward), 1)))
  /** `ei_p16uc_PSET_LO`. */
  const PsetLo: seq<Byte> := Flatten(MergeHigh(Splat(Words(Forward), 2), Splat(Words(Forward), 3)))

  // ---------------------------------------------------------------------------
  // Each derived mask equals the literal table written beside it
  // ---------------------------------------------------------------------------

  lemma ForwardSplatValue(n: nat)
    requires n < 4
    ensures ForwardSplat(n) == [4 * n, 4 * n + 1, 4 * n + 2, 4 * n + 3,
                                4 * n, 4 * n + 1, 4 * n + 2, 4 * n + 3,
                                4 * n, 4 * n + 1, 4 * n + 2, 4 * n + 3,
                                4 * n, 4 * n + 1, 4 * n + 2, 4 * n + 3]
  {
    var w := Words(Forward).At(n);
    assert w == [4 * n, 4 * n + 1, 4 * n + 2, 4 * n + 3];
  }

  /** CONJ_XOR holds the sign bit in lanes 1 and 3 and nothing else. */
  lemma ConjXorValue()
    ensures ConjXor == Quad(0, 0x8000_0000, 0, 0x8000_0000)
    ensures SignBitsOnly(ConjXor)
  {
  }

  lemma ComplexReValue()
    ensures ComplexRe == [0, 1, 2, 3, 0, 1, 2, 3, 8, 9, 10, 11, 8, 9, 10, 11]
  {
    ForwardSplatValue(0);
    ForwardSplatValue(2);
  }

  lemma ComplexImValue()
    ensures ComplexIm == [4, 5, 6, 7, 4, 5, 6, 7, 12, 13, 14, 15, 12, 13, 14, 15]
  {
    ForwardSplatValue(1);
    ForwardSplatValue(3);
  }

  lemma ComplexRevValue()
    ensures ComplexRev == [4, 5, 6, 7, 0, 1, 2, 3, 12, 13, 14, 15, 8, 9, 10, 11]
  {
    assert ComplexRev == (Reverse + Reverse)[8 .. 24];
  }

  lemma ComplexRev2Value()
    ensures ComplexRev2 == [8, 9, 10, 11, 12, 13, 14, 15, 0, 1, 2, 3, 4, 5, 6, 7]
  {
    assert ComplexRev2 == (Forward + Forward)[8 .. 24];
  }

  lemma PsetHiValue()
    ensures PsetHi == [0, 1, 2, 3, 4, 5, 6, 7, 0, 1, 2, 3, 4, 5, 6, 7]
  {
    var w := Words(Forward);
    assert w.At(0) == [0, 1, 2, 3] && w.At(1) == [4, 5, 6, 7];
    assert PsetHi == w.At(0) + w.At(1) + w.At(0) + w.At(1);
  }

  lemma PsetLoValue()
    ensures PsetLo == [8, 9, 10, 11, 12, 13, 14, 15, 8, 9, 10, 11, 12, 13, 14, 15]
  {
    var w := Words(Forward);
    assert w.At(2) == [8, 9, 10, 11] && w.At(3) == [12, 13, 14, 15];
    assert PsetLo == w.At(2) + w.At(3) + w.At(2) + w.At(3);
  }

  // ---------------------------------------------------------------------------
  // Every permute mask moves whole words, and the lane permutation it performs
  // ---------------------------------------------------------------------------

  /** `ei_p16uc_COMPLEX_RE` copies each element's real lane over its imaginary lane. */
  lemma ComplexReLanes<T>(a: Quad<T>, b: Quad<T>)
    ensures MovesWords(ComplexRe)
    ensures PermLanes(a, b, ComplexRe) == Quad(a.w0, a.w0, a.w2, a.w2)
  {
    ComplexReValue();
    assert ComplexRe == WordMask(Quad(0, 0, 2, 2));
    WordMaskMovesWords(Quad(0, 0, 2, 2));
  }

  /** `ei_p16uc_COMPLEX_IM` copies each element's imaginary lane over its real lane. */
  lemma ComplexImLanes<T>(a: Quad<T>, b: Quad<T>)
    ensures MovesWords(ComplexIm)
    ensures PermLanes(a, b, ComplexIm) == Quad(a.w1, a.w1, a.w3, a.w3)
  {
    ComplexImValue();
    assert ComplexIm == WordMask(Quad(1, 1, 3, 3));
    WordMaskMovesWords(Quad(1, 1, 3, 3));
  }

  /** `ei_p16uc_COMPLEX_REV` swaps the two lanes inside each element. */
  lemma ComplexRevLanes<T>(a: Quad<T>, b: Quad<T>)
    ensures MovesWords(ComplexRev)
    ensures PermLanes(a, b, ComplexRev) == Quad(a.w1, a.w0, a.w3, a.w2)
  {
    ComplexRevValue();
    assert ComplexRev == WordMask(Quad(1, 0, 3, 2));
    WordMaskMovesWords(Quad(1, 0, 3, 2));
  }

  /** `ei_p16uc_COMPLEX_REV2` swaps the two elements, each kept whole. */
  lemma ComplexRev2Lanes<T>(a: Quad<T>, b: Quad<T>)
    ensures MovesWords(ComplexRev2)
    ensures PermLanes(a, b, ComplexRev2) == Quad(a.w2, a.w3, a.w0, a.w1)
  {
    ComplexRev2Value();
    assert ComplexRev2 == WordMask(Quad(2, 3, 0, 1));
    WordMaskMovesWords(Quad(2, 3, 0, 1));
  }

  /** `ei_p16uc_PSET_HI` copies the element in lanes 0-1 into both element slots. */
  lemma PsetHiLanes<T>(a: Quad<T>, b: Quad<T>)
    ensures MovesWords(PsetHi)
    ensures PermLanes(a, b, PsetHi) == Quad(a.w0, a.w1, a.w0, a.w1)
  {
    PsetHiValue();
    assert PsetHi == WordMask(Quad(0, 1, 0, 1));
    WordMaskMovesWords(Quad(0, 1, 0, 1));
  }

  /** `ei_p16uc_PSET_LO` copies the element in lanes 2-3 into both element slots. */
  lemma PsetLoLanes<T>(a: Quad<T>, b: Quad<T>)
    ensures MovesWords(PsetLo)
    ensures PermLanes(a, b, PsetLo) == Quad(a.w2, a.w3, a.w2, a.w3)
  {
    PsetLoValue();
    assert PsetLo == WordMask(Quad(2, 3, 2, 3));
    WordMaskMovesWords(Quad(2, 3, 2, 3));
  }
}
