# Eigen's AltiVec `Packet2cf` kernel, modelled in Dafny

Eigen's AltiVec back end packs two single-precision complex numbers into one 128-bit
register of four float lanes, laid out `(re0, im0, re1, im1)`, and implements complex
multiplication, division, conjugation, reductions and realignment purely with byte
shuffles (`vec_perm`, `vec_sld`), lane-wise arithmetic and one XOR sign mask. A wrong
shuffle index gives silently wrong numbers, so the value of this model is the layout
algebra: the masks, and the recipes built from them.

The model has two layers.

1. **Bytes and masks** (`altivec.dfy`, `masks.dfy`). `vec_sld`, `vec_perm`, the word
   `vec_splat`, the word `vec_mergeh` and the byte/word casts are defined on 16-element
   sequences and four-word `Quad`s, generically in what a byte is. The seven process-wide
   masks are derived exactly as the kernel derives them, and each is proved equal to the
   literal table written beside it. Each permute mask is proved to move whole 4-byte words.
   Such a mask's `vec_perm` is then lifted to a permutation of the four lanes
   (`PermLanes`). The lift is proved to be the unique lane value whose byte view
   (`Bytes`) is the byte-level permute.
2. **Lanes** (`packet2cf.dfy`, `packet2cf_memory.dfy`). Every `Packet2cf` operation is
   written as the kernel's recipe over those lane permutations. The arithmetic operations,
   the reductions, the division and the conjugate helpers are proved, element by element,
   to compute the textbook formula of `complex_arith.dfy`. The bitwise operations act on
   raw `bv32` lanes and are stated by lane-wise bit laws. The memory operations are stated
   against the spec functions `Loaded` and `Stored`. Float lanes are exact
   `real`s, and `vec_madd(x, y, 0)` is read as `x * y`. The conjugate is modelled twice:
   on real lanes, as a negation of the imaginary lanes, and on raw `bv32` lanes, as the
   XOR with `CONJ_XOR`. The `bv32` form is proved to flip bit 31 of lanes 1 and 3 and no
   other bit. Load, store, `pfirst` and the aligned broadcast are methods over an
   `array<real>`.

Assumptions about names defined outside `Complex.h` (their file is not part of this model):
`ei_p16uc_FORWARD` is the byte identity 0..15. `ei_p16uc_REVERSE` is the word reversal
12..15, 8..11, 4..7, 0..3; the comment on line 31 holds only under this reading.
`ei_p4i_ZERO` is four zero words. `ei_p4f_ZERO_` is four words 0x80000000. `ei_pload`,
`ei_pstore` and their unaligned forms on `Packet4f` move the four consecutive floats at
the address. `ei_p4f_ZERO` is four zero lanes (`Zero4f`), and the `Packet4f` `ei_padd`,
`ei_psub` and `ei_pdiv` (lines 82, 136, 147, 212) are exact lane-wise addition,
subtraction and division (`AddF`, `SubF`, `DivF`).
Flipping a float's sign bit negates it; over reals this is exact.

## Notes on the source

- `ei_predux` (line 137) returns `ei_pfirst(Packet2cf(sum))`, but `sum` is declared
  neither in `ei_predux` nor elsewhere in `Complex.h`. The model passes the local `b` from
  lines 135-136, which is evidently what was meant. No member models the undeclared name.
- `ei_preduxp` (lines 140-150): element k of the result is the horizontal sum of
  `vecs[k]`. Element 0 is `vecs[0].e1 + vecs[0].e0` and
  element 1 is `vecs[1].e0 + vecs[1].e1`. The model follows the code.

## Model

| member | source | states |
|---|---|---|
| `AltiVec.Sld` | Eigen/src/Core/arch/AltiVec/Complex.h:29-32 | `vec_sld(a,b,n)` byte i is `a[n+i]` when `n+i < 16`, else `b[n+i-16]` |
| `AltiVec.Perm` | Eigen/src/Core/arch/AltiVec/Complex.h:90-99 | `vec_perm(a,b,m)` byte i is byte `m[i] mod 32` of a, or of b when that index is 16 or more |
| `AltiVec.Words` | Eigen/src/Core/arch/AltiVec/Complex.h:29-34 | the cast of a byte vector to `Packet4ui` makes bytes 4k..4k+3 word k |
| `AltiVec.Flatten` | Eigen/src/Core/arch/AltiVec/Complex.h:29-34 | the `(Packet16uc)` cast from four words back to 16 bytes: definition, no contract; stated by `AltiVec.FlattenWords` and `AltiVec.WordsFlatten` |
| `AltiVec.FlattenWords` | Eigen/src/Core/arch/AltiVec/Complex.h:29-34 | casting bytes to words and back gives the same bytes |
| `AltiVec.WordsFlatten` | Eigen/src/Core/arch/AltiVec/Complex.h:29-34 | casting four 4-byte words to bytes and back gives the same words |
| `AltiVec.Splat` | Eigen/src/Core/arch/AltiVec/Complex.h:29-34 | `vec_splat(a, n)` on words (every word is word n of `a`): definition, no contract; stated through `Masks.ForwardSplatValue` |
| `AltiVec.MergeHigh` | Eigen/src/Core/arch/AltiVec/Complex.h:28-34 | `vec_mergeh(a, b)` on words (a.w0, b.w0, a.w1, b.w1): definition, no contract; stated through `Masks.ConjXorValue`, `Masks.PsetHiValue` and `Masks.PsetLoValue` |
| `AltiVec.PermLanes` | Eigen/src/Core/arch/AltiVec/Complex.h:90-99 | `vec_perm` on four lanes for a word-moving mask: definition, no contract; stated by `AltiVec.PermLanesBytes` and `AltiVec.PermLanesUnique` |
| `AltiVec.SldLanes` | Eigen/src/Core/arch/AltiVec/Complex.h:135-146 | `vec_sld` on four lanes for a whole-word shift: definition, no contract; stated by `AltiVec.SldLanesBytes` and `AltiVec.SldLanesUnique` |
| `AltiVec.AddF` | Eigen/src/Core/arch/AltiVec/Complex.h:80 | `vec_add` lane-wise on exact reals: definition, no contract; stated through `PacketComplex.PAdd` |
| `AltiVec.SubF` | Eigen/src/Core/arch/AltiVec/Complex.h:81-82 | `vec_sub` lane-wise on exact reals: definition, no contract; stated through `PacketComplex.PSub` and `PacketComplex.PNegate` |
| `AltiVec.MaddF` | Eigen/src/Core/arch/AltiVec/Complex.h:94-96 | `vec_madd(a, b, c)` = a * b + c lane-wise, without rounding: definition, no contract; stated through `PacketComplex.PMul` |
| `AltiVec.DivF` | Eigen/src/Core/arch/AltiVec/Complex.h:212 | `ei_pdiv` on `Packet4f`, lane-wise exact division, for nonzero lanes: definition, no contract; stated through `PacketComplex.PDiv` |
| `AltiVec.XorSign` | Eigen/src/Core/arch/AltiVec/Complex.h:83 | `vec_xor` of float lanes with a sign-bit-only mask, read as negating the lanes whose mask word is 0x80000000: definition, no contract; this is the stated sign-bit assumption, used by `PacketComplex.PConj` |
| `AltiVec.NorU` | Eigen/src/Core/arch/AltiVec/Complex.h:107 | `vec_nor` lane-wise on words: definition, no contract; stated through `PacketComplex.PAndNot` |
| `AltiVec.AndU` | Eigen/src/Core/arch/AltiVec/Complex.h:104 | `vec_and` lane-wise on words: definition, no contract; stated through `PacketComplex.AndAndNotPartition` |
| `AltiVec.OrU` | Eigen/src/Core/arch/AltiVec/Complex.h:105 | `vec_or` lane-wise on words: definition, no contract; stated through `PacketComplex.AndAndNotPartition` |
| `AltiVec.XorU` | Eigen/src/Core/arch/AltiVec/Complex.h:106 | `vec_xor` lane-wise on words: definition, no contract; stated through `PacketComplex.PXorCancel` and `PacketComplex.PConjBits` |
| `AltiVec.BytesInjective` | Eigen/src/Core/arch/AltiVec/Complex.h:37-42 | two registers with the same bytes have the same four lanes |
| `AltiVec.WordMaskMovesWords` | Eigen/src/Core/arch/AltiVec/Complex.h:29-34 | a mask built from four lane indices moves whole words, and word k reads the k-th index |
| `AltiVec.PermByte` | Eigen/src/Core/arch/AltiVec/Complex.h:90-99 | under a word-moving mask, result byte i is byte `i mod 4` of the source lane of word `i/4` |
| `AltiVec.PermLanesBytes` | Eigen/src/Core/arch/AltiVec/Complex.h:90-99 | the lane-level permute has exactly the bytes of the byte-level `vec_perm` |
| `AltiVec.PermLanesUnique` | Eigen/src/Core/arch/AltiVec/Complex.h:90-99 | any four-lane value whose bytes are the `vec_perm` bytes is the lane-level permute |
| `AltiVec.SldLanesBytes` | Eigen/src/Core/arch/AltiVec/Complex.h:135 | a whole-word lane shift has exactly the bytes of the byte-level `vec_sld` |
| `AltiVec.SldLanesUnique` | Eigen/src/Core/arch/AltiVec/Complex.h:144-146 | any four-lane value whose bytes are the `vec_sld` bytes is the lane-level shift |
| `Masks.ForwardSplat` | Eigen/src/Core/arch/AltiVec/Complex.h:29-30 | the term `(Packet16uc) vec_splat((Packet4ui)ei_p16uc_FORWARD, n)` is 16 bytes; its value is stated by `Masks.ForwardSplatValue` |
| `Masks.ForwardSplatValue` | Eigen/src/Core/arch/AltiVec/Complex.h:29-34 | splatting word n of FORWARD gives `4n..4n+3` four times |
| `Masks.ConjXorValue` | Eigen/src/Core/arch/AltiVec/Complex.h:28 | `CONJ_XOR` = {0, 0x80000000, 0, 0x80000000}: sign bits of lanes 1 and 3 only |
| `Masks.ComplexReValue` | Eigen/src/Core/arch/AltiVec/Complex.h:29 | `COMPLEX_RE` = {0-3, 0-3, 8-11, 8-11}, as its comment says |
| `Masks.ComplexImValue` | Eigen/src/Core/arch/AltiVec/Complex.h:30 | `COMPLEX_IM` = {4-7, 4-7, 12-15, 12-15} |
| `Masks.ComplexRevValue` | Eigen/src/Core/arch/AltiVec/Complex.h:31 | `COMPLEX_REV` = {4-7, 0-3, 12-15, 8-11}, given REVERSE is the word reversal |
| `Masks.ComplexRev2Value` | Eigen/src/Core/arch/AltiVec/Complex.h:32 | `COMPLEX_REV2` = {8-15, 0-7} |
| `Masks.PsetHiValue` | Eigen/src/Core/arch/AltiVec/Complex.h:33 | `PSET_HI` = {0-7, 0-7} |
| `Masks.PsetLoValue` | Eigen/src/Core/arch/AltiVec/Complex.h:34 | `PSET_LO` = {8-15, 8-15} |
| `Masks.ComplexReLanes` | Eigen/src/Core/arch/AltiVec/Complex.h:29 | `COMPLEX_RE` moves whole words; as a lane permute it gives (a0, a0, a2, a2) |
| `Masks.ComplexImLanes` | Eigen/src/Core/arch/AltiVec/Complex.h:30 | `COMPLEX_IM` moves whole words; as a lane permute it gives (a1, a1, a3, a3) |
| `Masks.ComplexRevLanes` | Eigen/src/Core/arch/AltiVec/Complex.h:31 | `COMPLEX_REV` moves whole words; it swaps the lanes inside each element: (a1, a0, a3, a2) |
| `Masks.ComplexRev2Lanes` | Eigen/src/Core/arch/AltiVec/Complex.h:32 | `COMPLEX_REV2` moves whole words; it swaps the elements whole: (a2, a3, a0, a1) |
| `Masks.PsetHiLanes` | Eigen/src/Core/arch/AltiVec/Complex.h:33 | `PSET_HI` moves whole words; it copies lanes 0-1 into both elements: (a0, a1, a0, a1) |
| `Masks.PsetLoLanes` | Eigen/src/Core/arch/AltiVec/Complex.h:34 | `PSET_LO` moves whole words; it copies lanes 2-3 into both elements: (a2, a3, a2, a3) |
| `ComplexArith.ConjInvolution` | Eigen/src/Core/arch/AltiVec/Complex.h:83 | conjugating twice gives the number back |
| `ComplexArith.ConjOfProduct` | Eigen/src/Core/arch/AltiVec/Complex.h:201-204 | conj(x*y) = conj(x)*conj(y) |
| `ComplexArith.DivThenMul` | Eigen/src/Core/arch/AltiVec/Complex.h:207-213 | for nonzero y, (x*conj(y)/Norm2(y)) * y = x |
| `PacketComplex.Pack` | Eigen/src/Core/arch/AltiVec/Complex.h:37-42 | the packet built from two complex values holds them as element 0 and element 1 |
| `PacketComplex.PackElements` | Eigen/src/Core/arch/AltiVec/Complex.h:37-42 | a packet is determined by its two elements |
| `PacketComplex.PAdd` | Eigen/src/Core/arch/AltiVec/Complex.h:80 | each element of the result is the complex sum of the operands' elements |
| `PacketComplex.PSub` | Eigen/src/Core/arch/AltiVec/Complex.h:81 | each element is the complex difference |
| `PacketComplex.PNegate` | Eigen/src/Core/arch/AltiVec/Complex.h:82 | `0 - a` lane-wise is the complex negation of each element |
| `PacketComplex.PNegateInvolution` | Eigen/src/Core/arch/AltiVec/Complex.h:82 | negating twice gives the packet back |
| `PacketComplex.PConj` | Eigen/src/Core/arch/AltiVec/Complex.h:83 | XOR with the derived `CONJ_XOR`, read on float lanes, is the complex conjugate of each element |
| `PacketComplex.PConjInvolution` | Eigen/src/Core/arch/AltiVec/Complex.h:83 | conjugating twice gives the packet back |
| `PacketComplex.PConjBits` | Eigen/src/Core/arch/AltiVec/Complex.h:28 | on raw bits, lanes 0 and 2 are unchanged and lanes 1 and 3 are XORed with 0x80000000 |
| `PacketComplex.XorSignBitFlipsBit31` | Eigen/src/Core/arch/AltiVec/Complex.h:28 | XOR with 0x80000000 flips bit 31 and keeps every other bit |
| `PacketComplex.PConjBitsFlipsOnlyImagSigns` | Eigen/src/Core/arch/AltiVec/Complex.h:83 | the raw-bit conjugate flips bit 31 of lanes 1 and 3 and nothing else, NaN payloads included |
| `PacketComplex.PConjBitsInvolution` | Eigen/src/Core/arch/AltiVec/Complex.h:83 | the raw-bit conjugate is an involution on every bit pattern |
| `PacketComplex.DupReal` | Eigen/src/Core/arch/AltiVec/Complex.h:90 | the `COMPLEX_RE` permute of a register puts each element's real lane in both of its lanes |
| `PacketComplex.DupImag` | Eigen/src/Core/arch/AltiVec/Complex.h:92 | the `COMPLEX_IM` permute puts each element's imaginary lane in both of its lanes |
| `PacketComplex.SwapInElement` | Eigen/src/Core/arch/AltiVec/Complex.h:99 | the `COMPLEX_REV` permute swaps the two lanes inside each element |
| `PacketComplex.MulRecipe` | Eigen/src/Core/arch/AltiVec/Complex.h:94-101 | on one element, `re*y + 0` plus the sign-flipped, swapped `im*y + 0` is the complex product x * y |
| `PacketComplex.PMul` | Eigen/src/Core/arch/AltiVec/Complex.h:85-102 | RE/IM permutes, two multiplies, the sign XOR, the in-element reverse and an add give each element's textbook product |
| `PacketComplex.PAnd` | Eigen/src/Core/arch/AltiVec/Complex.h:104 | `ei_pand`: definition, no contract; stated by `PacketComplex.AndAndNotPartition` |
| `PacketComplex.POr` | Eigen/src/Core/arch/AltiVec/Complex.h:105 | `ei_por`: definition, no contract; stated by `PacketComplex.AndAndNotPartition` |
| `PacketComplex.PXor` | Eigen/src/Core/arch/AltiVec/Complex.h:106 | `ei_pxor`: definition, no contract; stated by `PacketComplex.PXorCancel` |
| `PacketComplex.PAndNot` | Eigen/src/Core/arch/AltiVec/Complex.h:107 | `a AND (b NOR b)` is `a AND NOT b` on every lane |
| `PacketComplex.AndAndNotPartition` | Eigen/src/Core/arch/AltiVec/Complex.h:104-107 | `a AND b` and `a AND NOT b` are disjoint and their OR is `a` |
| `PacketComplex.WordPartition` | Eigen/src/Core/arch/AltiVec/Complex.h:104-107 | on one 32-bit word, `x AND y` and `x AND NOT y` are disjoint and their OR is `x` |
| `PacketComplex.PXorCancel` | Eigen/src/Core/arch/AltiVec/Complex.h:106 | XOR with the same mask twice gives the packet back, for every packet and mask |
| `PacketComplex.WordXorCancel` | Eigen/src/Core/arch/AltiVec/Complex.h:106 | on one 32-bit word, `(x XOR y) XOR y` is `x` |
| `PacketComplex.PReverse` | Eigen/src/Core/arch/AltiVec/Complex.h:125-130 | the two elements swap places, each kept whole |
| `PacketComplex.PReverseInvolution` | Eigen/src/Core/arch/AltiVec/Complex.h:125-130 | reversing twice gives the packet back |
| `PacketComplex.PRedux` | Eigen/src/Core/arch/AltiVec/Complex.h:132-138 | the result is e0 + e1 (reading `b` for the undeclared `sum`) |
| `PacketComplex.PReduxp` | Eigen/src/Core/arch/AltiVec/Complex.h:140-150 | element 0 is `vecs[0].e1 + vecs[0].e0`, element 1 is `vecs[1].e0 + vecs[1].e1` |
| `PacketComplex.PReduxpIsPerPacketRedux` | Eigen/src/Core/arch/AltiVec/Complex.h:132-150 | over exact reals, element k of `preduxp` is `predux` of `vecs[k]` |
| `PacketComplex.PReduxMul` | Eigen/src/Core/arch/AltiVec/Complex.h:152-160 | the result is the complex product e0 * e1 |
| `PacketComplex.PAlignRun` | Eigen/src/Core/arch/AltiVec/Complex.h:162-172 | Offset 1 makes `first` = {first.e1, second.e0}; any other Offset leaves `first` unchanged |
| `PacketComplex.ConjRightPMul` | Eigen/src/Core/arch/AltiVec/Complex.h:179-182 | `<false,true>::pmul` is a * conj(b) per element |
| `PacketComplex.ConjRightPMAdd` | Eigen/src/Core/arch/AltiVec/Complex.h:176-177 | `<false,true>::pmadd` is x * conj(y) + c per element |
| `PacketComplex.ConjLeftPMul` | Eigen/src/Core/arch/AltiVec/Complex.h:190-193 | `<true,false>::pmul` is conj(a) * b per element |
| `PacketComplex.ConjLeftPMAdd` | Eigen/src/Core/arch/AltiVec/Complex.h:187-188 | `<true,false>::pmadd` is conj(x) * y + c per element |
| `PacketComplex.ConjBothPMul` | Eigen/src/Core/arch/AltiVec/Complex.h:201-204 | `<true,true>::pmul`, conj(a*b), is conj(a) * conj(b) per element |
| `PacketComplex.ConjBothPMAdd` | Eigen/src/Core/arch/AltiVec/Complex.h:198-199 | `<true,true>::pmadd` is conj(x) * conj(y) + c per element |
| `PacketComplex.ConjBothPMulConjugatesOperands` | Eigen/src/Core/arch/AltiVec/Complex.h:196-205 | the post-hoc conjugate equals `pmul(pconj(a), pconj(b))` as packets |
| `PacketComplex.Modulus2Lanes` | Eigen/src/Core/arch/AltiVec/Complex.h:211-212 | `s + perm(s, COMPLEX_REV)` with s = b*b holds Norm2(e) in both lanes of each element e of b |
| `PacketComplex.PDiv` | Eigen/src/Core/arch/AltiVec/Complex.h:207-213 | each element is the textbook quotient a * conj(b) / Norm2(b) when b's moduli are nonzero |
| `PacketComplex.PDivThenPMul` | Eigen/src/Core/arch/AltiVec/Complex.h:207-213 | `pmul(pdiv(a, b), b) = a` for nonzero moduli |
| `PacketComplex.PMulPDivExample` | Eigen/src/Core/arch/AltiVec/Complex.h:85-213 | (1+2i)(3+4i) = -5+10i and (1+2i)/(3+4i) = 0.44+0.08i |
| `PacketMemory.Loaded` | Eigen/src/Core/arch/AltiVec/Complex.h:109 | the loaded packet's four lanes are the four floats at the address |
| `PacketMemory.Stored` | Eigen/src/Core/arch/AltiVec/Complex.h:112 | a store writes the four lanes at the address and leaves every other float alone |
| `PacketMemory.LoadAfterStore` | Eigen/src/Core/arch/AltiVec/Complex.h:109-112 | loading where a packet was stored gives that packet |
| `PacketMemory.StoreAfterLoad` | Eigen/src/Core/arch/AltiVec/Complex.h:109-112 | storing what was loaded leaves memory unchanged |
| `PacketMemory.PLoad` | Eigen/src/Core/arch/AltiVec/Complex.h:109 | the aligned load returns the two complex values at the address |
| `PacketMemory.PLoadu` | Eigen/src/Core/arch/AltiVec/Complex.h:110 | the unaligned load returns the same, with no alignment demand |
| `PacketMemory.PStore` | Eigen/src/Core/arch/AltiVec/Complex.h:112 | the aligned store leaves memory as `Stored` of the old memory |
| `PacketMemory.PStoreu` | Eigen/src/Core/arch/AltiVec/Complex.h:113 | the unaligned store does the same, with no alignment demand |
| `PacketMemory.StoreThenLoad` | Eigen/src/Core/arch/AltiVec/Complex.h:109-112 | an aligned store and then an aligned load at the same address reproduce the packet |
| `PacketMemory.PFirst` | Eigen/src/Core/arch/AltiVec/Complex.h:117-123 | the store-to-temporary-and-read returns element 0 |
| `PacketMemory.PSet1Aligned` | Eigen/src/Core/arch/AltiVec/Complex.h:66-72 | at an aligned address, both elements of the result are the complex value `from` |
| `PacketMemory.PSet1UnalignedAsWritten` | Eigen/src/Core/arch/AltiVec/Complex.h:73-76 | the unaligned branch as written broadcasts the complex value after `from` (float indices off+2, off+3), not `from` |
| `PacketMemory.PSet1UnalignedCounterexample` | Eigen/src/Core/arch/AltiVec/Complex.h:73-76 | from 1+2i at float index 2 of (0, 0, 1, 2, 3, 4), the branch as written gives 3+4i in both elements, which is not 1+2i |
| `PacketMemory.PSet1` | Eigen/src/Core/arch/AltiVec/Complex.h:66-78 | with the unaligned branch corrected to PSET_HI, both elements are `from` at any address |
| `PacketMemory.PSet1Example` | Eigen/src/Core/arch/AltiVec/Complex.h:66-78 | the corrected broadcast at that same unaligned index gives 1+2i in both elements |

## Findings

| source | as written | input that shows it | evidently intended | confidence | as-written member | corrected member |
|---|---|---|---|---|---|---|
| Eigen/src/Core/arch/AltiVec/Complex.h:73-76 | the unaligned branch of `ei_pset1` permutes the `ei_ploadu` result with PSET_LO, which broadcasts lanes 2-3 | `from` = 1+2i at float index 2 of (0, 0, 1, 2, 3, 4), the next value 3+4i: the result is 3+4i twice | broadcast `from` (lanes 0-1, PSET_HI), as the aligned branch does | not executed; holds if `ei_ploadu` loads the four floats at the address | `PacketMemory.PSet1UnalignedAsWritten`, `PacketMemory.PSet1UnalignedCounterexample` | `PacketMemory.PSet1` |

## Left out

- IEEE-754 single precision: rounding, the single rounding of a fused multiply-add, NaN,
  infinities, signed zero and ULP accuracy. Lanes are exact reals. This is an abstraction:
  the proved equations hold for the real-number reading of each recipe, not bit for bit.
- PDiv: requires both elements of `b` to have nonzero modulus. Over IEEE floats a zero
  modulus gives Inf/NaN lanes, and reals have no such values.
- A second reading of `ei_ploadu` for the unaligned branch of `ei_pset1` (lines 73-76).
  The model of that branch rests on the assumed `ei_ploadu`, whose file is not part of this
  model. If `ei_ploadu` instead read the aligned block that holds
  `from`, as a bare `vec_ld` does, the branch as written would broadcast `from` when its
  address is 8 modulo 16. The finding below assumes the four-floats-at-the-address reading.
- PSet1Aligned: requires the whole aligned 16-byte block around `from` to lie inside the
  array. On the hardware an aligned 16-byte load never crosses a page, so the source does
  not need this.
- `ei_prefetch` (line 115): a cache hint with no observable effect.
- Alignment faults of `ei_pload`/`ei_pstore`: modelled only as a `requires` on the float
  index. The `EIGEN_DEBUG_*` macros are left out too.
- The `ei_packet_traits` and `ei_unpacket_traits` enums (lines 44-64): compile-time
  metadata for the dispatch layer, not behaviour.
- Static initialisation order and thread safety of the global masks. The model treats the
  masks as constants.
- `ei_pand`, `ei_por` and `ei_pxor` (lines 104-106): modelled as plain lane-wise `bv32`
  operations with no contract of their own. Their property is stated by
  `AndAndNotPartition` (for `ei_pand` with `ei_pandnot`) and `PXorCancel` (for `ei_pxor`).
- The bitwise operations act on the raw 32-bit patterns of the float lanes. The model
  states them on `bv32` lanes and does not link those to the real lanes, because there is
  no float encoding in the model. The link between the two conjugates is the stated
  assumption that flipping the sign bit negates the value.
