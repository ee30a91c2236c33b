/**
  The AltiVec (VMX) register primitives that the packed-complex kernel is built from.

  A 128-bit register is seen in two ways:
  - as 16 bytes in memory order (byte 0 is the lowest address, the most significant
    byte on this big-endian architecture), a `seq` of length 16;
  - as four 32-bit words, a `Quad`, word 0 first.

  The byte shuffles (`vec_sld`, `vec_perm`) are defined on bytes, generically in what a
  byte is. `LaneByte` names "byte `pos` of the encoding of lane value `lane`", so a
  register of four float lanes has the byte view `Bytes(q)`; a permute control vector
  that moves whole words then acts on the lanes as a permutation (`PermLanes`).
*/
module AltiVec {

  /** An element of a permute control vector (`vector unsigned char`). */
  type Byte = x: int | 0 <= x < 256

  /** A register seen as four 32-bit words, word 0 at the lowest address. */
  datatype Quad<T> = Quad(w0: T, w1: T, w2: T, w3: T)
  {
    function At(i: nat): T
      requires i < 4
    {
      if i == 0 then w0 else if i == 1 then w1 else if i == 2 then w2 else w3
    }

    function Seq(): (s: seq<T>)
      ensures |s| == 4
      ensures forall i :: 0 <= i < 4 ==> s[i] == At(i)
    {
      [w0, w1, w2, w3]
    }
  }

  // ---------------------------------------------------------------------------
  // Byte-level shuffles
  // ---------------------------------------------------------------------------

  /** `vec_sld(a, b, n)`: bytes n .. n+15 of the 32-byte concatenation a ++ b. */
  function Sld<T>(a: seq<T>, b: seq<T>, n: nat): (r: seq<T>)
    requires |a| == 16 && |b| == 16 && n < 16
    ensures |r| == 16
    ensures forall i :: 0 <= i < 16 ==> r[i] == if n + i < 16 then a[n + i] else b[n + i - 16]
  {
    (a + b)[n .. n + 16]
  }

  /**
    `vec_perm(a, b, m)`: byte i of the result is byte `m[i] mod 32` of a ++ b; only the
    five low bits of a control byte take part.
  */
  function Perm<T>(a: seq<T>, b: seq<T>, m: seq<Byte>): (r: seq<T>)
    requires |a| == 16 && |b| == 16 && |m| == 16
    ensures |r| == 16
    ensures forall i :: 0 <= i < 16 ==>
      r[i] == if m[i] % 32 < 16 then a[m[i] % 32] else b[m[i] % 32 - 16]
  {
    seq(16, i requires 0 <= i < 16 => (a + b)[m[i] % 32])
  }

  // ---------------------------------------------------------------------------
  // Word-level operations and the casts between the two views
  // ---------------------------------------------------------------------------

  /** The cast of a byte vector to `vector unsigned int`: bytes 4k .. 4k+3 form word k. */
  function Words<T>(b: seq<T>): (q: Quad<seq<T>>)
    requires |b| == 16
    ensures forall k :: 0 <= k < 4 ==> q.At(k) == b[4 * k .. 4 * k + 4]
  {
    Quad(b[0..4], b[4..8], b[8..12], b[12..16])
  }

  /** The cast back from words to a byte vector. */
  function Flatten<T>(q: Quad<seq<T>>): seq<T>
  {
    q.w0 + q.w1 + q.w2 + q.w3
  }

  /** Casting a byte vector to words and back gives the same bytes. */
  lemma FlattenWords<T>(b: seq<T>)
    requires |b| == 16
    ensures Flatten(Words(b)) == b
  {
    assert b == b[0..4] + b[4..8] + b[8..12] + b[12..16];
  }

  /** Casting four 4-byte words to bytes and back gives the same words. */
  lemma WordsFlatten<T>(q: Quad<seq<T>>)
    requires |q.w0| == 4 && |q.w1| == 4 && |q.w2| == 4 && |q.w3| == 4
    ensures |Flatten(q)| == 16 && Words(Flatten(q)) == q
  {
    var f := Flatten(q);
    assert f[0..4] == q.w0;
    assert f[4..8] == q.w1;
    assert f[8..12] == q.w2;
    assert f[12..16] == q.w3;
  }

  /** `vec_splat(a, n)` on words: every word of the result is word n of `a`. */
  function Splat<T>(a: Quad<T>, n: nat): Quad<T>
    requires n < 4
  {
    Quad(a.At(n), a.At(n), a.At(n), a.At(n))
  }

  /** `vec_mergeh(a, b)` on words: the high halves interleaved, a.w0 b.w0 a.w1 b.w1. */
  function MergeHigh<T>(a: Quad<T>, b: Quad<T>): Quad<T>
  {
    Quad(a.w0, b.w0, a.w1, b.w1)
  }

  // ---------------------------------------------------------------------------
  // Lifting word-moving byte shuffles to lane permutations
  // ---------------------------------------------------------------------------

  /** Byte `pos` (0 = lowest address) of the 4-byte encoding of the lane value `lane`. */
  datatype LaneByte<T> = LaneByte(lane: T, pos: nat)

  /** The byte view of a register of four lanes. */
  function Bytes<T>(q: Quad<T>): (r: seq<LaneByte<T>>)
    ensures |r| == 16
  {
    seq(16, i requires 0 <= i < 16 => LaneByte(q.At(i / 4), i % 4))
  }

  /** Two registers with the same bytes have the same lanes. */
  lemma BytesInjective<T>(p: Quad<T>, q: Quad<T>)
    requires Bytes(p) == Bytes(q)
    ensures p == q
  {
    assert Bytes(p)[0] == Bytes(q)[0];
    assert Bytes(p)[4] == Bytes(q)[4];
    assert Bytes(p)[8] == Bytes(q)[8];
    assert Bytes(p)[12] == Bytes(q)[12];
  }

  /** Lane j (0 .. 7) of the eight-lane concatenation a ++ b. */
  function Pick<T>(a: Quad<T>, b: Quad<T>, j: nat): T
    requires j < 8
  {
    if j < 4 then a.At(j) else b.At(j - 4)
  }

  /** The lane of a ++ b that control word k (bytes 4k .. 4k+3) of `m` starts in. */
  function WordSource(m: seq<Byte>, k: nat): nat
    requires |m| == 16 && k < 4
  {
    m[4 * k] % 32 / 4
  }

  /** The control byte a word-moving mask holds at byte i: byte i mod 4 of its source lane. */
  function CtrlByte(m: seq<Byte>, i: nat): nat
    requires |m| == 16 && i < 16
  {
    4 * WordSource(m, i / 4) + i % 4
  }

  /**
    `m` moves whole words: each of its control words reads 4j, 4j+1, 4j+2, 4j+3 (modulo 32)
    for one lane j of a ++ b.
  */
  predicate MovesWords(m: seq<Byte>)
  {
    |m| == 16 && forall i {:trigger CtrlByte(m, i)} :: 0 <= i < 16 ==> m[i] % 32 == CtrlByte(m, i)
  }

  /**
    The control vector that fills result word k with lane `js.At(k)` of a ++ b: bytes
    4j, 4j+1, 4j+2, 4j+3 for j = js.At(k).
  */
  function WordMask(js: Quad<nat>): (m: seq<Byte>)
    requires js.w0 < 8 && js.w1 < 8 && js.w2 < 8 && js.w3 < 8
    ensures |m| == 16
  {
    seq(16, i requires 0 <= i < 16 => 4 * js.At(i / 4) + i % 4)
  }

  /** A word mask moves whole words, and word k reads lane `js.At(k)`. */
  lemma WordMaskMovesWords(js: Quad<nat>)
    requires js.w0 < 8 && js.w1 < 8 && js.w2 < 8 && js.w3 < 8
    ensures MovesWords(WordMask(js))
    ensures forall k :: 0 <= k < 4 ==> WordSource(WordMask(js), k) == js.At(k)
  {
    var m := WordMask(js);
    forall k | 0 <= k < 4
      ensures WordSource(m, k) == js.At(k)
    {
      var j := js.At(k);
      assert (4 * k) / 4 == k && (4 * k) % 4 == 0;
      assert m[4 * k] == 4 * j;
      assert (4 * j) % 32 == 4 * j && (4 * j) / 4 == j;
    }
    forall i | 0 <= i < 16
      ensures m[i] % 32 == CtrlByte(m, i)
    {
      var k, r := i / 4, i % 4;
      var j := js.At(k);
      assert m[i] == 4 * j + r;
      assert 0 <= 4 * j + r < 32;
    }
  }

  /** One byte of a word-moving permute: byte i of the result is byte i mod 4 of its source lane. */
  lemma PermByte<T>(a: Quad<T>, b: Quad<T>, m: seq<Byte>, i: int)
    requires MovesWords(m) && 0 <= i < 16
    ensures Perm(Bytes(a), Bytes(b), m)[i] == LaneByte(Pick(a, b, WordSource(m, i / 4)), i % 4)
  {
    var j := WordSource(m, i / 4);
    var x := m[i] % 32;
    assert x == CtrlByte(m, i) == 4 * j + i % 4;
    assert x / 4 == j && x % 4 == i % 4;
    if x < 16 {
      assert Bytes(a)[x] == LaneByte(a.At(j), i % 4);
    } else {
      assert (x - 16) / 4 == j - 4 && (x - 16) % 4 == i % 4;
      assert Bytes(b)[x - 16] == LaneByte(b.At(j - 4), i % 4);
    }
  }

  /** `vec_perm(a, b, m)` on four lanes, for a control vector that moves whole words. */
  function PermLanes<T>(a: Quad<T>, b: Quad<T>, m: seq<Byte>): Quad<T>
    requires MovesWords(m)
  {
    Quad(Pick(a, b, WordSource(m, 0)), Pick(a, b, WordSource(m, 1)),
         Pick(a, b, WordSource(m, 2)), Pick(a, b, WordSource(m, 3)))
  }

  /**
    The lane-level permute is the byte-level permute: its bytes are exactly the bytes
    `vec_perm` produces from the bytes of its operands.
  */
  lemma PermLanesBytes<T>(a: Quad<T>, b: Quad<T>, m: seq<Byte>)
    requires MovesWords(m)
    ensures Bytes(PermLanes(a, b, m)) == Perm(Bytes(a), Bytes(b), m)
  {
    var r := PermLanes(a, b, m);
    forall i | 0 <= i < 16
      ensures Bytes(r)[i] == Perm(Bytes(a), Bytes(b), m)[i]
    {
      var k := i / 4;
      assert r.At(k) == Pick(a, b, WordSource(m, k)) by {
        assert k == 0 || k == 1 || k == 2 || k == 3;
      }
      assert Bytes(r)[i] == LaneByte(r.At(k), i % 4);
      PermByte(a, b, m, i);
    }
  }

  /** The lane-level permute is the only four-lane value whose bytes are the byte-level permute. */
  lemma PermLanesUnique<T>(a: Quad<T>, b: Quad<T>, m: seq<Byte>, q: Quad<T>)
    requires MovesWords(m)
    requires Bytes(q) == Perm(Bytes(a), Bytes(b), m)
    ensures q == PermLanes(a, b, m)
  {
    PermLanesBytes(a, b, m);
    BytesInjective(q, PermLanes(a, b, m));
  }

  /** `vec_sld(a, b, n)` on four lanes, for a shift by whole words. */
  function SldLanes<T>(a: Quad<T>, b: Quad<T>, n: nat): Quad<T>
    requires n < 16 && n % 4 == 0
  {
    var k := n / 4;
    Quad(Pick(a, b, k), Pick(a, b, k + 1), Pick(a, b, k + 2), Pick(a, b, k + 3))
  }

  /** The lane-level shift is the byte-level shift of the operands' bytes. */
  lemma SldLanesBytes<T>(a: Quad<T>, b: Quad<T>, n: nat)
    requires n < 16 && n % 4 == 0
    ensures Bytes(SldLanes(a, b, n)) == Sld(Bytes(a), Bytes(b), n)
  {
    var r := SldLanes(a, b, n);
    var k := n / 4;
    forall i | 0 <= i < 16
      ensures Bytes(r)[i] == Sld(Bytes(a), Bytes(b), n)[i]
    {
      var x := n + i;
      assert x / 4 == k + i / 4 && x % 4 == i % 4;
      if x >= 16 {
        assert (x - 16) / 4 == k + i / 4 - 4 && (x - 16) % 4 == i % 4;
      }
    }
  }

  /** The lane-level shift is the only four-lane value whose bytes are the byte-level shift. */
  lemma SldLanesUnique<T>(a: Quad<T>, b: Quad<T>, n: nat, q: Quad<T>)
    requires n < 16 && n % 4 == 0
    requires Bytes(q) == Sld(Bytes(a), Bytes(b), n)
    ensures q == SldLanes(a, b, n)
  {
    SldLanesBytes(a, b, n);
    BytesInjective(q, SldLanes(a, b, n));
  }

  // ---------------------------------------------------------------------------
  // Lane-wise arithmetic on float lanes (exact reals) and bitwise ops on word lanes
  // ---------------------------------------------------------------------------

  /** `ei_p4f_ZERO`: four zero lanes. */
  const Zero4f: Quad<real> := Quad(0.0, 0.0, 0.0, 0.0)

  /** `vec_add`. */
  function AddF(a: Quad<real>, b: Quad<real>): Quad<real>
  {
    Quad(a.w0 + b.w0, a.w1 + b.w1, a.w2 + b.w2, a.w3 + b.w3)
  }

  /** `vec_sub`. */
  function SubF(a: Quad<real>, b: Quad<real>): Quad<real>
  {
    Quad(a.w0 - b.w0, a.w1 - b.w1, a.w2 - b.w2, a.w3 - b.w3)
  }

  /** `vec_madd(a, b, c)` = a * b + c, read exactly (no rounding). */
  function MaddF(a: Quad<real>, b: Quad<real>, c: Quad<real>): Quad<real>
  {
    Quad(a.w0 * b.w0 + c.w0, a.w1 * b.w1 + c.w1, a.w2 * b.w2 + c.w2, a.w3 * b.w3 + c.w3)
  }

  predicate NoZeroLane(b: Quad<real>)
  {
    b.w0 != 0.0 && b.w1 != 0.0 && b.w2 != 0.0 && b.w3 != 0.0
  }

  /** Lane-wise division (`ei_pdiv` on `Packet4f`), read exactly; a zero lane is outside the model. */
  function DivF(a: Quad<real>, b: Quad<real>): Quad<real>
    requires NoZeroLane(b)
  {
    Quad(a.w0 / b.w0, a.w1 / b.w1, a.w2 / b.w2, a.w3 / b.w3)
  }

  /** The IEEE-754 single-precision sign bit. */
  const SignBit: bv32 := 0x8000_0000

  /** Every word of `m` is either 0 or the sign bit alone. */
  predicate SignBitsOnly(m: Quad<bv32>)
  {
    (m.w0 == 0 || m.w0 == SignBit) && (m.w1 == 0 || m.w1 == SignBit) &&
    (m.w2 == 0 || m.w2 == SignBit) && (m.w3 == 0 || m.w3 == SignBit)
  }

  /** XOR of one float lane with 0 (unchanged) or with the sign bit (negated). */
  function FlipIf(x: real, w: bv32): real
  {
    if w == SignBit then -x else x
  }

  /**
    `vec_xor` of float lanes with a mask made of sign bits only: flipping the sign bit of a
    float negates its value, XOR with 0 leaves it as is.
  */
  function XorSign(v: Quad<real>, m: Quad<bv32>): Quad<real>
    requires SignBitsOnly(m)
  {
    Quad(FlipIf(v.w0, m.w0), FlipIf(v.w1, m.w1), FlipIf(v.w2, m.w2), FlipIf(v.w3, m.w3))
  }

  /** `vec_and` on word lanes. */
  function AndU(a: Quad<bv32>, b: Quad<bv32>): Quad<bv32>
  {
    Quad(a.w0 & b.w0, a.w1 & b.w1, a.w2 & b.w2, a.w3 & b.w3)
  }

  /** `vec_or` on word lanes. */
  function OrU(a: Quad<bv32>, b: Quad<bv32>): Quad<bv32>
  {
    Quad(a.w0 | b.w0, a.w1 | b.w1, a.w2 | b.w2, a.w3 | b.w3)
  }

  /** `vec_xor` on word lanes. */
  function XorU(a: Quad<bv32>, b: Quad<bv32>): Quad<bv32>
  {
    Quad(a.w0 ^ b.w0, a.w1 ^ b.w1, a.w2 ^ b.w2, a.w3 ^ b.w3)
  }

  /** `vec_nor` on word lanes: NOT (a OR b). */
  function NorU(a: Quad<bv32>, b: Quad<bv32>): Quad<bv32>
  {
    Quad(!(a.w0 | b.w0), !(a.w1 | b.w1), !(a.w2 | b.w2), !(a.w3 | b.w3))
  }
}
