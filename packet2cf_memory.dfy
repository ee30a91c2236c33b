/**
  Memory access for `Packet2cf`: aligned and unaligned load and store, `ei_pfirst` through
  an aligned temporary, and the aligned branch of the broadcast `ei_pset1`.

  Memory is an `array<real>` of float lanes whose element 0 sits on a 16-byte boundary, so
  the float at index `off` has byte address 4 * off and is 16-byte aligned exactly when
  `off % 4 == 0`. A `complex<float>*` pointing at complex element c is the float index 2 * c.
*/
module PacketMemory {
  import opened AltiVec
  import opened Masks
  import opened ComplexArith
  import opened PacketComplex

  /** Whether float index `off` lies on a 16-byte boundary. */
  predicate Aligned16(off: nat)
  {
    off % 4 == 0
  }

  /** The packet made of the four floats at `off`. */
  function Loaded(s: seq<real>, off: nat): (p: Packet2cf)
    requires off + 4 <= |s|
    ensures p.v.Seq() == s[off .. off + 4]
  {
    Packet2cf(Quad(s[off], s[off + 1], s[off + 2], s[off + 3]))
  }

  /** Memory `s` after the four lanes of `p` are written at `off`. */
  function Stored(s: seq<real>, off: nat, p: Packet2cf): (t: seq<real>)
    requires off + 4 <= |s|
    ensures |t| == |s|
    ensures t[off .. off + 4] == p.v.Seq()
    ensures forall i :: 0 <= i < |s| && !(off <= i < off + 4) ==> t[i] == s[i]
  {
    s[..off] + p.v.Seq() + s[off + 4..]
  }

  /** Loading from where a packet was just stored gives that packet back. */
  lemma LoadAfterStore(s: seq<real>, off: nat, p: Packet2cf)
    requires off + 4 <= |s|
    ensures Loaded(Stored(s, off, p), off) == p
  {
    var t := Stored(s, off, p);
    assert t[off .. off + 4] == p.v.Seq();
    assert t[off] == p.v.w0 && t[off + 1] == p.v.w1;
    assert t[off + 2] == p.v.w2 && t[off + 3] == p.v.w3;
  }

  /** Storing what was just loaded leaves memory as it was. */
  lemma StoreAfterLoad(s: seq<real>, off: nat)
    requires off + 4 <= |s|
    ensures Stored(s, off, Loaded(s, off)) == s
  {
    var t := Stored(s, off, Loaded(s, off));
    assert forall i :: 0 <= i < |s| ==> t[i] == s[i] by {
      forall i | 0 <= i < |s|
        ensures t[i] == s[i]
      {
        if off <= i < off + 4 {
          assert t[i] == t[off .. off + 4][i - off];
        }
      }
    }
  }

  /** `ei_pload`: the two complex values at a 16-byte-aligned address. */
  method PLoad(from: array<real>, off: nat) returns (r: Packet2cf)
    requires Aligned16(off) && off + 4 <= from.Length
    ensures r == Loaded(from[..], off)
    ensures r.Elem0() == Complex(from[off], from[off + 1])
    ensures r.Elem1() == Complex(from[off + 2], from[off + 3])
  {
    r := Packet2cf(Quad(from[off], from[off + 1], from[off + 2], from[off + 3]));
  }

  /** `ei_ploadu`: the same load without the alignment demand. */
  method PLoadu(from: array<real>, off: nat) returns (r: Packet2cf)
    requires off + 4 <= from.Length
    ensures r == Loaded(from[..], off)
    ensures r.Elem0() == Complex(from[off], from[off + 1])
    ensures r.Elem1() == Complex(from[off + 2], from[off + 3])
  {
    r := Packet2cf(Quad(from[off], from[off + 1], from[off + 2], from[off + 3]));
  }

  /** `ei_pstore`: writes the four lanes at a 16-byte-aligned address and nothing else. */
  method PStore(to: array<real>, off: nat, from: Packet2cf)
    requires Aligned16(off) && off + 4 <= to.Length
    modifies to
    ensures to[..] == Stored(old(to[..]), off, from)
  {
    to[off] := from.v.w0;
    to[off + 1] := from.v.w1;
    to[off + 2] := from.v.w2;
    to[off + 3] := from.v.w3;
    assert to[..] == Stored(old(to[..]), off, from) by {
      var t := Stored(old(to[..]), off, from);
      forall i | 0 <= i < to.Length
        ensures to[..][i] == t[i]
      {
        if off <= i < off + 4 {
          assert t[i] == t[off .. off + 4][i - off];
        }
      }
    }
  }

  /** `ei_pstoreu`: the same store without the alignment demand. */
  method PStoreu(to: array<real>, off: nat, from: Packet2cf)
    requires off + 4 <= to.Length
    modifies to
    ensures to[..] == Stored(old(to[..]), off, from)
  {
    to[off] := from.v.w0;
    to[off + 1] := from.v.w1;
    to[off + 2] := from.v.w2;
    to[off + 3] := from.v.w3;
    assert to[..] == Stored(old(to[..]), off, from) by {
      var t := Stored(old(to[..]), off, from);
      forall i | 0 <= i < to.Length
        ensures to[..][i] == t[i]
      {
        if off <= i < off + 4 {
          assert t[i] == t[off .. off + 4][i - off];
        }
      }
    }
  }

  /** An aligned store followed by an aligned load at the same address reproduces the packet. */
  method StoreThenLoad(mem: array<real>, off: nat, p: Packet2cf) returns (q: Packet2cf)
    requires Aligned16(off) && off + 4 <= mem.Length
    modifies mem
    ensures q == p
    ensures mem[..] == Stored(old(mem[..]), off, p)
  {
    PStore(mem, off, p);
    q := PLoad(mem, off);
    LoadAfterStore(old(mem[..]), off, p);
  }

  /** `ei_pfirst`: store into an aligned two-element temporary and read its element 0. */
  method PFirst(a: Packet2cf) returns (r: Complex)
    ensures r == a.Elem0()
  {
    var res := new real[4];
    ghost var before := res[..];
    PStore(res, 0, a);
    LoadAfterStore(before, 0, a);
    assert Loaded(res[..], 0) == a;
    r := Complex(res[0], res[1]);
  }

  /**
    The aligned branch of `ei_pset1`: `from` is the complex value at a 16-byte-aligned float
    index; the aligned 16-byte load brings it into lanes 0-1 and the PSET_HI permute copies
    it into both element slots.
  */
  method PSet1Aligned(mem: array<real>, off: nat) returns (r: Packet2cf)
    requires Aligned16(off) && off + 4 <= mem.Length
    ensures r.Elem0() == Complex(mem[off], mem[off + 1])
    ensures r.Elem1() == Complex(mem[off], mem[off + 1])
  {
    var loaded := PLoad(mem, off);
    PsetHiLanes(loaded.v, loaded.v);
    r := Packet2cf(PermLanes(loaded.v, loaded.v, PsetHi));
  }

  /**
    The unaligned branch of `ei_pset1` as written: the unaligned load puts `from` in lanes
    0-1 and the complex value after it in lanes 2-3, and PSET_LO then broadcasts lanes 2-3,
    that is the value after `from`.
  */
  method PSet1UnalignedAsWritten(mem: array<real>, off: nat) returns (r: Packet2cf)
    requires off + 4 <= mem.Length
    ensures r.Elem0() == Complex(mem[off + 2], mem[off + 3])
    ensures r.Elem1() == Complex(mem[off + 2], mem[off + 3])
  {
    var loaded := PLoadu(mem, off);
    PsetLoLanes(loaded.v, loaded.v);
    r := Packet2cf(PermLanes(loaded.v, loaded.v, PsetLo));
  }

  /**
    Broadcasting 1+2i from the unaligned float index 2 of (0, 0, 1, 2, 3, 4) with the branch
    as written gives 3+4i in both elements, not 1+2i.
  */
  method PSet1UnalignedCounterexample() returns (r: Packet2cf)
    ensures r.Elem0() == Complex(3.0, 4.0) && r.Elem1() == Complex(3.0, 4.0)
    ensures r.Elem0() != Complex(1.0, 2.0)
  {
    var mem := new real[6] [0.0, 0.0, 1.0, 2.0, 3.0, 4.0];
    r := PSet1UnalignedAsWritten(mem, 2);
  }

  /**
    `ei_pset1` with the unaligned branch corrected to PSET_HI: at any address, both elements
    of the result are the complex value `from` at float index `off`.
  */
  method PSet1(mem: array<real>, off: nat) returns (r: Packet2cf)
    requires off + 4 <= mem.Length
    ensures r.Elem0() == Complex(mem[off], mem[off + 1])
    ensures r.Elem1() == Complex(mem[off], mem[off + 1])
  {
    if Aligned16(off) {
      r := PSet1Aligned(mem, off);
    } else {
      var loaded := PLoadu(mem, off);
      PsetHiLanes(loaded.v, loaded.v);
      r := Packet2cf(PermLanes(loaded.v, loaded.v, PsetHi));
    }
  }

  /** The broadcast at the same unaligned index as the counterexample, corrected: 1+2i twice. */
  method PSet1Example() returns (r: Packet2cf)
    ensures r.Elem0() == Complex(1.0, 2.0) && r.Elem1() == Complex(1.0, 2.0)
  {
    var mem := new real[6] [0.0, 0.0, 1.0, 2.0, 3.0, 4.0];
    r := PSet1(mem, 2);
  }
}
