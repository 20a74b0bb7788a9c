/**
 * Elias gamma and delta codes (integer_codes.hpp).
 *
 * Both drop the leading 1 of a number and tell its length first: gamma in unary, delta by a gamma
 * code.
 */
module IntegerCodes {
  import opened BitVector

  /** n + 1 without its leading 1, which Msb tells. */
  function Rest(n: nat): (r: nat)
    ensures r < Pow2(Msb(n + 1)) && n + 1 == Pow2(Msb(n + 1)) + r
  {
    n + 1 - Pow2(Msb(n + 1))
  }

  /** l zeros, a one, the l lower bits of n + 1. */
  function GammaCode(n: nat): seq<bool> {
    var l := Msb(n + 1);
    ToBits(Pow2(l), l + 1) + ToBits(Rest(n), l)
  }

  function DeltaCode(n: nat): seq<bool> {
    var l := Msb(n + 1);
    GammaCode(l) + ToBits(Rest(n), l)
  }

  method WriteGamma(bvb: BitVectorBuilder, n: nat)
    modifies bvb
    ensures bvb.bits == old(bvb.bits) + GammaCode(n)
  {
    var l := Msb(n + 1);
    bvb.AppendBits(Pow2(l), l + 1);
    bvb.AppendBits(Rest(n), l);
  }

  method WriteGammaNonzero(bvb: BitVectorBuilder, n: nat)
    requires n > 0
    modifies bvb
    ensures bvb.bits == old(bvb.bits) + GammaCode(n - 1)
  {
    WriteGamma(bvb, n - 1);
  }

  method WriteDelta(bvb: BitVectorBuilder, n: nat)
    modifies bvb
    ensures bvb.bits == old(bvb.bits) + DeltaCode(n)
  {
    var l := Msb(n + 1);
    WriteGamma(bvb, l);
    bvb.AppendBits(Rest(n), l);
  }

  /** A power of two is written as zeros followed by a one. */
  lemma {:induction false} PowerBits(l: nat)
    ensures var code := ToBits(Pow2(l), l + 1);
      code[l] && forall k :: 0 <= k < l ==> !code[k]
  {
    if l == 0 {
      assert ToBits(1, 1) == [true] + ToBits(0, 0);
    } else {
      PowerBits(l - 1);
      assert ToBits(Pow2(l), l + 1) == [false] + ToBits(Pow2(l - 1), l);
    }
  }

  /** Reads a bit vector forwards. */
  class BitEnumerator {
    const bits: seq<bool>
    var pos: nat

    constructor (bits: seq<bool>, pos: nat)
      requires pos <= |bits|
      ensures this.bits == bits && this.pos == pos
    {
      this.bits, this.pos := bits, pos;
    }

    method Take(len: nat) returns (x: nat)
      requires pos + len <= |bits|
      modifies this
      ensures pos == old(pos) + len && x == Field(bits, old(pos), len)
    {
      x := Field(bits, pos, len);
      pos := pos + len;
    }

    /** Counts zeros and consumes the one after them. */
    method SkipZeros(ghost zeros: nat) returns (count: nat)
      requires pos + zeros < |bits| && bits[pos + zeros] && forall k :: pos <= k < pos + zeros ==> !bits[k]
      modifies this
      ensures count == zeros && pos == old(pos) + zeros + 1
    {
      count := 0;
      while !bits[pos + count]
        invariant count <= zeros && pos == old(pos)
        decreases zeros - count
      {
        count := count + 1;
      }
      pos := pos + count + 1;
    }

    /** Reading gives back what was written and stops behind it. */
    method ReadGamma(ghost n: nat) returns (r: nat)
      requires StandsAt(bits, pos, GammaCode(n))
      modifies this
      ensures r == n && pos == old(pos) + |GammaCode(n)|
    {
      ghost var l := Msb(n + 1);
      StandsInParts(bits, pos, ToBits(Pow2(l), l + 1), ToBits(Rest(n), l));
      UnaryPart(bits, pos, l);
      var count := SkipZeros(l);
      ToNatToBits(Rest(n), l);
      var rest := Take(count);
      r := rest + Pow2(count) - 1;
    }

    method ReadGammaNonzero(ghost n: nat) returns (r: nat)
      requires n > 0 && StandsAt(bits, pos, GammaCode(n - 1))
      modifies this
      ensures r == n && pos == old(pos) + |GammaCode(n - 1)|
    {
      r := ReadGamma(n - 1);
      r := r + 1;
    }

    method ReadDelta(ghost n: nat) returns (r: nat)
      requires StandsAt(bits, pos, DeltaCode(n))
      modifies this
      ensures r == n && pos == old(pos) + |DeltaCode(n)|
    {
      ghost var l := Msb(n + 1);
      StandsInParts(bits, pos, GammaCode(l), ToBits(Rest(n), l));
      var len := ReadGamma(l);
      ToNatToBits(Rest(n), l);
      var rest := Take(len);
      r := rest + Pow2(len) - 1;
    }
  }

  lemma UnaryPart(bits: seq<bool>, pos: nat, l: nat)
    requires StandsAt(bits, pos, ToBits(Pow2(l), l + 1))
    ensures pos + l < |bits| && bits[pos + l] && forall k :: pos <= k < pos + l ==> !bits[k]
  {
    PowerBits(l);
    var code := ToBits(Pow2(l), l + 1);
    forall k | pos <= k <= pos + l
      ensures bits[k] == code[k - pos]
    {
      assert bits[pos..pos + |code|][k - pos] == bits[k];
    }
  }
}
