/** Codecs for blocks of numbers (block_codecs.hpp): variable bytes, and the interpolative block. */
module BlockCodecs {
  import opened BitVector
  import opened InterpolativeCoding
  import opened MonotoneSequence

  const UINT32 := 0x1_0000_0000

  /** uint32_t(-1): the sum of the values is not known to the decoder. */
  const UNKNOWN := 0xFFFF_FFFF

  const BLOCK_SIZE := 128

  // ---------------------------------------------------------------------------------------------
  // Variable bytes: seven bits a byte, low ones first, the last byte is marked

  function VByteCode(val: nat): (code: seq<nat>)
    ensures code != [] && forall i :: 0 <= i < |code| ==> code[i] < 256
  {
    if val < 128 then [val + 128] else [val % 128] + VByteCode(val / 128)
  }

  function VByteCodes(values: seq<nat>): seq<nat> {
    if values == [] then [] else VByteCodes(values[..|values| - 1]) + VByteCode(values[|values| - 1])
  }

  /** The five cases of the encoder agree with the recursive code. */
  lemma VByteCases(val: nat)
    requires val < UINT32
    ensures VByteCode(val) ==
      if val < 0x80 then [val + 128]
      else if val < 0x4000 then [val % 128, val / 0x80 + 128]
      else if val < 0x20_0000 then [val % 128, val / 0x80 % 128, val / 0x4000 + 128]
      else if val < 0x1000_0000 then [val % 128, val / 0x80 % 128, val / 0x4000 % 128, val / 0x20_0000 + 128]
      else [val % 128, val / 0x80 % 128, val / 0x4000 % 128, val / 0x20_0000 % 128, val / 0x1000_0000 + 128]
  {
    VByteStep(val);
    VByteStep(val / 0x80);
    VByteStep(val / 0x4000);
    VByteStep(val / 0x20_0000);
    VByteStep(val / 0x1000_0000);
    assert val / 0x80 / 0x80 == val / 0x4000;
    assert val / 0x4000 / 0x80 == val / 0x20_0000;
    assert val / 0x20_0000 / 0x80 == val / 0x1000_0000;
  }

  lemma VByteStep(val: nat)
    ensures VByteCode(val) == if val < 128 then [val + 128] else [val % 128] + VByteCode(val / 128)
  {
  }

  method EncodeVByte(input: seq<nat>, before: seq<nat>) returns (out: seq<nat>)
    requires forall i :: 0 <= i < |input| ==> input[i] < UINT32
    ensures out == before + VByteCodes(input)
  {
    hide VByteCode, VByteCodes;
    out := before;
    NoCodes();
    for k := 0 to |input|
      invariant out == before + VByteCodes(input[..k])
    {
      var val := input[k];
      VByteCases(val);
      CodesNext(input, k);
      if val < 0x80 {
        out := out + [val + 128];
      } else if val < 0x4000 {
        out := out + [val % 128, val / 0x80 + 128];
      } else if val < 0x20_0000 {
        out := out + [val % 128, val / 0x80 % 128, val / 0x4000 + 128];
      } else if val < 0x1000_0000 {
        out := out + [val % 128, val / 0x80 % 128, val / 0x4000 % 128, val / 0x20_0000 + 128];
      } else {
        out := out + [val % 128, val / 0x80 % 128, val / 0x4000 % 128, val / 0x20_0000 % 128, val / 0x1000_0000 + 128];
      }
    }
    assert input[..|input|] == input;
  }

  lemma NoCodes()
    ensures VByteCodes([]) == []
  {
  }

  lemma CodesNext(values: seq<nat>, k: nat)
    requires k < |values|
    ensures VByteCodes(values[..k + 1]) == VByteCodes(values[..k]) + VByteCode(values[k])
  {
    assert values[..k + 1][..k] == values[..k];
  }

  /** Reads one number from the front of the bytes; no number if no byte is marked. */
  function VByteDecode(bytes: seq<nat>): (r: (nat, nat))
    ensures r.1 <= |bytes|
  {
    if bytes == [] then (0, 0)
    else if bytes[0] >= 128 then (bytes[0] - 128, 1)
    else
      var (rest, used) := VByteDecode(bytes[1..]);
      (bytes[0] + 128 * rest, used + 1)
  }

  /** What is decoded is what was encoded, whatever follows. */
  lemma {:induction false} VByteRoundTrip(val: nat, rest: seq<nat>)
    ensures VByteDecode(VByteCode(val) + rest) == (val, |VByteCode(val)|)
  {
    if val >= 128 {
      VByteRoundTrip(val / 128, rest);
      assert (VByteCode(val) + rest)[1..] == VByteCode(val / 128) + rest;
    }
  }

  lemma {:induction false} ShlDouble(x: nat, s: nat)
    ensures Shl(x, s + 1) == Shl(2 * x, s)
  {
    if s > 0 {
      ShlDouble(x, s - 1);
    }
  }

  /** Shifting by 7 more is shifting a number 128 times as large. */
  lemma ShlBySeven(x: nat, s: nat)
    ensures Shl(x, s + 7) == Shl(128 * x, s)
  {
    ShlDouble(x, s + 6);
    ShlDouble(2 * x, s + 5);
    ShlDouble(4 * x, s + 4);
    ShlDouble(8 * x, s + 3);
    ShlDouble(16 * x, s + 2);
    ShlDouble(32 * x, s + 1);
    ShlDouble(64 * x, s);
  }

  /** Reads n numbers; returns the position behind them. */
  method DecodeVByte(bytes: seq<nat>, start: nat, n: nat, ghost values: seq<nat>) returns (out: seq<nat>, end: nat)
    requires n == |values| && start + |VByteCodes(values)| <= |bytes|
    requires bytes[start..start + |VByteCodes(values)|] == VByteCodes(values)
    ensures out == values && end == start + |VByteCodes(values)|
  {
    hide VByteCode;
    out, end := [], start;
    for i := 0 to n
      invariant out == values[..i] && end == start + |VByteCodes(values[..i])|
    {
      CodeOfNext(bytes, start, values, i);
      var v;
      v, end := DecodeOne(bytes, end, values[i]);
      out := out + [v];
    }
    assert values[..n] == values;
  }

  lemma {:induction false} CodesPrefix(values: seq<nat>, i: nat)
    requires i <= |values|
    ensures VByteCodes(values[..i]) <= VByteCodes(values)
    decreases |values| - i
  {
    if i < |values| {
      assert values[..i + 1][..i] == values[..i];
      CodesPrefix(values, i + 1);
    } else {
      assert values[..i] == values;
    }
  }

  lemma CodeOfNext(bytes: seq<nat>, start: nat, values: seq<nat>, i: nat)
    requires i < |values| && start + |VByteCodes(values)| <= |bytes|
    requires bytes[start..start + |VByteCodes(values)|] == VByteCodes(values)
    ensures values[..i + 1] == values[..i] + [values[i]]
    ensures var at := start + |VByteCodes(values[..i])|;
      && at + |VByteCode(values[i])| <= |bytes|
      && bytes[at..at + |VByteCode(values[i])|] == VByteCode(values[i])
      && at + |VByteCode(values[i])| == start + |VByteCodes(values[..i + 1])|
  {
    hide VByteCode;
    assert values[..i + 1][..i] == values[..i];
    CodesPrefix(values, i + 1);
    InPrefix(bytes, start, VByteCodes(values), VByteCodes(values[..i]), VByteCode(values[i]));
  }

  /** Where a part of a code stands. */
  lemma InPrefix<T>(bytes: seq<T>, start: nat, all: seq<T>, before: seq<T>, code: seq<T>)
    requires start + |all| <= |bytes| && bytes[start..start + |all|] == all && before + code <= all
    ensures start + |before| + |code| <= |bytes|
    ensures bytes[start + |before|..start + |before| + |code|] == code
  {
    SliceOfSlice(bytes, start, |all|, |before|, |code|);
    SliceOfSlice(all, 0, |before| + |code|, |before|, |code|);
    assert all[0..|before| + |code|] == before + code;
  }

  method DecodeOne(bytes: seq<nat>, start: nat, ghost val: nat) returns (v: nat, end: nat)
    requires start + |VByteCode(val)| <= |bytes| && bytes[start..start + |VByteCode(val)|] == VByteCode(val)
    ensures v == val && end == start + |VByteCode(val)|
  {
    hide Shl, VByteCode;
    end := start;
    var shift := 0;
    v := 0;
    ghost var rest := val;
    ShlZero(val);
    while true
      invariant end + |VByteCode(rest)| == start + |VByteCode(val)|
      invariant bytes[end..end + |VByteCode(rest)|] == VByteCode(rest)
      invariant v + Shl(rest, shift) == val
      decreases rest
    {
      var c := bytes[end];
      FirstByte(bytes, end, rest);
      end := end + 1;
      v := v + Shl(c % 128, shift);
      if c >= 128 {
        break;
      }
      ShlSum(rest % 128, 128 * (rest / 128), shift);
      ShlBySeven(rest / 128, shift);
      rest := rest / 128;
      shift := shift + 7;
    }
  }

  /** The byte at the front of a code, and where the code of what remains stands. */
  lemma FirstByte(bytes: seq<nat>, at: nat, val: nat)
    requires at + |VByteCode(val)| <= |bytes| && bytes[at..at + |VByteCode(val)|] == VByteCode(val)
    ensures bytes[at] == if val < 128 then val + 128 else val % 128
    ensures val < 128 ==> |VByteCode(val)| == 1
    ensures val >= 128 ==>
      && |VByteCode(val)| == 1 + |VByteCode(val / 128)|
      && bytes[at + 1..at + 1 + |VByteCode(val / 128)|] == VByteCode(val / 128)
  {
    assert bytes[at] == VByteCode(val)[0];
    if val >= 128 {
      assert VByteCode(val)[1..] == VByteCode(val / 128);
    }
  }

  lemma ShlZero(x: nat)
    ensures Shl(x, 0) == x
  {
  }

  // ---------------------------------------------------------------------------------------------
  // Decoding the interpolative code, on values

  /** The first len bits as a number, and what follows. */
  function Take(bits: seq<bool>, len: nat): (r: (nat, seq<bool>))
    ensures r.0 < Pow2(len)
  {
    if len <= |bits| then (ToNat(bits[..len]), bits[len..]) else (0, [])
  }

  function DecodeInt(bits: seq<bool>, u: nat): (r: (nat, seq<bool>))
    requires u > 0
    ensures r.0 < u
  {
    var m := ShortCodes(u);
    var (v, rest) := Take(bits, Msb(u));
    if v < m then (v, rest)
    else
      var (bit, rest') := Take(rest, 1);
      assert Pow2(1) == 2;
      (2 * v + bit - m, rest')
  }

  function DecodeInterpolative(bits: seq<bool>, n: nat, low: nat, high: nat): (r: (seq<nat>, seq<bool>))
    requires low <= high
    ensures |r.0| == n
    decreases n
  {
    if n == 0 then ([], bits)
    else
      var h := n / 2;
      var (d, rest) := DecodeInt(bits, high - low + 1);
      var (left, rest') := DecodeInterpolative(rest, h, low, low + d);
      var (right, rest'') := DecodeInterpolative(rest', n - h - 1, low + d, high);
      (left + [low + d] + right, rest'')
  }

  lemma TakeBack(x: nat, len: nat, rest: seq<bool>)
    requires x < Pow2(len)
    ensures Take(ToBits(x, len) + rest, len) == (x, rest)
  {
    ToNatToBits(x, len);
    assert (ToBits(x, len) + rest)[..len] == ToBits(x, len) && (ToBits(x, len) + rest)[len..] == rest;
  }

  lemma IntRoundTrip(val: nat, u: nat, rest: seq<bool>)
    requires val < u
    ensures DecodeInt(IntCode(val, u) + rest, u) == (val, rest)
  {
    hide ToBits, Take, Pow2;
    var b, m := Msb(u), ShortCodes(u);
    IntCodeFits(val, u);
    if val < m {
      TakeBack(val, b, rest);
    } else {
      OneBit((val + m) % 2);
      var last := ToBits((val + m) % 2, 1);
      assert IntCode(val, u) + rest == ToBits((val + m) / 2, b) + (last + rest);
      TakeBack((val + m) / 2, b, last + rest);
      TakeBack((val + m) % 2, 1, rest);
    }
  }

  /** Decoding inverts the interpolative code and leaves what follows alone. */
  lemma {:induction false} InterpolativeRoundTrip(s: seq<nat>, low: nat, high: nat, rest: seq<bool>)
    requires Between(s, low, high)
    ensures DecodeInterpolative(InterpolativeCode(s, low, high) + rest, |s|, low, high) == (s, rest)
    decreases |s|
  {
    hide IntCode, InterpolativeCode, Between, DecodeInt;
    if s == [] {
      NothingToCode(low, high);
      assert [] + rest == rest;
    } else {
      var h := |s| / 2;
      Halves(s, low, high);
      var first := IntCode(s[h] - low, high - low + 1);
      var left, right := InterpolativeCode(s[..h], low, s[h]), InterpolativeCode(s[h + 1..], s[h], high);
      assert first + left + right + rest == first + (left + (right + rest));
      IntRoundTrip(s[h] - low, high - low + 1, left + (right + rest));
      InterpolativeRoundTrip(s[..h], low, s[h], right + rest);
      InterpolativeRoundTrip(s[h + 1..], s[h], high, rest);
      assert s[..h] + [s[h]] + s[h + 1..] == s;
    }
  }

  // ---------------------------------------------------------------------------------------------
  // The interpolative block

  lemma {:induction false} SumsSorted(x: seq<nat>)
    ensures Between(Sums(x), 0, Total(x))
  {
    if x != [] {
      SumsSorted(x[..|x| - 1]);
    }
  }

  /** What a block must satisfy: at least one value, a sum below 2^32 - 1, given correctly or not at all. */
  predicate IsBlock(x: seq<nat>, sum: nat) {
    0 < |x| && Total(x) < UNKNOWN && (sum == UNKNOWN || sum == Total(x))
  }

  lemma FirstSumsSorted(x: seq<nat>)
    requires x != []
    ensures Between(Sums(x)[..|x| - 1], 0, Total(x))
  {
    hide Sums, Total;
    SumsSorted(x);
  }

  /** Bits as bytes, the last one filled up with zeros. */
  function Pack(bits: seq<bool>): (bytes: seq<nat>)
    ensures |bytes| == (|bits| + 7) / 8
  {
    if bits == [] then [] else if |bits| <= 8 then [ToNat(bits)] else [ToNat(bits[..8])] + Pack(bits[8..])
  }

  /** The sum if it is not known, then the prefix sums without the last one. */
  function BlockCode(x: seq<nat>, sum: nat): seq<nat>
    requires IsBlock(x, sum)
  {
    FirstSumsSorted(x);
    Header(x, sum) + Pack(InterpolativeCode(Sums(x)[..|x| - 1], 0, Total(x)))
  }

  function Header(x: seq<nat>, sum: nat): seq<nat> {
    if sum == UNKNOWN then VByteCode(Total(x)) else []
  }

  function Differences(s: seq<nat>, last: nat): (r: seq<nat>)
    ensures |r| == |s| + 1
  {
    if s == [] then [last]
    else
      var prev := s[|s| - 1];
      Differences(s[..|s| - 1], prev) + [if last >= prev then last - prev else 0]
  }

  function DecodeBlock(bytes: seq<nat>, sum: nat, n: nat): (r: (seq<nat>, nat))
    requires n > 0
    ensures |r.0| == n
  {
    var (total, used) := if sum == UNKNOWN then VByteDecode(bytes) else (sum, 0);
    var bits := ByteBits(bytes[used..]);
    var (s, rest) := DecodeInterpolative(bits, n - 1, 0, total);
    (Differences(s, total), used + if |rest| <= |bits| then (|bits| - |rest| + 7) / 8 else 0)
  }

  lemma {:induction false} DifferencesOfSums(x: seq<nat>)
    requires x != []
    ensures Differences(Sums(x)[..|x| - 1], Total(x)) == x
  {
    var n := |x| - 1;
    assert Sums(x)[..n] == Sums(x[..n]);
    if n > 0 {
      DifferencesOfSums(x[..n]);
    }
  }

  /** Packed bits come first when the bytes are read as bits. */
  lemma {:induction false} PackedBits(bits: seq<bool>, rest: seq<nat>)
    ensures |bits| <= 8 * |Pack(bits) + rest| && ByteBits(Pack(bits) + rest)[..|bits|] == bits
    decreases |bits|
  {
    hide ByteBits, ToNat, ToBits;
    if bits == [] {
    } else if |bits| <= 8 {
      PackedByte(bits);
      ByteBitsConcat(Pack(bits), rest);
    } else {
      PackedByte(bits[..8]);
      PackedBits(bits[8..], rest);
      assert Pack(bits) + rest == [ToNat(bits[..8])] + (Pack(bits[8..]) + rest);
      ByteBitsConcat([ToNat(bits[..8])], Pack(bits[8..]) + rest);
      var tail := ByteBits(Pack(bits[8..]) + rest);
      assert (bits[..8] + tail)[..|bits|] == bits[..8] + tail[..|bits| - 8];
    }
  }

  lemma PackedByte(bits: seq<bool>)
    requires |bits| <= 8
    ensures ByteBits([ToNat(bits)])[..|bits|] == bits && (|bits| == 8 ==> ByteBits([ToNat(bits)]) == bits)
  {
    hide ToNat, ToBits;
    OneByte(ToNat(bits));
    BitsBack(bits, 8);
  }

  lemma {:induction false} BitsBack(s: seq<bool>, len: nat)
    requires |s| <= len
    ensures ToBits(ToNat(s), len)[..|s|] == s && (|s| == len ==> ToBits(ToNat(s), len) == s)
  {
    if s != [] {
      BitsBack(s[1..], len - 1);
      assert ToNat(s) / 2 == ToNat(s[1..]);
      var r := ToBits(ToNat(s), len);
      assert r[0] == s[0] && r[1..] == ToBits(ToNat(s[1..]), len - 1);
      assert r[..|s|] == [s[0]] + r[1..][..|s| - 1];
    }
  }

  /** A block is decoded to its values, and the decoder stops at its end, whatever bytes follow. */
  lemma BlockRoundTrip(x: seq<nat>, sum: nat, rest: seq<nat>)
    requires IsBlock(x, sum)
    ensures DecodeBlock(BlockCode(x, sum) + rest, sum, |x|) == (x, |BlockCode(x, sum)|)
  {
    hide Pack, InterpolativeCode, DecodeInterpolative, Sums, Total, Differences, VByteCode, VByteDecode, Between,
      ByteBits;
    FirstSumsSorted(x);
    var s, total := Sums(x)[..|x| - 1], Total(x);
    var code, header := InterpolativeCode(s, 0, total), Header(x, sum);
    var payload := Pack(code) + rest;
    assert BlockCode(x, sum) + rest == header + payload;
    if sum == UNKNOWN {
      VByteRoundTrip(total, payload);
    }
    assert (header + payload)[|header|..] == payload;
    PackedBits(code, rest);
    var bits := ByteBits(payload);
    assert bits == code + bits[|code|..];
    InterpolativeRoundTrip(s, 0, total, bits[|code|..]);
    DifferencesOfSums(x);
  }

  lemma {:induction false} ToNatZeros(s: seq<bool>, k: nat)
    ensures ToNat(s + seq(k, _ => false)) == ToNat(s)
  {
    if s != [] {
      assert (s + seq(k, _ => false))[1..] == s[1..] + seq(k, _ => false);
      ToNatZeros(s[1..], k);
    } else if k > 0 {
      assert (s + seq(k, _ => false))[1..] == s + seq(k - 1, _ => false);
      ToNatZeros(s, k - 1);
    } else {
      assert s + seq(0, _ => false) == s;
    }
  }

  lemma ByteOfBits(b: nat, bits: seq<bool>)
    requires b < 256 && |bits| <= 8 && ToBits(b, 8) == bits + seq(8 - |bits|, _ => false)
    ensures b == ToNat(bits)
  {
    hide ToBits, ToNat;
    ByteSize();
    ToNatToBits(b, 8);
    ToNatZeros(bits, 8 - |bits|);
  }

  /** Bytes that hold the bits and then zeros are the packed bits. */
  lemma {:induction false} PackIs(bytes: seq<nat>, bits: seq<bool>)
    requires AreBytes(bytes) && |bytes| == (|bits| + 7) / 8
    requires ByteBits(bytes) == bits + seq(8 * |bytes| - |bits|, _ => false)
    ensures bytes == Pack(bits)
    decreases |bits|
  {
    hide ToBits, ToNat, ByteBits;
    if bits != [] {
      var first, tail := ByteBits([bytes[0]]), ByteBits(bytes[1..]);
      assert bytes == [bytes[0]] + bytes[1..];
      ByteBitsConcat([bytes[0]], bytes[1..]);
      OneByte(bytes[0]);
      var all := bits + seq(8 * |bytes| - |bits|, _ => false);
      assert all[..8] == first && all[8..] == tail;
      if |bits| <= 8 {
        assert all[..8] == bits + seq(8 - |bits|, _ => false);
        ByteOfBits(bytes[0], bits);
      } else {
        assert all[..8] == bits[..8] + seq(0, _ => false);
        ByteOfBits(bytes[0], bits[..8]);
        assert all[8..] == bits[8..] + seq(8 * |bytes[1..]| - |bits[8..]|, _ => false);
        PackIs(bytes[1..], bits[8..]);
      }
    }
  }

  /** The bytes of the writer's buffer up to the last one used are the packed bits. */
  lemma WrittenBytes(w: BitWriter)
    requires w.Valid()
    ensures (w.size + 7) / 8 <= |BytesOf(w.buf)| && BytesOf(w.buf)[..(w.size + 7) / 8] == Pack(w.written)
  {
    hide ByteBits, WordBits, BytesOf, Pack;
    var bytes, k := BytesOf(w.buf), (w.size + 7) / 8;
    BufferBits(w);
    BytesOfBits(w.buf);
    BytesAreBytes(w.buf);
    ByteSlice(bytes, 0, k);
    var zeros := seq(8 * |bytes| - |w.written|, _ => false);
    assert (w.written + zeros)[0..8 * k] == w.written + seq(8 * k - |w.written|, _ => false);
    assert bytes[0..k] == bytes[..k];
    PackIs(bytes[..k], w.written);
  }

  lemma {:induction false} SumsPrefix(x: seq<nat>, i: nat)
    requires i <= |x|
    ensures Sums(x)[..i] == Sums(x[..i]) && Total(x[..i]) <= Total(x)
    decreases |x| - i
  {
    if i < |x| {
      assert x[..i + 1][..i] == x[..i];
      SumsPrefix(x, i + 1);
      assert Sums(x)[..i] == Sums(x)[..i + 1][..i];
    } else {
      assert x[..i] == x && Sums(x)[..i] == Sums(x);
    }
  }

  /** One prefix sum is the one before plus the next value. */
  lemma SumsNext(x: seq<nat>, i: nat)
    requires 0 < i < |x|
    ensures Sums(x)[i] == Sums(x)[i - 1] + x[i] <= Total(x)
    ensures Sums(x)[0] == x[0]
  {
    assert x[..i + 1][..i] == x[..i];
    SumsPrefix(x, i + 1);
    SumsPrefix(x, i);
    assert Sums(x)[i] == Sums(x)[..i + 1][i] == Total(x[..i + 1]);
    assert Sums(x)[i - 1] == Sums(x)[..i][i - 1] == Total(x[..i]);
    FirstSum(x);
  }

  lemma FirstSum(x: seq<nat>)
    requires x != []
    ensures Sums(x)[0] == x[0] <= Total(x)
  {
    assert x[..1][..0] == [];
    SumsPrefix(x, 1);
    assert Sums(x)[0] == Sums(x)[..1][0];
  }

  /** Prefix sums in 32 bits. */
  method PrefixSums(input: seq<nat>) returns (inbuf: array<nat>)
    requires 0 < |input| <= BLOCK_SIZE && Total(input) < UINT32
    ensures fresh(inbuf) && inbuf.Length == BLOCK_SIZE && inbuf[..|input|] == Sums(input)
  {
    hide Sums, Total;
    inbuf := new nat[BLOCK_SIZE](_ => 0);
    FirstSum(input);
    inbuf[0] := input[0];
    for i := 1 to |input|
      invariant forall k :: 0 <= k < i ==> inbuf[k] == Sums(input)[k]
    {
      SumsNext(input, i);
      inbuf[i] := (inbuf[i - 1] + input[i]) % UINT32;
    }
  }

  /** Appends the code of a block. */
  method Encode(input: seq<nat>, sumOfValues: nat, before: seq<nat>) returns (out: seq<nat>)
    requires |input| <= BLOCK_SIZE && IsBlock(input, sumOfValues)
    ensures out == before + BlockCode(input, sumOfValues)
  {
    hide Sums, Total, InterpolativeCode, BytesOf, Pack, VByteCode, Between, BitWriter.Valid;
    var n := |input|;
    var inbuf := PrefixSums(input);
    out := before;
    var sum := sumOfValues;
    LastSum(input);
    if sum == UNKNOWN {
      sum := inbuf[n - 1];
      out := EncodeVByte([sum], out);
      OneCode(sum);
    }
    ghost var header := Header(input, sumOfValues);
    assert out == before + header;
    FirstSumsSorted(input);
    var bw := new BitWriter();
    WordSize();
    assert inbuf[..n - 1] == Sums(input)[..n - 1];
    bw.WriteInterpolative(inbuf[..n - 1], 0, sum);
    WrittenBytes(bw);
    assert bw.written == InterpolativeCode(Sums(input)[..n - 1], 0, Total(input));
    out := out + BytesOf(bw.buf)[..(bw.size + 7) / 8];
    assert out == before + (header + Pack(bw.written));
  }

  lemma LastSum(x: seq<nat>)
    requires x != []
    ensures Sums(x)[|x| - 1] == Total(x)
  {
  }

  lemma OneCode(val: nat)
    ensures VByteCodes([val]) == VByteCode(val)
  {
    assert [val][..0] == [] && VByteCodes([]) == [];
  }

  lemma WordSize()
    ensures Pow2(WORD_BITS) == UINT32
  {
    assert Pow2(8) == 256;
    assert Pow2(16) == 0x1_0000;
    assert Pow2(24) == 0x100_0000;
  }

  /** The decoder fetches whole words: all bytes of the last word must be there, though up to three are not its own. */
  ghost predicate Readable(bytes: seq<nat>, x: seq<nat>, sum: nat)
    requires IsBlock(x, sum)
  {
    FirstSumsSorted(x);
    var used := |Header(x, sum)|;
    && AreBytes(bytes) && BlockCode(x, sum) <= bytes
    && Fetchable(bytes[used..], |InterpolativeCode(Sums(x)[..|x| - 1], 0, Total(x))|)
  }

  lemma {:induction false} PackedAreBytes(bits: seq<bool>)
    ensures AreBytes(Pack(bits))
    decreases |bits|
  {
    hide ToNat;
    ByteSize();
    if 0 < |bits| <= 8 {
      Pow2Monotone(|bits|, 8);
    } else if |bits| > 8 {
      PackedAreBytes(bits[8..]);
    }
  }

  /** Whole words are there exactly if the bytes fill them. */
  lemma PackedFetchable(bits: seq<bool>)
    ensures Fetchable(Pack(bits), |bits|) <==> |Pack(bits)| % 4 == 0
  {
    hide Pack;
  }

  /** The code of a block can be decoded without any byte behind it if and only if its payload fills whole words. */
  lemma OwnBytesSufficeIff(x: seq<nat>, sum: nat)
    requires IsBlock(x, sum)
    ensures Readable(BlockCode(x, sum), x, sum) <==> (|BlockCode(x, sum)| - |Header(x, sum)|) % 4 == 0
  {
    hide Sums, Total, InterpolativeCode, Pack, VByteCode, Between, Fetchable;
    FirstSumsSorted(x);
    var code := InterpolativeCode(Sums(x)[..|x| - 1], 0, Total(x));
    PackedAreBytes(code);
    PackedFetchable(code);
    assert BlockCode(x, sum)[|Header(x, sum)|..] == Pack(code);
  }

  /** A block of two values whose payload is one byte: three bytes behind it are fetched. */
  lemma ShortBlock() returns (x: seq<nat>, sum: nat)
    ensures IsBlock(x, sum) && !Readable(BlockCode(x, sum), x, sum)
  {
    hide InterpolativeCode, Pack, VByteCode, Readable;
    hide Sums, Total;
    x, sum := [1, 0], 1;
    ShortSums();
    assert Sums(x)[..1] == [1];
    FirstSumsSorted(x);
    ShortCode();
    OwnBytesSufficeIff(x, sum);
  }

  lemma ShortSums()
    ensures Total([1, 0]) == 1 && Sums([1, 0]) == [1, 1]
  {
    assert [1, 0][..1] == [1] && [1][..0] == [];
    assert Total([1]) == 1;
  }

  lemma ShortCode()
    requires Between([1], 0, 1)
    ensures |Pack(InterpolativeCode([1], 0, 1))| == 1
  {
    NothingToCode(0, 1);
    NothingToCode(1, 1);
    assert [1][..0] == [] && [1][1..] == [];
    assert Msb(2) == 1 && Pow2(1) == 2;
    assert IntCode(1, 2) == ToBits(1, 1);
    assert InterpolativeCode([1], 0, 1) == IntCode(1, 2) + [] + [];
  }

  /** Fills out with the n values of the block at the front of the bytes; returns the size of its code. */
  method Decode(bytes: seq<nat>, out: array<nat>, sumOfValues: nat, n: nat, ghost x: seq<nat>) returns (consumed: nat)
    requires IsBlock(x, sumOfValues) && n == |x| <= out.Length && n <= BLOCK_SIZE && Readable(bytes, x, sumOfValues)
    modifies out
    ensures out[..] == x + old(out[n..]) && consumed == |BlockCode(x, sumOfValues)|
  {
    hide Sums, Total, InterpolativeCode, Pack, VByteCode, Between, ByteBits, Fetchable;
    ghost var header := Header(x, sumOfValues);
    FirstSumsSorted(x);
    ghost var s, code := Sums(x)[..n - 1], InterpolativeCode(Sums(x)[..n - 1], 0, Total(x));
    var inbuf := 0;
    var sum := sumOfValues;
    if sum == UNKNOWN {
      OneCode(Total(x));
      var sums;
      sums, inbuf := DecodeVByte(bytes, 0, 1, [Total(x)]);
      sum := sums[0];
    }
    out[n - 1] := sum;
    var read := 0;
    if n > 1 {
      CodeFirst(bytes, header, code);
      read := DecodePayload(bytes[inbuf..], out, n, sum, x);
    } else {
      OneValue(x);
    }
    consumed := inbuf + read;
  }

  /** The values but the last one, from the bits; the last one is there already. */
  method DecodePayload(bytes: seq<nat>, out: array<nat>, n: nat, sum: nat, ghost x: seq<nat>) returns (read: nat)
    requires 1 < n == |x| <= out.Length && sum == Total(x) == out[n - 1] < UNKNOWN && AreBytes(bytes)
    requires Between(Sums(x)[..n - 1], 0, sum) && CodeAt(bytes, 0, InterpolativeCode(Sums(x)[..n - 1], 0, sum))
    modifies out
    ensures out[..] == x + old(out[n..]) && read == |Pack(InterpolativeCode(Sums(x)[..n - 1], 0, sum))|
  {
    hide Sums, Total, InterpolativeCode, Pack, Between, CodeAt;
    WordSize();
    LastSum(x);
    var br := new BitReader(bytes);
    br.ReadInterpolative(out, 0, n - 1, 0, sum, Sums(x)[..n - 1]);
    SameButLast(out[..n], Sums(x));
    Subtract(out, n, x);
    read := (br.pos + 7) / 8;
  }

  lemma SameButLast<T>(s: seq<T>, t: seq<T>)
    requires |s| == |t| > 0 && s[..|s| - 1] == t[..|s| - 1] && s[|s| - 1] == t[|s| - 1]
    ensures s == t
  {
    assert s == s[..|s| - 1] + [s[|s| - 1]];
    assert t == t[..|s| - 1] + [t[|s| - 1]];
  }

  lemma OneValue(x: seq<nat>)
    requires |x| == 1
    ensures Total(x) == x[0] && Sums(x)[..0] == [] && InterpolativeCode([], 0, Total(x)) == [] && Pack([]) == []
  {
    assert x[..0] == [];
  }

  lemma CodeFirst(bytes: seq<nat>, header: seq<nat>, code: seq<bool>)
    requires AreBytes(bytes) && header + Pack(code) <= bytes && Fetchable(bytes[|header|..], |code|)
    ensures AreBytes(bytes[|header|..]) && CodeAt(bytes[|header|..], 0, code)
  {
    hide ByteBits, Pack, Fetchable, CodeAt, AreBytes;
    TailOf(bytes, header, Pack(code));
    BytesInTail(bytes, |header|);
    CodeAtFront(bytes[|header|..], code, bytes[|header| + |Pack(code)|..]);
  }

  lemma BytesInTail(bytes: seq<nat>, from: nat)
    requires AreBytes(bytes) && from <= |bytes|
    ensures AreBytes(bytes[from..])
  {
  }

  lemma CodeAtFront(bytes: seq<nat>, code: seq<bool>, rest: seq<nat>)
    requires bytes == Pack(code) + rest && Fetchable(bytes, |code|)
    ensures CodeAt(bytes, 0, code)
  {
    hide ByteBits, Pack, Fetchable;
    PackedBits(code, rest);
  }

  lemma TailOf<T>(s: seq<T>, a: seq<T>, b: seq<T>)
    requires a + b <= s
    ensures |a| <= |s| && s[|a|..] == b + s[|a| + |b|..] && a == s[..|a|]
  {
    assert s == (a + b) + s[|a| + |b|..];
  }

  /** From prefix sums back to values, in place and from the end. */
  method Subtract(out: array<nat>, n: nat, ghost x: seq<nat>)
    requires 0 < n == |x| <= out.Length && out[..n] == Sums(x) && Total(x) < UINT32
    modifies out
    ensures out[..] == x + old(out[n..])
  {
    hide Sums, Total;
    var i := n - 1;
    FirstSum(x);
    while i > 0
      invariant 0 <= i < n
      invariant forall k :: 0 <= k <= i ==> out[k] == Sums(x)[k]
      invariant forall k :: i < k < n ==> out[k] == x[k]
      invariant forall k :: n <= k < out.Length ==> out[k] == old(out[k])
    {
      SumsNext(x, i);
      out[i] := (out[i] - out[i - 1]) % UINT32;
      i := i - 1;
    }
  }
}
