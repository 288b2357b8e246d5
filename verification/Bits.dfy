// Bit strings, fixed-length codes and Exp-Golomb codes of ITU-T H.264, sections 7.2, 9.1 and 9.1.1.
// The codes are written here as an encoder would write them; the readers of
// common/jmdec.cpp are proved against them in Bitstream.dfy.
module Bits {

  // ---------------------------------------------------------------- C integers

  const TWO31: int := 0x8000_0000
  const TWO32: int := 0x1_0000_0000

  /** The value of x after conversion to a 32-bit two's complement `int`. */
  function ToInt32(x: int): (r: int)
    ensures -TWO31 <= r < TWO31
  {
    var m := x % 0x1_0000_0000;
    if m < 0x8000_0000 then m else m - 0x1_0000_0000
  }

  /** The value of x after conversion to a 32-bit `unsigned int`. */
  function ToUint32(x: int): (r: int)
    ensures 0 <= r < TWO32
  {
    x % 0x1_0000_0000
  }

  lemma UnsignedOfSigned(x: int)
    requires 0 <= x < TWO32
    ensures ToUint32(ToInt32(x)) == x
  {
  }

  // ---------------------------------------------------------------- powers of two

  function Pow2(k: nat): (r: nat)
    ensures r >= 1
  {
    if k == 0 then 1 else 2 * Pow2(k - 1)
  }

  lemma {:induction false} Pow2Monotone(j: nat, k: nat)
    requires j <= k
    ensures Pow2(j) <= Pow2(k)
  {
    if j < k {
      Pow2Monotone(j, k - 1);
    }
  }

  lemma Pow2At32()
    ensures Pow2(8) == 256 && Pow2(16) == 0x1_0000 && Pow2(31) == TWO31 && Pow2(32) == TWO32
  {
    assert Pow2(4) == 16;
    assert Pow2(8) == 256;
    assert Pow2(12) == 0x1000;
    assert Pow2(16) == 0x1_0000;
    assert Pow2(20) == 0x10_0000;
    assert Pow2(24) == 0x100_0000;
    assert Pow2(28) == 0x1000_0000;
    assert Pow2(31) == TWO31;
  }

  lemma Pow2Bound(k: nat)
    ensures k <= 31 ==> Pow2(k) <= TWO31
    ensures k <= 32 ==> Pow2(k) <= TWO32
    ensures k >= 32 ==> Pow2(k) >= TWO32
  {
    Pow2At32();
    if k <= 31 {
      Pow2Monotone(k, 31);
    } else {
      Pow2Monotone(32, k);
    }
  }

  /** floor(log2(n)) */
  function FloorLog2(n: nat): (k: nat)
    requires n > 0
    ensures Pow2(k) <= n < Pow2(k + 1)
  {
    if n == 1 then 0 else 1 + FloorLog2(n / 2)
  }

  lemma FloorLog2Unique(n: nat, k: nat)
    requires Pow2(k) <= n < Pow2(k + 1)
    ensures FloorLog2(n) == k
  {
    var m := FloorLog2(n);
    if m < k {
      Pow2Monotone(m + 1, k);
    } else if k < m {
      Pow2Monotone(k + 1, m);
    }
  }

  // ---------------------------------------------------------------- bit strings

  /** `x >> n`, spelled out for the eight possible amounts. */
  function ShiftRight(x: bv8, n: nat): bv8
    requires n < 8
  {
    match n
    case 0 => x
    case 1 => x >> 1
    case 2 => x >> 2
    case 3 => x >> 3
    case 4 => x >> 4
    case 5 => x >> 5
    case 6 => x >> 6
    case _ => x >> 7
  }

  /** Bit k of a byte, most significant bit first. */
  predicate BitOf(b: bv8, k: nat)
    requires k < 8
  {
    ShiftRight(b, 7 - k) & 1 == 1
  }

  /** The bits of a buffer in reading order. */
  function BufferBits(buffer: seq<bv8>): (bits: seq<bool>)
    ensures |bits| == 8 * |buffer|
    ensures forall i :: 0 <= i < |bits| ==> bits[i] == BitOf(buffer[i / 8], i % 8)
  {
    seq(8 * |buffer|, i requires 0 <= i < 8 * |buffer| => BitOf(buffer[i / 8], i % 8))
  }

  /** The number a bit string denotes, most significant bit first. */
  function Value(s: seq<bool>): nat {
    if s == [] then 0 else 2 * Value(s[..|s| - 1]) + (if s[|s| - 1] then 1 else 0)
  }

  /** The n low bits of v, most significant bit first: the u(n) code of section 7.2. */
  function UBits(n: nat, v: nat): (s: seq<bool>)
    ensures |s| == n
  {
    if n == 0 then [] else UBits(n - 1, v / 2) + [v % 2 == 1]
  }

  lemma ValueOfEmpty()
    ensures Value([]) == 0
  {
  }

  lemma ValueAppend(s: seq<bool>, b: bool)
    ensures Value(s + [b]) == 2 * Value(s) + (if b then 1 else 0)
  {
    assert (s + [b])[..|s|] == s;
  }

  lemma {:induction false} ValueBound(s: seq<bool>)
    ensures Value(s) < Pow2(|s|)
  {
    if s != [] {
      ValueBound(s[..|s| - 1]);
    }
  }

  lemma {:induction false} ValueOfUBits(n: nat, v: nat)
    requires v < Pow2(n)
    ensures Value(UBits(n, v)) == v
  {
    if n > 0 {
      ValueOfUBits(n - 1, v / 2);
      ValueAppend(UBits(n - 1, v / 2), v % 2 == 1);
    }
  }

  lemma {:induction false} UBitsOfValue(s: seq<bool>)
    ensures UBits(|s|, Value(s)) == s
  {
    if s != [] {
      var t := s[..|s| - 1];
      UBitsOfValue(t);
      assert Value(s) / 2 == Value(t);
      assert (Value(s) % 2 == 1) == s[|s| - 1];
    }
  }

  /** Reading a + b bits is reading a bits, then b bits, shifted and added. */
  lemma {:induction false} ValueConcat(s: seq<bool>, t: seq<bool>)
    ensures Value(s + t) == Value(s) * Pow2(|t|) + Value(t)
  {
    hide Value;
    if t == [] {
      ValueOfEmpty();
      assert s + t == s;
    } else {
      var u, b := t[..|t| - 1], t[|t| - 1];
      ValueConcat(s, u);
      assert s + t == (s + u) + [b];
      ValueAppend(s + u, b);
      assert t == u + [b];
      ValueAppend(u, b);
      assert Pow2(|t|) == 2 * Pow2(|u|);
      assert Value(s) * Pow2(|t|) == 2 * (Value(s) * Pow2(|u|));
    }
  }

  /** A leading bit contributes 2^|t| or nothing. */
  lemma {:induction false} ValueLeadingBit(b: bool, t: seq<bool>)
    ensures Value([b] + t) == (if b then Pow2(|t|) else 0) + Value(t)
  {
    if t == [] {
      ValueAppend([], b);
      assert [b] + t == [] + [b];
    } else {
      var u := t[..|t| - 1];
      ValueLeadingBit(b, u);
      ValueAppend([b] + u, t[|u|]);
      assert [b] + t == ([b] + u) + [t[|u|]];
    }
  }

  // ---------------------------------------------------------------- Exp-Golomb codes

  function Zeros(k: nat): (s: seq<bool>)
    ensures |s| == k && forall i :: 0 <= i < k ==> !s[i]
  {
    seq(k, _ => false)
  }

  /** The ue(v) code of v: floor(log2(v+1)) zeros, then v+1 in binary. */
  function UeBits(v: nat): (s: seq<bool>)
    ensures |s| == 2 * FloorLog2(v + 1) + 1
  {
    var k := FloorLog2(v + 1);
    Zeros(k) + UBits(k + 1, v + 1)
  }

  /** The code number of a signed value, table 9-3 of section 9.1.1. */
  function CodeNum(x: int): nat {
    if x > 0 then 2 * x - 1 else -2 * x
  }

  /** The signed value of a code number: (-1)^(k+1) ceil(k/2). */
  function SignedOf(k: nat): int {
    if k % 2 == 1 then (k + 1) / 2 else -(k / 2)
  }

  lemma SignedBijection(x: int, k: nat)
    ensures SignedOf(CodeNum(x)) == x
    ensures CodeNum(SignedOf(k)) == k
  {
  }

  function SeBits(x: int): seq<bool> {
    UeBits(CodeNum(x))
  }

  /** The first bit of a ue(v) code after its zeros is one, and the code denotes v+1. */
  lemma UeBitsShape(v: nat)
    ensures var k := FloorLog2(v + 1);
            && |UeBits(v)| == 2 * k + 1
            && UeBits(v)[k]
            && (forall i :: 0 <= i < k ==> !UeBits(v)[i])
            && Value(UeBits(v)[k..]) == v + 1
            && Value(UeBits(v)[k + 1..]) == v + 1 - Pow2(k)
  {
    hide FloorLog2, Value;
    var k := FloorLog2(v + 1);
    var tail := UBits(k + 1, v + 1);
    assert UeBits(v)[k..] == tail;
    ValueOfUBits(k + 1, v + 1);
    assert UeBits(v)[k + 1..] == tail[1..];
    var low := tail[1..];
    ValueBound(low);
    assert tail == [tail[0]] + low;
    ValueLeadingBit(tail[0], low);
    assert tail[0];
  }

  // ---------------------------------------------------------------- strings inside streams

  /** The bit string x stands in b at position p. */
  ghost predicate At(b: seq<bool>, p: int, x: seq<bool>) {
    0 <= p <= p + |x| <= |b| && b[p..p + |x|] == x
  }

  lemma AtConcat(b: seq<bool>, p: int, x: seq<bool>, y: seq<bool>)
    ensures At(b, p, x + y) <==> At(b, p, x) && At(b, p + |x|, y)
  {
    if At(b, p, x) && At(b, p + |x|, y) {
      assert b[p..p + |x + y|] == b[p..p + |x|] + b[p + |x|..p + |x| + |y|];
    }
    if At(b, p, x + y) {
      assert b[p..p + |x|] == b[p..p + |x + y|][..|x|];
      assert b[p + |x|..p + |x| + |y|] == b[p..p + |x + y|][|x|..];
    }
  }

  // ---------------------------------------------------------------- decoding, stated on the stream

  /** The position of the first one bit at or after p, or |b|. */
  function FirstOne(b: seq<bool>, p: nat): (q: nat)
    requires p <= |b|
    ensures p <= q <= |b|
    ensures forall i :: p <= i < q ==> !b[i]
    ensures q < |b| ==> b[q]
    decreases |b| - p
  {
    if p == |b| || b[p] then p else FirstOne(b, p + 1)
  }

  lemma FirstOneUnique(b: seq<bool>, p: nat, q: nat)
    requires p <= q < |b|
    requires b[q]
    requires forall i :: p <= i < q ==> !b[i]
    ensures FirstOne(b, p) == q
  {
  }

  /** A whole Exp-Golomb codeword of at most 31 information bits starts at p. */
  predicate Codeword(b: seq<bool>, p: nat) {
    && p < |b|
    && var q := FirstOne(b, p);
       && q + (q - p) < |b|
       && q - p <= 31
  }

  function CodewordLength(b: seq<bool>, p: nat): nat
    requires Codeword(b, p)
  {
    2 * (FirstOne(b, p) - p) + 1
  }

  function CodewordValue(b: seq<bool>, p: nat): (v: nat)
    requires Codeword(b, p)
    ensures v < TWO32 - 1
  {
    var q := FirstOne(b, p);
    var k := q - p;
    ValueBound(b[q + 1..q + 1 + k]);
    Pow2Bound(k);
    Pow2(k) + Value(b[q + 1..q + 1 + k]) - 1
  }

  lemma LogBelow32(v: nat)
    requires v < TWO32 - 1
    ensures FloorLog2(v + 1) <= 31
  {
    var k := FloorLog2(v + 1);
    Pow2Bound(k);
  }

  lemma AtElements(b: seq<bool>, p: int, x: seq<bool>)
    requires At(b, p, x)
    ensures forall i :: p <= i < p + |x| ==> b[i] == x[i - p]
  {
    forall i | p <= i < p + |x|
      ensures b[i] == x[i - p]
    {
      assert b[p..p + |x|][i - p] == b[i];
    }
  }

  lemma CodewordAt(b: seq<bool>, p: nat, k: nat, x: seq<bool>)
    requires At(b, p, x) && |x| == 2 * k + 1 && k <= 31
    requires x[k] && forall i :: 0 <= i < k ==> !x[i]
    ensures Codeword(b, p) && FirstOne(b, p) == p + k
    ensures CodewordValue(b, p) == Pow2(k) + Value(x[k + 1..]) - 1
  {
    AtElements(b, p, x);
    assert b[p + k] == x[k];
    assert forall i :: p <= i < p + k ==> b[i] == x[i - p];
    FirstOneUnique(b, p, p + k);
    assert b[p + k + 1..p + k + 1 + k] == x[k + 1..];
  }

  /** Decoding inverts encoding at any bit offset. */
  lemma UeDecodes(b: seq<bool>, p: nat, v: nat)
    requires v < TWO32 - 1
    requires At(b, p, UeBits(v))
    ensures Codeword(b, p)
    ensures CodewordValue(b, p) == v
    ensures CodewordLength(b, p) == |UeBits(v)|
  {
    UeBitsShape(v);
    LogBelow32(v);
    CodewordAt(b, p, FloorLog2(v + 1), UeBits(v));
  }

  /** Encoding inverts decoding: every codeword is the code of the value it decodes to. */
  lemma UeEncodes(b: seq<bool>, p: nat)
    requires Codeword(b, p)
    ensures At(b, p, UeBits(CodewordValue(b, p)))
  {
    hide FirstOne, Value, UBits, FloorLog2, BufferBits;
    var q := FirstOne(b, p);
    var k := q - p;
    var low := b[q + 1..q + 1 + k];
    var v := CodewordValue(b, p);
    ValueBound(low);
    FloorLog2Unique(v + 1, k);
    ValueLeadingBit(true, low);
    UBitsOfValue([true] + low);
    assert b[p..q] == Zeros(k);
    assert b[p..p + |UeBits(v)|] == b[p..q] + ([b[q]] + low);
  }

  /** A codeword stands at p exactly when the code of some value does, and that value is unique. */
  lemma CodewordIffCode(b: seq<bool>, p: nat, v: nat)
    ensures v < TWO32 - 1 ==> (At(b, p, UeBits(v)) <==> Codeword(b, p) && CodewordValue(b, p) == v)
  {
    if v < TWO32 - 1 && At(b, p, UeBits(v)) {
      UeDecodes(b, p, v);
    }
    if Codeword(b, p) {
      UeEncodes(b, p);
    }
  }

  // ---------------------------------------------------------------- runs of codes

  function UeStream(vs: seq<nat>): seq<bool> {
    if vs == [] then [] else UeBits(vs[0]) + UeStream(vs[1..])
  }

  /** The values found by decoding n codewords one after the other from p, and the end position. */
  function DecodeUe(b: seq<bool>, p: nat, n: nat): (r: (seq<nat>, nat))
    decreases n
  {
    if n == 0 || !Codeword(b, p) then ([], p) else
      var rest := DecodeUe(b, p + CodewordLength(b, p), n - 1);
      ([CodewordValue(b, p)] + rest.0, rest.1)
  }

  /** Repeated decoding returns exactly the encoded list and stops at its end. */
  lemma {:induction false} UeStreamDecodes(b: seq<bool>, p: nat, vs: seq<nat>)
    requires forall i :: 0 <= i < |vs| ==> vs[i] < TWO32 - 1
    requires At(b, p, UeStream(vs))
    ensures DecodeUe(b, p, |vs|) == (vs, p + |UeStream(vs)|)
    decreases |vs|
  {
    hide UeBits, FloorLog2, Codeword, CodewordValue, CodewordLength, At;
    if vs != [] {
      AtConcat(b, p, UeBits(vs[0]), UeStream(vs[1..]));
      UeDecodes(b, p, vs[0]);
      UeStreamDecodes(b, p + |UeBits(vs[0])|, vs[1..]);
      assert vs == [vs[0]] + vs[1..];
    }
  }

  function SeStream(xs: seq<int>): seq<bool> {
    if xs == [] then [] else SeBits(xs[0]) + SeStream(xs[1..])
  }

  /** The signed values of n codewords decoded from p on, and the end position. */
  function DecodeSe(b: seq<bool>, p: nat, n: nat): (seq<int>, nat)
    decreases n
  {
    if n == 0 || !Codeword(b, p) then ([], p) else
      var rest := DecodeSe(b, p + CodewordLength(b, p), n - 1);
      ([SignedOf(CodewordValue(b, p))] + rest.0, rest.1)
  }

  /** The same for signed values, through the bijection of section 9.1.1. */
  lemma {:induction false} SeStreamDecodes(b: seq<bool>, p: nat, xs: seq<int>)
    requires forall i :: 0 <= i < |xs| ==> CodeNum(xs[i]) < TWO32 - 1
    requires At(b, p, SeStream(xs))
    ensures DecodeSe(b, p, |xs|) == (xs, p + |SeStream(xs)|)
    decreases |xs|
  {
    hide UeBits, FloorLog2, Codeword, CodewordValue, CodewordLength, At;
    if xs != [] {
      AtConcat(b, p, SeBits(xs[0]), SeStream(xs[1..]));
      SignedBijection(xs[0], 0);
      UeDecodes(b, p, CodeNum(xs[0]));
      SeStreamDecodes(b, p + |SeBits(xs[0])|, xs[1..]);
      assert xs == [xs[0]] + xs[1..];
    }
  }

  // ---------------------------------------------------------------- packing bits into bytes

  /** Eight bits as a byte, most significant bit first. */
  function PackByte(b: seq<bool>): bv8
    requires |b| == 8
  {
    (if b[0] then 0x80 else 0) | (if b[1] then 0x40 else 0) | (if b[2] then 0x20 else 0) | (if b[3] then 0x10 else 0)
    | (if b[4] then 8 else 0) | (if b[5] then 4 else 0) | (if b[6] then 2 else 0) | (if b[7] then 1 else 0)
  }

  lemma PackedBit(b: seq<bool>, k: nat)
    requires |b| == 8 && k < 8
    ensures BitOf(PackByte(b), k) == b[k]
  {
  }

  /** A bit string as bytes, filled up with zero bits. */
  function BytesOf(bits: seq<bool>): (bytes: seq<bv8>)
    ensures |bits| <= 8 * |bytes| < |bits| + 8
  {
    if bits == [] then []
    else if |bits| < 8 then [PackByte(bits + Zeros(8 - |bits|))]
    else [PackByte(bits[..8])] + BytesOf(bits[8..])
  }

  /** Every bit string is the start of what a reader finds in its bytes. */
  lemma {:induction false} BytesHold(bits: seq<bool>)
    ensures At(BufferBits(BytesOf(bits)), 0, bits)
    decreases |bits|
  {
    hide BitOf, PackByte;
    if |bits| >= 8 {
      BytesHold(bits[8..]);
    }
    var all := BufferBits(BytesOf(bits));
    forall i | 0 <= i < |bits|
      ensures all[i] == bits[i]
    {
      if |bits| < 8 {
        PackedBit(bits + Zeros(8 - |bits|), i);
      } else if i < 8 {
        PackedBit(bits[..8], i);
      } else {
        var rest := BufferBits(BytesOf(bits[8..]));
        assert rest[..|bits| - 8][i - 8] == bits[8..][i - 8];
        assert i / 8 == (i - 8) / 8 + 1 && i % 8 == (i - 8) % 8;
      }
    }
  }
}
