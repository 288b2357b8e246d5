// The bit readers of common/jmdec.cpp: GetBits, ShowBits, GetVLCSymbol, readSyntaxElement_VLC/FLC,
// linfo_ue, linfo_se, ue_v, se_v and u_v.
module BitReader {
  import opened Bits

  // ---------------------------------------------------------------- syntax elements

  /** One syntax element of section 7.3: its descriptor together with its value. */
  datatype Element = U(n: nat, v: nat) | UE(v: nat) | SE(x: int)
  {
    /** The value fits its descriptor. */
    predicate Valid() {
      match this
      case U(n, v) => n <= 32 && v < Pow2(n)
      case UE(v) => v < TWO32 - 1
      case SE(x) => -TWO31 < x < TWO31
    }

    function Code(): seq<bool> {
      match this
      case U(n, v) => UBits(n, v)
      case UE(v) => UeBits(v)
      case SE(x) => SeBits(x)
    }
  }

  /** A list of syntax elements in bitstream order. */
  datatype Script = End | Then(head: Element, tail: Script)
  {
    predicate Valid() {
      Then? ==> head.Valid() && tail.Valid()
    }

    /** The bits of the elements written back to back. */
    function Bits(): seq<bool> {
      if End? then [] else head.Code() + tail.Bits()
    }

    function Append(rest: Script): Script {
      if End? then rest else Then(head, tail.Append(rest))
    }

    lemma {:induction false} AppendBits(rest: Script)
      ensures Append(rest).Bits() == Bits() + rest.Bits()
      ensures Append(rest).Valid() <==> Valid() && rest.Valid()
      decreases this
    {
      hide Element.Code, Element.Valid;
      if Then? {
        tail.AppendBits(rest);
      }
    }
  }

  // ---------------------------------------------------------------- fixed-length reads

  /** The bit `(x >> n) & 0x01`. */
  function BitAt(x: bv8, n: nat): (r: int)
    requires n < 8
    ensures r == 0 || r == 1
  {
    if ShiftRight(x, n) & 1 == 1 then 1 else 0
  }

  lemma Wraps(x: int) returns (i: int)
    ensures ToInt32(x) == x + i * 0x1_0000_0000
  {
    i := -(x / 0x1_0000_0000) - (if x % 0x1_0000_0000 < 0x8000_0000 then 0 else 1);
  }

  lemma WrapPeriodic(x: int, d: int)
    ensures ToInt32(x + d * 0x1_0000_0000) == ToInt32(x)
  {
    assert (x + d * 0x1_0000_0000) % 0x1_0000_0000 == x % 0x1_0000_0000;
  }

  /** Shifting one more bit into a 32-bit `int`. */
  lemma ShiftIn(x: int, b: int)
    requires 0 <= b <= 1
    ensures ToInt32(2 * ToInt32(x)) + b == ToInt32(2 * x + b)
  {
    hide ToInt32;
    var i := Wraps(x);
    WrapPeriodic(2 * x, 2 * i);
    EvenRoom(x, b);
  }

  lemma EvenRoom(x: int, b: int)
    requires 0 <= b <= 1
    ensures ToInt32(2 * x) + b == ToInt32(2 * x + b)
  {
    var q, m := x / 0x8000_0000, x % 0x8000_0000;
    Remainder(2 * x, q, 2 * m);
    Remainder(2 * x + b, q, 2 * m + b);
  }

  lemma Remainder(a: int, q: int, r: int)
    requires a == q * 0x1_0000_0000 + r && 0 <= r < 0x1_0000_0000
    ensures a % 0x1_0000_0000 == r
  {
  }

  /** Bit i of a buffer, found in the byte the readers look at. */
  lemma BufferBitAt(buffer: seq<bv8>, byteIndex: nat, shift: nat)
    requires byteIndex < |buffer| && shift < 8
    ensures BufferBits(buffer)[8 * byteIndex + 7 - shift] == (BitAt(buffer[byteIndex], shift) == 1)
  {
    var i := 8 * byteIndex + 7 - shift;
    assert i / 8 == byteIndex && i % 8 == 7 - shift;
  }

  /** The `int` that a read of the bits from..to leaves in *info. */
  function Info(buffer: seq<bv8>, from: nat, to: nat): int
    requires from <= to <= 8 * |buffer|
  {
    ToInt32(Value(BufferBits(buffer)[from..to]))
  }

  lemma NoInfo(buffer: seq<bv8>, from: nat)
    requires from <= 8 * |buffer|
    ensures Info(buffer, from, from) == 0
  {
    assert BufferBits(buffer)[from..from] == [];
  }

  /** One step of the read loops: shift left, then or in the next bit. */
  lemma ReadStep(buffer: seq<bv8>, from: nat, to: nat, byteIndex: nat, shift: nat)
    requires from <= to && byteIndex < |buffer| && shift < 8
    requires to == 8 * byteIndex + 7 - shift
    ensures ToInt32(2 * Info(buffer, from, to)) + BitAt(buffer[byteIndex], shift) == Info(buffer, from, to + 1)
  {
    BufferBitAt(buffer, byteIndex, shift);
    ReadBitStep(BufferBits(buffer), from, to);
  }

  lemma ReadBitStep(bits: seq<bool>, from: nat, to: nat)
    requires from <= to < |bits|
    ensures ToInt32(2 * ToInt32(Value(bits[from..to]))) + (if bits[to] then 1 else 0)
         == ToInt32(Value(bits[from..to + 1]))
  {
    var x, y := bits[from..to], bits[from..to + 1];
    assert y == x + [bits[to]];
    ValueAppend(x, bits[to]);
    ShiftIn(Value(x), if bits[to] then 1 else 0);
  }

  method GetBits(buffer: array<bv8>, totbitoffset: int, bitcount: int, numbits: int) returns (r: int, info: int)
    requires 0 <= totbitoffset && 0 <= numbits
    requires totbitoffset + numbits <= bitcount ==> totbitoffset + numbits <= 8 * buffer.Length
    ensures totbitoffset + numbits > bitcount ==> r == -1
    ensures totbitoffset + numbits <= bitcount ==>
              && r == numbits
              && info == Info(buffer[..], totbitoffset, totbitoffset + numbits)
  {
    hide Info, BitAt, BufferBits, ToInt32;
    if totbitoffset + numbits > bitcount {
      return -1, 0;
    }
    var bitoffset, curbyte := 7 - totbitoffset % 8, totbitoffset / 8;
    ghost var bytes := buffer[..];
    var inf := 0;
    NoInfo(bytes, totbitoffset);
    var i := 0;
    while i < numbits
      invariant 0 <= i <= numbits && 0 <= bitoffset <= 7
      invariant 8 * curbyte + 7 - bitoffset == totbitoffset + i
      invariant inf == Info(bytes, totbitoffset, totbitoffset + i)
    {
      ReadStep(bytes, totbitoffset, totbitoffset + i, curbyte, bitoffset);
      inf := ToInt32(2 * inf) + BitAt(buffer[curbyte], bitoffset);
      i, bitoffset := i + 1, bitoffset - 1;
      if bitoffset == -1 {
        curbyte, bitoffset := curbyte + 1, 7;
      }
    }
    return numbits, inf;
  }

  method ShowBits(buffer: array<bv8>, totbitoffset: int, bitcount: int, numbits: int) returns (r: int)
    requires 0 <= totbitoffset && 0 <= numbits
    requires totbitoffset + numbits <= bitcount ==> totbitoffset + numbits <= 8 * buffer.Length
    ensures r == if totbitoffset + numbits > bitcount then -1
                 else Info(buffer[..], totbitoffset, totbitoffset + numbits)
  {
    hide Info, BitAt, BufferBits, ToInt32;
    if totbitoffset + numbits > bitcount {
      return -1;
    }
    var bitoffset, curbyte := 7 - totbitoffset % 8, totbitoffset / 8;
    ghost var bytes := buffer[..];
    var inf := 0;
    NoInfo(bytes, totbitoffset);
    var i := 0;
    while i < numbits
      invariant 0 <= i <= numbits && 0 <= bitoffset <= 7
      invariant 8 * curbyte + 7 - bitoffset == totbitoffset + i
      invariant inf == Info(bytes, totbitoffset, totbitoffset + i)
    {
      ReadStep(bytes, totbitoffset, totbitoffset + i, curbyte, bitoffset);
      inf := ToInt32(2 * inf) + BitAt(buffer[curbyte], bitoffset);
      i, bitoffset := i + 1, bitoffset - 1;
      if bitoffset == -1 {
        curbyte, bitoffset := curbyte + 1, 7;
      }
    }
    return inf;
  }

  /** Reading a + c bits at once is reading a bits, then c bits, shifted and added (in 32-bit arithmetic). */
  lemma BitReadsCompose(bits: seq<bool>, p: nat, a: nat, c: nat)
    requires p + a + c <= |bits|
    ensures Value(bits[p..p + a + c]) == Value(bits[p..p + a]) * Pow2(c) + Value(bits[p + a..p + a + c])
    ensures ToInt32(Value(bits[p..p + a + c]))
         == ToInt32(ToInt32(Value(bits[p..p + a])) * Pow2(c) + ToInt32(Value(bits[p + a..p + a + c])))
  {
    var x, y := bits[p..p + a], bits[p + a..p + a + c];
    assert bits[p..p + a + c] == x + y;
    ValueConcat(x, y);
    WrapMulAdd(Value(x), Pow2(c), Value(y));
  }

  lemma WrapMulAdd(x: int, m: int, y: int)
    ensures ToInt32(ToInt32(x) * m + ToInt32(y)) == ToInt32(x * m + y)
  {
    hide ToInt32;
    var i := Wraps(x);
    var j := Wraps(y);
    var d := i * m + j;
    Distribute(x, i, m);
    assert ToInt32(x) * m + ToInt32(y) == (x * m + y) + d * 0x1_0000_0000;
    WrapPeriodic(x * m + y, d);
  }

  lemma Distribute(x: int, i: int, m: int)
    ensures (x + i * 0x1_0000_0000) * m == x * m + (i * m) * 0x1_0000_0000
  {
  }

  // ---------------------------------------------------------------- variable-length reads

  /** `bitoffset--; bitoffset &= 0x07` */
  function NextOffset(bitoffset: nat): (r: nat)
    requires bitoffset < 8
    ensures r == if bitoffset == 0 then 7 else bitoffset - 1
  {
    (bitoffset - 1) % 8
  }

  lemma ByteOf(byteIndex: int, shift: int, i: int)
    requires 0 <= shift < 8 && i == 8 * byteIndex + 7 - shift
    ensures i / 8 == byteIndex
  {
  }

  /**
   * Reads one Exp-Golomb codeword. The scan for the leading one has no bound of its own, so a one
   * must follow inside the buffer; and the length test counts whole bytes, so a codeword that
   * passes it must lie inside the buffer.
   */
  method GetVLCSymbol(buffer: array<bv8>, totbitoffset: int, bytecount: int) returns (r: int, info: int)
    requires 0 <= totbitoffset <= 8 * buffer.Length
    requires FirstOne(BufferBits(buffer[..]), totbitoffset) < 8 * buffer.Length
    requires var q := FirstOne(BufferBits(buffer[..]), totbitoffset);
             var k := q - totbitoffset;
             q / 8 + (k + 7) / 8 <= bytecount ==> q + k < 8 * buffer.Length
    ensures var bits := BufferBits(buffer[..]);
            var q := FirstOne(bits, totbitoffset);
            var k := q - totbitoffset;
            if q / 8 + (k + 7) / 8 > bytecount then r == -1
            else r == 2 * k + 1 && q + k < |bits| && info == Info(buffer[..], q + 1, q + 1 + k)
  {
    hide FirstOne, Info, BufferBits;
    var curByte, bitoffset, len := FindOne(buffer, totbitoffset);
    ByteOf(curByte, bitoffset, totbitoffset + len);
    if curByte + (len + 7) / 8 > bytecount {
      return -1, 0;
    }
    info := ReadInfoWord(buffer, curByte, bitoffset, len);
    return 1 + len + len, info;
  }

  /** The first loop of GetVLCSymbol: the place of the leading one and the zeros before it. */
  method FindOne(buffer: array<bv8>, totbitoffset: nat) returns (byteoffset: nat, bitoffset: nat, len: nat)
    requires totbitoffset <= 8 * buffer.Length
    requires FirstOne(BufferBits(buffer[..]), totbitoffset) < 8 * buffer.Length
    ensures bitoffset < 8 && 8 * byteoffset + 7 - bitoffset == totbitoffset + len
    ensures totbitoffset + len == FirstOne(BufferBits(buffer[..]), totbitoffset)
  {
    hide FirstOne, BufferBits, BitAt;
    ghost var bytes := buffer[..];
    ghost var bits := BufferBits(bytes);
    ghost var q := FirstOne(bits, totbitoffset);
    byteoffset, bitoffset, len := totbitoffset / 8, 7 - totbitoffset % 8, 0;
    BufferBitAt(bytes, byteoffset, bitoffset);
    var ctrBit := BitAt(buffer[byteoffset], bitoffset);
    while ctrBit == 0
      invariant bitoffset < 8 && totbitoffset + len <= q
      invariant 8 * byteoffset + 7 - bitoffset == totbitoffset + len
      invariant ctrBit == if bits[totbitoffset + len] then 1 else 0
      decreases q - len
    {
      len := len + 1;
      bitoffset := NextOffset(bitoffset);
      if bitoffset == 7 {
        byteoffset := byteoffset + 1;
      }
      BufferBitAt(bytes, byteoffset, bitoffset);
      ctrBit := BitAt(buffer[byteoffset], bitoffset);
    }
  }

  /** The second loop of GetVLCSymbol: the len bits that follow the leading one make the info word. */
  method ReadInfoWord(buffer: array<bv8>, firstByte: nat, firstOffset: nat, count: nat) returns (inf: int)
    requires firstOffset < 8 && 8 * firstByte + 7 - firstOffset + count < 8 * buffer.Length
    ensures var q := 8 * firstByte + 7 - firstOffset;
            inf == Info(buffer[..], q + 1, q + 1 + count)
  {
    hide Info, BufferBits, BitAt, ToInt32;
    ghost var bytes, q := buffer[..], 8 * firstByte + 7 - firstOffset;
    var curByte, bitoffset, len := firstByte, firstOffset, count;
    inf := 0;
    NoInfo(bytes, q + 1);
    while len > 0
      invariant 0 <= bitoffset <= 7 && 0 <= len <= count
      invariant 8 * curByte + 7 - bitoffset == q + (count - len)
      invariant inf == Info(bytes, q + 1, q + 1 + (count - len))
    {
      len := len - 1;
      bitoffset := NextOffset(bitoffset);
      if bitoffset == 7 {
        curByte := curByte + 1;
      }
      ReadStep(bytes, q + 1, q + (count - len), curByte, bitoffset);
      inf := ToInt32(2 * inf) + BitAt(buffer[curByte], bitoffset);
    }
  }

  /** A whole codeword inside the first bytecount bytes always passes the length test. */
  lemma WholeCodewordPasses(q: nat, k: nat, bytecount: nat)
    requires q + k < 8 * bytecount
    ensures q / 8 + (k + 7) / 8 <= bytecount
  {
  }

  /** Mapping rule for ue(v): *value1 = (int)((1u << (len >> 1)) + (unsigned)info - 1). */
  function LinfoUe(len: nat, info: int): int
    requires len / 2 < 32
  {
    ToInt32(ToUint32(Pow2(len / 2) + ToUint32(info) - 1))
  }

  /** Mapping rule for se(v): half of n + 1, negated when n is even. */
  function LinfoSe(len: nat, info: int): int
    requires len / 2 < 32
  {
    var n := ToUint32(Pow2(len / 2) + ToUint32(info) - 1);
    var value1 := ToInt32(ToUint32(n + 1) / 2);
    if n % 2 == 0 then -value1 else value1
  }

  lemma LinfoArithmetic(len: nat, low: nat)
    requires len / 2 < 32 && low < Pow2(len / 2)
    ensures var v := Pow2(len / 2) + low - 1;
            && v < TWO32 - 1
            && LinfoUe(len, ToInt32(low)) == ToInt32(v)
            && LinfoSe(len, ToInt32(low)) == SignedOf(v)
  {
    hide Pow2, ToInt32, ToUint32, SignedOf;
    var m := Pow2(len / 2);
    Pow2Bound(len / 2);
    LinfoSum(m, low);
    Halve(m + low - 1);
  }

  lemma LinfoSum(m: nat, low: nat)
    requires 1 <= m <= TWO31 && low < TWO31
    ensures ToUint32(m + ToUint32(ToInt32(low)) - 1) == m + low - 1
  {
    UnsignedOfSigned(low);
  }

  /** Half of an unsigned value plus one, as an `int`. */
  lemma Halve(n: nat)
    requires n < TWO32 - 1
    ensures var half := ToInt32(ToUint32(n + 1) / 2);
            SignedOf(n) == if n % 2 == 0 then -half else half
  {
    assert ToUint32(n + 1) == n + 1;
    assert (n + 1) / 2 < 0x8000_0000;
    assert ToInt32((n + 1) / 2) == (n + 1) / 2;
  }

  /** Where the code of v stands, the mapping rules applied to what is read give v and its signed value. */
  lemma LinfoDecodes(b: seq<bool>, p: nat, v: nat)
    requires v < TWO32 - 1 && At(b, p, UeBits(v))
    ensures Codeword(b, p) && CodewordLength(b, p) == |UeBits(v)|
    ensures var len := CodewordLength(b, p);
            var info := ToInt32(Value(b[FirstOne(b, p) + 1..p + len]));
            && len / 2 < 32
            && LinfoUe(len, info) == ToInt32(v)
            && LinfoSe(len, info) == SignedOf(v)
  {
    hide Pow2, Value, UeBits, LinfoUe, LinfoSe, ToInt32, FirstOne;
    UeDecodes(b, p, v);
    var q := FirstOne(b, p);
    ValueBound(b[q + 1..q + 1 + (q - p)]);
    LinfoArithmetic(CodewordLength(b, p), Value(b[q + 1..q + 1 + (q - p)]));
  }

  /** The `int` read from a u(n) code stands for its value, and is that value when n < 32. */
  lemma FixedLength(n: nat, v: nat)
    requires n <= 32 && v < Pow2(n)
    ensures Value(UBits(n, v)) == v && ToUint32(ToInt32(v)) == v
    ensures n < 32 ==> ToInt32(v) == v
  {
    ValueOfUBits(n, v);
    Pow2Bound(n);
    UnsignedOfSigned(v);
  }

  // ---------------------------------------------------------------- the bitstream

  class Bitstream {
    var frame_bitoffset: int        // actual position in the buffer, in bits
    var bitstream_length: int       // buffer length, in bytes
    var streamBuffer: array<bv8>
    ghost var ahead: Script         // the syntax elements written from the actual position on

    ghost predicate Shape()
      reads this
    {
      && 0 <= frame_bitoffset
      && 0 <= bitstream_length <= streamBuffer.Length
      && 8 * bitstream_length + 7 < TWO31
    }

    ghost function Content(): (b: seq<bool>)
      requires Shape()
      reads this, streamBuffer
    {
      BufferBits(streamBuffer[..bitstream_length])
    }

    ghost predicate Valid()
      reads this, streamBuffer
    {
      && Shape()
      && ahead.Valid()
      && At(Content(), frame_bitoffset, ahead.Bits())
    }

    /** A stream at the start of a buffer that holds the given elements, as an encoder leaves it. */
    constructor (script: Script)
      requires script.Valid() && |script.Bits()| + 14 < TWO31
      ensures Valid() && frame_bitoffset == 0 && ahead == script
      ensures fresh(streamBuffer)
    {
      hide Script.Bits, BytesOf, BufferBits;
      var bytes := BytesOf(script.Bits());
      frame_bitoffset, bitstream_length, ahead := 0, |bytes|, script;
      streamBuffer := new bv8[|bytes|](i requires 0 <= i < |bytes| => bytes[i]);
      new;
      BytesHold(script.Bits());
      assert streamBuffer[..bitstream_length] == bytes;
    }

    /** A stream at the start of a copy of some bytes, which begin with the given elements. */
    constructor FromBytes(bytes: seq<bv8>, ghost script: Script)
      requires script.Valid() && At(BufferBits(bytes), 0, script.Bits()) && 8 * |bytes| + 7 < TWO31
      ensures Valid() && frame_bitoffset == 0 && ahead == script
      ensures bitstream_length == |bytes| && streamBuffer[..bitstream_length] == bytes
      ensures fresh(streamBuffer)
    {
      hide Script.Bits, BufferBits;
      frame_bitoffset, bitstream_length, ahead := 0, |bytes|, script;
      streamBuffer := new bv8[|bytes|](i requires 0 <= i < |bytes| => bytes[i]);
      new;
      assert streamBuffer[..bitstream_length] == bytes;
    }

    /** Where the elements ahead end. */
    ghost function EndOffset(): int
      reads this
    {
      frame_bitoffset + |ahead.Bits()|
    }

    lemma ContentIsPrefix()
      requires Shape()
      ensures forall i, j :: 0 <= i <= j <= 8 * bitstream_length ==>
                BufferBits(streamBuffer[..])[i..j] == Content()[i..j]
    {
      assert forall i :: 0 <= i < 8 * bitstream_length ==> BufferBits(streamBuffer[..])[i] == Content()[i];
    }

    /**
     * Reads a fixed-length code. The code allows up to seven bits beyond the last byte, so the
     * read must stay inside the buffer. A refused read leaves the position where it was.
     */
    method ReadSyntaxElementFLC(len: int) returns (r: int, inf: int)
      requires Shape() && 0 <= len
      requires frame_bitoffset + len <= 8 * bitstream_length + 7 ==> frame_bitoffset + len <= 8 * streamBuffer.Length
      modifies `frame_bitoffset
      ensures old(frame_bitoffset) + len > 8 * bitstream_length + 7 ==>
                r == -1 && frame_bitoffset == old(frame_bitoffset)
      ensures old(frame_bitoffset) + len <= 8 * bitstream_length + 7 ==>
                && r == 1 && frame_bitoffset == old(frame_bitoffset) + len
                && inf == Info(streamBuffer[..], old(frame_bitoffset), frame_bitoffset)
    {
      var n;
      n, inf := GetBits(streamBuffer, frame_bitoffset, 8 * bitstream_length + 7, len);
      if n < 0 {
        return -1, inf;
      }
      frame_bitoffset := frame_bitoffset + len;
      return 1, inf;
    }

    /** Reads a whole Exp-Golomb codeword; r == 1, len its length and inf its information bits. */
    method ReadSyntaxElementVLC() returns (r: int, len: int, inf: int)
      requires Shape() && Codeword(Content(), frame_bitoffset)
      modifies `frame_bitoffset
      ensures Shape() && r == 1 && len == CodewordLength(old(Content()), old(frame_bitoffset))
      ensures frame_bitoffset == old(frame_bitoffset) + len
      ensures var q := FirstOne(old(Content()), old(frame_bitoffset));
              inf == ToInt32(Value(old(Content())[q + 1..frame_bitoffset]))
    {
      hide FirstOne, Value, ToInt32, BufferBits;
      ghost var p, q := frame_bitoffset, FirstOne(Content(), frame_bitoffset);
      SameFirstOne();
      WholeCodewordPasses(q, q - p, bitstream_length);
      len, inf := GetVLCSymbol(streamBuffer, frame_bitoffset, bitstream_length);
      ContentIsPrefix();
      if len == -1 {
        assert false;
      }
      frame_bitoffset := frame_bitoffset + len;
      return 1, len, inf;
    }

    lemma SameFirstOne()
      requires Shape() && frame_bitoffset < 8 * bitstream_length
      requires FirstOne(Content(), frame_bitoffset) < 8 * bitstream_length
      ensures FirstOne(BufferBits(streamBuffer[..]), frame_bitoffset) == FirstOne(Content(), frame_bitoffset)
    {
      var all := BufferBits(streamBuffer[..]);
      assert forall i :: 0 <= i < 8 * bitstream_length ==> all[i] == Content()[i];
      FirstOneUnique(all, frame_bitoffset, FirstOne(Content(), frame_bitoffset));
    }

    /** The first element of a script stands at the actual position, the others behind it. */
    lemma Peel()
      requires Valid() && ahead.Then?
      ensures At(Content(), frame_bitoffset, ahead.head.Code())
      ensures At(Content(), frame_bitoffset + |ahead.head.Code()|, ahead.tail.Bits())
      ensures |ahead.Bits()| == |ahead.head.Code()| + |ahead.tail.Bits()|
    {
      AtConcat(Content(), frame_bitoffset, ahead.head.Code(), ahead.tail.Bits());
    }

    /** ue_v: reads an unsigned Exp-Golomb coded syntax element. */
    method UeV() returns (r: int)
      requires Valid() && ahead.Then? && ahead.head.UE?
      modifies `frame_bitoffset, `ahead
      ensures Valid() && ahead == old(ahead).tail
      ensures r == ToInt32(old(ahead).head.v) && ToUint32(r) == old(ahead).head.v
      ensures frame_bitoffset == old(frame_bitoffset) + |old(ahead).head.Code()| && EndOffset() == old(EndOffset())
    {
      hide FirstOne, Value, ToInt32, BufferBits, LinfoUe, UeBits, Script.Bits, Pow2;
      Peel();
      LinfoDecodes(Content(), frame_bitoffset, ahead.head.v);
      UnsignedOfSigned(ahead.head.v);
      var status, len, inf := ReadSyntaxElementVLC();
      ahead := ahead.tail;
      r := LinfoUe(len, inf);
    }

    /** se_v: reads a signed Exp-Golomb coded syntax element. */
    method SeV() returns (r: int)
      requires Valid() && ahead.Then? && ahead.head.SE?
      modifies `frame_bitoffset, `ahead
      ensures Valid() && ahead == old(ahead).tail
      ensures r == old(ahead).head.x
      ensures frame_bitoffset == old(frame_bitoffset) + |old(ahead).head.Code()| && EndOffset() == old(EndOffset())
    {
      hide FirstOne, Value, ToInt32, BufferBits, LinfoSe, UeBits, Script.Bits, Pow2;
      Peel();
      SignedBijection(ahead.head.x, CodeNum(ahead.head.x));
      LinfoDecodes(Content(), frame_bitoffset, CodeNum(ahead.head.x));
      var status, len, inf := ReadSyntaxElementVLC();
      ahead := ahead.tail;
      r := LinfoSe(len, inf);
    }

    /** u_v: reads LenInBits bits; the result is the `int` with those low bits. */
    method UV(lenInBits: int) returns (r: int)
      requires Valid() && ahead.Then? && ahead.head.U? && ahead.head.n == lenInBits
      modifies `frame_bitoffset, `ahead
      ensures Valid() && ahead == old(ahead).tail
      ensures r == ToInt32(old(ahead).head.v) && ToUint32(r) == old(ahead).head.v
      ensures lenInBits < 32 ==> r == old(ahead).head.v
      ensures frame_bitoffset == old(frame_bitoffset) + lenInBits && EndOffset() == old(EndOffset())
    {
      hide Value, ToInt32, BufferBits, UBits, Script.Bits, Pow2;
      Peel();
      ContentIsPrefix();
      FixedLength(ahead.head.n, ahead.head.v);
      var status;
      status, r := ReadSyntaxElementFLC(lenInBits);
      ahead := ahead.tail;
    }

    /** u_1, converted to Boolean. */
    method Flag() returns (b: bool)
      requires Valid() && ahead.Then? && ahead.head.U? && ahead.head.n == 1
      modifies `frame_bitoffset, `ahead
      ensures Valid() && ahead == old(ahead).tail
      ensures b == (old(ahead).head.v == 1)
      ensures frame_bitoffset == old(frame_bitoffset) + 1 && EndOffset() == old(EndOffset())
    {
      assert Pow2(1) == 2 * Pow2(0);
      var r := UV(1);
      b := r != 0;
    }

    /** ue_v stored in an `unsigned int`. */
    method UeUnsigned() returns (r: nat)
      requires Valid() && ahead.Then? && ahead.head.UE?
      modifies `frame_bitoffset, `ahead
      ensures Valid() && ahead == old(ahead).tail && EndOffset() == old(EndOffset())
      ensures r == old(ahead).head.v
    {
      var v := UeV();
      r := ToUint32(v);
    }

    /** u_v stored in an `unsigned int`. */
    method UVUnsigned(lenInBits: int) returns (r: nat)
      requires Valid() && ahead.Then? && ahead.head.U? && ahead.head.n == lenInBits
      modifies `frame_bitoffset, `ahead
      ensures Valid() && ahead == old(ahead).tail && EndOffset() == old(EndOffset())
      ensures r == old(ahead).head.v
    {
      var v := UV(lenInBits);
      r := ToUint32(v);
    }

    /** (unsigned short) u_v(16, ...) */
    method UShort() returns (r: nat)
      requires Valid() && ahead.Then? && ahead.head.U? && ahead.head.n == 16
      modifies `frame_bitoffset, `ahead
      ensures Valid() && ahead == old(ahead).tail && EndOffset() == old(EndOffset())
      ensures r == old(ahead).head.v
    {
      Pow2At32();
      var v := UV(16);
      r := v % 0x1_0000;
    }
  }

  // ---------------------------------------------------------------- one Exp-Golomb code after another

  function UeScript(vs: seq<nat>, rest: Script): Script {
    if vs == [] then rest else Then(UE(vs[0]), UeScript(vs[1..], rest))
  }

  lemma {:induction false} UeScriptBits(vs: seq<nat>, rest: Script)
    ensures UeScript(vs, rest).Bits() == UeStream(vs) + rest.Bits()
    ensures UeScript(vs, rest).Valid() ==> rest.Valid() && forall i :: 0 <= i < |vs| ==> vs[i] < TWO32 - 1
  {
    hide UeBits;
    if vs == [] {
      assert UeStream(vs) + rest.Bits() == rest.Bits();
    } else {
      UeScriptBits(vs[1..], rest);
    }
  }

  /** A list of codes, then rest, stands at the position of a stream. */
  lemma CodesStand(s: Bitstream, codes: seq<bool>, rest: Script)
    requires s.Valid() && s.ahead.Bits() == codes + rest.Bits()
    ensures 0 <= s.frame_bitoffset && At(s.Content(), s.frame_bitoffset, codes)
  {
    hide Bitstream.Content, Script.Bits;
    AtConcat(s.Content(), s.frame_bitoffset, codes, rest.Bits());
  }

  /**
   * Calls ue_v n times. Whatever n values are coded from the position on, at any bit offset, exactly
   * they are returned, and the position is behind the last of their codes.
   */
  method RepeatUeV(s: Bitstream, n: nat, ghost vs: seq<nat>, ghost rest: Script) returns (r: seq<int>)
    requires s.Valid() && n == |vs| && s.ahead == UeScript(vs, rest)
    modifies s`frame_bitoffset, s`ahead
    ensures s.Valid() && s.ahead == rest
    ensures |r| == n && forall i :: 0 <= i < n ==> ToUint32(r[i]) == vs[i]
    ensures s.frame_bitoffset == old(s.frame_bitoffset) + |UeStream(vs)|
    ensures old(s.frame_bitoffset) >= 0 && s.Content() == old(s.Content())
    ensures DecodeUe(s.Content(), old(s.frame_bitoffset), n) == (vs, s.frame_bitoffset)
  {
    hide UeStream, ToUint32, Script.Bits, DecodeUe, At, BufferBits;
    UeScriptBits(vs, rest);
    CodesStand(s, UeStream(vs), rest);
    UeStreamDecodes(s.Content(), s.frame_bitoffset, vs);
    r := [];
    while |r| < n
      invariant |r| <= n && forall i :: 0 <= i < |r| ==> ToUint32(r[i]) == vs[i]
      invariant s.Valid() && s.ahead == UeScript(vs[|r|..], rest) && s.EndOffset() == old(s.EndOffset())
    {
      assert vs[|r|..][1..] == vs[|r| + 1..];
      var v := s.UeV();
      r := r + [v];
    }
  }

  function SeScript(xs: seq<int>, rest: Script): Script {
    if xs == [] then rest else Then(SE(xs[0]), SeScript(xs[1..], rest))
  }

  lemma {:induction false} SeScriptBits(xs: seq<int>, rest: Script)
    ensures SeScript(xs, rest).Bits() == SeStream(xs) + rest.Bits()
    ensures SeScript(xs, rest).Valid() ==> rest.Valid() && forall i :: 0 <= i < |xs| ==> CodeNum(xs[i]) < TWO32 - 1
  {
    hide SeBits;
    if xs == [] {
      assert SeStream(xs) + rest.Bits() == rest.Bits();
    } else {
      SeScriptBits(xs[1..], rest);
    }
  }

  /** The same with se_v and signed values. */
  method RepeatSeV(s: Bitstream, n: nat, ghost xs: seq<int>, ghost rest: Script) returns (r: seq<int>)
    requires s.Valid() && n == |xs| && s.ahead == SeScript(xs, rest)
    modifies s`frame_bitoffset, s`ahead
    ensures s.Valid() && s.ahead == rest
    ensures r == xs
    ensures s.frame_bitoffset == old(s.frame_bitoffset) + |SeStream(xs)|
    ensures old(s.frame_bitoffset) >= 0 && s.Content() == old(s.Content())
    ensures DecodeSe(s.Content(), old(s.frame_bitoffset), n) == (xs, s.frame_bitoffset)
  {
    hide SeStream, Script.Bits, DecodeSe, At, BufferBits;
    SeScriptBits(xs, rest);
    CodesStand(s, SeStream(xs), rest);
    SeStreamDecodes(s.Content(), s.frame_bitoffset, xs);
    r := [];
    while |r| < n
      invariant |r| <= n && r == xs[..|r|]
      invariant s.Valid() && s.ahead == SeScript(xs[|r|..], rest) && s.EndOffset() == old(s.EndOffset())
    {
      assert xs[|r|..][1..] == xs[|r| + 1..];
      var x := s.SeV();
      r := r + [x];
    }
  }
}
