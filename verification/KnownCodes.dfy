// Codes written out as numbers, for known answers of the parameter set reader.
module KnownCodes {
  import opened Bits
  import opened BitReader

  /** A bit string as its length and the number it denotes, as long as all of its codes are short. */
  datatype Word = Word(length: nat, number: nat, short: bool)

  /** number followed by n zero bits, for the fixed lengths in use. */
  function Shift(n: nat, number: nat): nat {
    match n
    case 1 => 2 * number
    case 3 => 8 * number
    case 4 => 0x10 * number
    case 5 => 0x20 * number
    case 8 => 0x100 * number
    case 16 => 0x1_0000 * number
    case 32 => 0x1_0000_0000 * number
    case _ => 0
  }

  predicate IsLength(n: nat) {
    n == 1 || n == 3 || n == 4 || n == 5 || n == 8 || n == 16 || n == 32
  }

  /** The word with the Exp-Golomb code of v behind it: v + 1, after as many zeros as it has further digits. */
  function PutUe(w: Word, v: nat): Word {
    if v < 1 then Word(w.length + 1, 2 * w.number + v + 1, w.short)
    else if v < 3 then Word(w.length + 3, 8 * w.number + v + 1, w.short)
    else if v < 7 then Word(w.length + 5, 0x20 * w.number + v + 1, w.short)
    else if v < 15 then Word(w.length + 7, 0x80 * w.number + v + 1, w.short)
    else if v < 31 then Word(w.length + 9, 0x200 * w.number + v + 1, w.short)
    else if v < 63 then Word(w.length + 11, 0x800 * w.number + v + 1, w.short)
    else if v < 127 then Word(w.length + 13, 0x2000 * w.number + v + 1, w.short)
    else Word(0, 0, false)
  }

  function Put(w: Word, e: Element): Word {
    match e
    case U(n, v) => Word(w.length + n, Shift(n, w.number) + v, w.short && IsLength(n) && v < Shift(n, 1))
    case UE(v) => PutUe(w, v)
    case SE(x) => PutUe(w, CodeNum(x))
  }

  function Fold(s: Script, w: Word): Word
    decreases s
  {
    if s.End? then w else Fold(s.tail, Put(w, s.head))
  }

  /** The word that stands for a bit string. */
  function WordOf(bits: seq<bool>): Word {
    Word(|bits|, Value(bits), true)
  }

  lemma ShiftIs(n: nat, number: nat)
    requires IsLength(n)
    ensures Shift(n, number) == number * Pow2(n) && Shift(n, 1) == Pow2(n)
  {
    Lengths();
    hide Pow2;
    match n
    case 1 =>
    case 3 =>
    case 4 =>
    case 5 =>
    case 8 =>
    case 16 =>
    case 32 =>
  }

  lemma Lengths()
    ensures Pow2(1) == 2 && Pow2(3) == 8 && Pow2(4) == 16 && Pow2(5) == 32
    ensures Pow2(8) == 0x100 && Pow2(16) == 0x1_0000 && Pow2(32) == 0x1_0000_0000
  {
    Pow2At32();
  }

  lemma {:induction false} ValueOfZeros(k: nat)
    ensures Value(Zeros(k)) == 0
  {
    if k > 0 {
      ValueOfZeros(k - 1);
      assert Zeros(k)[..k - 1] == Zeros(k - 1);
    }
  }

  lemma ValueOfUe(v: nat)
    ensures Value(UeBits(v)) == v + 1 && |UeBits(v)| == 2 * FloorLog2(v + 1) + 1
  {
    hide Value, FloorLog2, UBits;
    var k := FloorLog2(v + 1);
    ValueOfUBits(k + 1, v + 1);
    ValueOfZeros(k);
    ValueConcat(Zeros(k), UBits(k + 1, v + 1));
  }

  lemma Powers()
    ensures Pow2(0) == 1 && Pow2(1) == 2 && Pow2(2) == 4 && Pow2(3) == 8 && Pow2(4) == 16 && Pow2(5) == 32
    ensures Pow2(6) == 64 && Pow2(7) == 128 && Pow2(9) == 512 && Pow2(11) == 2048 && Pow2(13) == 8192
  {
  }

  lemma PutUeIs(bits: seq<bool>, v: nat)
    requires PutUe(WordOf(bits), v).short
    ensures v < 127 && PutUe(WordOf(bits), v) == WordOf(bits + UeBits(v))
  {
    hide UeBits, Value, FloorLog2, Pow2;
    var k := if v < 1 then 0 else if v < 3 then 1 else if v < 7 then 2 else if v < 15 then 3
             else if v < 31 then 4 else if v < 63 then 5 else 6;
    Powers();
    FloorLog2Unique(v + 1, k);
    ValueOfUe(v);
    ValueConcat(bits, UeBits(v));
  }

  lemma PutIs(bits: seq<bool>, e: Element)
    requires Put(WordOf(bits), e).short
    ensures e.Valid() && Put(WordOf(bits), e) == WordOf(bits + e.Code())
  {
    hide UeBits, Value, PutUe, UBits, Shift, Pow2;
    match e
    case U(n, v) =>
      ShiftIs(n, Value(bits));
      ValueOfUBits(n, v);
      ValueConcat(bits, UBits(n, v));
    case UE(v) => PutUeIs(bits, v);
    case SE(x) => PutUeIs(bits, CodeNum(x));
  }

  lemma {:induction false} NotShort(s: Script, w: Word)
    requires !w.short
    ensures !Fold(s, w).short
    decreases s
  {
    if s.Then? {
      NotShort(s.tail, Put(w, s.head));
    }
  }

  /** The fold is the number that the bits of a script denote. */
  lemma {:induction false} FoldIs(s: Script, bits: seq<bool>)
    requires Fold(s, WordOf(bits)).short
    ensures s.Valid() && Fold(s, WordOf(bits)) == WordOf(bits + s.Bits())
    decreases s
  {
    hide Put, WordOf, Element.Code, Element.Valid;
    if s.End? {
      assert bits + s.Bits() == bits;
    } else {
      if !Put(WordOf(bits), s.head).short {
        NotShort(s.tail, Put(WordOf(bits), s.head));
      }
      PutIs(bits, s.head);
      FoldIs(s.tail, bits + s.head.Code());
      assert bits + s.head.Code() + s.tail.Bits() == bits + s.Bits();
    }
  }

  /** The same for a script that starts a bitstream. */
  lemma FoldGives(s: Script, n: Word)
    requires n == Fold(s, Word(0, 0, true)) && n.short
    ensures s.Valid() && |s.Bits()| == n.length && Value(s.Bits()) == n.number
  {
    hide Fold, Value, Script.Bits, Script.Valid;
    ValueOfEmpty();
    FoldIs(s, []);
    assert [] + s.Bits() == s.Bits();
  }

  lemma FoldEnd(w: Word)
    ensures Fold(End, w) == w
  {
  }

  /** The word behind one element. */
  lemma FoldOne(a: Element, t: Script, w: Word) returns (n: Word)
    ensures n == Put(w, a) && Fold(Then(a, t), w) == Fold(t, n)
  {
    hide Put;
    n := Put(w, a);
  }

  /** The word behind four elements. */
  lemma FoldFour(a: Element, b: Element, c: Element, d: Element, t: Script, w: Word) returns (n: Word)
    ensures n == Put(Put(Put(Put(w, a), b), c), d)
    ensures Fold(Then(a, Then(b, Then(c, Then(d, t)))), w) == Fold(t, n)
  {
    hide Put, Fold;
    n := FoldOne(a, Then(b, Then(c, Then(d, t))), w);
    n := FoldOne(b, Then(c, Then(d, t)), n);
    n := FoldOne(c, Then(d, t), n);
    n := FoldOne(d, t, n);
  }

  // ---------------------------------------------------------------- bytes

  function ByteNumber(b: bv8): nat {
    b as int
  }

  function BitValue(b: bool): nat {
    if b then 1 else 0
  }

  /** A byte is the sum of its bits. */
  lemma ByteIsItsBits(b: bv8)
    ensures ByteNumber(b) == 0x80 * BitValue(BitOf(b, 0)) + 0x40 * BitValue(BitOf(b, 1)) + 0x20 * BitValue(BitOf(b, 2))
                             + 0x10 * BitValue(BitOf(b, 3)) + 8 * BitValue(BitOf(b, 4)) + 4 * BitValue(BitOf(b, 5))
                             + 2 * BitValue(BitOf(b, 6)) + BitValue(BitOf(b, 7))
  {
  }

  lemma ValueOfByte(bits: seq<bool>, b: bv8)
    requires |bits| == 8 && forall k :: 0 <= k < 8 ==> bits[k] == BitOf(b, k)
    ensures Value(bits) == ByteNumber(b)
  {
    hide BitOf, Value, ByteNumber;
    ValueOfEight(bits);
    ByteIsItsBits(b);
  }

  lemma ValueOfEight(b: seq<bool>)
    requires |b| == 8
    ensures Value(b) == 0x80 * BitValue(b[0]) + 0x40 * BitValue(b[1]) + 0x20 * BitValue(b[2]) + 0x10 * BitValue(b[3])
                        + 8 * BitValue(b[4]) + 4 * BitValue(b[5]) + 2 * BitValue(b[6]) + BitValue(b[7])
  {
    hide Value, BitValue;
    var high, low := b[..4], b[4..];
    ValueOfFour(high);
    ValueOfFour(low);
    ValueConcat(high, low);
    assert b == high + low;
    Powers();
  }

  lemma ValueOfFour(b: seq<bool>)
    requires |b| == 4
    ensures Value(b) == 8 * BitValue(b[0]) + 4 * BitValue(b[1]) + 2 * BitValue(b[2]) + BitValue(b[3])
  {
    hide Value;
    var two: seq<bool> := [] + [b[0]] + [b[1]];
    ValueOfEmpty();
    AppendTwo([], b[0], b[1]);
    AppendTwo(two, b[2], b[3]);
    assert b == two + [b[2]] + [b[3]];
  }

  lemma AppendTwo(s: seq<bool>, x: bool, y: bool)
    ensures Value(s + [x] + [y]) == 4 * Value(s) + 2 * BitValue(x) + BitValue(y)
  {
    hide Value;
    ValueAppend(s, x);
    ValueAppend(s + [x], y);
  }

  /** Bytes as one number, the first byte highest. */
  function BytesNumber(bytes: seq<bv8>): nat {
    if bytes == [] then 0 else 0x100 * BytesNumber(bytes[..|bytes| - 1]) + bytes[|bytes| - 1] as int
  }

  lemma {:induction false} ValueOfBytes(bytes: seq<bv8>)
    ensures Value(BufferBits(bytes)) == BytesNumber(bytes)
  {
    hide BitOf, Value;
    if bytes == [] {
      ValueOfEmpty();
    } else {
      var front, last := bytes[..|bytes| - 1], bytes[|bytes| - 1];
      var all, byte := BufferBits(bytes), BufferBits(bytes)[8 * |front|..];
      ValueOfBytes(front);
      forall k | 0 <= k < 8 ensures byte[k] == BitOf(last, k) {
        assert (8 * |front| + k) / 8 == |front| && (8 * |front| + k) % 8 == k;
      }
      ValueOfByte(byte, last);
      assert all[..8 * |front|] == BufferBits(front);
      assert all == BufferBits(front) + byte;
      ValueConcat(BufferBits(front), byte);
      Pow2At32();
    }
  }

  lemma BytesOf1(front: seq<bv8>, b: bv8) returns (all: seq<bv8>)
    ensures all == front + [b] && BytesNumber(all) == 0x100 * BytesNumber(front) + b as int
  {
    all := front + [b];
    assert all[..|front|] == front;
  }

  lemma BytesOf4(front: seq<bv8>, a: bv8, b: bv8, c: bv8, d: bv8) returns (all: seq<bv8>)
    ensures all == front + [a, b, c, d]
    ensures BytesNumber(all) == 0x1_0000_0000 * BytesNumber(front)
                                + 0x100_0000 * (a as int) + 0x1_0000 * (b as int) + 0x100 * (c as int) + d as int
  {
    hide BytesNumber;
    all := BytesOf1(front, a);
    all := BytesOf1(all, b);
    all := BytesOf1(all, c);
    all := BytesOf1(all, d);
  }

  lemma BytesOf8(front: seq<bv8>, a: bv8, b: bv8, c: bv8, d: bv8, e: bv8, f: bv8, g: bv8, h: bv8)
    returns (all: seq<bv8>)
    ensures all == front + [a, b, c, d, e, f, g, h]
    ensures BytesNumber(all)
         == 0x1_0000_0000 * (0x1_0000_0000 * BytesNumber(front)
                             + 0x100_0000 * (a as int) + 0x1_0000 * (b as int) + 0x100 * (c as int) + d as int)
            + 0x100_0000 * (e as int) + 0x1_0000 * (f as int) + 0x100 * (g as int) + h as int
  {
    hide BytesNumber;
    all := BytesOf4(front, a, b, c, d);
    all := BytesOf4(all, e, f, g, h);
  }

  lemma NoBytes()
    ensures BytesNumber([]) == 0
  {
  }

  /** Bits and bytes that denote the same number, up to some bits behind the last one, are the same. */
  lemma SameBits(bits: seq<bool>, bytes: seq<bv8>, spare: nat)
    requires |bits| + spare == 8 * |bytes|
    requires Value(bits) * Pow2(spare) <= BytesNumber(bytes) < (Value(bits) + 1) * Pow2(spare)
    ensures BufferBits(bytes)[..|bits|] == bits
  {
    hide BitOf, Value, UBits, BytesNumber, Pow2;
    var all := BufferBits(bytes);
    var front, back := all[..|bits|], all[|bits|..];
    assert all == front + back;
    ValueOfBytes(bytes);
    ValueConcat(front, back);
    ValueBound(back);
    SameQuotient(Value(front), Value(bits), Pow2(spare), Value(back));
    UBitsOfValue(front);
    UBitsOfValue(bits);
  }

  lemma SameQuotient(x: nat, y: nat, p: nat, r: nat)
    requires r < p && y * p <= x * p + r < (y + 1) * p
    ensures x == y
  {
    Multiples(x, y, p);
    Multiples(y, x, p);
  }

  lemma Multiples(x: nat, y: nat, p: nat)
    ensures x < y ==> x * p + p <= y * p
  {
    if x < y {
      var d: nat := y - x - 1;
      assert y == x + 1 + d && d * p >= 0;
      assert (x + 1 + d) * p == x * p + p + d * p;
    }
  }
}
