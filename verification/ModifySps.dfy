// ModifySPS of common/jmdec.cpp and the bit writer of common/zbitop.h it uses.
module SpsPatch {
  import opened Bits
  import opened BitReader
  import opened ScalingLists
  import opened VuiSyntax
  import opened SpsSyntax
  import opened SpsReader

  // ---------------------------------------------------------------- ZBit::VarToPoint for one bit

  /** `x << n`, spelled out for the eight possible amounts. */
  function ShiftLeft(x: bv8, n: nat): bv8
    requires n < 8
  {
    match n
    case 0 => x
    case 1 => x << 1
    case 2 => x << 2
    case 3 => x << 3
    case 4 => x << 4
    case 5 => x << 5
    case 6 => x << 6
    case _ => x << 7
  }

  /**
   * ZBit::CopyVarBits: the count low bits of src go to dest, the first of them to bit d, counting from the
   * least significant bit. Where the source shifts -1 by a negative amount, which C++ leaves undefined,
   * the mask is that of every shift of -1 that yields -1.
   */
  function CopyVarBits(src: bv8, dest: bv8, d: nat, count: nat): bv8
    requires 0 < count <= d + 1 <= 8
  {
    var mask := ShiftRight(ShiftLeft(0xFF, 8 - count), 7 - d);
    (dest & !mask) | (ShiftLeft(src, d - (count - 1)) & mask)
  }

  lemma CopyOneBitSets(dest: bv8, d: nat, k: nat)
    requires d < 8 && k < 8
    ensures BitOf(CopyVarBits(1, dest, d, 1), k) == (k == 7 - d || BitOf(dest, k))
  {
    if d < 4 {
      if d < 2 {
      } else {}
    } else if d < 6 {
    } else {}
  }

  lemma CopyZerosClears(dest: bv8, count: nat, k: nat)
    requires 0 < count <= 8 && k < 8
    ensures BitOf(CopyVarBits(0, dest, 7, count), k) == (k >= count && BitOf(dest, k))
  {
    if count < 4 {
      if count < 2 {
      } else {}
    } else if count < 6 {
    } else {}
  }

  /** The value of x after conversion to `short`, the element type of a bit pattern. */
  function ToInt16(x: int): (r: int)
    ensures -0x8000 <= r < 0x8000
  {
    var m := x % 0x1_0000;
    if m < 0x8000 then m else m - 0x1_0000
  }

  /** A skip of n bits survives the conversion exactly when n is at most 2^15. */
  lemma SkipFits(n: int)
    requires 0 <= n
    ensures ToInt16(-n) == -n <==> n <= 0x8000
  {
    if 0 < n <= 0x8000 {
      assert (-n) % 0x1_0000 == 0x1_0000 - n;
    }
  }

  // ---------------------------------------------------------------- the macro for every entry

  /** The bits after a write, unless it has no defined outcome. */
  datatype Outcome = Undefined | Bits(bits: seq<bool>)

  /** The largest number of bits a value of 32 bits is shifted by for a pattern of entry and 1. */
  predicate ShiftsTooFar(entry: int) {
    entry + 1 - (if entry < 8 then entry else 8) >= 32
  }

  /**
   * ZBIT_VAR_TO_POINT(1, dest, entry, 1), by the first entry of the pattern: a negative one skips bits; zero
   * ends the pattern before anything is written; a positive one asks for that many leading bits of the
   * value, which are zeros, and the one behind them.
   */
  function AfterMacro(bits: seq<bool>, entry: int): Outcome
    requires -|bits| < entry < |bits|
  {
    if entry < 0 then Bits(bits[-entry := true])
    else if entry == 0 then Bits(bits)
    else if ShiftsTooFar(entry) then Undefined
    else Bits(Zeros(entry) + [true] + bits[entry + 1..])
  }

  /** The macro as ModifySPS calls it, when n bits come before the one to be set. */
  function AfterPatch(bits: seq<bool>, n: int): Outcome
    requires 0 <= n < |bits|
  {
    EntryInside(n);
    AfterMacro(bits, ToInt16(-n))
  }

  lemma EntryInside(n: int)
    requires 0 <= n
    ensures -n <= ToInt16(-n) && (ToInt16(-n) <= 0 || ToInt16(-n) < n)
  {
    var q := n / 0x1_0000;
    assert (-n) % 0x1_0000 == if n % 0x1_0000 == 0 then 0 else 0x1_0000 - n % 0x1_0000;
  }

  /** The bit behind the first n is set, and no other bit changes, exactly when n is from 1 to 2^15. */
  lemma PatchRightIff(bits: seq<bool>, n: int)
    requires 0 <= n < |bits| && !bits[n]
    ensures AfterPatch(bits, n) == Bits(bits[n := true]) <==> 0 < n <= 0x8000
  {
    SkipFits(n);
    EntryInside(n);
    var e := ToInt16(-n);
    assert bits[n := true][n];
    if e > 0 && !ShiftsTooFar(e) {
      assert AfterPatch(bits, n).bits[n] == bits[n];
    }
  }

  /** One bit too far, and the outcome is undefined; a little further, and the start of the buffer is overwritten. */
  lemma PatchFails(bits: seq<bool>)
    requires |bits| > 0x1_0000
    ensures AfterPatch(bits, 0x8001).Undefined?
    ensures AfterPatch(bits, 0xffff) == Bits([false, true] + bits[2..])
    ensures AfterPatch(bits, 0x1_0000) == Bits(bits)
  {
    assert ToInt16(-0x8001) == 0x7fff && ToInt16(-0xffff) == 1 && ToInt16(-0x1_0000) == 0;
    assert Zeros(1) == [false];
  }

  /** Which bit counts below 2^16 leave the outcome undefined. */
  lemma UndefinedIff(bits: seq<bool>, n: int)
    requires 0 <= n < |bits| && n < 0x1_0000
    ensures AfterPatch(bits, n).Undefined? <==> 0x8000 < n <= 0xffd9
  {
    EntryInside(n);
    if 0 < n {
      assert (-n) % 0x1_0000 == 0x1_0000 - n;
    }
  }

  /** ZBIT_VAR_TO_POINT(1, dest, entry, 1); false when the outcome is undefined, before anything is written. */
  method VarToPoint(dest: array<bv8>, entry: int) returns (defined: bool)
    requires -8 * dest.Length < entry < 8 * dest.Length
    modifies dest
    ensures var was := AfterMacro(old(BufferBits(dest[..])), entry);
            if was.Undefined? then !defined else defined && BufferBits(dest[..]) == was.bits
  {
    hide BufferBits, Cleared;
    if entry == 0 {
      return true;
    }
    if entry < 0 {
      SetBitAfter(dest, -entry);
      return true;
    }
    if ShiftsTooFar(entry) {
      return false;
    }
    ClearedThenSet(BufferBits(dest[..]), entry);
    ClearBits(dest, entry);
    SetBitAfter(dest, entry);
    return true;
  }

  /** Copies n zero bits to the start of the buffer, as many at a time as fit in a byte. */
  method ClearBits(dest: array<bv8>, n: nat)
    requires n < 8 * dest.Length
    modifies dest
    ensures BufferBits(dest[..]) == Cleared(old(BufferBits(dest[..])), n)
  {
    hide BufferBits, Cleared, CopyVarBits;
    var copyBitCount, destBytePos := n, 0;
    ghost var bits := BufferBits(dest[..]);
    NothingCleared(bits);
    while copyBitCount != 0
      invariant 0 <= copyBitCount <= n
      invariant copyBitCount != 0 ==> 8 * destBytePos == n - copyBitCount
      invariant BufferBits(dest[..]) == Cleared(bits, n - copyBitCount)
    {
      var count := if copyBitCount >= 8 then 8 else copyBitCount;
      ClearStep(dest[..], bits, destBytePos, count);
      dest[destBytePos] := CopyVarBits(0, dest[destBytePos], 7, count);
      copyBitCount := copyBitCount - count;
      destBytePos := destBytePos + 1;
    }
  }

  /** One turn of the loop: the first count bits of byte b, which all before it are cleared already. */
  lemma ClearStep(was: seq<bv8>, bits: seq<bool>, b: nat, count: nat)
    requires b < |was| && 0 < count <= 8 && 8 * b + count <= |bits| == 8 * |was|
    requires BufferBits(was) == Cleared(bits, 8 * b)
    ensures BufferBits(was[b := CopyVarBits(0, was[b], 7, count)]) == Cleared(bits, 8 * b + count)
  {
    hide BufferBits, Cleared, CopyVarBits;
    BufferAfterClear(was, was[b := CopyVarBits(0, was[b], 7, count)], b, count);
    ClearedMore(bits, 8 * b, count);
  }

  /** With the bit behind them set, that is what the macro leaves for a positive entry. */
  lemma ClearedThenSet(bits: seq<bool>, n: nat)
    requires n < |bits|
    ensures Cleared(bits, n)[n := true] == Zeros(n) + [true] + bits[n + 1..]
  {
  }

  /** The bits with the first n of them zero. */
  function Cleared(bits: seq<bool>, n: nat): seq<bool>
    requires n <= |bits|
  {
    Zeros(n) + bits[n..]
  }

  lemma NothingCleared(bits: seq<bool>)
    ensures Cleared(bits, 0) == bits
  {
  }

  lemma ClearedMore(bits: seq<bool>, n: nat, count: nat)
    requires n + count <= |bits|
    ensures var was := Cleared(bits, n); was[..n] + Zeros(count) + was[n + count..] == Cleared(bits, n + count)
  {
  }

  lemma BufferAfterClear(was: seq<bv8>, now: seq<bv8>, b: nat, count: nat)
    requires b < |was| && 0 < count <= 8 && now == was[b := CopyVarBits(0, was[b], 7, count)]
    ensures BufferBits(now) == BufferBits(was)[..8 * b] + Zeros(count) + BufferBits(was)[8 * b + count..]
  {
    hide BitOf, CopyVarBits;
    forall i | 0 <= i < 8 * |was|
      ensures BufferBits(now)[i] == if 8 * b <= i < 8 * b + count then false else BufferBits(was)[i]
    {
      if i / 8 == b {
        CopyZerosClears(was[b], count, i % 8);
        assert i == 8 * b + i % 8;
      }
    }
  }

  /** Sets the bit behind the first n. */
  method SetBitAfter(dest: array<bv8>, n: nat)
    requires n < 8 * dest.Length
    modifies dest
    ensures BufferBits(dest[..]) == old(BufferBits(dest[..]))[n := true]
  {
    var destBytePos, destBitPos := n / 8, n % 8;
    dest[destBytePos] := CopyVarBits(1, dest[destBytePos], 7 - destBitPos, 1);
    BufferAfterSet(old(dest[..]), dest[..], n);
  }

  lemma BufferAfterSet(was: seq<bv8>, now: seq<bv8>, n: nat)
    requires |was| == |now| && n < 8 * |was|
    requires now == was[n / 8 := CopyVarBits(1, was[n / 8], 7 - n % 8, 1)]
    ensures BufferBits(now) == BufferBits(was)[n := true]
  {
    hide BitOf, CopyVarBits;
    forall i | 0 <= i < 8 * |was|
      ensures BufferBits(now)[i] == BufferBits(was)[n := true][i]
    {
      if i / 8 == n / 8 {
        CopyOneBitSets(was[n / 8], 7 - n % 8, i % 8);
        assert i == 8 * (i / 8) + i % 8 && n == 8 * (n / 8) + n % 8;
      }
    }
  }

  // ---------------------------------------------------------------- the flag is near the start

  lemma Longer(s: Script)
    requires s.Then?
    ensures |s.Bits()| == |s.head.Code()| + |s.tail.Bits()|
  {
  }

  /** The first element of a script takes at most 63 bits. */
  lemma OneMore(s: Script)
    requires s.Then? && s.Valid()
    ensures s.tail.Valid()
    ensures |s.Bits()| <= (if s.head.U? then s.head.n else 63) + |s.tail.Bits()|
  {
    hide Script.Bits, FloorLog2, UBits;
    Longer(s);
    match s.head
    case U(n, v) =>
    case UE(v) => LogBelow32(v);
    case SE(x) => LogBelow32(CodeNum(x));
  }

  /** A delta_scale takes at most 17 bits. */
  lemma DeltaLength(last: int, next: int)
    ensures |SE(Delta(last, next)).Code()| <= 17
  {
    var k := FloorLog2(CodeNum(Delta(last, next)) + 1);
    assert CodeNum(Delta(last, next)) + 1 <= 257;
    if k > 8 {
      Pow2Monotone(9, k);
      Pow2At32();
    }
  }

  lemma {:induction false} ListLength(l: seq<int>, stop: nat, j: nat, rest: Script)
    requires Codable(l, stop) && j <= stop
    ensures |ListScript(l, stop, j, rest).Bits()| <= 17 * (|l| - j) + |rest.Bits()|
    decreases stop - j
  {
    hide *;
    ListShape(l, stop, j, rest);
    var s := ListScript(l, stop, j, rest);
    if j < stop {
      Longer(s);
      ListLength(l, stop, j + 1, rest);
    } else if stop < |l| {
      Longer(s);
    }
  }

  /** The first delta of a list and what follows it. */
  lemma ListShape(l: seq<int>, stop: nat, j: nat, rest: Script)
    requires Codable(l, stop) && j <= stop
    ensures stop <= |l|
    ensures var s := ListScript(l, stop, j, rest);
            && (j == stop == |l| ==> s == rest)
            && (j < |l| ==> s.Then? && |s.head.Code()| <= 17
                            && s.tail == if j < stop then ListScript(l, stop, j + 1, rest) else rest)
  {
    hide Delta, Last, Element.Code, Scan;
    if j < stop {
      DeltaLength(Last(l, j), l[Scan(|l|, j)]);
    } else if stop < |l| {
      DeltaLength(Last(l, stop), 0);
    }
  }

  /** Twelve lists take at most a flag and 64 scales each. */
  lemma {:induction false} ListsLength(f: Fidelity, c: Coding, i: nat, rest: Script)
    requires FidelityShape(f, c) && i <= CodedLists(f) <= 12
    requires forall k :: 0 <= k < 12 ==> ListWellFormed(f, c, k)
    ensures |ListsScript(f, c, i, rest).Bits()| <= 1089 * (12 - i) + |rest.Bits()|
    decreases CodedLists(f) - i
  {
    hide Codable, ListScript, Script.Bits;
    if i < CodedLists(f) {
      ListsLength(f, c, i + 1, rest);
      assert ListWellFormed(f, c, i);
      Longer(ListsScript(f, c, i, rest));
      if f.seq_scaling_list_present_flag[i] == 1 {
        ListLength(ListAt(f, i), c.stops[i], 0, ListsScript(f, c, i + 1, rest));
      }
    }
  }

  lemma FidelityLength(high: bool, f: Fidelity, c: Coding, rest: Script)
    requires FidelityWellFormed(high, f, c) && FidelityScript(high, f, c, rest).Valid()
    ensures |FidelityScript(high, f, c, rest).Bits()| <= 192 + 1089 * 12 + |rest.Bits()|
    ensures rest.Valid()
  {
    hide ListsScript, ListWellFormed, Element.Code, Element.Valid, Script.Bits;
    ListsLength(f, c, 0, rest);
    if high {
      var start, deep := FidelityScript(high, f, c, rest), DepthScript(f, c, rest);
      OneMore(start);
      if f.chroma_format_idc == YUV444 {
        OneMore(start.tail);
      }
      OneMore(deep);
      OneMore(deep.tail);
      OneMore(deep.tail.tail);
      OneMore(deep.tail.tail.tail);
      ListsValid(f, c, 0, rest);
    }
  }

  lemma {:induction false} ListValid(l: seq<int>, stop: nat, j: nat, rest: Script)
    requires Codable(l, stop) && j <= stop && ListScript(l, stop, j, rest).Valid()
    ensures rest.Valid()
    decreases stop - j
  {
    hide Codable, Delta, Last;
    if j < stop {
      ListValid(l, stop, j + 1, rest);
    }
  }

  lemma {:induction false} ListsValid(f: Fidelity, c: Coding, i: nat, rest: Script)
    requires FidelityShape(f, c) && i <= CodedLists(f) <= 12
    requires forall k :: 0 <= k < 12 ==> ListWellFormed(f, c, k)
    requires ListsScript(f, c, i, rest).Valid()
    ensures rest.Valid()
    decreases CodedLists(f) - i
  {
    hide Codable, ListScript;
    if i < CodedLists(f) {
      assert ListWellFormed(f, c, i);
      if f.seq_scaling_list_present_flag[i] == 1 {
        ListValid(ListAt(f, i), c.stops[i], 0, ListsScript(f, c, i + 1, rest));
      }
      ListsValid(f, c, i + 1, rest);
    }
  }

  lemma {:induction false} OffsetsLength(o: PicOrder, i: nat, rest: Script)
    requires OrderWellFormed(o) && i <= o.num_ref_frames_in_pic_order_cnt_cycle
    requires OffsetsScript(o, i, rest).Valid()
    ensures rest.Valid()
    ensures |OffsetsScript(o, i, rest).Bits()| <= 63 * (256 - i) + |rest.Bits()|
    decreases o.num_ref_frames_in_pic_order_cnt_cycle - i
  {
    hide Element.Code, Element.Valid, Script.Bits;
    if i < o.num_ref_frames_in_pic_order_cnt_cycle {
      OneMore(OffsetsScript(o, i, rest));
      OffsetsLength(o, i + 1, rest);
    }
  }

  lemma OrderLength(o: PicOrder, rest: Script)
    requires OrderWellFormed(o) && OrderScript(o, rest).Valid()
    ensures rest.Valid()
    ensures |OrderScript(o, rest).Bits()| <= 126 + 190 + 63 * 256 + |rest.Bits()|
  {
    hide Element.Code, Element.Valid, Script.Bits, OffsetsScript, OrderWellFormed;
    var s := OrderScript(o, rest);
    OneMore(s);
    OneMore(s.tail);
    if o.pic_order_cnt_type == 0 {
      OneMore(s.tail.tail);
    } else if o.pic_order_cnt_type == 1 {
      var cycle := CycleScript(o, rest);
      OneMore(cycle);
      OneMore(cycle.tail);
      OneMore(cycle.tail.tail);
      OneMore(cycle.tail.tail.tail);
      OffsetsLength(o, 0, rest);
    }
  }

  lemma LevelLength(v: Sps, c: Coding, rest: Script)
    requires ConstraintScript(v, LevelScript(v, c, rest)).Valid()
    ensures rest.Valid()
    ensures |ConstraintScript(v, LevelScript(v, c, rest)).Bits()| <= 79 + |rest.Bits()|
  {
    hide Element.Code, Element.Valid, Script.Bits;
    var s, t := ConstraintScript(v, LevelScript(v, c, rest)), LevelScript(v, c, rest);
    OneMore(s);
    OneMore(s.tail);
    OneMore(s.tail.tail);
    OneMore(s.tail.tail.tail);
    OneMore(t);
    OneMore(t.tail);
    OneMore(t.tail.tail);
  }

  /** The most bits that can come before num_ref_frames. */
  const HEAD_BOUND: nat := 8 + 79 + 192 + 13068 + 16444

  /** Whatever a well-formed parameter set contains, num_ref_frames starts within its first HEAD_BOUND bits. */
  lemma HeadLength(v: Sps, c: Coding, rest: Script)
    requires WellFormed(v, c) && HeadScript(v, c, rest).Valid()
    ensures rest.Valid()
    ensures |HeadScript(v, c, rest).Bits()| <= HEAD_BOUND + |rest.Bits()|
  {
    hide FidelityScript, OrderScript, ConstraintScript, LevelScript, FidelityWellFormed, OrderWellFormed, Vui.WellFormed;
    hide Element.Code, Element.Valid, Script.Bits;
    var order := OrderScript(v.order, rest);
    var fidelity := FidelityScript(HighProfile(v.profile_idc), v.fidelity, c, order);
    OneMore(HeadScript(v, c, rest));
    LevelLength(v, c, fidelity);
    FidelityLength(HighProfile(v.profile_idc), v.fidelity, c, order);
    OrderLength(v.order, rest);
  }

  // ---------------------------------------------------------------- setting one flag in a coded parameter set

  /** Replacing one bit of a stream replaces that bit of the code it belongs to. */
  lemma PatchedCode(b: seq<bool>, p: int, h: seq<bool>, g: bool, t: seq<bool>)
    requires At(b, p, h + ([g] + t))
    ensures var n := p + |h|;
            && n < |b|
            && At(b[n := true], p, h + ([true] + t))
            && At(b[n := true], n, [true] + t)
            && At(b[n := true], n + 1, t)
  {
    var n := p + |h|;
    var b' := b[n := true];
    AtConcat(b, p, h, [g] + t);
    AtConcat(b, n, [g], t);
    assert b'[n + 1..n + 1 + |t|] == b[n + 1..n + 1 + |t|];
    assert b'[n..n + 1] == [true];
    assert b'[p..n] == b[p..n];
    AtConcat(b', n, [true], t);
    AtConcat(b', p, h, [true] + t);
  }

  lemma FlagCode(b: bool)
    ensures FlagOf(b).Code() == [b]
    ensures FlagOf(b).Valid()
  {
    assert UBits(0, 0) == [];
    assert Pow2(1) == 2 * Pow2(0);
  }

  lemma FlagThen(b: bool, t: Script)
    ensures Then(FlagOf(b), t).Bits() == [b] + t.Bits()
    ensures Then(FlagOf(b), t).Valid() <==> t.Valid()
  {
    hide Element.Code, Element.Valid, FlagOf;
    FlagCode(b);
  }

  /** The same parameter set with gaps_in_frame_num_value_allowed_flag set. */
  function WithGaps(v: Sps): Sps {
    v.(gaps_in_frame_num_value_allowed_flag := true)
  }

  /** The code of v, then rest, stands in b at p. */
  ghost predicate Coded(b: seq<bool>, p: int, v: Sps, c: Coding, rest: Script) {
    WellFormed(v, c) && SpsScript(v, c, rest).Valid() && At(b, p, SpsScript(v, c, rest).Bits())
  }

  ghost predicate CodedIn(s: Bitstream, p: int, v: Sps, c: Coding, rest: Script)
    reads s, s.streamBuffer
  {
    s.Shape() && Coded(s.Content(), p, v, c, rest)
  }

  /** What comes from gaps_in_frame_num_value_allowed_flag on, when it has the value g. */
  ghost function FromFlag(g: bool, v: Sps, rest: Script): Script {
    if v.vui.WellFormed() then Then(FlagOf(g), TailScript(v, rest)) else End
  }

  /** The bits before gaps_in_frame_num_value_allowed_flag. */
  ghost function UpToFlag(v: Sps, c: Coding): seq<bool> {
    if WellFormed(v, c) then HeadScript(v, c, End).Bits() + UeBits(v.num_ref_frames) else []
  }

  /** The bits with bit n set. */
  function WithBit(bits: seq<bool>, n: int): seq<bool> {
    if 0 <= n < |bits| then bits[n := true] else bits
  }

  /** Where the flag stands when v is coded at position p. */
  ghost function FlagAt(p: int, v: Sps, c: Coding): (n: int)
    ensures n >= p
  {
    p + |UpToFlag(v, c)|
  }

  /** At most 2^15 bits come before the flag. */
  ghost predicate InReach(p: int, v: Sps, c: Coding) {
    FlagAt(p, v, c) <= 0x8000
  }

  lemma SpsShape(v: Sps, c: Coding, rest: Script)
    requires WellFormed(v, c)
    ensures SpsScript(v, c, rest)
         == HeadScript(v, c, Then(UE(v.num_ref_frames), FromFlag(v.gaps_in_frame_num_value_allowed_flag, v, rest)))
  {
    hide HeadScript, TailScript, FlagOf, FidelityWellFormed, OrderWellFormed, Vui.WellFormed, GeometryWellFormed;
  }

  /** The code of a parameter set: up to the flag, then the flag and the rest. */
  lemma SpsBits(v: Sps, c: Coding, rest: Script)
    requires WellFormed(v, c)
    ensures SpsScript(v, c, rest).Bits()
         == UpToFlag(v, c) + FromFlag(v.gaps_in_frame_num_value_allowed_flag, v, rest).Bits()
    ensures SpsScript(v, c, rest).Valid() <==>
              && HeadScript(v, c, End).Valid() && UE(v.num_ref_frames).Valid()
              && FromFlag(v.gaps_in_frame_num_value_allowed_flag, v, rest).Valid()
  {
    var fromFlag := FromFlag(v.gaps_in_frame_num_value_allowed_flag, v, rest);
    var next := Then(UE(v.num_ref_frames), fromFlag);
    SpsShape(v, c, rest);
    hide FromFlag, SpsScript, HeadScript, UeBits, WellFormed;
    HeadAppends(v, c, next);
    HeadScript(v, c, End).AppendBits(next);
    assert next.Bits() == UeBits(v.num_ref_frames) + fromFlag.Bits();
    hide Script.Bits, Script.Valid, Element.Code;
    Associative(HeadScript(v, c, End).Bits(), UeBits(v.num_ref_frames), fromFlag.Bits());
  }

  lemma Associative(a: seq<bool>, b: seq<bool>, c: seq<bool>)
    ensures a + (b + c) == (a + b) + c
  {
  }

  lemma SameAround(v: Sps, c: Coding, rest: Script)
    requires WellFormed(v, c)
    ensures WellFormed(WithGaps(v), c) && UpToFlag(WithGaps(v), c) == UpToFlag(v, c)
    ensures HeadScript(WithGaps(v), c, End) == HeadScript(v, c, End)
    ensures FromFlag(true, WithGaps(v), rest) == FromFlag(true, v, rest)
  {
    hide FidelityScript, OrderScript, FidelityWellFormed, OrderWellFormed, Vui.WellFormed, VuiScript, SizeScript;
    hide Script.Bits, UeBits;
  }

  lemma FromFlagBits(g: bool, v: Sps, rest: Script)
    requires v.vui.WellFormed()
    ensures FromFlag(g, v, rest).Then? && FromFlag(g, v, rest).head == FlagOf(g)
    ensures FromFlag(g, v, rest).Bits() == [g] + TailScript(v, rest).Bits()
    ensures FromFlag(g, v, rest).tail == TailScript(v, rest)
    ensures FromFlag(g, v, rest).Valid() <==> TailScript(v, rest).Valid()
  {
    FlagThen(g, TailScript(v, rest));
  }

  /** Setting the bit behind num_ref_frames turns the code of v into the code of WithGaps(v). */
  lemma PatchedSps(b: seq<bool>, p: int, v: Sps, c: Coding, rest: Script)
    requires Coded(b, p, v, c, rest)
    ensures var n := p + |UpToFlag(v, c)|;
            && n < |b|
            && Coded(b[n := true], p, WithGaps(v), c, rest)
            && At(b[n := true], n, FromFlag(true, v, rest).Bits())
            && |FromFlag(true, v, rest).Bits()| == |FromFlag(v.gaps_in_frame_num_value_allowed_flag, v, rest).Bits()|
  {
    hide *;
    CodedIs(b, p, v, c, rest);
    VuiOf(v, c);
    var g, h, t := v.gaps_in_frame_num_value_allowed_flag, UpToFlag(v, c), TailScript(v, rest).Bits();
    SameAround(v, c, rest);
    FromFlagBits(g, v, rest);
    FromFlagBits(true, v, rest);
    SpsBits(v, c, rest);
    SpsBits(WithGaps(v), c, rest);
    GapsAreSet(v);
    PatchedParts(b, p, h, g, t, FromFlag(g, v, rest).Bits(), FromFlag(true, v, rest).Bits());
    CodedIs(b[p + |h| := true], p, WithGaps(v), c, rest);
  }

  lemma CodedIs(b: seq<bool>, p: int, v: Sps, c: Coding, rest: Script)
    ensures Coded(b, p, v, c, rest) <==>
              WellFormed(v, c) && SpsScript(v, c, rest).Valid() && At(b, p, SpsScript(v, c, rest).Bits())
  {
    hide WellFormed, SpsScript, At, Script.Bits, Script.Valid;
  }

  lemma GapsAreSet(v: Sps)
    ensures WithGaps(v).gaps_in_frame_num_value_allowed_flag && WithGaps(v).num_ref_frames == v.num_ref_frames
  {
  }

  lemma PatchedParts(b: seq<bool>, p: int, h: seq<bool>, g: bool, t: seq<bool>, was: seq<bool>, now: seq<bool>)
    requires was == [g] + t && now == [true] + t && At(b, p, h + was)
    ensures |was| == |now| && p + |h| < |b|
    ensures At(b[p + |h| := true], p, h + now) && At(b[p + |h| := true], p + |h|, now)
  {
    PatchedCode(b, p, h, g, t);
  }

  /**
   * ModifySPS follows InterpretSPS up to num_ref_frames, sets the next bit and reads it back. The
   * buffer then holds, at the same position, the code of the old parameter set with only
   * gaps_in_frame_num_value_allowed_flag set; no other bit of the buffer has changed. The flag
   * must be among the first 2^15 + 1 bits of the buffer, so that the skip fits a `short`.
   */
  method ModifySPS(s: Bitstream, sps: SeqParameterSet, ghost v: Sps, ghost c: Coding, ghost rest: Script)
    returns (r: int)
    requires s.Valid() && Presents(s.ahead, v, c, rest)
    requires KnownProfile(s.ahead.head.v) ==> InReach(s.frame_bitoffset, v, c)
    requires sps.Shape() && sps.FidelityContents() == ZeroFidelity() && sps.OrderContents() == ZeroOrder()
    modifies sps, sps.ScalingList4x4, sps.ScalingList8x8, s.streamBuffer, s`frame_bitoffset, s`ahead
    ensures s.Valid() && r == if KnownProfile(old(s.ahead).head.v) then 0 else -1
    ensures r == -1 ==> s.streamBuffer[..] == old(s.streamBuffer[..])
    ensures r == 0 ==>
              && HeadIs(sps, v) && sps.num_ref_frames == v.num_ref_frames
              && sps.gaps_in_frame_num_value_allowed_flag
    ensures r == 0 ==>
              var n := FlagAt(old(s.frame_bitoffset), v, c);
              && s.frame_bitoffset == n + 1 && n < 8 * s.streamBuffer.Length
              && BufferBits(s.streamBuffer[..]) == WithBit(old(BufferBits(s.streamBuffer[..])), n)
    ensures r == 0 ==> CodedIn(s, old(s.frame_bitoffset), WithGaps(v), c, rest)
  {
    hide UpToFlag, FromFlag, Script.Bits, HeadIs, Bitstream.Valid, ZeroFidelity, ZeroOrder, BufferBits, Coded, Vui.WellFormed;
    hide SeqParameterSet.Shape, SeqParameterSet.FidelityContents, SeqParameterSet.OrderContents, SpsScript, HeadScript;
    hide FidelityWellFormed, OrderWellFormed, GeometryWellFormed;
    ghost var p := s.frame_bitoffset;
    ghost var fromFlag := FromFlag(v.gaps_in_frame_num_value_allowed_flag, v, rest);
    if KnownProfile(s.ahead.head.v) {
      StartsCoded(s, v, c, rest);
    }
    r := ReadHead(s, sps, v, c, Then(UE(v.num_ref_frames), fromFlag));
    if r == -1 {
      return -1;
    }
    sps.num_ref_frames := s.UeUnsigned();
    var tmp := s.frame_bitoffset;
    FlagPosition(p, tmp, v, c, rest);
    PatchFlag(s, tmp, p, v, c, rest);
    sps.gaps_in_frame_num_value_allowed_flag := s.Flag();
    return 0;
  }

  lemma StartsCoded(s: Bitstream, v: Sps, c: Coding, rest: Script)
    requires WellFormed(v, c) && s.Valid() && s.ahead == SpsScript(v, c, rest)
    ensures 0 <= s.frame_bitoffset && Coded(s.Content(), s.frame_bitoffset, v, c, rest)
    ensures SpsScript(v, c, rest).Valid()
    ensures s.ahead
         == HeadScript(v, c, Then(UE(v.num_ref_frames), FromFlag(v.gaps_in_frame_num_value_allowed_flag, v, rest)))
  {
    hide WellFormed, SpsScript, HeadScript, FromFlag;
    SpsShape(v, c, rest);
  }

  lemma FlagPosition(p: int, tmp: int, v: Sps, c: Coding, rest: Script)
    requires WellFormed(v, c) && SpsScript(v, c, rest).Valid()
    requires tmp + |FromFlag(v.gaps_in_frame_num_value_allowed_flag, v, rest).Bits()| == p + |SpsScript(v, c, rest).Bits()|
    ensures tmp == p + |UpToFlag(v, c)|
    ensures p < tmp <= p + HEAD_BOUND + 63
  {
    hide FromFlag, HeadScript, SpsScript, Script.Bits, Element.Valid, UeBits;
    hide FidelityWellFormed, OrderWellFormed, Vui.WellFormed, GeometryWellFormed;
    var next := Then(UE(v.num_ref_frames), FromFlag(v.gaps_in_frame_num_value_allowed_flag, v, rest));
    SpsShape(v, c, rest);
    SpsBits(v, c, rest);
    HeadLength(v, c, next);
    OneMore(next);
    HeadNotEmpty(v, c);
  }

  /** Whatever a parameter set contains, its flag can be reached from the start of a buffer. */
  lemma FlagInReach(v: Sps, c: Coding)
    requires WellFormed(v, c) && SpsScript(v, c, End).Valid()
    ensures forall p :: p + HEAD_BOUND + 63 <= 0x8000 ==> InReach(p, v, c)
    ensures InReach(0, v, c)
  {
    hide UpToFlag, FromFlag, SpsScript, WellFormed, Script.Bits;
    SpsBits(v, c, End);
    FlagPosition(0, |UpToFlag(v, c)|, v, c, End);
  }

  lemma HeadNotEmpty(v: Sps, c: Coding)
    requires WellFormed(v, c)
    ensures |HeadScript(v, c, End).Bits()| > 0
  {
    hide FidelityScript, OrderScript, ConstraintScript, LevelScript, FidelityWellFormed, OrderWellFormed, Vui.WellFormed;
  }

  /** ZBIT_VAR_TO_POINT(1, s->streamBuffer, -tmp, 1) at the flag. */
  method PatchFlag(s: Bitstream, tmp: int, ghost p: int, ghost v: Sps, ghost c: Coding, ghost rest: Script)
    requires s.Valid() && Coded(s.Content(), p, v, c, rest)
    requires s.frame_bitoffset == tmp == p + |UpToFlag(v, c)| && 0 < tmp <= 0x8000
    requires s.ahead == FromFlag(v.gaps_in_frame_num_value_allowed_flag, v, rest)
    modifies s.streamBuffer, s`ahead
    ensures tmp < 8 * s.streamBuffer.Length
    ensures BufferBits(s.streamBuffer[..]) == old(BufferBits(s.streamBuffer[..]))[tmp := true]
    ensures s.Valid() && s.ahead.Then? && s.ahead.head == FlagOf(true) && s.EndOffset() == old(s.EndOffset())
    ensures Coded(s.Content(), p, WithGaps(v), c, rest)
  {
    hide UpToFlag, FromFlag, Script.Bits, SpsScript, BufferBits, WellFormed;
    assert v.vui.WellFormed() by {
      VuiOf(v, c);
    }
    PatchedSps(s.Content(), p, v, c, rest);
    SkipFits(tmp);
    var written := VarToPoint(s.streamBuffer, ToInt16(-tmp));
    ContentAfterSet(old(s.streamBuffer[..]), s.streamBuffer[..], s.bitstream_length, tmp);
    FromFlagBits(true, v, rest);
    FromFlagBits(v.gaps_in_frame_num_value_allowed_flag, v, rest);
    s.ahead := FromFlag(true, v, rest);
  }

  lemma VuiOf(v: Sps, c: Coding)
    requires WellFormed(v, c)
    ensures v.vui.WellFormed()
  {
  }

  lemma ContentAfterSet(was: seq<bv8>, now: seq<bv8>, length: nat, n: nat)
    requires |was| == |now| && n < 8 * length <= 8 * |was|
    requires BufferBits(now) == BufferBits(was)[n := true]
    ensures BufferBits(now[..length]) == BufferBits(was[..length])[n := true]
  {
    hide BitOf;
    forall i | 0 <= i < 8 * length
      ensures BufferBits(now[..length])[i] == BufferBits(was[..length])[n := true][i]
    {
      assert BufferBits(now[..length])[i] == BufferBits(now)[i];
      assert BufferBits(was[..length])[i] == BufferBits(was)[i];
    }
  }

  lemma StartsEmpty(sps: SeqParameterSet)
    requires sps.Zeroed()
    ensures sps.Shape() && sps.FidelityContents() == ZeroFidelity() && sps.OrderContents() == ZeroOrder()
  {
  }

  /** A later InterpretSPS of the patched buffer returns the old parameter set with only the flag set. */
  method PatchAndInterpret(s: Bitstream, ghost v: Sps, ghost c: Coding, ghost rest: Script)
    returns (r: int, sps: SeqParameterSet)
    requires s.Valid() && WellFormed(v, c) && s.ahead == SpsScript(v, c, rest)
    requires InReach(s.frame_bitoffset, v, c)
    modifies s.streamBuffer, s`frame_bitoffset, s`ahead
    ensures r == 0 && sps.Contents() == WithGaps(v)
  {
    hide WellFormed, SpsScript, SeqParameterSet.Zeroed, SeqParameterSet.Contents;
    var start := s.frame_bitoffset;
    Patch(s, v, c, rest);
    s.frame_bitoffset := start;
    s.ahead := SpsScript(WithGaps(v), c, rest);
    StartsWithProfile(WithGaps(v), c, rest);
    sps := new SeqParameterSet();
    r := InterpretSPS(s, sps, WithGaps(v), c, rest);
  }

  method Patch(s: Bitstream, ghost v: Sps, ghost c: Coding, ghost rest: Script)
    requires s.Valid() && WellFormed(v, c) && s.ahead == SpsScript(v, c, rest)
    requires InReach(s.frame_bitoffset, v, c)
    modifies s.streamBuffer, s`frame_bitoffset, s`ahead
    ensures s.Shape() && 0 <= old(s.frame_bitoffset)
    ensures CodedIn(s, old(s.frame_bitoffset), WithGaps(v), c, rest)
  {
    hide WellFormed, SpsScript, SeqParameterSet.Zeroed, SeqParameterSet.Contents;
    StartsCoded(s, v, c, rest);
    StartsWithProfile(v, c, rest);
    var first := new SeqParameterSet();
    StartsEmpty(first);
    var r := ModifySPS(s, first, v, c, rest);
  }
}
