// Emulation prevention: section 7.4.1 of ITU-T H.264, undone in place by EBSPtoRBSP of common/jmdec.cpp.
module EmulationPrevention {

  const ZEROBYTES_SHORTSTARTCODE: nat := 2

  // ---------------------------------------------------------------- escaping, as an encoder does it

  /** The number of zero bytes written last, after one more byte of payload. */
  function ZerosNext(zeros: nat, b: bv8): (z: nat)
    requires zeros <= 2
    ensures z <= 2
  {
    if b != 0 then 0 else if zeros == 2 then 1 else zeros + 1
  }

  /** A byte 3 goes before every byte 0..3 that follows two zero bytes. */
  function EscapeFrom(r: seq<bv8>, zeros: nat): seq<bv8>
    requires zeros <= 2
  {
    if r == [] then [] else
    (if zeros == 2 && r[0] <= 3 then [3, r[0]] else [r[0]]) + EscapeFrom(r[1..], ZerosNext(zeros, r[0]))
  }

  /** How many zero bytes the escaping of r ends with, up to two. */
  function ZerosAfter(r: seq<bv8>, zeros: nat): (z: nat)
    requires zeros <= 2
    ensures z <= 2
  {
    if r == [] then zeros else ZerosAfter(r[1..], ZerosNext(zeros, r[0]))
  }

  /** Escaping with a final 3 after two zero bytes. */
  function Escape(r: seq<bv8>): seq<bv8> {
    EscapeFrom(r, 0) + (if ZerosAfter(r, 0) == 2 then [3] else [])
  }

  /** The rule as section 7.4.1 words it: a final 3 whenever the last payload byte is zero. */
  function EscapeToTheLetter(r: seq<bv8>): seq<bv8> {
    EscapeFrom(r, 0) + (if r != [] && r[|r| - 1] == 0 then [3] else [])
  }

  function TrailingZeros(r: seq<bv8>): nat {
    if r == [] || r[|r| - 1] != 0 then 0 else 1 + TrailingZeros(r[..|r| - 1])
  }

  // ---------------------------------------------------------------- what EBSPtoRBSP computes

  /** The bytes written for s after count zero bytes, and whether s was accepted. */
  function Strip(s: seq<bv8>, count: nat): (seq<bv8>, bool) {
    if s == [] then ([], true)
    else if count == 2 && s[0] < 3 then ([], false)
    else if count == 2 && s[0] == 3 then
      if |s| > 1 && s[1] > 3 then ([], false)
      else if |s| == 1 then ([], true)
      else Prepend(s[1], Strip(s[2..], if s[1] == 0 then 1 else 0))
    else Prepend(s[0], Strip(s[1..], if s[0] == 0 then count + 1 else 0))
  }

  function Prepend(b: bv8, rest: (seq<bv8>, bool)): (seq<bv8>, bool) {
    ([b] + rest.0, rest.1)
  }

  /**
   * EBSPtoRBSP works in place on begin..end: the kept bytes move to the front of the range, and
   * nothing behind the last byte written changes. The write index never passes the read index, so
   * every byte read is an original one.
   */
  method EBSPtoRBSP(streamBuffer: array<bv8>, end_bytepos: int, begin_bytepos: int) returns (r: int)
    requires 0 <= begin_bytepos && end_bytepos <= streamBuffer.Length
    modifies streamBuffer
    ensures end_bytepos < begin_bytepos ==> r == end_bytepos && streamBuffer[..] == old(streamBuffer[..])
    ensures begin_bytepos <= end_bytepos ==>
              var (out, ok) := Strip(old(streamBuffer[begin_bytepos..end_bytepos]), 0);
              && r == (if ok then begin_bytepos + |out| else -1)
              && begin_bytepos + |out| <= end_bytepos
              && streamBuffer[..] == old(streamBuffer[..begin_bytepos]) + out + old(streamBuffer[begin_bytepos + |out|..])
  {
    hide Strip, Continue, Prepend;
    if end_bytepos < begin_bytepos {
      return end_bytepos;
    }
    ghost var was := streamBuffer[..];
    ghost var (out, ok) := Strip(was[begin_bytepos..end_bytepos], 0);
    var count, j, i := 0, begin_bytepos, begin_bytepos;
    ContinueNone(streamBuffer[begin_bytepos..j]);
    assert streamBuffer[begin_bytepos..j] == [];
    while i < end_bytepos
      invariant begin_bytepos <= j <= i <= end_bytepos && 0 <= count <= 2
      invariant forall k :: 0 <= k < begin_bytepos || j <= k < streamBuffer.Length ==> streamBuffer[k] == was[k]
      invariant (out, ok) == Continue(streamBuffer[begin_bytepos..j], Strip(was[i..end_bytepos], count))
    {
      StripAt(was, i, end_bytepos, count);
      ContinueNone(streamBuffer[begin_bytepos..j]);
      if count == ZEROBYTES_SHORTSTARTCODE && streamBuffer[i] < 0x03 {
        Result(was, streamBuffer[..], begin_bytepos, j);
        return -1;
      }
      if count == ZEROBYTES_SHORTSTARTCODE && streamBuffer[i] == 0x03 {
        if i < end_bytepos - 1 && streamBuffer[i + 1] > 0x03 {
          Result(was, streamBuffer[..], begin_bytepos, j);
          return -1;
        }
        if i == end_bytepos - 1 {
          Result(was, streamBuffer[..], begin_bytepos, j);
          return j;
        }
        i := i + 1;
        count := 0;
      }
      ghost var written := streamBuffer[begin_bytepos..j];
      ContinueOne(written, was[i], Strip(was[i + 1..end_bytepos], if was[i] == 0 then count + 1 else 0));
      streamBuffer[j] := streamBuffer[i];
      if streamBuffer[i] == 0x00 {
        count := count + 1;
      } else {
        count := 0;
      }
      j := j + 1;
      i := i + 1;
      assert streamBuffer[begin_bytepos..j] == written + [was[i - 1]];
    }
    StripNothing(was, end_bytepos, count);
    ContinueNone(streamBuffer[begin_bytepos..j]);
    Result(was, streamBuffer[..], begin_bytepos, j);
    return j;
  }

  lemma StripNothing(was: seq<bv8>, end: nat, count: nat)
    requires end <= |was|
    ensures Strip(was[end..end], count) == ([], true)
  {
  }

  /** The bytes written so far, then those of the rest. */
  function Continue(written: seq<bv8>, rest: (seq<bv8>, bool)): (seq<bv8>, bool) {
    (written + rest.0, rest.1)
  }

  lemma ContinueOne(written: seq<bv8>, b: bv8, rest: (seq<bv8>, bool))
    ensures Continue(written, Prepend(b, rest)) == Continue(written + [b], rest)
  {
    assert written + ([b] + rest.0) == (written + [b]) + rest.0;
  }

  lemma ContinueNone(written: seq<bv8>)
    ensures Continue(written, ([], true)) == (written, true)
    ensures Continue(written, ([], false)) == (written, false)
    ensures forall rest: (seq<bv8>, bool) :: Continue([], rest) == rest
  {
    assert written + [] == written;
    assert forall rest: (seq<bv8>, bool) :: [] + rest.0 == rest.0;
  }

  /** One step of Strip, on a range of the original buffer. */
  lemma StripAt(was: seq<bv8>, i: nat, end: nat, count: nat)
    requires i < end <= |was|
    ensures var s := Strip(was[i..end], count);
            if count == 2 && was[i] < 3 then s == ([], false)
            else if count == 2 && was[i] == 3 then
              if i + 1 == end then s == ([], true)
              else if was[i + 1] > 3 then s == ([], false)
              else s == Prepend(was[i + 1], Strip(was[i + 2..end], if was[i + 1] == 0 then 1 else 0))
            else s == Prepend(was[i], Strip(was[i + 1..end], if was[i] == 0 then count + 1 else 0))
  {
    var s := was[i..end];
    assert s[0] == was[i] && s[1..] == was[i + 1..end];
    if i + 1 < end {
      assert s[1] == was[i + 1] && s[2..] == was[i + 2..end];
    }
  }

  lemma Result(was: seq<bv8>, now: seq<bv8>, begin: nat, j: nat)
    requires begin <= j <= |was| == |now|
    requires forall k :: 0 <= k < begin || j <= k < |was| ==> now[k] == was[k]
    ensures now == was[..begin] + now[begin..j] + was[j..]
  {
  }

  // ---------------------------------------------------------------- stripping inverts escaping

  lemma {:induction false} StripEscapeFrom(r: seq<bv8>, zeros: nat, tail: seq<bv8>)
    requires zeros <= 2
    ensures Strip(EscapeFrom(r, zeros) + tail, zeros) == Continue(r, Strip(tail, ZerosAfter(r, zeros)))
    decreases |r|
  {
    if r == [] {
      ContinueNothing(tail, zeros);
    } else {
      var z := ZerosNext(zeros, r[0]);
      StripEscapeFrom(r[1..], z, tail);
      StripFirst(r[0], zeros, EscapeFrom(r[1..], z) + tail);
      ContinueFirst(r, Strip(tail, ZerosAfter(r, zeros)));
      FirstOfEscape(r, zeros, tail);
    }
  }

  lemma ContinueNothing(tail: seq<bv8>, zeros: nat)
    requires zeros <= 2
    ensures Strip(EscapeFrom([], zeros) + tail, zeros) == Continue([], Strip(tail, zeros))
  {
    assert [] + tail == tail && [] + Strip(tail, zeros).0 == Strip(tail, zeros).0;
  }

  lemma ContinueFirst(r: seq<bv8>, rest: (seq<bv8>, bool))
    requires r != []
    ensures Prepend(r[0], Continue(r[1..], rest)) == Continue(r, rest)
  {
    assert [r[0]] + (r[1..] + rest.0) == r + rest.0;
  }

  lemma FirstOfEscape(r: seq<bv8>, zeros: nat, tail: seq<bv8>)
    requires r != [] && zeros <= 2
    ensures EscapeFrom(r, zeros) + tail
         == (if zeros == 2 && r[0] <= 3 then [3, r[0]] else [r[0]]) + (EscapeFrom(r[1..], ZerosNext(zeros, r[0])) + tail)
  {
  }

  /** Stripping the escaping of one byte. */
  lemma StripFirst(b: bv8, zeros: nat, rest: seq<bv8>)
    requires zeros <= 2
    ensures Strip((if zeros == 2 && b <= 3 then [3, b] else [b]) + rest, zeros)
         == Prepend(b, Strip(rest, ZerosNext(zeros, b)))
  {
    hide Prepend;
    if zeros == 2 && b <= 3 {
      var s := [3, b] + rest;
      assert s[0] == 3 && s[1] == b && s[2..] == rest;
    } else {
      var s := [b] + rest;
      assert s[0] == b && s[1..] == rest;
    }
  }

  /** EBSPtoRBSP returns every payload from its escaping. */
  lemma StripEscape(r: seq<bv8>)
    ensures Strip(Escape(r), 0) == (r, true)
  {
    var tail: seq<bv8> := if ZerosAfter(r, 0) == 2 then [3] else [];
    StripEscapeFrom(r, 0, tail);
    assert Strip(tail, ZerosAfter(r, 0)) == ([], true);
    assert r + [] == r;
  }

  lemma {:induction false} ZerosAfterAppend(r: seq<bv8>, b: bv8, zeros: nat)
    requires zeros <= 2
    ensures ZerosAfter(r + [b], zeros) == ZerosNext(ZerosAfter(r, zeros), b)
    decreases |r|
  {
    if r == [] {
      assert (r + [b])[1..] == [];
    } else {
      ZerosAfterAppend(r[1..], b, ZerosNext(zeros, r[0]));
      assert (r + [b])[1..] == r[1..] + [b];
    }
  }

  /** The zero count at the end: none, one after an odd run of zeros, two after an even run. */
  lemma {:induction false} ZerosAfterTrailing(r: seq<bv8>)
    ensures ZerosAfter(r, 0) == var t := TrailingZeros(r); if t == 0 then 0 else if t % 2 == 1 then 1 else 2
  {
    if r != [] {
      var front, last := r[..|r| - 1], r[|r| - 1];
      ZerosAfterTrailing(front);
      ZerosAfterAppend(front, last, 0);
      assert r == front + [last];
    }
  }

  /**
   * With the final byte that section 7.4.1 asks for after every payload that ends in zero, the
   * payload comes back exactly when it ends in an even number of zero bytes (as whole
   * cabac_zero_words do); after an odd number the final 3 stays in the output.
   */
  lemma StripToTheLetter(r: seq<bv8>)
    ensures Strip(EscapeToTheLetter(r), 0) == (r, true) <==> TrailingZeros(r) % 2 == 0
    ensures TrailingZeros(r) % 2 == 1 ==> Strip(EscapeToTheLetter(r), 0) == (r + [3], true)
  {
    ZerosAfterTrailing(r);
    var z := ZerosAfter(r, 0);
    var tail: seq<bv8> := if TrailingZeros(r) > 0 then [3] else [];
    assert EscapeToTheLetter(r) == EscapeFrom(r, 0) + tail;
    StripEscapeFrom(r, 0, tail);
    if z == 1 {
      assert tail[1..] == [] && [3 as bv8] + [] == tail;
      assert Strip(tail, z) == (tail, true);
    } else {
      assert Strip(tail, z) == ([], true);
      assert r + [] == r;
    }
  }

  // ---------------------------------------------------------------- what is accepted is an escaping

  /** Every accepted input is the escaping of its output, with or without a last 3 after two zeros. */
  lemma {:induction false} AcceptedIsEscaped(s: seq<bv8>, count: nat)
    requires count <= 2 && Strip(s, count).1
    ensures var r := Strip(s, count).0;
            || s == EscapeFrom(r, count)
            || (s == EscapeFrom(r, count) + [3] && ZerosAfter(r, count) == 2)
    decreases |s|
  {
    var r := Strip(s, count).0;
    if s == [] {
    } else if count == 2 && s[0] == 3 {
      if |s| == 1 {
        assert s == EscapeFrom([], count) + [3];
      } else {
        AcceptedIsEscaped(s[2..], if s[1] == 0 then 1 else 0);
        assert r[0] == s[1] && r[1..] == Strip(s[2..], if s[1] == 0 then 1 else 0).0;
        assert s == [3, s[1]] + s[2..];
      }
    } else {
      AcceptedIsEscaped(s[1..], if s[0] == 0 then count + 1 else 0);
      assert r[0] == s[0] && r[1..] == Strip(s[1..], if s[0] == 0 then count + 1 else 0).0;
      assert s == [s[0]] + s[1..];
    }
  }

  /** s is the escaping of r, the last 3 being optional. */
  ghost predicate AcceptedAs(s: seq<bv8>, r: seq<bv8>) {
    s == EscapeFrom(r, 0) || (s == EscapeFrom(r, 0) + [3] && ZerosAfter(r, 0) == 2)
  }

  /** Acceptance, both ways: s yields r exactly when it is r's escaping, the last 3 being optional. */
  lemma AcceptedIff(s: seq<bv8>, r: seq<bv8>)
    ensures Strip(s, 0) == (r, true) <==> AcceptedAs(s, r)
  {
    if Strip(s, 0) == (r, true) {
      AcceptedIsEscaped(s, 0);
    }
    if s == EscapeFrom(r, 0) {
      StripEscapeFrom(r, 0, []);
      assert s == EscapeFrom(r, 0) + [];
      assert r + [] == r;
    } else if s == EscapeFrom(r, 0) + [3] && ZerosAfter(r, 0) == 2 {
      StripEscape(r);
    }
  }

  // ---------------------------------------------------------------- what escaping is for

  /** Two zeros, then a byte 0..2: the patterns that must not occur inside a NAL unit. */
  predicate Forbidden(s: seq<bv8>, i: nat) {
    i + 2 < |s| && s[i] == 0 && s[i + 1] == 0 && s[i + 2] < 3
  }

  /** No byte 0..2 after two or more zeros, counting those written before. */
  predicate Clean(s: seq<bv8>, zeros: nat) {
    s == [] || (!(zeros >= 2 && s[0] < 3) && Clean(s[1..], if s[0] == 0 then zeros + 1 else 0))
  }

  lemma {:induction false} EscapeFromIsClean(r: seq<bv8>, zeros: nat)
    requires zeros <= 2
    ensures Clean(EscapeFrom(r, zeros), zeros)
  {
    if r != [] {
      var rest := EscapeFrom(r[1..], ZerosNext(zeros, r[0]));
      EscapeFromIsClean(r[1..], ZerosNext(zeros, r[0]));
      if zeros == 2 && r[0] <= 3 {
        assert EscapeFrom(r, zeros)[1..] == [r[0]] + rest;
        assert ([r[0]] + rest)[1..] == rest;
      } else {
        assert EscapeFrom(r, zeros)[1..] == rest;
      }
    }
  }

  lemma {:induction false} CleanHasNoForbidden(s: seq<bv8>, zeros: nat, i: nat)
    requires Clean(s, zeros)
    ensures !Forbidden(s, i)
    decreases i
  {
    if i + 2 < |s| {
      if i > 0 {
        CleanHasNoForbidden(s[1..], if s[0] == 0 then zeros + 1 else 0, i - 1);
      } else if s[0] == 0 && s[1] == 0 {
        assert Clean(s[1..], zeros + 1);
        assert Clean(s[1..][1..], zeros + 2);
        assert s[1..][1..][0] == s[2];
      }
    }
  }

  /** No escaping contains a forbidden pattern at any position. */
  lemma EscapedIsClean(r: seq<bv8>, i: nat)
    ensures !Forbidden(EscapeFrom(r, 0), i)
  {
    EscapeFromIsClean(r, 0);
    CleanHasNoForbidden(EscapeFrom(r, 0), 0, i);
  }

  /** Byte i of r follows two zeros, of which some may have been written before r. */
  predicate BehindTwoZeros(r: seq<bv8>, zeros: nat, i: nat)
    requires i < |r|
  {
    if i == 0 then zeros == 2
    else if i == 1 then zeros >= 1 && r[0] == 0
    else r[i - 2] == 0 && r[i - 1] == 0
  }

  /** Some byte 0..3 of r follows two zeros. */
  ghost predicate NeedsEscape(r: seq<bv8>, zeros: nat) {
    exists i | 0 <= i < |r| :: r[i] <= 3 && BehindTwoZeros(r, zeros, i)
  }

  lemma NeedsEscapeStep(r: seq<bv8>, zeros: nat)
    requires r != [] && zeros <= 2 && !(zeros == 2 && r[0] <= 3)
    ensures NeedsEscape(r, zeros) <==> NeedsEscape(r[1..], ZerosNext(zeros, r[0]))
  {
    var t, z := r[1..], ZerosNext(zeros, r[0]);
    assert forall i :: 0 <= i < |t| ==> t[i] == r[i + 1] && (BehindTwoZeros(t, z, i) <==> BehindTwoZeros(r, zeros, i + 1));
    if NeedsEscape(r, zeros) {
      var i :| 0 <= i < |r| && r[i] <= 3 && BehindTwoZeros(r, zeros, i);
      assert BehindTwoZeros(t, z, i - 1);
    }
    if NeedsEscape(t, z) {
      var i :| 0 <= i < |t| && t[i] <= 3 && BehindTwoZeros(t, z, i);
      assert BehindTwoZeros(r, zeros, i + 1);
    }
  }

  lemma {:induction false} ChangedIff(r: seq<bv8>, zeros: nat)
    requires zeros <= 2
    ensures |EscapeFrom(r, zeros)| >= |r|
    ensures if NeedsEscape(r, zeros) then |EscapeFrom(r, zeros)| > |r| else EscapeFrom(r, zeros) == r
    decreases |r|
  {
    hide NeedsEscape;
    if r == [] {
      NothingToEscape(zeros);
    } else {
      var z := ZerosNext(zeros, r[0]);
      ChangedIff(r[1..], z);
      if zeros == 2 && r[0] <= 3 {
        FirstNeedsEscape(r);
      } else {
        NeedsEscapeStep(r, zeros);
        assert [r[0]] + r[1..] == r;
      }
    }
  }

  lemma NothingToEscape(zeros: nat)
    ensures !NeedsEscape([], zeros)
  {
  }

  lemma FirstNeedsEscape(r: seq<bv8>)
    requires r != [] && r[0] <= 3
    ensures NeedsEscape(r, 2)
  {
    assert BehindTwoZeros(r, 2, 0);
  }

  /** A payload is escaped exactly when it holds two zeros and then a byte 0..3. */
  lemma EscapedIff(r: seq<bv8>)
    ensures EscapeFrom(r, 0) != r <==> exists i: nat :: i + 2 < |r| && r[i] == 0 && r[i + 1] == 0 && r[i + 2] <= 3
  {
    ChangedIff(r, 0);
    if NeedsEscape(r, 0) {
      var i :| 0 <= i < |r| && r[i] <= 3 && BehindTwoZeros(r, 0, i);
      assert r[i - 2] == 0;
    }
    if i: nat :| i + 2 < |r| && r[i] == 0 && r[i + 1] == 0 && r[i + 2] <= 3 {
      assert BehindTwoZeros(r, 0, i + 2);
    }
  }

  /** UnPkt: a whole NAL unit payload is unescaped from its first byte on. */
  method UnPkt(buf: array<bv8>, len: int) returns (retlen: int)
    requires 0 <= len <= buf.Length
    modifies buf
    ensures forall r :: old(buf[..len]) == Escape(r) ==>
              0 <= retlen == |r| <= len && buf[..] == r + old(buf[|r|..])
    ensures retlen != -1 ==> 0 <= retlen <= len && AcceptedAs(old(buf[..len]), buf[..retlen])
  {
    ghost var was := buf[..];
    assert was[0..len] == was[..len];
    retlen := EBSPtoRBSP(buf, len, 0);
    ghost var (out, ok) := Strip(was[..len], 0);
    assert was[..0] + out + was[|out|..] == out + was[|out|..];
    forall r | was[..len] == Escape(r)
      ensures out == r && ok
    {
      StripEscape(r);
    }
    if ok {
      assert buf[..retlen] == out;
      AcceptedIff(was[..len], out);
    }
  }
}
