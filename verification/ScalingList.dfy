// Scaling lists: section 7.3.2.1.1.1 of ITU-T H.264, read by Scaling_List of common/jmdec.cpp.
module ScalingLists {
  import opened Bits
  import opened BitReader

  // ---------------------------------------------------------------- the scan tables of common/jmdec.h

  /** ZZ_SCAN: the raster position of the j-th coefficient of a 4x4 block. */
  function ZzScan(j: nat): (r: nat)
    requires j < 16
    ensures r < 16
  {
    match j
    case 0 => 0 case 1 => 1 case 2 => 4 case 3 => 8 case 4 => 5 case 5 => 2 case 6 => 3 case 7 => 6
    case 8 => 9 case 9 => 12 case 10 => 13 case 11 => 10 case 12 => 7 case 13 => 11 case 14 => 14 case _ => 15
  }

  /** ZZ_SCAN8, for an 8x8 block. */
  function ZzScan8(j: nat): (r: nat)
    requires j < 64
    ensures r < 64
  {
    match j
    case 0 => 0 case 1 => 1 case 2 => 8 case 3 => 16 case 4 => 9 case 5 => 2 case 6 => 3 case 7 => 10
    case 8 => 17 case 9 => 24 case 10 => 32 case 11 => 25 case 12 => 18 case 13 => 11 case 14 => 4 case 15 => 5
    case 16 => 12 case 17 => 19 case 18 => 26 case 19 => 33 case 20 => 40 case 21 => 48 case 22 => 41 case 23 => 34
    case 24 => 27 case 25 => 20 case 26 => 13 case 27 => 6 case 28 => 7 case 29 => 14 case 30 => 21 case 31 => 28
    case 32 => 35 case 33 => 42 case 34 => 49 case 35 => 56 case 36 => 57 case 37 => 50 case 38 => 43 case 39 => 36
    case 40 => 29 case 41 => 22 case 42 => 15 case 43 => 23 case 44 => 30 case 45 => 37 case 46 => 44 case 47 => 51
    case 48 => 58 case 49 => 59 case 50 => 52 case 51 => 45 case 52 => 38 case 53 => 31 case 54 => 39 case 55 => 46
    case 56 => 53 case 57 => 60 case 58 => 61 case 59 => 54 case 60 => 47 case 61 => 55 case 62 => 62 case _ => 63
  }

  function UnscanZz(j: nat): (r: nat)
    requires j < 16
    ensures r < 16
  {
    match j
    case 0 => 0 case 1 => 1 case 2 => 5 case 3 => 6 case 4 => 2 case 5 => 4 case 6 => 7 case 7 => 12
    case 8 => 3 case 9 => 8 case 10 => 11 case 11 => 13 case 12 => 9 case 13 => 10 case 14 => 14 case _ => 15
  }

  function UnscanZz8(j: nat): (r: nat)
    requires j < 64
    ensures r < 64
  {
    match j
    case 0 => 0 case 1 => 1 case 2 => 5 case 3 => 6 case 4 => 14 case 5 => 15 case 6 => 27 case 7 => 28
    case 8 => 2 case 9 => 4 case 10 => 7 case 11 => 13 case 12 => 16 case 13 => 26 case 14 => 29 case 15 => 42
    case 16 => 3 case 17 => 8 case 18 => 12 case 19 => 17 case 20 => 25 case 21 => 30 case 22 => 41 case 23 => 43
    case 24 => 9 case 25 => 11 case 26 => 18 case 27 => 24 case 28 => 31 case 29 => 40 case 30 => 44 case 31 => 53
    case 32 => 10 case 33 => 19 case 34 => 23 case 35 => 32 case 36 => 39 case 37 => 45 case 38 => 52 case 39 => 54
    case 40 => 20 case 41 => 22 case 42 => 33 case 43 => 38 case 44 => 46 case 45 => 51 case 46 => 55 case 47 => 60
    case 48 => 21 case 49 => 34 case 50 => 37 case 51 => 47 case 52 => 50 case 53 => 56 case 54 => 59 case 55 => 61
    case 56 => 35 case 57 => 36 case 58 => 48 case 59 => 49 case 60 => 57 case 61 => 58 case 62 => 62 case _ => 63
  }

  predicate ListSize(n: nat) {
    n == 16 || n == 64
  }

  function Scan(n: nat, j: nat): (r: nat)
    requires ListSize(n) && j < n
    ensures r < n
  {
    if n == 16 then ZzScan(j) else ZzScan8(j)
  }

  function Unscan(n: nat, c: nat): (r: nat)
    requires ListSize(n) && c < n
    ensures r < n
  {
    if n == 16 then UnscanZz(c) else UnscanZz8(c)
  }

  /** The scan tables are permutations, so the decoder writes every entry exactly once. */
  lemma ScanIsPermutation(n: nat, i: nat)
    requires ListSize(n) && i < n
    ensures Scan(n, Unscan(n, i)) == i
    ensures Unscan(n, Scan(n, i)) == i
  {
    hide ZzScan, ZzScan8, UnscanZz, UnscanZz8;
    if n == 16 {
      ScanUnscan(i);
      UnscanScan(i);
    } else {
      ScanUnscan8(i);
      UnscanScan8(i);
    }
  }

  lemma ScanUnscan(i: nat)
    requires i < 16
    ensures ZzScan(UnscanZz(i)) == i
  {
  }

  lemma UnscanScan(i: nat)
    requires i < 16
    ensures UnscanZz(ZzScan(i)) == i
  {
  }

  lemma ScanUnscan8(i: nat)
    requires i < 64
    ensures ZzScan8(UnscanZz8(i)) == i
  {
    if i < 32 {
      if i < 16 {
      } else {}
    } else if i < 48 {
    } else {}
  }

  lemma UnscanScan8(i: nat)
    requires i < 64
    ensures UnscanZz8(ZzScan8(i)) == i
  {
    if i < 32 {
      if i < 16 {
      } else {}
    } else if i < 48 {
    } else {}
  }

  lemma OnlyFirstScansToZero(n: nat, j: nat)
    requires ListSize(n) && j < n
    ensures Scan(n, j) == 0 <==> j == 0
  {
    ScanIsPermutation(n, j);
    assert Scan(n, 0) == 0 && Unscan(n, 0) == 0;
  }

  // ---------------------------------------------------------------- the zig-zag

  function Side(n: nat): nat {
    if n == 16 then 4 else 8
  }

  /** Raster position a comes before b on the zig-zag over a block of w columns. */
  predicate ZigZagBefore(w: nat, a: nat, b: nat)
    requires w > 0
  {
    var da, db := a / w + a % w, b / w + b % w;
    da < db || (da == db && if da % 2 == 1 then a / w < b / w else b / w < a / w)
  }

  /**
   * The scan goes through the diagonals of the block one after the other, down the odd ones and up
   * the even ones. Among the permutations only one does so.
   */
  lemma {:induction false} ScanIsZigZag(n: nat, j: nat, k: nat)
    requires ListSize(n) && j < k < n
    ensures ZigZagBefore(Side(n), Scan(n, j), Scan(n, k))
    decreases k - j
  {
    hide ZigZagBefore, ZzScan, ZzScan8;
    ScanStep(n, k - 1);
    if j < k - 1 {
      ScanIsZigZag(n, j, k - 1);
      BeforeIsTransitive(Side(n), Scan(n, j), Scan(n, k - 1), Scan(n, k));
    }
  }

  lemma BeforeIsTransitive(w: nat, a: nat, b: nat, c: nat)
    requires w > 0 && ZigZagBefore(w, a, b) && ZigZagBefore(w, b, c)
    ensures ZigZagBefore(w, a, c)
  {
  }

  lemma ScanStep(n: nat, j: nat)
    requires ListSize(n) && j + 1 < n
    ensures ZigZagBefore(Side(n), Scan(n, j), Scan(n, j + 1))
  {
    hide ZigZagBefore, ZzScan, ZzScan8;
    if n == 16 {
      ScanStep4x4(j);
    } else if j < 8 {
      ScanStepTo8(j);
    } else if j < 16 {
      ScanStepTo16(j);
    } else if j < 32 {
      ScanStepTo32(j);
    } else if j < 48 {
      ScanStepTo48(j);
    } else {
      ScanStepTo63(j);
    }
  }

  lemma ScanStep4x4(j: nat)
    requires j < 15
    ensures ZigZagBefore(4, ZzScan(j), ZzScan(j + 1))
  {
  }

  lemma ScanStepTo8(j: nat)
    requires j < 8
    ensures ZigZagBefore(8, ZzScan8(j), ZzScan8(j + 1))
  {
  }

  lemma ScanStepTo16(j: nat)
    requires 8 <= j < 16
    ensures ZigZagBefore(8, ZzScan8(j), ZzScan8(j + 1))
  {
  }

  lemma ScanStepTo32(j: nat)
    requires 16 <= j < 32
    ensures ZigZagBefore(8, ZzScan8(j), ZzScan8(j + 1))
  {
  }

  lemma ScanStepTo48(j: nat)
    requires 32 <= j < 48
    ensures ZigZagBefore(8, ZzScan8(j), ZzScan8(j + 1))
  {
  }

  lemma ScanStepTo63(j: nat)
    requires 48 <= j < 63
    ensures ZigZagBefore(8, ZzScan8(j), ZzScan8(j + 1))
  {
  }

  // ---------------------------------------------------------------- the syntax of scaling_list( )

  /** The scale before the j-th coefficient in scan order; 8 before the first. */
  function Last(l: seq<int>, j: nat): int
    requires ListSize(|l|) && j <= |l|
  {
    if j == 0 then 8 else l[Scan(|l|, j - 1)]
  }

  /** The delta_scale in -128..127 that takes one scale to the next one. */
  function Delta(last: int, next: int): (d: int)
    ensures -128 <= d <= 127 && (d - (next - last)) % 256 == 0
  {
    (next - last + 128) % 256 - 128
  }

  /**
   * A list in raster order that can be coded with a zero next scale after the first stop
   * coefficients (stop == |l| when none is sent): the coefficients from there on repeat the last one.
   */
  predicate Codable(l: seq<int>, stop: nat) {
    && ListSize(|l|) && stop <= |l|
    && (forall c :: 0 <= c < |l| ==> 1 <= l[c] <= 255)
    && (forall j :: stop <= j < |l| ==> l[Scan(|l|, j)] == Last(l, stop))
  }

  /** The coefficients from the j-th on, followed by rest. */
  function ListScript(l: seq<int>, stop: nat, j: nat, rest: Script): Script
    requires Codable(l, stop) && j <= stop
    decreases stop - j
  {
    if j < stop then Then(SE(Delta(Last(l, j), l[Scan(|l|, j)])), ListScript(l, stop, j + 1, rest))
    else if stop < |l| then Then(SE(Delta(Last(l, stop), 0)), rest)
    else rest
  }

  // ---------------------------------------------------------------- the reader

  /** The C remainder, which has the sign of the dividend. */
  function CRemainder(a: int, b: int): int
    requires b > 0
  {
    if a >= 0 then a % b else -((-a) % b)
  }

  /** nextScale = (lastScale + delta_scale + 256) % 256 undoes Delta. */
  lemma DeltaUndone(last: int, next: int)
    requires 0 <= last <= 255 && 0 <= next <= 255
    ensures CRemainder(last + Delta(last, next) + 256, 256) == next
  {
  }

  lemma LastAtStart(l: seq<int>)
    requires ListSize(|l|)
    ensures Last(l, 0) == 8
  {
  }

  /** What is coded from the j-th coefficient on. */
  lemma NextDelta(l: seq<int>, stop: nat, j: nat, rest: Script)
    requires Codable(l, stop) && j < |l|
    ensures j < stop ==>
              ListScript(l, stop, j, rest) == Then(SE(Delta(Last(l, j), l[Scan(|l|, j)])), ListScript(l, stop, j + 1, rest))
    ensures j == stop ==> ListScript(l, stop, j, rest) == Then(SE(Delta(Last(l, stop), 0)), rest)
  {
    hide Delta, Last, Scan;
  }

  lemma ListEnds(l: seq<int>, stop: nat, rest: Script)
    requires Codable(l, stop) && stop == |l|
    ensures ListScript(l, stop, |l|, rest) == rest
  {
  }

  lemma ScanIs(n: nat, j: nat)
    requires ListSize(n) && j < n
    ensures Scan(n, j) == (if n == 16 then ZzScan(j) else ZzScan8(j)) && (n == 16 || n == 64)
  {
    hide ZzScan, ZzScan8;
  }

  /** What a codable list says about its j-th coefficient in scan order. */
  lemma Coefficient(l: seq<int>, stop: nat, j: nat)
    requires Codable(l, stop) && j < |l|
    ensures 1 <= Last(l, j) <= 255 && 1 <= Last(l, stop) <= 255
    ensures 1 <= l[Scan(|l|, j)] <= 255
    ensures stop <= j ==> l[Scan(|l|, j)] == Last(l, stop)
    ensures Last(l, j + 1) == l[Scan(|l|, j)]
    ensures Scan(|l|, j) == 0 <==> j == 0
  {
    OnlyFirstScansToZero(|l|, j);
  }

  /** Row r of a table of lists. */
  ghost function RowOf(table: array2<int>, r: nat): (l: seq<int>)
    requires r < table.Length0
    reads table
    ensures |l| == table.Length1 && forall c :: 0 <= c < |l| ==> l[c] == table[r, c]
  {
    seq(table.Length1, c requires 0 <= c < table.Length1 reads table => table[r, c])
  }

  ghost function Rows(table: array2<int>): (rows: seq<seq<int>>)
    reads table
    ensures |rows| == table.Length0 && forall r :: 0 <= r < |rows| ==> rows[r] == RowOf(table, r)
  {
    seq(table.Length0, r requires 0 <= r < table.Length0 reads table => RowOf(table, r))
  }

  /** Reads one delta_scale and adds it to the last scale modulo 256. */
  method ReadNextScale(s: Bitstream, lastScale: int, ghost next: int) returns (nextScale: int)
    requires 0 <= lastScale <= 255 && 0 <= next <= 255
    requires s.Valid() && s.ahead.Then? && s.ahead.head == SE(Delta(lastScale, next))
    modifies s`frame_bitoffset, s`ahead
    ensures nextScale == next
    ensures s.Valid() && s.ahead == old(s.ahead).tail && s.EndOffset() == old(s.EndOffset())
  {
    hide Bitstream.Valid, Bitstream.EndOffset, Delta, CRemainder;
    var deltaScale := s.SeV();
    DeltaUndone(lastScale, next);
    nextScale := CRemainder(lastScale + deltaScale + 256, 256);
  }

  /**
   * Scaling_List on row r of a table: fills the row with the coded list and returns the
   * UseDefaultScalingMatrix flag. All other rows keep their values.
   */
  method ScalingList(table: array2<int>, r: nat, s: Bitstream, ghost l: seq<int>, ghost stop: nat, ghost rest: Script)
    returns (useDefault: bool)
    requires r < table.Length0 && |l| == table.Length1 && Codable(l, stop)
    requires s.Valid() && s.ahead == ListScript(l, stop, 0, rest)
    modifies table, s`frame_bitoffset, s`ahead
    ensures RowOf(table, r) == l
    ensures forall q, c :: 0 <= q < table.Length0 && q != r && 0 <= c < table.Length1 ==> table[q, c] == old(table[q, c])
    ensures useDefault == (stop == 0)
    ensures s.Valid() && s.ahead == rest && s.EndOffset() == old(s.EndOffset())
  {
    hide Bitstream.Valid, Bitstream.EndOffset, ZzScan, ZzScan8, UnscanZz, UnscanZz8;
    assert stop <= |l| && ListSize(|l|);
    hide Codable, Delta, Last, ListSize, Scan, Unscan, ListScript;
    assert Last(l, 0) == 8 by {
      LastAtStart(l);
    }
    ghost var n := |l|;
    var lastScale, nextScale := 8, 8;
    useDefault := false;
    var j := 0;
    while j < table.Length1
      invariant 0 <= j <= n
      invariant s.Valid() && s.EndOffset() == old(s.EndOffset())
      invariant if nextScale != 0 then j <= stop && s.ahead == ListScript(l, stop, j, rest) else stop < j && s.ahead == rest
      invariant lastScale == Last(l, if j <= stop then j else stop)
      invariant 0 < j ==> useDefault == (stop == 0)
      invariant forall i :: 0 <= i < j ==> table[r, Scan(n, i)] == l[Scan(n, i)]
      invariant forall q, c :: 0 <= q < table.Length0 && q != r && 0 <= c < n ==> table[q, c] == old(table[q, c])
    {
      var scanj := if table.Length1 == 16 then ZzScan(j) else ZzScan8(j);
      Coefficient(l, stop, j);
      ScanIs(n, j);
      NextDelta(l, stop, j, rest);
      if nextScale != 0 {
        nextScale := ReadNextScale(s, lastScale, if j < stop then l[scanj] else 0);
        useDefault := scanj == 0 && nextScale == 0;
      }
      assert (if nextScale == 0 then lastScale else nextScale) == l[scanj];
      table[r, scanj] := if nextScale == 0 then lastScale else nextScale;
      lastScale := table[r, scanj];
      j := j + 1;
    }
    if stop == n {
      ListEnds(l, stop, rest);
    }
    forall c | 0 <= c < n
      ensures table[r, c] == l[c]
    {
      ScanIsPermutation(n, c);
      assert Scan(n, Unscan(n, c)) == c;
    }
  }
}
