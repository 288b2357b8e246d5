// Scaling lists in known answers of the parameter set reader.
module KnownLists {
  import opened Bits
  import opened BitReader
  import opened ScalingLists
  import opened HrdSyntax
  import opened VuiSyntax
  import opened SpsSyntax
  import opened KnownCodes

  /** A list of n scales with the given first one. */
  function Stepped(n: nat, first: int, others: int): seq<int> {
    seq(n, i => if i == 0 then first else others)
  }

  lemma SteppedIsCodable(n: nat, first: int, others: int, stop: nat)
    requires ListSize(n) && 1 <= first <= 255 && 1 <= others <= 255
    requires stop == 2 || (first == others && (stop == 1 || (stop == 0 && first == 8)))
    ensures Codable(Stepped(n, first, others), stop)
  {
    hide ZzScan, ZzScan8, UnscanZz, UnscanZz8;
    forall j | 0 <= j < n ensures Scan(n, j) == 0 <==> j == 0 {
      OnlyFirstScansToZero(n, j);
    }
  }

  lemma ScansOfStepped(n: nat, first: int, others: int)
    requires ListSize(n)
    ensures var l := Stepped(n, first, others);
            Last(l, 0) == 8 && Last(l, 1) == first == l[Scan(n, 0)] && Last(l, 2) == others == l[Scan(n, 1)]
  {
    hide ZzScan, ZzScan8, UnscanZz, UnscanZz8;
    OnlyFirstScansToZero(n, 0);
    OnlyFirstScansToZero(n, 1);
  }

  /** The i-th list is not sent. */
  lemma FoldAbsent(f: Fidelity, c: Coding, i: nat, t: Script, w: Word) returns (n: Word)
    requires FidelityShape(f, c) && i < CodedLists(f) <= 12
    requires forall k :: 0 <= k < 12 ==> ListWellFormed(f, c, k)
    requires f.seq_scaling_list_present_flag[i] == 0
    ensures n == Put(w, U(1, 0)) && Fold(ListsScript(f, c, i, t), w) == Fold(ListsScript(f, c, i + 1, t), n)
  {
    hide Put, Fold, Codable;
    n := FoldOne(U(1, 0), ListsScript(f, c, i + 1, t), w);
  }

  /** The i-th list is sent. */
  lemma FoldPresent(f: Fidelity, c: Coding, i: nat, t: Script, w: Word) returns (n: Word)
    requires FidelityShape(f, c) && i < CodedLists(f) <= 12
    requires forall k :: 0 <= k < 12 ==> ListWellFormed(f, c, k)
    requires f.seq_scaling_list_present_flag[i] == 1
    ensures Codable(ListAt(f, i), c.stops[i]) && n == Put(w, U(1, 1))
    ensures Fold(ListsScript(f, c, i, t), w)
         == Fold(ListScript(ListAt(f, i), c.stops[i], 0, ListsScript(f, c, i + 1, t)), n)
  {
    hide Put, Fold, Codable, ListScript;
    assert ListWellFormed(f, c, i);
    n := FoldOne(U(1, 1), ListScript(ListAt(f, i), c.stops[i], 0, ListsScript(f, c, i + 1, t)), w);
  }

  /** The j-th scale of a list, as the delta d. */
  lemma FoldScale(l: seq<int>, stop: nat, j: nat, d: int, t: Script, w: Word) returns (n: Word)
    requires Codable(l, stop) && j < stop && d == Delta(Last(l, j), Last(l, j + 1))
    ensures n == Put(w, SE(d)) && Fold(ListScript(l, stop, j, t), w) == Fold(ListScript(l, stop, j + 1, t), n)
  {
    hide Put, Fold, Codable, Delta;
    n := FoldOne(SE(d), ListScript(l, stop, j + 1, t), w);
  }

  /** The zero scale behind the last one sent, as the delta d. */
  lemma FoldStop(l: seq<int>, stop: nat, d: int, t: Script, w: Word) returns (n: Word)
    requires Codable(l, stop) && stop < |l| && d == Delta(Last(l, stop), 0)
    ensures n == Put(w, SE(d)) && Fold(ListScript(l, stop, stop, t), w) == Fold(t, n)
  {
    hide Put, Fold, Codable, Delta, Last;
    n := FoldOne(SE(d), t, w);
  }

  /** Behind the last scale of a list that is sent in full nothing else follows. */
  lemma FoldLast(l: seq<int>, t: Script, w: Word)
    requires Codable(l, |l|)
    ensures Fold(ListScript(l, |l|, |l|, t), w) == Fold(t, w)
  {
  }

  /** A stepped list as a whole. */
  lemma FoldStepped(size: nat, first: int, others: int, t: Script, w: Word) returns (n: Word)
    requires ListSize(size) && 1 <= first <= 255 && 1 <= others <= 255
    ensures Codable(Stepped(size, first, others), 2)
    ensures n == Put(Put(Put(w, SE(Delta(8, first))), SE(Delta(first, others))), SE(Delta(others, 0)))
    ensures Fold(ListScript(Stepped(size, first, others), 2, 0, t), w) == Fold(t, n)
  {
    hide Put, Fold, Codable, Delta, Last, Stepped, ListScript;
    var l := Stepped(size, first, others);
    SteppedIsCodable(size, first, others, 2);
    ScansOfStepped(size, first, others);
    SteppedSize(size, first, others);
    n := FoldScale(l, 2, 0, Delta(8, first), t, w);
    n := FoldScale(l, 2, 1, Delta(first, others), t, n);
    n := FoldStop(l, 2, Delta(others, 0), t, n);
  }

  /** All lists that are not sent are equal, up to their size. */
  lemma ZeroListAt(i: nat)
    ensures ZeroList(i) == ZeroList(if i < 6 then 0 else 6)
  {
  }

  lemma SteppedSize(n: nat, first: int, others: int)
    ensures |Stepped(n, first, others)| == n
  {
  }
}
