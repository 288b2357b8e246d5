// The PID statistics of libeasyice/src/EasyICEDLL/MpegDec.cpp: CalcPidList and UpdatePidListResult.
module PidTable {

  const TABLE_SIZE: nat := 1000
  const NO_PID: int := -1
  const PACKET_MPEG1_VIDEO: int := 0   // the value operator[] gives a PID without a known type

  datatype PidInfo = PidInfo(pid: int, count: int)

  datatype PidEntry = PidEntry(pid: int, total: int, packetType: int, percent: real)

  // ---------------------------------------------------------------- histograms

  /** The distinct PIDs of a packet sequence in the order of their first packets. */
  function FirstSeen(s: seq<int>): (d: seq<int>)
    ensures |d| <= |s|
  {
    if s == [] then [] else
      var d, p := FirstSeen(s[..|s| - 1]), s[|s| - 1];
      if p in d then d else d + [p]
  }

  function Occurrences(s: seq<int>, p: int): (n: nat)
    ensures n <= |s|
  {
    if s == [] then 0 else Occurrences(s[..|s| - 1], p) + (if s[|s| - 1] == p then 1 else 0)
  }

  lemma Snoc(s: seq<int>, p: int)
    ensures FirstSeen(s + [p]) == if p in FirstSeen(s) then FirstSeen(s) else FirstSeen(s) + [p]
    ensures forall q :: Occurrences(s + [p], q) == Occurrences(s, q) + (if p == q then 1 else 0)
  {
    assert (s + [p])[..|s|] == s;
  }

  /** FirstSeen lists exactly the PIDs that occur, each once. */
  lemma {:induction false} FirstSeenDistinct(s: seq<int>)
    ensures forall i, j :: 0 <= i < j < |FirstSeen(s)| ==> FirstSeen(s)[i] != FirstSeen(s)[j]
    ensures forall p :: p in FirstSeen(s) <==> p in s
    ensures forall p :: p in s <==> Occurrences(s, p) > 0
  {
    if s != [] {
      var t, p := s[..|s| - 1], s[|s| - 1];
      FirstSeenDistinct(t);
      assert s == t + [p];
    }
  }

  /** The histogram counts packets. */
  lemma {:induction false} OccurrencesCount(s: seq<int>, p: int)
    ensures Occurrences(s, p) == multiset(s)[p]
  {
    if s != [] {
      OccurrencesCount(s[..|s| - 1], p);
      assert s == s[..|s| - 1] + [s[|s| - 1]];
    }
  }

  /** FirstSeen lists the PIDs in the order of their first packets. */
  lemma {:induction false} FirstSeenOrder(s: seq<int>, i: nat, j: nat) returns (k: nat)
    requires i < j < |FirstSeen(s)|
    ensures k < |s| && s[k] == FirstSeen(s)[i] && FirstSeen(s)[j] !in s[..k + 1]
  {
    var t, p := s[..|s| - 1], s[|s| - 1];
    var d := FirstSeen(t);
    if j < |d| {
      k := FirstSeenOrder(t, i, j);
      assert s[..k + 1] == t[..k + 1];
    } else {
      FirstSeenDistinct(t);
      assert d[i] in d;
      k :| 0 <= k < |t| && t[k] == d[i];
      assert s[..k + 1] == t[..k + 1];
    }
  }

  /** The total of a histogram over a list of PIDs. */
  function TotalOver(s: seq<int>, d: seq<int>): nat {
    if d == [] then 0 else TotalOver(s, d[..|d| - 1]) + Occurrences(s, d[|d| - 1])
  }

  lemma {:induction false} TotalOverSnoc(s: seq<int>, p: int, d: seq<int>)
    requires forall i, j :: 0 <= i < j < |d| ==> d[i] != d[j]
    ensures TotalOver(s + [p], d) == TotalOver(s, d) + (if p in d then 1 else 0)
    decreases |d|
  {
    if d != [] {
      var e, q := d[..|d| - 1], d[|d| - 1];
      TotalOverSnoc(s, p, e);
      Snoc(s, p);
      assert d == e + [q];
    }
  }

  /** The counts of all distinct PIDs add up to the number of packets. */
  lemma {:induction false} TotalIsPackets(s: seq<int>)
    ensures TotalOver(s, FirstSeen(s)) == |s|
  {
    if s != [] {
      var t, p := s[..|s| - 1], s[|s| - 1];
      TotalIsPackets(t);
      FirstSeenDistinct(t);
      assert s == t + [p];
      Snoc(t, p);
      var d := FirstSeen(t);
      TotalOverSnoc(t, p, d);
      if p !in d {
        assert (d + [p])[..|d|] == d;
      }
    }
  }

  /** total * 1.0 / n, in exact arithmetic. */
  function Share(total: int, n: int): real
    requires n > 0
  {
    total as real / n as real
  }

  lemma ShareAdds(a: int, b: int, n: int)
    requires n > 0
    ensures Share(a + b, n) == Share(a, n) + Share(b, n)
  {
  }

  lemma ShareOfAll(n: int)
    requires n > 0
    ensures Share(n, n) == 1.0 && Share(0, n) == 0.0
  {
  }

  /** The shares of all PIDs of a list together. */
  function SharesOver(s: seq<int>, d: seq<int>): real
    requires s != []
  {
    if d == [] then 0.0 else SharesOver(s, d[..|d| - 1]) + Share(Occurrences(s, d[|d| - 1]), |s|)
  }

  lemma {:induction false} SharesAreTotal(s: seq<int>, d: seq<int>)
    requires s != []
    ensures SharesOver(s, d) == Share(TotalOver(s, d), |s|)
    decreases |d|
  {
    hide Share, Occurrences;
    if d == [] {
      ShareOfAll(|s|);
    } else {
      SharesAreTotal(s, d[..|d| - 1]);
      ShareAdds(TotalOver(s, d[..|d| - 1]), Occurrences(s, d[|d| - 1]), |s|);
    }
  }

  /** The percentages of all PIDs add up to one. */
  lemma SharesSumToOne(s: seq<int>)
    requires s != []
    ensures SharesOver(s, FirstSeen(s)) == 1.0
  {
    hide Share, Occurrences, TotalOver, SharesOver, FirstSeen;
    TotalIsPackets(s);
    SharesAreTotal(s, FirstSeen(s));
    ShareOfAll(|s|);
  }

  // ---------------------------------------------------------------- the decoder's tables

  /** The first entries are the distinct PIDs in first-seen order with their counts, the others are free. */
  ghost predicate Table(t: seq<PidInfo>, s: seq<int>) {
    var d := FirstSeen(s);
    && |t| == TABLE_SIZE && |d| <= TABLE_SIZE
    && (forall i :: 0 <= i < |d| ==> t[i] == PidInfo(d[i], Occurrences(s, d[i])))
    && (forall i :: |d| <= i < TABLE_SIZE ==> t[i].pid == NO_PID)
  }

  /** One more packet of the i-th PID. */
  lemma TableCounted(t: seq<PidInfo>, s: seq<int>, i: nat)
    requires Table(t, s) && i < |FirstSeen(s)|
    ensures Table(t[i := t[i].(count := t[i].count + 1)], s + [t[i].pid])
  {
    var p := t[i].pid;
    Snoc(s, p);
    FirstSeenDistinct(s);
    assert p in FirstSeen(s);
    hide FirstSeen, Occurrences;
  }

  /** The first packet of a new PID. */
  lemma TableExtended(t: seq<PidInfo>, s: seq<int>, p: int)
    requires Table(t, s) && p !in FirstSeen(s) && |FirstSeen(s)| < TABLE_SIZE
    ensures Table(t[|FirstSeen(s)| := PidInfo(p, 1)], s + [p])
  {
    Snoc(s, p);
    FirstSeenDistinct(s);
    hide FirstSeen, Occurrences;
  }

  class CMpegDec {
    const m_pPidInfo: array<PidInfo>
    var m_mapPidList: map<int, PidEntry>
    var m_mapPacketType: map<int, int>
    ghost var fed: seq<int>              // the PIDs of all packets since LiveInit

    /** The table is the histogram of the packets fed. */
    ghost predicate Entries()
      reads `fed, m_pPidInfo
    {
      NO_PID !in fed && Table(m_pPidInfo[..], fed)
    }

    /** The entry behind them ends the table. */
    ghost predicate Sentinel()
      reads `fed, m_pPidInfo
    {
      var d := FirstSeen(fed);
      |d| < m_pPidInfo.Length && m_pPidInfo[|d|].pid == NO_PID
    }

    ghost predicate Valid()
      reads this, m_pPidInfo
    {
      && Entries() && Sentinel()
      && (forall p :: p in m_mapPidList ==> p in fed && m_mapPidList[p].pid == p)
    }

    /** The part of LiveInit that concerns the PID tables. */
    constructor (packetTypes: map<int, int>)
      ensures Valid() && fed == [] && m_mapPidList == map[] && m_mapPacketType == packetTypes
      ensures fresh(m_pPidInfo)
    {
      m_pPidInfo := new PidInfo[TABLE_SIZE](_ => PidInfo(NO_PID, 0));
      m_mapPidList, m_mapPacketType, fed := map[], packetTypes, [];
    }

    /**
     * Counts one packet. The table stays a sentinel-terminated histogram exactly as long as fewer
     * than 1000 distinct PIDs have been seen; the 1000th takes the place of the sentinel.
     */
    method CalcPidList(pid: int)
      requires Valid() && pid != NO_PID
      modifies m_pPidInfo, `fed
      ensures fed == old(fed) + [pid] && Entries()
      ensures Sentinel() <==> |FirstSeen(fed)| < 1000
      ensures |FirstSeen(fed)| < TABLE_SIZE ==> Valid()
    {
      hide FirstSeen, Occurrences;
      ghost var d, was := FirstSeen(fed), m_pPidInfo[..];
      ghost var now := FirstSeen(fed + [pid]);
      Snoc(fed, pid);
      FirstSeenDistinct(fed);
      var p := 0;
      while m_pPidInfo[p].pid != NO_PID
        invariant 0 <= p <= |d| && (forall i :: 0 <= i < p ==> d[i] != pid)
        invariant m_pPidInfo[..] == was
        decreases |d| - p
      {
        assert was[p] == m_pPidInfo[p];
        assert p < |d|;
        if m_pPidInfo[p].pid == pid {
          TableCounted(was, fed, p);
          m_pPidInfo[p] := m_pPidInfo[p].(count := m_pPidInfo[p].count + 1);
          fed := fed + [pid];
          return;
        }
        p := p + 1;
        if p > 1000 {
          assert false;
        }
      }
      assert p == |d|;
      TableExtended(was, fed, pid);
      m_pPidInfo[p] := PidInfo(pid, 1);
      fed := fed + [pid];
    }

    /** Entry p of the table belongs to the p-th PID, and the one behind the last PID is the sentinel. */
    lemma EntryAt(p: nat)
      requires Entries() && Sentinel() && p <= |FirstSeen(fed)|
      ensures |FirstSeen(fed)| < TABLE_SIZE == m_pPidInfo.Length
      ensures m_pPidInfo[p].pid == NO_PID <==> p == |FirstSeen(fed)|
      ensures p < |FirstSeen(fed)| ==>
                var q := FirstSeen(fed)[p];
                q in fed && m_pPidInfo[p] == PidInfo(q, Occurrences(fed, q))
    {
      hide FirstSeen, Occurrences;
      FirstSeenDistinct(fed);
      assert m_pPidInfo[..][p] == m_pPidInfo[p];
      if p < |FirstSeen(fed)| {
        assert FirstSeen(fed)[p] in FirstSeen(fed);
      }
    }

    /**
     * Copies the table to the result map and computes the percentages. The map then is the histogram
     * of all packets; a PID without a known type gets the type of operator[]'s default.
     */
    method UpdatePidListResult()
      requires Valid()
      modifies `m_mapPidList, `m_mapPacketType
      ensures Valid()
      ensures forall p :: p in m_mapPidList <==> p in fed
      ensures forall p :: p in fed ==>
                m_mapPidList[p] == PidEntry(p, Occurrences(fed, p), TypeOf(old(m_mapPacketType), p), Share(Occurrences(fed, p), |fed|))
      ensures forall p :: p in fed ==>
                m_mapPidList[p].packetType == if p in old(m_mapPacketType) then old(m_mapPacketType)[p] else 0
      ensures forall p :: p in m_mapPacketType <==> p in old(m_mapPacketType) || p in fed
      ensures forall p :: p in m_mapPacketType ==> m_mapPacketType[p] == TypeOf(old(m_mapPacketType), p)
    {
      hide Share, Occurrences, FirstSeen, TotalOver, Entries, Table;
      FirstSeenDistinct(fed);
      TotalIsPackets(fed);
      var nAllPacketCount := CopyTable();
      SetPercents(nAllPacketCount);
    }

    /** The first loop: every table entry goes to the result map. */
    method CopyTable() returns (nAllPacketCount: int)
      requires Valid()
      modifies `m_mapPidList, `m_mapPacketType
      ensures nAllPacketCount == TotalOver(fed, FirstSeen(fed))
      ensures forall q :: q in m_mapPidList ==> q in fed && m_mapPidList[q].pid == q
      ensures forall q :: q in FirstSeen(fed) ==>
                && q in m_mapPidList && m_mapPidList[q].total == Occurrences(fed, q)
                && m_mapPidList[q].packetType == TypeOf(old(m_mapPacketType), q)
      ensures forall q :: q in m_mapPacketType <==> q in old(m_mapPacketType) || q in FirstSeen(fed)
      ensures forall q :: q in m_mapPacketType ==> m_mapPacketType[q] == TypeOf(old(m_mapPacketType), q)
    {
      hide Occurrences, FirstSeen, TotalOver, Entries, Table, TypeOf;
      ghost var d, types := FirstSeen(fed), m_mapPacketType;
      nAllPacketCount := 0;
      var p := 0;
      NoTotal(fed, d);
      EntryAt(p);
      Untouched(types);
      while m_pPidInfo[p].pid != NO_PID
        invariant 0 <= p <= |d| < TABLE_SIZE == m_pPidInfo.Length && (m_pPidInfo[p].pid == NO_PID <==> p == |d|)
        invariant nAllPacketCount == TotalOver(fed, d[..p])
        invariant forall q :: q in m_mapPidList ==> q in fed && m_mapPidList[q].pid == q
        invariant forall q :: q in d[..p] ==>
                    && q in m_mapPidList && m_mapPidList[q].total == Occurrences(fed, q)
                    && m_mapPidList[q].packetType == TypeOf(types, q)
        invariant forall q :: q in m_mapPacketType <==> q in types || q in d[..p]
        invariant forall q :: q in m_mapPacketType ==> m_mapPacketType[q] == TypeOf(types, q)
        decreases |d| - p
      {
        EntryAt(p);
        EntryAt(p + 1);
        NextTotal(fed, d, p);
        nAllPacketCount := nAllPacketCount + m_pPidInfo[p].count;
        SameType(m_mapPacketType, types, d[p]);
        CopyEntry(m_pPidInfo[p]);
        assert d[..p + 1] == d[..p] + [d[p]];
        p := p + 1;
      }
      assert d[..p] == d;
    }

    /** The body of the first loop: one table entry goes to the result map. */
    method CopyEntry(info: PidInfo)
      requires info.pid in m_mapPidList ==> m_mapPidList[info.pid].pid == info.pid
      modifies `m_mapPidList, `m_mapPacketType
      ensures m_mapPacketType == old(m_mapPacketType)[info.pid := TypeOf(old(m_mapPacketType), info.pid)]
      ensures info.pid in m_mapPidList
      ensures var e := m_mapPidList[info.pid];
              && e.pid == info.pid && e.total == info.count && e.packetType == TypeOf(old(m_mapPacketType), info.pid)
              && m_mapPidList == old(m_mapPidList)[info.pid := e]
    {
      if info.pid !in m_mapPacketType {
        m_mapPacketType := m_mapPacketType[info.pid := PACKET_MPEG1_VIDEO];
      }
      if info.pid !in m_mapPidList {
        m_mapPidList := m_mapPidList[info.pid := PidEntry(info.pid, info.count, m_mapPacketType[info.pid], 0.0)];
      } else {
        m_mapPidList := m_mapPidList[info.pid :=
          m_mapPidList[info.pid].(total := info.count, packetType := m_mapPacketType[info.pid])];
      }
    }

    /** The loop over the result map. */
    method SetPercents(nAllPacketCount: int)
      requires nAllPacketCount == |fed| && forall q :: q in m_mapPidList ==> q in fed
      modifies `m_mapPidList
      ensures forall q :: q in m_mapPidList <==> q in old(m_mapPidList)
      ensures forall q :: q in m_mapPidList ==>
                m_mapPidList[q] == old(m_mapPidList)[q].(percent := Share(old(m_mapPidList)[q].total, |fed|))
    {
      hide Share;
      ghost var was := m_mapPidList;
      var todo := m_mapPidList.Keys;
      while todo != {}
        invariant todo <= was.Keys && m_mapPidList.Keys == was.Keys
        invariant forall q :: q in was && q in todo ==> m_mapPidList[q] == was[q]
        invariant forall q :: q in was && q !in todo ==>
                    |fed| > 0 && m_mapPidList[q] == was[q].(percent := Share(was[q].total, |fed|))
        decreases todo
      {
        if q :| q in todo {
          assert q in fed;
          m_mapPidList := m_mapPidList[q := m_mapPidList[q].(percent := Share(m_mapPidList[q].total, nAllPacketCount))];
          todo := todo - {q};
        } else {
          todo := {};
        }
      }
    }
  }

  /** What `types[p]` yields when operator[] inserts the zero value for a missing key. */
  function TypeOf(types: map<int, int>, p: int): int {
    if p in types then types[p] else PACKET_MPEG1_VIDEO
  }

  lemma Untouched(types: map<int, int>)
    ensures forall q :: q in types ==> types[q] == TypeOf(types, q)
  {
  }

  /** Inserting defaults does not change what a later lookup yields. */
  lemma SameType(now: map<int, int>, types: map<int, int>, q: int)
    requires forall r :: r in now ==> now[r] == TypeOf(types, r)
    requires forall r :: r in types ==> r in now
    ensures TypeOf(now, q) == TypeOf(types, q)
  {
  }

  lemma NoTotal(s: seq<int>, d: seq<int>)
    ensures TotalOver(s, d[..0]) == 0
  {
  }

  lemma NextTotal(s: seq<int>, d: seq<int>, p: nat)
    requires p < |d|
    ensures TotalOver(s, d[..p + 1]) == TotalOver(s, d[..p]) + Occurrences(s, d[p])
  {
    assert d[..p + 1][..p] == d[..p];
  }
}
