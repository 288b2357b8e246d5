// The ring buffer of libeasyice/src/EasyICEDLL/CircularBuffer.cpp as a class.
module RingBuffer {

  const TS_PACKET_SIZE: nat := 188

  datatype ItemInfo = ItemInfo(item_size: int, time: int)

  /** One accepted item: its bytes and its time stamp. */
  datatype Item = Item(data: seq<bv8>, time: int)

  /** Stepping around a ring of n slots. */
  function Wrap(x: int, n: int): int {
    if x < n then x else x - n
  }

  lemma WrapIsRemainder(x: int, n: int)
    requires 0 <= x < 2 * n
    ensures x % n == Wrap(x, n)
  {
  }

  /** The number of slots from start up to, not including, next. */
  function Distance(start: int, next: int, n: int): int {
    if start <= next then next - start else next - start + n
  }

  /** The first n bytes of row k. */
  ghost function RowBytes(a: array2<bv8>, k: int, n: int): (s: seq<bv8>)
    requires 0 <= k < a.Length0 && 0 <= n <= a.Length1
    reads a
    ensures |s| == n && forall i :: 0 <= i < n ==> s[i] == a[k, i]
  {
    seq(n, i requires 0 <= i < n reads a => a[k, i])
  }

  /** memcpy of n bytes to the start of row k. */
  method CopyTo(a: array2<bv8>, k: int, source: seq<bv8>, n: int)
    requires 0 <= k < a.Length0 && 0 <= n <= a.Length1 && n <= |source|
    modifies a
    ensures RowBytes(a, k, n) == source[..n]
    ensures forall q, b :: 0 <= q < a.Length0 && 0 <= b < a.Length1 && (q != k || n <= b) ==> a[q, b] == old(a[q, b])
  {
    forall i | 0 <= i < n {
      a[k, i] := source[i];
    }
    assert forall i :: 0 <= i < n ==> a[k, i] == source[i];
  }

  class CCircularBuffer {
    var m_start: int
    var m_end: int
    var m_size: int
    var m_TS_in_item: int
    var m_item_size: int
    var m_item_data: array2<bv8>    // m_size slots of m_item_size bytes; row k stands at m_item_size * k
    var m_pItemInfo: array<ItemInfo>
    ghost var contents: seq<Item>   // the queued items, oldest first

    ghost predicate Shape()
      reads this
    {
      && 2 <= m_size && 0 <= m_start < m_size && 0 <= m_end < m_size
      && m_item_data.Length0 == m_size && m_item_data.Length1 == m_item_size
      && m_pItemInfo.Length == m_size
      && |contents| == Distance(m_start, Wrap(m_end + 1, m_size), m_size)
    }

    /** Slot k holds item x. */
    ghost predicate Holds(k: int, x: Item)
      reads `m_item_data, `m_pItemInfo, m_item_data, m_pItemInfo
    {
      && 0 <= k < m_pItemInfo.Length && 0 <= k < m_item_data.Length0
      && m_pItemInfo[k] == ItemInfo(|x.data|, x.time)
      && |x.data| <= m_item_data.Length1
      && x.data == RowBytes(m_item_data, k, |x.data|)
    }

    /** Slot k holds a queued item. */
    ghost predicate Queued(k: int)
      reads this
    {
      0 <= k < m_size && Distance(m_start, k, m_size) < |contents|
    }

    ghost predicate Valid()
      reads this, m_item_data, m_pItemInfo
    {
      && Shape()
      && (forall i :: 0 <= i < |contents| ==> Holds(Wrap(m_start + i, m_size), contents[i]))
    }

    /** The slot in front of the oldest item: the one last returned by ReadItem. */
    ghost function GapSlot(): int
      reads `m_start, `m_size
    {
      if m_start == 0 then m_size - 1 else m_start - 1
    }

    /** The constructor followed by Init. */
    constructor (circ_buf_size: int, TS_in_packet: int)
      requires circ_buf_size >= 2 && TS_in_packet >= 0
      ensures Valid() && contents == []
      ensures m_size == circ_buf_size && m_item_size == TS_in_packet * TS_PACKET_SIZE
      ensures fresh(m_item_data) && fresh(m_pItemInfo)
    {
      m_start, m_end := 1, 0;
      m_size, m_TS_in_item := circ_buf_size, TS_in_packet;
      m_item_size := TS_in_packet * TS_PACKET_SIZE;
      m_item_data := new bv8[circ_buf_size, TS_in_packet * TS_PACKET_SIZE];
      m_pItemInfo := new ItemInfo[circ_buf_size](i => ItemInfo(0, 0));
      contents := [];
    }

    method Empty() returns (b: bool)
      requires Valid()
      ensures b == (contents == [])
    {
      WrapIsRemainder(m_end + 1, m_size);
      b := m_start == (m_end + 1) % m_size;
    }

    method Full() returns (b: bool)
      requires Valid()
      ensures b == (|contents| == m_size - 1)
    {
      WrapIsRemainder(m_end + 2, m_size);
      b := (m_end + 2) % m_size == m_start;
    }

    /**
     * Appends an item unless m_size - 1 are queued. Only the slot that becomes m_end is written; it
     * is neither a queued slot nor the slot last returned by ReadItem.
     */
    method WriteItem(pData: seq<bv8>, nLen: int, llTime: int) returns (ok: bool)
      requires Valid() && 0 <= nLen <= |pData| && nLen <= m_item_size
      modifies `m_end, `contents, m_item_data, m_pItemInfo
      ensures Valid()
      ensures ok == (|old(contents)| < m_size - 1)
      ensures contents == if ok then old(contents) + [Item(pData[..nLen], llTime)] else old(contents)
      ensures !ok ==> m_end == old(m_end)
      ensures forall k, b :: 0 <= k < m_size && 0 <= b < m_item_size && !(ok && k == m_end) ==>
                m_item_data[k, b] == old(m_item_data[k, b])
      ensures forall k :: 0 <= k < m_size && !(ok && k == m_end) ==> m_pItemInfo[k] == old(m_pItemInfo[k])
      ensures ok ==> m_end != GapSlot() && !old(Queued((m_end + 1) % m_size))
      ensures ok ==> m_end == (old(m_end) + 1) % m_size
    {
      var full := Full();
      if full {
        return false;
      }
      WrapIsRemainder(m_end + 1, m_size);
      var end := (m_end + 1) % m_size;
      StoreItem(end, pData, nLen, llTime);
      KeepsQueued(end);
      ghost var was, item := contents, Item(pData[..nLen], llTime);
      hide Holds;
      m_end := end;
      contents := contents + [item];
      forall i | 0 <= i < |contents|
        ensures Holds(Wrap(m_start + i, m_size), contents[i])
      {
        if i < |was| {
          assert contents[i] == was[i];
        }
      }
      return true;
    }

    /** memcpy of the bytes and the two assignments to m_pItemInfo[k]. */
    method StoreItem(k: int, pData: seq<bv8>, nLen: int, llTime: int)
      requires Shape() && 0 <= k < m_size && 0 <= nLen <= |pData| && nLen <= m_item_size
      modifies m_item_data, m_pItemInfo
      ensures Holds(k, Item(pData[..nLen], llTime))
      ensures forall q, b :: 0 <= q < m_size && 0 <= b < m_item_size && q != k ==>
                m_item_data[q, b] == old(m_item_data[q, b])
      ensures forall q :: 0 <= q < m_size && q != k ==> m_pItemInfo[q] == old(m_pItemInfo[q])
    {
      CopyTo(m_item_data, k, pData, nLen);
      m_pItemInfo[k] := ItemInfo(nLen, llTime);
      assert RowBytes(m_item_data, k, nLen) == pData[..nLen];
    }

    /** What the queued slots hold survives a write to the slot behind the last one. */
    twostate lemma KeepsQueued(e: int)
      requires unchanged(this) && old(Valid()) && |contents| < m_size - 1 && e == Wrap(m_end + 1, m_size)
      requires forall k, b :: 0 <= k < m_size && 0 <= b < m_item_size && k != e ==>
                 m_item_data[k, b] == old(m_item_data[k, b])
      requires forall k :: 0 <= k < m_size && k != e ==> m_pItemInfo[k] == old(m_pItemInfo[k])
      ensures forall i :: 0 <= i < |contents| ==> Holds(Wrap(m_start + i, m_size), contents[i])
      ensures Wrap(m_start + |contents|, m_size) == e && !Queued(e) && e != GapSlot()
    {
      forall i | 0 <= i < |contents|
        ensures Holds(Wrap(m_start + i, m_size), contents[i])
      {
        var k := Wrap(m_start + i, m_size);
        assert old(Holds(k, contents[i])) && k != e;
        assert RowBytes(m_item_data, k, |contents[i].data|) == old(RowBytes(m_item_data, k, |contents[i].data|));
      }
    }

    /**
     * Removes the oldest item and returns the slot that holds its bytes, or -1 for NULL. That slot
     * becomes the gap slot, which no WriteItem touches before the next ReadItem.
     */
    method ReadItem() returns (p: int, info: ItemInfo)
      requires Valid()
      modifies `m_start, `contents
      ensures Valid()
      ensures old(contents) == [] ==> p == -1 && info.item_size == 0 && contents == [] && m_start == old(m_start)
      ensures old(contents) != [] ==>
                && contents == old(contents)[1..]
                && p == GapSlot() && Holds(p, old(contents)[0]) && info == m_pItemInfo[p]
    {
      var empty := Empty();
      if empty {
        return -1, ItemInfo(0, 0);
      }
      assert Holds(Wrap(m_start + 0, m_size), contents[0]);
      info := m_pItemInfo[m_start];
      p := m_start;
      WrapIsRemainder(m_start + 1, m_size);
      ghost var was := contents;
      m_start := (m_start + 1) % m_size;
      contents := contents[1..];
      forall i | 0 <= i < |contents|
        ensures Holds(Wrap(m_start + i, m_size), contents[i])
      {
        assert Wrap(m_start + i, m_size) == Wrap(p + (i + 1), m_size);
        assert contents[i] == was[i + 1];
      }
    }
  }
}
