// One writer thread and one reader thread on the ring buffer of
// libeasyice/src/EasyICEDLL/CircularBuffer.cpp, each call split into its accesses to shared memory.
// The accesses are interleaved one at a time (sequential consistency).
module RingInterleaving {
  import opened RingBuffer

  // ---------------------------------------------------------------- states and steps

  /** Where the writer is inside WriteItem. */
  datatype Writer =
    | OutsideWrite
    | Copying(item: Item, copied: nat)    // memcpy has moved the first bytes
    | StoringTime(item: Item)             // item_size is stored, time is not
    | PublishingEnd(item: Item)           // the slot is complete, m_end is not moved

  /** Where the reader is inside ReadItem. */
  datatype Reader =
    | OutsideRead
    | LoadingSize
    | LoadingTime(size: int)
    | PublishingStart(size: int, time: int)

  /** The pointer returned by the last ReadItem, with the size and time it came with. */
  datatype Lent = NotLent | Lent(slot: nat, size: int, time: int)

  datatype State = State(
    size: nat,
    capacity: nat,                        // m_item_size
    m_start: nat,
    m_end: nat,
    data: seq<seq<bv8>>,
    info: seq<ItemInfo>,
    writer: Writer,
    reader: Reader,
    lent: Lent,
    accepted: seq<Item>,                  // the items of all WriteItem calls that have published
    delivered: seq<Item>)                 // what every returned pointer showed when it was returned

  datatype Step =
    | BeginWrite(item: Item)              // the test Full()
    | CopyByte
    | StoreSize
    | StoreTime
    | PublishEnd
    | BeginRead                           // the test Empty()
    | LoadSize
    | LoadTime
    | PublishStart

  function Init(size: nat, capacity: nat): State {
    State(size, capacity, 1, 0, seq(size, _ => seq(capacity, _ => 0)), seq(size, _ => ItemInfo(0, 0)),
          OutsideWrite, OutsideRead, NotLent, [], [])
  }

  /** (k + 1) % n */
  function Succ(k: nat, n: nat): (r: nat)
    requires k < n
    ensures r == if k + 1 == n then 0 else k + 1
  {
    WrapIsRemainder(k + 1, n);
    (k + 1) % n
  }

  predicate Shape(s: State) {
    && s.size >= 2 && s.m_start < s.size && s.m_end < s.size
    && |s.data| == |s.info| == s.size
    && (forall k :: 0 <= k < s.size ==> |s.data[k]| == s.capacity)
    && (s.writer.Copying? ==> s.writer.copied <= |s.writer.item.data|)
    && (!s.writer.OutsideWrite? ==> |s.writer.item.data| <= s.capacity)
    && (s.reader.PublishingStart? ==> 0 <= s.reader.size <= s.capacity)
  }

  predicate Full(s: State)
    requires Shape(s)
  {
    (s.m_end + 2) % s.size == s.m_start
  }

  predicate Empty(s: State)
    requires Shape(s)
  {
    s.m_start == (s.m_end + 1) % s.size
  }

  /** The slot WriteItem fills. */
  function Target(s: State): nat
    requires Shape(s)
  {
    Succ(s.m_end, s.size)
  }

  predicate Enabled(s: State, step: Step)
    requires Shape(s)
  {
    match step
    case BeginWrite(item) => s.writer.OutsideWrite? && |item.data| <= s.capacity
    case CopyByte => s.writer.Copying? && s.writer.copied < |s.writer.item.data|
    case StoreSize => s.writer.Copying? && s.writer.copied == |s.writer.item.data|
    case StoreTime => s.writer.StoringTime?
    case PublishEnd => s.writer.PublishingEnd?
    case BeginRead => s.reader.OutsideRead?
    case LoadSize => s.reader.LoadingSize?
    case LoadTime => s.reader.LoadingTime?
    case PublishStart => s.reader.PublishingStart?
  }

  function Apply(s: State, step: Step): State
    requires Shape(s) && Enabled(s, step)
  {
    match step
    case BeginWrite(item) =>
      if Full(s) then s else s.(writer := Copying(item, 0))
    case CopyByte =>
      var e, i := Target(s), s.writer.copied;
      s.(data := s.data[e := s.data[e][i := s.writer.item.data[i]]], writer := s.writer.(copied := i + 1))
    case StoreSize =>
      var e := Target(s);
      s.(info := s.info[e := s.info[e].(item_size := |s.writer.item.data|)], writer := StoringTime(s.writer.item))
    case StoreTime =>
      var e := Target(s);
      s.(info := s.info[e := s.info[e].(time := s.writer.item.time)], writer := PublishingEnd(s.writer.item))
    case PublishEnd =>
      s.(m_end := Target(s), accepted := s.accepted + [s.writer.item], writer := OutsideWrite)
    case BeginRead =>
      s.(lent := NotLent, reader := if Empty(s) then OutsideRead else LoadingSize)
    case LoadSize =>
      s.(reader := LoadingTime(s.info[s.m_start].item_size))
    case LoadTime =>
      s.(reader := PublishingStart(s.reader.size, s.info[s.m_start].time))
    case PublishStart =>
      var n, t := s.reader.size, s.reader.time;
      s.(m_start := Succ(s.m_start, s.size), reader := OutsideRead, lent := Lent(s.m_start, n, t),
         delivered := s.delivered + [Item(s.data[s.m_start][..n], t)])
  }

  // ---------------------------------------------------------------- the invariant

  function Count(s: State): int
    requires Shape(s)
  {
    Distance(s.m_start, Target(s), s.size)
  }

  /** Slot k holds item x. */
  predicate Holds(s: State, k: nat, x: Item)
    requires Shape(s) && k < s.size
  {
    && s.info[k] == ItemInfo(|x.data|, x.time)
    && |x.data| <= s.capacity && s.data[k][..|x.data|] == x.data
  }

  /** How many items are queued before slot k's. */
  function Rank(s: State, k: nat): int {
    Distance(s.m_start, k, s.size)
  }

  /** Slot k belongs to a queued item. */
  predicate Queued(s: State, k: nat)
    requires Shape(s)
  {
    k < s.size && Rank(s, k) < Count(s)
  }

  ghost predicate WriterInv(s: State)
    requires Shape(s)
  {
    var e := Target(s);
    && (!s.writer.OutsideWrite? ==> Count(s) < s.size - 1)
    && match s.writer
       case OutsideWrite => true
       case Copying(item, n) => s.data[e][..n] == item.data[..n]
       case StoringTime(item) => s.data[e][..|item.data|] == item.data && s.info[e].item_size == |item.data|
       case PublishingEnd(item) => Holds(s, e, item)
  }

  ghost predicate ReaderInv(s: State)
    requires Shape(s)
  {
    && (!s.reader.OutsideRead? ==> Count(s) > 0 && s.lent.NotLent?)
    && match s.reader
       case OutsideRead => true
       case LoadingSize => true
       case LoadingTime(n) => n == s.info[s.m_start].item_size
       case PublishingStart(n, t) => s.info[s.m_start] == ItemInfo(n, t)
  }

  ghost predicate LentInv(s: State)
    requires Shape(s)
  {
    s.lent.Lent? ==>
      && s.lent.slot < s.size && Succ(s.lent.slot, s.size) == s.m_start
      && s.delivered != [] && Holds(s, s.lent.slot, s.delivered[|s.delivered| - 1])
      && s.info[s.lent.slot] == ItemInfo(s.lent.size, s.lent.time)
  }

  ghost predicate QueueInv(s: State)
    requires Shape(s)
  {
    && |s.accepted| == |s.delivered| + Count(s)
    && s.delivered == s.accepted[..|s.delivered|]
    && (forall k :: Queued(s, k) ==> Holds(s, k, s.accepted[|s.delivered| + Rank(s, k)]))
  }

  ghost predicate Inv(s: State) {
    Shape(s) && WriterInv(s) && ReaderInv(s) && LentInv(s) && QueueInv(s)
  }

  // ---------------------------------------------------------------- slots of the two threads

  lemma Indices(s: State)
    requires Shape(s)
    ensures 0 <= Count(s) < s.size
    ensures Full(s) <==> Count(s) == s.size - 1
    ensures Empty(s) <==> Count(s) == 0
    ensures !Queued(s, Target(s)) && Rank(s, Target(s)) == Count(s)
    ensures Count(s) > 0 ==> Queued(s, s.m_start) && Rank(s, s.m_start) == 0
  {
    WrapIsRemainder(s.m_end + 2, s.size);
    WrapIsRemainder(s.m_end + 1, s.size);
  }

  /** While the writer works on its slot, that slot is neither queued nor lent. */
  lemma TargetIsFree(s: State)
    requires Inv(s) && !s.writer.OutsideWrite?
    ensures !Queued(s, Target(s))
    ensures s.lent.Lent? ==> s.lent.slot != Target(s)
    ensures !s.reader.OutsideRead? ==> s.m_start != Target(s)
  {
    Indices(s);
  }

  /** A change confined to a free slot keeps the queue. */
  lemma QueueKept(s: State, t: State)
    requires Shape(s) && Shape(t) && QueueInv(s)
    requires t.size == s.size && t.capacity == s.capacity && t.m_start == s.m_start && t.m_end == s.m_end
    requires t.accepted == s.accepted && t.delivered == s.delivered
    requires forall k :: 0 <= k < s.size && k != Target(s) ==> t.data[k] == s.data[k] && t.info[k] == s.info[k]
    ensures QueueInv(t)
  {
    Indices(s);
    forall k | Queued(t, k)
      ensures Holds(t, k, t.accepted[|t.delivered| + Rank(t, k)])
    {
      assert Queued(s, k) && Holds(s, k, s.accepted[|s.delivered| + Rank(s, k)]);
    }
  }

  // ---------------------------------------------------------------- every step keeps the invariant

  lemma WriterStepKeeps(s: State, step: Step)
    requires Inv(s) && Enabled(s, step)
    requires step.BeginWrite? || step.CopyByte? || step.StoreSize? || step.StoreTime?
    ensures Inv(Apply(s, step))
  {
    var t := Apply(s, step);
    Indices(s);
    if step.CopyByte? {
      var e, i := Target(s), s.writer.copied;
      assert t.data[e][..i + 1] == s.writer.item.data[..i + 1];
    }
    QueueKept(s, t);
  }

  lemma PublishEndKeeps(s: State)
    requires Inv(s) && s.writer.PublishingEnd?
    ensures Inv(Apply(s, PublishEnd))
  {
    var t := Apply(s, PublishEnd);
    Indices(s);
    Indices(t);
    assert Count(t) == Count(s) + 1;
    forall k | Queued(t, k)
      ensures Holds(t, k, t.accepted[|t.delivered| + Rank(t, k)])
    {
      if k != Target(s) {
        assert Queued(s, k) && Holds(s, k, s.accepted[|s.delivered| + Rank(s, k)]);
      }
    }
  }

  lemma LoadKeeps(s: State, step: Step)
    requires Inv(s) && Enabled(s, step)
    requires step.BeginRead? || step.LoadSize? || step.LoadTime?
    ensures Inv(Apply(s, step))
  {
    var t := Apply(s, step);
    Indices(s);
    if !s.reader.OutsideRead? {
      assert Queued(s, s.m_start) && Holds(s, s.m_start, s.accepted[|s.delivered| + 0]);
    }
    QueueKept(s, t);
  }

  lemma PublishStartKeeps(s: State)
    requires Inv(s) && s.reader.PublishingStart?
    ensures Inv(Apply(s, PublishStart))
  {
    var t := Apply(s, PublishStart);
    Indices(s);
    Indices(t);
    assert Count(t) == Count(s) - 1;
    assert Queued(s, s.m_start) && Holds(s, s.m_start, s.accepted[|s.delivered| + 0]);
    assert t.delivered[|s.delivered|] == s.accepted[|s.delivered|];
    assert t.delivered == t.accepted[..|t.delivered|];
    forall k | Queued(t, k)
      ensures Holds(t, k, t.accepted[|t.delivered| + Rank(t, k)])
    {
      assert Rank(s, k) == Rank(t, k) + 1;
      assert Queued(s, k) && Holds(s, k, s.accepted[|s.delivered| + Rank(s, k)]);
    }
  }

  lemma StepKeeps(s: State, step: Step)
    requires Inv(s) && Enabled(s, step)
    ensures Inv(Apply(s, step))
  {
    match step
    case PublishEnd => PublishEndKeeps(s);
    case PublishStart => PublishStartKeeps(s);
    case BeginRead => LoadKeeps(s, step);
    case LoadSize => LoadKeeps(s, step);
    case LoadTime => LoadKeeps(s, step);
    case _ => WriterStepKeeps(s, step);
  }

  // ---------------------------------------------------------------- all runs

  /** The steps can be taken one after the other from s, and lead to t. */
  predicate Run(s: State, steps: seq<Step>, t: State)
    decreases |steps|
  {
    if steps == [] then s == t
    else Shape(s) && Enabled(s, steps[0]) && Run(Apply(s, steps[0]), steps[1..], t)
  }

  lemma InitInv(size: nat, capacity: nat)
    requires size >= 2
    ensures Inv(Init(size, capacity))
  {
    Indices(Init(size, capacity));
  }

  lemma {:induction false} RunKeeps(s: State, steps: seq<Step>, t: State)
    requires Inv(s) && Run(s, steps, t)
    ensures Inv(t)
    decreases |steps|
  {
    if steps != [] {
      StepKeeps(s, steps[0]);
      RunKeeps(Apply(s, steps[0]), steps[1..], t);
    }
  }

  /**
   * The items passed to WriteItem while fewer than size - 1 items were accepted and undelivered, read
   * off the steps alone; queued is the number of such items before the first step.
   */
  function NotRefused(size: nat, queued: int, steps: seq<Step>): seq<Item>
    decreases |steps|
  {
    if steps == [] then [] else
    match steps[0]
    case BeginWrite(item) => (if queued < size - 1 then [item] else []) + NotRefused(size, queued, steps[1..])
    case PublishEnd => NotRefused(size, queued + 1, steps[1..])
    case PublishStart => NotRefused(size, queued - 1, steps[1..])
    case _ => NotRefused(size, queued, steps[1..])
  }

  function Occurrences(steps: seq<Step>, step: Step): nat {
    if steps == [] then 0 else (if steps[0] == step then 1 else 0) + Occurrences(steps[1..], step)
  }

  /** The item the writer is at work on. */
  function AtWork(w: Writer): seq<Item> {
    if w.OutsideWrite? then [] else [w.item]
  }

  lemma StepAccepts(s: State, step: Step)
    requires Inv(s) && Enabled(s, step)
    ensures var t, queued := Apply(s, step), |s.accepted| - |s.delivered|;
            && t.size == s.size
            && |t.accepted| == |s.accepted| + (if step == PublishEnd then 1 else 0)
            && |t.delivered| == |s.delivered| + (if step == PublishStart then 1 else 0)
            && t.accepted + AtWork(t.writer)
               == s.accepted + AtWork(s.writer) + if step.BeginWrite? && queued < s.size - 1 then [step.item] else []
  {
    Indices(s);
  }

  lemma {:induction false} RunAccepts(s: State, steps: seq<Step>, t: State)
    requires Inv(s) && Run(s, steps, t)
    ensures t.accepted + AtWork(t.writer)
         == s.accepted + AtWork(s.writer) + NotRefused(s.size, |s.accepted| - |s.delivered|, steps)
    ensures |t.accepted| == |s.accepted| + Occurrences(steps, PublishEnd)
    ensures |t.delivered| == |s.delivered| + Occurrences(steps, PublishStart)
    decreases |steps|
  {
    hide Inv, Apply, AtWork, Enabled;
    if steps != [] {
      StepKeeps(s, steps[0]);
      StepAccepts(s, steps[0]);
      RunAccepts(Apply(s, steps[0]), steps[1..], t);
    }
  }

  /**
   * In every state of every interleaving: the accepted items, and the one the writer is at work on,
   * are those passed to WriteItem that were not refused; the delivered items are a prefix of the
   * accepted ones, in order and unmodified; what is accepted but not delivered is still whole in the ring; the slot of
   * the last returned pointer still shows the item delivered last; and the writer is at work on
   * neither a queued nor the lent slot.
   */
  lemma EveryRun(size: nat, capacity: nat, steps: seq<Step>, s: State)
    requires size >= 2 && Run(Init(size, capacity), steps, s)
    ensures Shape(s) && s.delivered <= s.accepted
    ensures s.accepted + AtWork(s.writer) == NotRefused(size, 0, steps)
    ensures s.delivered <= NotRefused(size, 0, steps)
    ensures |s.accepted| == Occurrences(steps, PublishEnd) && |s.delivered| == Occurrences(steps, PublishStart)
    ensures |s.accepted| == |s.delivered| + Count(s)
    ensures forall k :: Queued(s, k) ==> Holds(s, k, s.accepted[|s.delivered| + Rank(s, k)])
    ensures s.lent.Lent? ==>
              && s.delivered != [] && s.lent.slot < s.size && 0 <= s.lent.size <= s.capacity
              && Item(s.data[s.lent.slot][..s.lent.size], s.lent.time) == s.delivered[|s.delivered| - 1]
    ensures !s.writer.OutsideWrite? ==>
              && !Queued(s, Target(s))
              && (s.lent.Lent? ==> s.lent.slot != Target(s))
  {
    InitInv(size, capacity);
    RunKeeps(Init(size, capacity), steps, s);
    RunAccepts(Init(size, capacity), steps, s);
    if !s.writer.OutsideWrite? {
      TargetIsFree(s);
    }
  }

  /** A write is refused exactly when all but one slot are queued. */
  lemma RefusedIffFull(s: State, item: Item)
    requires Inv(s) && s.writer.OutsideWrite? && |item.data| <= s.capacity
    ensures Enabled(s, BeginWrite(item))
    ensures Apply(s, BeginWrite(item)).writer.OutsideWrite? <==> |s.accepted| - |s.delivered| == s.size - 1
  {
    Indices(s);
  }

  /** A read starts exactly when something is accepted and not delivered. */
  lemma ReadsIffQueued(s: State)
    requires Inv(s) && s.reader.OutsideRead?
    ensures Enabled(s, BeginRead)
    ensures Apply(s, BeginRead).reader.LoadingSize? <==> |s.accepted| > |s.delivered|
    ensures Apply(s, BeginRead).reader.OutsideRead? <==> |s.accepted| == |s.delivered|
  {
    Indices(s);
  }

  /** The returned pointer shows the oldest undelivered item, and keeps showing it until the next ReadItem. */
  lemma ReadReturns(s: State, steps: seq<Step>, t: State)
    requires Inv(s) && Enabled(s, PublishStart)
    requires Run(Apply(s, PublishStart), steps, t) && BeginRead !in steps
    ensures Shape(t) && t.lent.Lent? && t.lent.slot < t.size && 0 <= t.lent.size <= t.capacity
    ensures |s.delivered| < |s.accepted|
    ensures Item(t.data[t.lent.slot][..t.lent.size], t.lent.time) == s.accepted[|s.delivered|]
  {
    var u := Apply(s, PublishStart);
    StepKeeps(s, PublishStart);
    StillLent(u, steps, t);
    RunKeeps(u, steps, t);
    assert u.delivered == u.accepted[..|u.delivered|];
  }

  lemma {:induction false} StillLent(s: State, steps: seq<Step>, t: State)
    requires Inv(s) && Run(s, steps, t) && s.lent.Lent? && s.reader.OutsideRead? && BeginRead !in steps
    ensures t.lent == s.lent && t.delivered == s.delivered
    decreases |steps|
  {
    if steps != [] {
      StepKeeps(s, steps[0]);
      StillLent(Apply(s, steps[0]), steps[1..], t);
    }
  }

  /** The steps by which the writer finishes the call it is in. */
  function RestOfWrite(w: Writer): seq<Step>
    requires w.Copying? ==> w.copied <= |w.item.data|
    decreases if w.Copying? then |w.item.data| - w.copied else 0
  {
    match w
    case OutsideWrite => []
    case Copying(item, n) =>
      if n < |item.data| then [CopyByte] + RestOfWrite(Copying(item, n + 1)) else [StoreSize, StoreTime, PublishEnd]
    case StoringTime(_) => [StoreTime, PublishEnd]
    case PublishingEnd(_) => [PublishEnd]
  }

  /** Whatever the reader is doing, the writer can finish its call by steps of its own. */
  lemma {:induction false} WriteFinishes(s: State) returns (t: State)
    requires Inv(s)
    ensures Run(s, RestOfWrite(s.writer), t)
    ensures t.writer.OutsideWrite? && t.accepted == s.accepted + AtWork(s.writer)
    ensures t.reader == s.reader && t.delivered == s.delivered
    decreases if s.writer.Copying? then |s.writer.item.data| - s.writer.copied + 3
              else if s.writer.StoringTime? then 2
              else if s.writer.PublishingEnd? then 1
              else 0
  {
    var steps := RestOfWrite(s.writer);
    if steps == [] {
      t := s;
    } else {
      var u := Apply(s, steps[0]);
      StepKeeps(s, steps[0]);
      assert steps[1..] == RestOfWrite(u.writer);
      t := WriteFinishes(u);
    }
  }

  function RestOfRead(r: Reader): seq<Step> {
    match r
    case OutsideRead => []
    case LoadingSize => [LoadSize, LoadTime, PublishStart]
    case LoadingTime(_) => [LoadTime, PublishStart]
    case PublishingStart(_, _) => [PublishStart]
  }

  /** And whatever the writer is doing, so can the reader. */
  lemma {:induction false} ReadFinishes(s: State) returns (t: State)
    requires Inv(s)
    ensures Run(s, RestOfRead(s.reader), t)
    ensures t.reader.OutsideRead? && t.accepted == s.accepted
    ensures |t.delivered| == |s.delivered| + if s.reader.OutsideRead? then 0 else 1
    decreases |RestOfRead(s.reader)|
  {
    var steps := RestOfRead(s.reader);
    if steps == [] {
      t := s;
    } else {
      var u := Apply(s, steps[0]);
      StepKeeps(s, steps[0]);
      assert steps[1..] == RestOfRead(u.reader);
      t := ReadFinishes(u);
    }
  }

  lemma {:induction false} RunConcat(s: State, a: seq<Step>, u: State, b: seq<Step>, t: State)
    requires Run(s, a, u) && Run(u, b, t)
    ensures Run(s, a + b, t)
    decreases |a|
  {
    if a == [] {
      assert a + b == b;
    } else {
      RunConcat(Apply(s, a[0]), a[1..], u, b, t);
      assert (a + b)[1..] == a[1..] + b;
    }
  }

  /** Through an empty ring every item passes: a WriteItem and a ReadItem deliver it. */
  lemma Transfers(s: State, item: Item) returns (steps: seq<Step>, t: State)
    requires Inv(s) && s.writer.OutsideWrite? && s.reader.OutsideRead?
    requires |s.accepted| == |s.delivered| && |item.data| <= s.capacity
    ensures Run(s, steps, t) && t.delivered == s.delivered + [item]
  {
    hide Inv, Run, Apply, RestOfWrite, RestOfRead;
    var writing := BeginWriting(s, item);
    var written := WriteFinishes(writing);
    RunKeeps(writing, RestOfWrite(writing.writer), written);
    var reading := BeginReading(written);
    t := ReadFinishes(reading);
    RunKeeps(reading, RestOfRead(reading.reader), t);
    steps := [BeginWrite(item)] + RestOfWrite(writing.writer);
    RunConcat(s, [BeginWrite(item)], writing, RestOfWrite(writing.writer), written);
    RunConcat(s, steps, written, [BeginRead], reading);
    RunConcat(s, steps + [BeginRead], reading, RestOfRead(reading.reader), t);
    steps := steps + [BeginRead] + RestOfRead(reading.reader);
    AllDelivered(s);
    AllDelivered(t);
  }

  lemma BeginWriting(s: State, item: Item) returns (t: State)
    requires Inv(s) && s.writer.OutsideWrite?
    requires |s.accepted| == |s.delivered| && |item.data| <= s.capacity
    ensures Inv(t) && Run(s, [BeginWrite(item)], t) && t.writer == Copying(item, 0)
    ensures t.reader == s.reader && t.accepted == s.accepted && t.delivered == s.delivered
  {
    Indices(s);
    t := Apply(s, BeginWrite(item));
    StepKeeps(s, BeginWrite(item));
    assert [BeginWrite(item)][1..] == [];
  }

  lemma BeginReading(s: State) returns (t: State)
    requires Inv(s) && s.reader.OutsideRead? && |s.accepted| > |s.delivered|
    ensures Inv(t) && Run(s, [BeginRead], t) && !t.reader.OutsideRead?
    ensures t.accepted == s.accepted && t.delivered == s.delivered
  {
    Indices(s);
    t := Apply(s, BeginRead);
    StepKeeps(s, BeginRead);
    assert [BeginRead][1..] == [];
  }

  lemma AllDelivered(s: State)
    requires Inv(s) && |s.delivered| == |s.accepted|
    ensures s.delivered == s.accepted
  {
    assert s.accepted[..|s.accepted|] == s.accepted;
  }
}
