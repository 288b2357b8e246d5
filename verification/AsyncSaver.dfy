// The asynchronous saver of libhlsanalysis/src/AsyncSaveFile.cpp with the event of common/zevent.cpp:
// any number of producers in OnRecvTs, the worker in WorkFun and a stopper in Stop, interleaved one
// mutex section or shared access at a time.
module AsyncSaver {

  // ---------------------------------------------------------------- states

  /** A received segment; buffer names the copy OnRecvTs allocates for its data. */
  datatype Segment = Segment(url: string, data: seq<bv8>, buffer: nat)

  /** What a call of OnRecvTs hands in. */
  datatype Parcel = Parcel(url: string, data: seq<bv8>)

  /** Where the worker is in its loop. */
  datatype Worker =
    | CheckStop                   // about to look at the stop flag
    | CheckEmpty                  // about to look at the queue
    | EnterWait                   // about to enter the wait of 100 ms
    | Blocked(signalled: bool)    // asleep in the wait
    | TakeFront                   // about to point at the front of the queue
    | Saving(it: Segment)         // using the front outside the lock
    | Freeing(it: Segment)        // about to free the data of the front
    | Popping                     // about to remove the front
    | Exited

  datatype Stopper = NotStopping | FlagSet | Woken | Joined

  datatype State = State(
    queue: seq<Segment>,          // m_dqTsBuffer
    stop: bool,                   // m_bStop
    seted: bool,                  // ZEvent::m_bSeted
    worker: Worker,
    stopper: Stopper,
    unsignalled: nat,             // producers between push_back and Set
    received: seq<Segment>,       // every segment pushed, in order
    saved: seq<Segment>,          // every segment handed to m_pSaveFile, in order
    freed: seq<nat>)              // every buffer deleted, in order

  datatype Step =
    | Push(url: string, data: seq<bv8>)
    | SignalAdd
    | SetStopFlag
    | SignalStop
    | Join
    | WorkerStep(timeout: bool)   // timeout: pthread_cond_timedwait returns without a signal

  const Init := State([], false, false, CheckStop, NotStopping, 0, [], [], [])

  // ---------------------------------------------------------------- steps

  /** ZEvent::Set: the flag is set and a blocked waiter is signalled. */
  function Set(s: State): State {
    s.(seted := true, worker := if s.worker.Blocked? then Blocked(true) else s.worker)
  }

  predicate WorkerEnabled(s: State, timeout: bool) {
    match s.worker
    case Blocked(signalled) => timeout || signalled
    case TakeFront => s.queue != []
    case Popping => s.queue != []
    case Exited => false
    case _ => true
  }

  function WorkerApply(s: State): State
    requires WorkerEnabled(s, true)
  {
    match s.worker
    case CheckStop => s.(worker := if s.stop then Exited else CheckEmpty)
    case CheckEmpty => s.(worker := if s.queue == [] then EnterWait else TakeFront)
    case EnterWait => if s.seted then s.(seted := false, worker := CheckStop) else s.(worker := Blocked(false))
    case Blocked(_) => s.(seted := false, worker := CheckStop)
    case TakeFront => s.(worker := Saving(s.queue[0]))
    case Saving(it) => s.(saved := s.saved + [it], worker := Freeing(it))
    case Freeing(it) => s.(freed := s.freed + [it.buffer], worker := Popping)
    case Popping => s.(queue := s.queue[1..], worker := CheckStop)
  }

  predicate Enabled(s: State, step: Step) {
    match step
    case Push(_, _) => true
    case SignalAdd => s.unsignalled > 0
    case SetStopFlag => s.stopper.NotStopping?
    case SignalStop => s.stopper.FlagSet?
    case Join => s.stopper.Woken? && s.worker.Exited?
    case WorkerStep(timeout) => WorkerEnabled(s, timeout)
  }

  function Apply(s: State, step: Step): State
    requires Enabled(s, step)
  {
    match step
    case Push(url, data) =>
      var x := Segment(url, data, |s.received|);
      s.(queue := s.queue + [x], received := s.received + [x], unsignalled := s.unsignalled + 1)
    case SignalAdd => Set(s).(unsignalled := s.unsignalled - 1)
    case SetStopFlag => s.(stop := true, stopper := FlagSet)
    case SignalStop => Set(s).(stopper := Woken)
    case Join => s.(stopper := Joined)
    case WorkerStep(_) => WorkerApply(s)
  }

  predicate Run(s: State, steps: seq<Step>, t: State)
    decreases |steps|
  {
    if steps == [] then s == t
    else Enabled(s, steps[0]) && Run(Apply(s, steps[0]), steps[1..], t)
  }

  // ---------------------------------------------------------------- conservation

  /** The front of the queue is saved but not yet popped. */
  predicate FrontSaved(s: State) {
    s.worker.Freeing? || s.worker.Popping?
  }

  /** What is still to be saved: the queue without a front that is saved already. */
  function StillQueued(s: State): seq<Segment> {
    if FrontSaved(s) && s.queue != [] then s.queue[1..] else s.queue
  }

  predicate FrontInUse(s: State) {
    s.worker.TakeFront? || s.worker.Saving? || FrontSaved(s)
  }

  ghost predicate Inv(s: State) {
    && (forall i :: 0 <= i < |s.received| ==> s.received[i].buffer == i)
    && (FrontInUse(s) ==> s.queue != [])
    && s.received == s.saved + StillQueued(s)
    && ((s.worker.Saving? || s.worker.Freeing?) ==> s.worker.it == s.queue[0])
    && (FrontSaved(s) ==> s.saved != [] && s.saved[|s.saved| - 1] == s.queue[0])
    && |s.freed| == |s.saved| - (if s.worker.Freeing? then 1 else 0)
    && (forall i :: 0 <= i < |s.freed| ==> s.freed[i] == i)
    && (s.worker.Exited? ==> s.stop)
    && (s.stop <==> !s.stopper.NotStopping?)
    && (s.stopper.Joined? ==> s.worker.Exited?)
  }

  lemma WorkerStepKeeps(s: State)
    requires Inv(s) && WorkerEnabled(s, true)
    ensures Inv(WorkerApply(s))
  {
    match s.worker
    case Saving(_) => SavingKeeps(s);
    case Freeing(it) => assert s.received[|s.saved| - 1] == it;
    case _ =>
  }

  lemma SavingKeeps(s: State)
    requires Inv(s) && s.worker.Saving?
    ensures Inv(WorkerApply(s))
  {
    var it, t := s.worker.it, WorkerApply(s);
    assert s.queue == [it] + s.queue[1..];
    assert s.saved + ([it] + s.queue[1..]) == (s.saved + [it]) + s.queue[1..];
  }

  lemma StepKeeps(s: State, step: Step)
    requires Inv(s) && Enabled(s, step)
    ensures Inv(Apply(s, step))
  {
    var t := Apply(s, step);
    match step
    case WorkerStep(_) => WorkerStepKeeps(s);
    case Push(_, _) =>
      var x := t.received[|s.received|];
      assert StillQueued(t) == StillQueued(s) + [x];
      assert s.saved + (StillQueued(s) + [x]) == s.saved + StillQueued(s) + [x];
    case _ =>
  }

  lemma {:induction false} RunKeeps(s: State, steps: seq<Step>, t: State)
    requires Inv(s) && Run(s, steps, t)
    ensures Inv(t)
    decreases |steps|
  {
    if steps != [] {
      StepKeeps(s, steps[0]);
      RunKeeps(Apply(s, steps[0]), steps[1..], t);
    }
  }

  /** The URLs and data handed to OnRecvTs, read off the steps alone. */
  function Pushed(steps: seq<Step>): seq<Parcel> {
    if steps == [] then []
    else (if steps[0].Push? then [Parcel(steps[0].url, steps[0].data)] else []) + Pushed(steps[1..])
  }

  function Contents(segments: seq<Segment>): (c: seq<Parcel>)
    ensures |c| == |segments| && forall i :: 0 <= i < |c| ==> c[i] == Parcel(segments[i].url, segments[i].data)
  {
    seq(|segments|, i requires 0 <= i < |segments| => Parcel(segments[i].url, segments[i].data))
  }

  lemma {:induction false} RunReceives(s: State, steps: seq<Step>, t: State)
    requires Run(s, steps, t)
    ensures Contents(t.received) == Contents(s.received) + Pushed(steps)
    decreases |steps|
  {
    if steps != [] {
      var u := Apply(s, steps[0]);
      RunReceives(u, steps[1..], t);
      assert Contents(u.received) == Contents(s.received) + Pushed([steps[0]]);
    }
  }

  /**
   * In every state of every interleaving nothing is lost, repeated, altered or reordered: the received
   * segments have the URLs and data handed to OnRecvTs, and are the saved ones followed by those still
   * queued. Buffers are freed in order, each once, and only after their segment was saved; the segment
   * being saved still has its buffer.
   */
  lemma EveryRun(steps: seq<Step>, s: State)
    requires Run(Init, steps, s)
    ensures Contents(s.received) == Pushed(steps) && Contents(s.saved) <= Pushed(steps)
    ensures s.received == s.saved + StillQueued(s)
    ensures forall i, j :: 0 <= i < j < |s.received| ==> s.received[i].buffer != s.received[j].buffer
    ensures |s.freed| <= |s.saved| && forall i :: 0 <= i < |s.freed| ==> s.freed[i] == s.saved[i].buffer
    ensures s.worker.Saving? ==> s.worker.it.buffer !in s.freed && s.queue != [] && s.worker.it == s.queue[0]
  {
    hide *;
    InitInv();
    RunKeeps(Init, steps, s);
    Conserved(s);
    RunReceives(Init, steps, s);
    NothingReceived();
    assert [] + Pushed(steps) == Pushed(steps);
    PrefixContents(s.received, s.saved, StillQueued(s));
  }

  lemma InitInv()
    ensures Inv(Init)
  {
  }

  lemma NothingReceived()
    ensures Contents(Init.received) == []
  {
  }

  lemma PrefixContents(all: seq<Segment>, front: seq<Segment>, back: seq<Segment>)
    requires all == front + back
    ensures Contents(front) + Contents(back) == Contents(all) && Contents(front) <= Contents(all)
  {
  }

  /** What the invariant says in every state. */
  lemma Conserved(s: State)
    requires Inv(s)
    ensures s.received == s.saved + StillQueued(s)
    ensures forall i, j :: 0 <= i < j < |s.received| ==> s.received[i].buffer != s.received[j].buffer
    ensures |s.freed| <= |s.saved| && forall i :: 0 <= i < |s.freed| ==> s.freed[i] == s.saved[i].buffer
    ensures s.worker.Saving? ==> s.worker.it.buffer !in s.freed && s.queue != [] && s.worker.it == s.queue[0]
  {
    assert forall i :: 0 <= i < |s.saved| ==> s.received[i] == s.saved[i];
    if s.worker.Saving? {
      assert s.received[|s.saved|] == s.queue[0];
    }
  }

  lemma RunStep(s: State, step: Step, rest: seq<Step>, t: State)
    requires Enabled(s, step) && Run(Apply(s, step), rest, t)
    ensures Run(s, [step] + rest, t)
  {
    assert ([step] + rest)[1..] == rest;
  }

  /** One OnRecvTs and six steps of the worker: the segment is saved and its buffer freed. */
  lemma OneSegment(url: string, data: seq<bv8>) returns (steps: seq<Step>, s: State)
    ensures Run(Init, steps, s) && Pushed(steps) == [Parcel(url, data)]
    ensures s.saved == [Segment(url, data, 0)] && s.freed == [0] && s.queue == []
  {
    var w, x := WorkerStep(false), Segment(url, data, 0);
    var pushed := Apply(Init, Push(url, data));
    var told := Apply(pushed, SignalAdd);
    var front := told.(worker := TakeFront);
    assert WorkerApply(WorkerApply(told)) == front;
    s := told.(queue := [], saved := [x], freed := [0]);
    var more := SavesFront(front, x, s);
    RunStep(told.(worker := CheckEmpty), w, more, s);
    RunStep(told, w, [w] + more, s);
    RunStep(pushed, SignalAdd, [w] + ([w] + more), s);
    RunStep(Init, Push(url, data), [SignalAdd] + ([w] + ([w] + more)), s);
    steps := [Push(url, data)] + ([SignalAdd] + ([w] + ([w] + more)));
    NothingPushed([SignalAdd] + ([w] + ([w] + more)));
    assert steps[1..] == [SignalAdd] + ([w] + ([w] + more));
  }

  lemma {:induction false} NothingPushed(steps: seq<Step>)
    requires forall x <- steps :: !x.Push?
    ensures Pushed(steps) == []
  {
    if steps != [] {
      assert steps[0] in steps;
      forall x | x in steps[1..] ensures x in steps {}
      NothingPushed(steps[1..]);
    }
  }

  /** The four steps of the worker on the only segment. */
  lemma SavesFront(s: State, x: Segment, t: State) returns (steps: seq<Step>)
    requires s.worker.TakeFront? && s.queue == [x] && s.saved == [] && s.freed == []
    requires t == s.(worker := CheckStop, queue := [], saved := [x], freed := [x.buffer])
    ensures Run(s, steps, t) && forall y <- steps :: y == WorkerStep(false)
  {
    var w := WorkerStep(false);
    var a := s.(worker := Saving(x));
    var b := s.(worker := Freeing(x), saved := [x]);
    var c := b.(worker := Popping, freed := [x.buffer]);
    RunStep(c, w, [], t);
    RunStep(b, w, [w] + [], t);
    RunStep(a, w, [w] + ([w] + []), t);
    RunStep(s, w, [w] + ([w] + ([w] + [])), t);
    steps := [w] + ([w] + ([w] + ([w] + [])));
  }

  /**
   * After Stop has joined the worker, the saved segments are a prefix of the received ones; what
   * remains is exactly the queue, and none of its buffers has been freed.
   */
  lemma AfterStop(steps: seq<Step>, s: State)
    requires Run(Init, steps, s) && s.stopper.Joined?
    ensures s.worker.Exited? && s.received == s.saved + s.queue && s.saved <= s.received
    ensures Contents(s.saved) + Contents(s.queue) == Pushed(steps)
    ensures forall x :: x in s.queue ==> x.buffer !in s.freed
  {
    hide *;
    InitInv();
    RunKeeps(Init, steps, s);
    QueueRemains(s);
    RunReceives(Init, steps, s);
    NothingReceived();
    assert [] + Pushed(steps) == Pushed(steps);
    PrefixContents(s.received, s.saved, s.queue);
  }

  lemma QueueRemains(s: State)
    requires Inv(s) && s.stopper.Joined?
    ensures s.worker.Exited? && s.received == s.saved + s.queue && s.saved <= s.received
    ensures forall x :: x in s.queue ==> x.buffer !in s.freed
  {
    forall x | x in s.queue
      ensures x.buffer !in s.freed
    {
      var i :| 0 <= i < |s.queue| && s.queue[i] == x;
      assert s.received[|s.saved| + i] == x;
    }
  }

  // ---------------------------------------------------------------- progress

  /** The worker is never stuck: a wait without a signal ends with its timeout. */
  lemma NeverStuck(steps: seq<Step>, s: State)
    requires Run(Init, steps, s)
    ensures s.worker.Exited? || Enabled(s, WorkerStep(true))
    ensures s.worker.Blocked? ==> Apply(s, WorkerStep(true)).worker == CheckStop
  {
    RunKeeps(Init, steps, s);
  }

  /**
   * A worker that is about to wait, or waits, although there is something to do has a wake-up coming: a
   * producer or Stop is still before its Set, or the event is set, or the signal has been sent.
   */
  predicate WakeUpComing(s: State) {
    var told := if s.worker.Blocked? then s.worker.signalled else s.seted;
    && ((s.worker.EnterWait? || s.worker.Blocked?) && s.queue != [] ==> s.unsignalled > 0 || told)
    && ((s.worker.CheckEmpty? || s.worker.EnterWait? || s.worker.Blocked?) && s.stop ==> s.stopper.FlagSet? || told)
  }

  lemma {:induction false} RunKeepsWakeUp(s: State, steps: seq<Step>, t: State)
    requires Inv(s) && WakeUpComing(s) && Run(s, steps, t)
    ensures WakeUpComing(t)
    decreases |steps|
  {
    if steps != [] {
      StepKeeps(s, steps[0]);
      RunKeepsWakeUp(Apply(s, steps[0]), steps[1..], t);
    }
  }

  /**
   * No wake-up is lost: once every producer and Stop have called Set, a worker that sleeps without a
   * signal has an empty queue and no stop flag. In particular, with something to do it goes on
   * without the timeout.
   */
  lemma NoLostWakeUp(steps: seq<Step>, s: State)
    requires Run(Init, steps, s) && s.unsignalled == 0 && !s.stopper.FlagSet?
    ensures s.worker == Blocked(false) ==> s.queue == [] && !s.stop
    ensures (s.queue != [] || s.stop) && !s.worker.Exited? ==> Enabled(s, WorkerStep(false))
  {
    RunKeeps(Init, steps, s);
    RunKeepsWakeUp(Init, steps, s);
  }

  function WorkerSteps(steps: seq<Step>): nat {
    if steps == [] then 0 else (if steps[0].WorkerStep? then 1 else 0) + WorkerSteps(steps[1..])
  }

  /** The worker steps until the next save, when something is unsaved and nobody stops the worker. */
  function UntilSave(w: Worker): nat {
    match w
    case Saving(_) => 0
    case TakeFront => 1
    case CheckEmpty => 2
    case CheckStop => 3
    case Blocked(_) => 4
    case Popping => 4
    case EnterWait => 5
    case Freeing(_) => 5
    case Exited => 0
  }

  /** Six steps for every further save. */
  function Debt(s: State, target: nat): int {
    6 * (target - |s.saved|) + UntilSave(s.worker)
  }

  lemma StepPaysDebt(s: State, step: Step, target: nat)
    requires Inv(s) && Enabled(s, step) && !Apply(s, step).stop && |s.saved| < target <= |s.received|
    ensures Debt(Apply(s, step), target) <= Debt(s, target) - (if step.WorkerStep? then 1 else 0)
  {
    if step.WorkerStep? && s.worker.CheckEmpty? {
      assert StillQueued(s) == s.queue;
    }
  }

  lemma {:induction false} DebtPaid(s: State, steps: seq<Step>, t: State, target: nat)
    requires Inv(s) && Run(s, steps, t) && !t.stop && target <= |s.received|
    ensures target <= |t.saved| || Debt(t, target) <= Debt(s, target) - WorkerSteps(steps)
    ensures |s.saved| <= |t.saved|
    decreases |steps|
  {
    if steps != [] {
      var u := Apply(s, steps[0]);
      StopStays(u, steps[1..], t);
      StepKeeps(s, steps[0]);
      if |s.saved| < target {
        StepPaysDebt(s, steps[0], target);
      }
      DebtPaid(u, steps[1..], t, target);
    }
  }

  lemma {:induction false} StopStays(s: State, steps: seq<Step>, t: State)
    requires Run(s, steps, t)
    ensures s.stop ==> t.stop
    decreases |steps|
  {
    if steps != [] {
      StopStays(Apply(s, steps[0]), steps[1..], t);
    }
  }

  /**
   * As long as nobody calls Stop, n unsaved segments are saved after at most 6n + 5 further steps of
   * the worker, whatever the producers do in between and whether its waits end by signals or timeouts.
   */
  lemma EventuallySaved(before: seq<Step>, s: State, steps: seq<Step>, t: State, n: nat)
    requires Run(Init, before, s) && Run(s, steps, t) && !t.stop
    requires n <= |s.received| - |s.saved| && WorkerSteps(steps) >= 6 * n + 5
    ensures |t.saved| >= |s.saved| + n
  {
    RunKeeps(Init, before, s);
    DebtPaid(s, steps, t, |s.saved| + n);
  }

  /** The worker steps until the loop is left, once the stop flag is set. */
  function UntilExit(w: Worker): nat {
    match w
    case CheckEmpty => 6
    case TakeFront => 5
    case Saving(_) => 4
    case Freeing(_) => 3
    case EnterWait => 3
    case Popping => 2
    case Blocked(_) => 2
    case CheckStop => 1
    case Exited => 0
  }

  predicate MaySave(w: Worker) {
    w.CheckEmpty? || w.TakeFront? || w.Saving?
  }

  lemma {:induction false} Winds(s: State, steps: seq<Step>, t: State)
    requires Inv(s) && s.stop && Run(s, steps, t)
    ensures WorkerSteps(steps) + UntilExit(t.worker) <= UntilExit(s.worker)
    ensures |t.saved| + (if MaySave(t.worker) then 1 else 0) <= |s.saved| + (if MaySave(s.worker) then 1 else 0)
    decreases |steps|
  {
    if steps != [] {
      StepKeeps(s, steps[0]);
      Winds(Apply(s, steps[0]), steps[1..], t);
    }
  }

  /**
   * Once m_bStop is set the worker takes at most six more steps and saves at most one more segment;
   * as it is never stuck before it has left the loop, the join of Stop returns.
   */
  lemma StopTerminates(before: seq<Step>, s: State, steps: seq<Step>, t: State)
    requires Run(Init, before, s) && s.stop && Run(s, steps, t)
    ensures WorkerSteps(steps) <= 6 && |t.saved| <= |s.saved| + 1
    ensures t.worker.Exited? || Enabled(t, WorkerStep(true))
  {
    RunKeeps(Init, before, s);
    Winds(s, steps, t);
    RunKeeps(s, steps, t);
  }

  /** From every reachable state a call of Stop can run to its end, its join included. */
  lemma StopReturns(before: seq<Step>, s: State) returns (steps: seq<Step>, t: State)
    requires Run(Init, before, s)
    ensures Run(s, steps, t) && t.stopper.Joined? && WorkerSteps(steps) <= 6
  {
    RunKeeps(Init, before, s);
    if s.stopper.NotStopping? {
      StepKeeps(s, SetStopFlag);
      steps, t := StopRuns(Apply(s, SetStopFlag));
      RunStep(s, SetStopFlag, steps, t);
      assert ([SetStopFlag] + steps)[1..] == steps;
      steps := [SetStopFlag] + steps;
    } else {
      steps, t := StopRuns(s);
    }
  }

  lemma {:induction false} StopRuns(s: State) returns (steps: seq<Step>, t: State)
    requires Inv(s) && s.stop
    ensures Run(s, steps, t) && t.stopper.Joined? && WorkerSteps(steps) <= UntilExit(s.worker) <= 6
    decreases if s.stopper.Joined? then 0 else if s.stopper.Woken? then 1 else 2, UntilExit(s.worker)
  {
    if s.stopper.Joined? {
      steps, t := [], s;
    } else {
      var next := if s.stopper.FlagSet? then SignalStop else if s.worker.Exited? then Join else WorkerStep(true);
      StepKeeps(s, next);
      steps, t := StopRuns(Apply(s, next));
      RunStep(s, next, steps, t);
      assert ([next] + steps)[1..] == steps;
      steps := [next] + steps;
    }
  }
}
