/** No wake-up is ever lost: whatever way the threads interleave, a timer in a heap is
    waited for by the kernel or is on its way to being looked at. */
module TimerWakeup {
  import opened Wrappers
  import opened HeapTree
  import opened TimerBox
  import opened TimerSystem

  predicate HeapsOk(s: State) {
    Wf(s.sw.heap) && Wf(s.hw.heap)
  }

  /** The poll thread is part-way through expire() for this container, or will be. */
  predicate PollHolds(p: Poll, k: Kind) {
    p.PExpire? && (p.kind == k || k in p.rest)
  }

  predicate Coming(s: State, k: Kind) {
    PollHolds(s.poll, k) || MExpire(k) in s.queue
  }

  /** The fd is set to the top timer's time and is in the poll set. */
  predicate KernelWaits(b: Box) {
    b.heap.Node? && b.inPoll && b.armed == Some(b.heap.data.key)
  }

  predicate WorkerHas(w: Worker, k: Kind) {
    (w.WExpiring? || w.WAddPoll? || w.WSetTime?) && w.kind == k
  }

  predicate Alarmed(s: State, k: Kind) {
    s.Get(k).heap.Node? ==> KernelWaits(s.Get(k)) || Coming(s, k) || WorkerHas(s.worker, k)
  }

  /** The message thread arms the kernel with the time of the top, and never disarms it. */
  predicate WorkerOk(s: State) {
    match s.worker
    case WAddPoll(k, time, _) => s.Get(k).heap.Node? && time == s.Get(k).heap.data.key
    case WSetTime(k, time, _) =>
      s.Get(k).heap.Node? && time == s.Get(k).heap.data.key && (s.Get(k).inPoll || Coming(s, k))
    case WRemovePoll(_, _) => false
    case WDisarm(_, _) => false
    case _ => true
  }

  predicate WakeupInv(s: State) {
    HeapsOk(s) && Alarmed(s, Sw) && Alarmed(s, Hw) && WorkerOk(s)
  }

  /** Stopping and starting touch no heap, no kernel timer and no thread position, and
      only append to the queue. */
  predicate OnlyQueues(s: State, s': State) {
    && s'.sw == s.sw && s'.hw == s.hw && s'.poll == s.poll && s'.worker == s.worker
    && s.queue <= s'.queue
  }

  lemma QueueingKeeps(s: State, s': State)
    requires WakeupInv(s) && OnlyQueues(s, s')
    ensures WakeupInv(s')
  {
    forall k: Kind | MExpire(k) in s.queue ensures MExpire(k) in s'.queue { }
  }

  /** The poll thread touches no heap and only the container it is to expire. */
  lemma PollingKeeps(s: State, s': State)
    requires WakeupInv(s) && s'.queue == s.queue && s'.worker == s.worker
    requires forall k: Kind :: s'.Get(k).heap == s.Get(k).heap && (PollHolds(s.poll, k) ==> PollHolds(s'.poll, k))
    requires forall k: Kind :: PollHolds(s'.poll, k) || s'.Get(k) == s.Get(k)
    ensures WakeupInv(s')
  {
    hide Wf, PollHolds;
    forall k: Kind ensures Coming(s, k) ==> Coming(s', k) { }
  }

  lemma PollKeeps(s: State, step: Step)
    requires WakeupInv(s) && Enabled(s, step)
    requires step.Wake? || step.PollDisarm? || step.PollUnpoll?
    ensures WakeupInv(Do(s, step))
  {
    hide WakeupInv, DoStart, DoStop, DoTake, DoExpireOne, DoDelete;
    PollingKeeps(s, Do(s, step));
  }

  lemma SendKeeps(s: State)
    requires WakeupInv(s) && Enabled(s, PollSend)
    ensures WakeupInv(Do(s, PollSend))
  {
    var s' := Do(s, PollSend);
    forall k: Kind ensures Coming(s, k) ==> Coming(s', k) {
      if s.poll.kind == k { assert s'.queue[|s.queue|] == MExpire(k); }
    }
  }

  /** Only the heap of container k changed, apart from the position of the message
      thread and, possibly, an expiry of k that left the queue. */
  predicate HandledHeap(s: State, s': State, k: Kind) {
    && s'.poll == s.poll
    && s'.Get(k) == s.Get(k).(heap := s'.Get(k).heap)
    && (forall j: Kind :: j != k ==> s'.Get(j) == s.Get(j) && (MExpire(j) in s.queue ==> MExpire(j) in s'.queue))
  }

  /** From the moment a handler has changed a heap, the kernel is right about it or the
      message thread is on its way to tell it. */
  lemma HandlerKeeps(s: State, s': State, k: Kind)
    requires HeapsOk(s) && Alarmed(s, Sw) && Alarmed(s, Hw)
    requires s.worker.WIdle? || (s.worker.WExpiring? && s.worker.kind == k)
    requires HandledHeap(s, s', k) && Wf(s'.Get(k).heap)
    requires
      || (s'.worker.WExpiring? && s'.worker.kind == k)
      || (s'.worker.WAddPoll? && s'.worker.kind == k
          && s'.Get(k).heap.Node? && s'.worker.time == s'.Get(k).heap.data.key)
      || ((s'.worker.WIdle? || s'.worker.WDelete?)
          && (s'.Get(k).heap.Node? ==>
                && s.worker.WIdle? && s.Get(k).heap.Node? && s'.Get(k).heap.data.key == s.Get(k).heap.data.key
                && (MExpire(k) in s.queue ==> MExpire(k) in s'.queue)))
    ensures WakeupInv(s')
  {
    assert k == Sw || k == Hw;
  }

  lemma QueueTail(q: seq<Msg>, m: Msg)
    requires q != [] && m in q && q[0] != m
    ensures m in q[1..]
  {
  }

  lemma TakeQueue(s: State, j: Kind)
    requires Enabled(s, Take) && MExpire(j) in s.queue && s.queue[0] != MExpire(j)
    ensures MExpire(j) in Do(s, Take).queue
  {
    QueueTail(s.queue, MExpire(j));
  }

  lemma TakePush(s: State)
    requires WakeupInv(s) && Enabled(s, Take) && s.queue[0].MPush?
    ensures WakeupInv(Do(s, Take))
  {
    var MPush(k, d) := s.queue[0];
    PushWf(s.Get(k).heap, d);
    PushArms(s.Get(k).heap, d);
    forall j: Kind | MExpire(j) in s.queue ensures MExpire(j) in Do(s, Take).queue { TakeQueue(s, j); }
    HandlerKeeps(s, Do(s, Take), k);
  }

  lemma TakeRemove(s: State)
    requires WakeupInv(s) && Enabled(s, Take) && s.queue[0].MRemove?
    ensures WakeupInv(Do(s, Take))
  {
    var MRemove(k, d) := s.queue[0];
    RemoveWf(s.Get(k).heap, d);
    RemoveArms(s.Get(k).heap, d);
    forall j: Kind | MExpire(j) in s.queue ensures MExpire(j) in Do(s, Take).queue { TakeQueue(s, j); }
    HandlerKeeps(s, Do(s, Take), k);
  }

  lemma TakeExpire(s: State)
    requires WakeupInv(s) && Enabled(s, Take) && s.queue[0].MExpire?
    ensures WakeupInv(Do(s, Take))
  {
    var MExpire(k) := s.queue[0];
    if s.Get(k).heap.Node? { PopWf(s.Get(k).heap); }
    forall j: Kind | MExpire(j) in s.queue && j != k ensures MExpire(j) in Do(s, Take).queue { TakeQueue(s, j); }
    HandlerKeeps(s, Do(s, Take), k);
  }

  lemma ExpireOneKeeps(s: State)
    requires WakeupInv(s) && Enabled(s, ExpireOne)
    ensures WakeupInv(Do(s, ExpireOne))
  {
    assert OnlyQueues(s, DoTimeout(s, s.worker.d));
    QueueingKeeps(s, DoTimeout(s, s.worker.d));
    LoopKeeps(DoTimeout(s, s.worker.d), s.worker.kind, s.worker.at);
  }

  /** After a timer has expired, the next due one is popped or the loop ends. */
  lemma LoopKeeps(s: State, k: Kind, at: int)
    requires WakeupInv(s) && s.worker.WExpiring? && s.worker.kind == k
    ensures WakeupInv(NextDue(s, k, at))
  {
    var t := s.Get(k).heap;
    if t.Node? { PopWf(t); }
    ExpireArms(t);
    HandlerKeeps(s, NextDue(s, k, at), k);
  }

  lemma {:induction false} KernelCallKeeps(s: State, step: Step)
    requires WakeupInv(s) && Enabled(s, step)
    requires step.AddPoll? || step.SetTime? || step.RemovePoll? || step.Disarm? || step.Delete? || step.Tick?
    ensures WakeupInv(Do(s, step))
  {
  }

  lemma {:induction false} StepKeepsWakeup(s: State, step: Step)
    requires WakeupInv(s) && Enabled(s, step)
    ensures WakeupInv(Do(s, step))
  {
    match step {
      case Take =>
        match s.queue[0] {
          case MPush(_, _) => TakePush(s);
          case MRemove(_, _) => TakeRemove(s);
          case MExpire(_) => TakeExpire(s);
        }
      case ExpireOne => ExpireOneKeeps(s);
      case Wake(_) => PollKeeps(s, step);
      case PollDisarm => PollKeeps(s, step);
      case PollUnpoll => PollKeeps(s, step);
      case PollSend => SendKeeps(s);
      case NewClient(_) => QueueingKeeps(s, Do(s, step));
      case Start(_, _, _) => QueueingKeeps(s, Do(s, step));
      case Stop(_) => QueueingKeeps(s, Do(s, step));
      case Close(_) => QueueingKeeps(s, Do(s, step));
      case Drop(_) => QueueingKeeps(s, Do(s, step));
      case _ => KernelCallKeeps(s, step);
    }
  }

  /** Over every run: while a heap holds timers, the kernel waits for its top, or an
      expiry of it is under way in the poll thread, queued, or the message thread is in a
      handler that will arm the kernel. The handler branch that disarms is never reached. */
  lemma {:induction false} NoLostWakeup(states: seq<State>, steps: seq<Step>, i: nat)
    requires IsRun(states, steps) && i < |states|
    ensures WakeupInv(states[i])
  {
    if i > 0 {
      NoLostWakeup(states, steps, i - 1);
      assert Enabled(states[i - 1], steps[i - 1]) && states[i - 1 + 1] == Do(states[i - 1], steps[i - 1]);
      StepKeepsWakeup(states[i - 1], steps[i - 1]);
    }
  }
}
