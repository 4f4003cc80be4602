/** How much the service threads can do: a bounded amount for each start, whatever the
    clients do and however time passes meanwhile. When the threads rest, every timer that
    is due has expired. */
module TimerProgress {
  import opened Wrappers
  import opened HeapTree
  import opened TimerBox
  import opened TimerSystem
  import opened TimerWakeup
  import opened TimerLifetime
  import opened TimerTheorems

  /** The steps of the poll thread and of the message thread. */
  predicate System(step: Step) {
    && !step.NewClient? && !step.Start? && !step.Stop? && !step.Close? && !step.Drop? && !step.Tick?
  }

  /** Both threads wait, no message is queued and no fd reads as expired. */
  predicate Quiet(s: State) {
    s.queue == [] && s.worker.WIdle? && s.poll.PWait? && !Ready(s, Sw) && !Ready(s, Hw)
  }

  // ---------- how much is left to do ----------

  function MsgCost(m: Msg): nat {
    match m
    case MPush(_, _) => 25
    case MRemove(_, _) => 14
    case MExpire(_) => 5
  }

  function QueueCost(q: seq<Msg>): nat {
    if q == [] then 0 else MsgCost(q[0]) + QueueCost(q[1..])
  }

  /** The poll thread is about to disarm this container. */
  predicate Disarming(p: Poll, k: Kind) {
    p.PExpire? && (k in p.rest || (p.kind == k && p.stage.Woken?))
  }

  /** An armed fd can wake the poll thread once more, now or when its time comes. */
  function BoxCost(armed: Option<int>, disarming: bool): nat {
    if armed.Some? && !disarming then 10 else 0
  }

  function KernelCost(s: State, k: Kind): nat {
    BoxCost(s.Get(k).armed, Disarming(s.poll, k))
  }

  function PollCost(p: Poll): nat {
    match p
    case PWait => 0
    case PExpire(stage, _, rest) =>
      9 * |rest| + match stage case Woken => 9 case Disarmed => 8 case Unpolled => 7
  }

  function DelCost(del: Option<Rankable>): nat {
    if del.Some? then 1 else 0
  }

  function WorkerCost(w: Worker): nat {
    match w
    case WIdle => 0
    case WExpiring(_, _, _) => 13
    case WAddPoll(_, _, del) => 12 + DelCost(del)
    case WSetTime(_, _, del) => 11 + DelCost(del)
    case WRemovePoll(_, del) => 2 + DelCost(del)
    case WDisarm(_, del) => 1 + DelCost(del)
    case WDelete(_) => 1
  }

  function Attached(dl: map<int, Delegate>): set<int> {
    set a | a in dl && dl[a].mClient.Some?
  }

  function Cost(s: State): nat {
    QueueCost(s.queue) + 10 * Count(s.sw.heap) + 10 * Count(s.hw.heap) + KernelCost(s, Sw) + KernelCost(s, Hw)
    + PollCost(s.poll) + WorkerCost(s.worker) + 15 * |Attached(s.delegates)|
  }

  lemma {:induction false} QueueCostAppend(q: seq<Msg>, m: Msg)
    ensures QueueCost(q + [m]) == QueueCost(q) + MsgCost(m)
  {
    if q == [] {
      assert q + [m] == [m];
    } else {
      assert (q + [m])[1..] == q[1..] + [m];
      QueueCostAppend(q[1..], m);
    }
  }

  // ---------- every step leaves less to do ----------

  lemma WakeCosts(s: State, ready: seq<Kind>)
    requires Enabled(s, Wake(ready))
    ensures Cost(Do(s, Wake(ready))) < Cost(s)
  {
    hide Count, QueueCost, WorkerCost, Attached;
    assert Ready(s, ready[0]);
    if |ready| == 2 { assert Ready(s, ready[1]); }
  }

  lemma PollCosts(s: State, step: Step)
    requires Enabled(s, step) && (step.PollDisarm? || step.PollUnpoll?)
    ensures Cost(Do(s, step)) < Cost(s)
  {
    hide Count, QueueCost, WorkerCost, Attached;
  }

  lemma SendCosts(s: State)
    requires Enabled(s, PollSend)
    ensures Cost(Do(s, PollSend)) < Cost(s)
  {
    QueueCostAppend(s.queue, MExpire(s.poll.kind));
    hide Count, QueueCost, WorkerCost, Attached;
    var rest := s.poll.rest;
    if rest != [] { assert rest == [rest[0]] + rest[1..]; }
  }

  /** Only the queue, the heap of container k and the message thread may differ. */
  predicate SameKernel(s: State, s': State, k: Kind) {
    && s'.poll == s.poll && s'.now == s.now && s'.delegates == s.delegates
    && s'.Get(k) == s.Get(k).(heap := s'.Get(k).heap)
    && (if k.Sw? then s'.hw == s.hw else s'.sw == s.sw)
  }

  /** The part of the cost that a message handler changes. */
  function HandlerCost(s: State, k: Kind): nat {
    QueueCost(s.queue) + 10 * Count(s.Get(k).heap) + WorkerCost(s.worker)
  }

  lemma HandlerCosts(s: State, s': State, k: Kind)
    requires SameKernel(s, s', k)
    ensures Cost(s') - HandlerCost(s', k) == Cost(s) - HandlerCost(s, k)
  {
    hide QueueCost, Count, WorkerCost, PollCost, Attached, Disarming, BoxCost;
  }

  /** The state after the head message has left the queue and its handler's heap part. */
  function AfterHead(s: State, k: Kind, t: Tree, w: Worker): State
    requires s.queue != []
  {
    WithHeap(s.(queue := s.queue[1..]), k, t).(worker := w)
  }

  lemma AfterHeadCosts(s: State, k: Kind, t: Tree, w: Worker)
    requires s.queue != [] && s.worker.WIdle?
    requires 10 * Count(t) + WorkerCost(w) < MsgCost(s.queue[0]) + 10 * Count(s.Get(k).heap)
    ensures Cost(AfterHead(s, k, t, w)) < Cost(s)
  {
    HandlerCosts(s, AfterHead(s, k, t, w), k);
    hide Count, Cost, WorkerCost, MsgCost;
    assert WorkerCost(WIdle) == 0 by { IdleCost(); }
  }

  lemma IdleCost()
    ensures WorkerCost(WIdle) == 0
  {
  }

  lemma ContinueCost(k: Kind, a: Action, del: Option<Rankable>)
    ensures WorkerCost(Continue(k, a, del)) <= 12 + DelCost(del)
  {
  }

  lemma PushCosts(s: State)
    requires HeapsOk(s) && Enabled(s, Take) && s.queue[0].MPush?
    ensures Cost(DoTake(s)) < Cost(s)
  {
    var MPush(k, d) := s.queue[0];
    var t := s.Get(k).heap;
    var w := Continue(k, OnPush(t, d).action, None);
    PushWf(t, d);
    ContinueCost(k, OnPush(t, d).action, None);
    hide Count, Ordered, Sized, Push, UpdateAction, Continue, WorkerCost, Cost;
    assert DoTake(s) == AfterHead(s, k, Push(t, d), w);
    AfterHeadCosts(s, k, Push(t, d), w);
  }

  lemma RemoveCosts(s: State)
    requires HeapsOk(s) && Enabled(s, Take) && s.queue[0].MRemove?
    ensures Cost(DoTake(s)) < Cost(s)
  {
    var MRemove(k, d) := s.queue[0];
    var t := s.Get(k).heap;
    var w := Continue(k, OnRemove(t, d).action, Some(d));
    RemoveWf(t, d);
    ContinueCost(k, OnRemove(t, d).action, Some(d));
    hide Count, Ordered, Sized, Remove, UpdateAction, Continue, WorkerCost, Cost;
    assert DoTake(s) == AfterHead(s, k, Remove(t, d).tree, w);
    AfterHeadCosts(s, k, Remove(t, d).tree, w);
  }

  lemma ExpireCosts(s: State)
    requires HeapsOk(s) && Enabled(s, Take) && s.queue[0].MExpire?
    ensures Cost(DoTake(s)) < Cost(s)
  {
    var k := s.queue[0].kind;
    var t := s.Get(k).heap;
    if t.Node? { PopWf(t); }
    hide Count, Ordered, Sized, Pop, Cost;
    if t.Node? {
      assert DoTake(s) == AfterHead(s, k, Pop(t), WExpiring(k, s.now, t.data));
      AfterHeadCosts(s, k, Pop(t), WExpiring(k, s.now, t.data));
    } else {
      assert DoTake(s) == AfterHead(s, k, t, WIdle);
      AfterHeadCosts(s, k, t, WIdle);
    }
  }

  lemma TakeCosts(s: State)
    requires HeapsOk(s) && Enabled(s, Take)
    ensures Cost(DoTake(s)) < Cost(s)
  {
    hide Cost, DoTake, HeapsOk;
    match s.queue[0] {
      case MPush(_, _) => PushCosts(s);
      case MRemove(_, _) => RemoveCosts(s);
      case MExpire(_) => ExpireCosts(s);
    }
  }

  lemma DetachCosts(dl: map<int, Delegate>, a: int)
    requires a in dl && dl[a].mClient.Some?
    ensures |Attached(dl)| == |Attached(dl[a := dl[a].(mClient := None)])| + 1
  {
    assert Attached(dl) == Attached(dl[a := dl[a].(mClient := None)]) + {a};
  }

  lemma TimeoutCosts(s: State, d: Rankable)
    requires OwnInv(s.clients, s.delegates) && Live(s.delegates, d)
    ensures Cost(DoTimeout(s, d)) <= Cost(s)
  {
    TimeoutDetaches(s, d);
    if s.delegates[d.addr].mClient.Some? {
      DetachCosts(s.delegates, d.addr);
      QueueCostAppend(s.queue, MRemove(s.delegates[d.addr].kind, d));
      hide Count, Attached, QueueCost, OwnInv;
    }
  }

  lemma NextDueSame(s: State, k: Kind, at: int)
    requires s.worker.WExpiring? && s.worker.kind == k
    ensures SameKernel(s, NextDue(s, k, at), k) && NextDue(s, k, at).queue == s.queue
  {
    hide UpdateAction, Continue, Pop, Due;
  }

  lemma NextDueCosts(s: State, k: Kind, at: int)
    requires Wf(s.Get(k).heap) && s.worker.WExpiring? && s.worker.at == at
    ensures HandlerCost(NextDue(s, k, at), k) < HandlerCost(s, k)
  {
    var t := s.Get(k).heap;
    if t.Node? { PopWf(t); }
    hide Count, Ordered, Sized, Pop, QueueCost;
  }

  lemma TimeoutLeaves(s: State)
    requires Sound(s) && s.worker.WExpiring?
    ensures OwnInv(s.clients, s.delegates) && Live(s.delegates, s.worker.d)
    ensures Wf(s.sw.heap) && Wf(s.hw.heap) && OnlyQueues(s, DoTimeout(s, s.worker.d))
  {
  }

  lemma ExpireOneCosts(s: State)
    requires Sound(s) && Enabled(s, ExpireOne)
    ensures Cost(DoExpireOne(s)) < Cost(s)
  {
    hide Sound, Cost, HandlerCost, DoTimeout, NextDue, Ordered, Sized, SameKernel, OwnInv;
    var d, k, at := s.worker.d, s.worker.kind, s.worker.at;
    var s1 := DoTimeout(s, d);
    TimeoutLeaves(s);
    TimeoutCosts(s, d);
    NextDueCosts(s1, k, at);
    NextDueSame(s1, k, at);
    HandlerCosts(s1, NextDue(s1, k, at), k);
  }

  /** The part of the cost that a system call on container k changes. */
  function CallCost(s: State, armed: Option<int>, k: Kind, w: Worker): nat {
    BoxCost(armed, Disarming(s.poll, k)) + WorkerCost(w)
  }

  lemma SetCosts(s: State, k: Kind, b: Box, w: Worker)
    requires b.heap == s.Get(k).heap
    requires CallCost(s, b.armed, k, w) < CallCost(s, s.Get(k).armed, k, s.worker)
    ensures Cost(s.Set(k, b).(worker := w)) < Cost(s)
  {
    hide Count, QueueCost, Attached, PollCost, Disarming, BoxCost, WorkerCost;
  }

  lemma FinishCost(del: Option<Rankable>)
    ensures WorkerCost(Finish(del)) == DelCost(del)
  {
  }

  lemma KernelCallCosts(s: State, step: Step)
    requires Enabled(s, step) && (step.AddPoll? || step.SetTime? || step.RemovePoll? || step.Disarm?)
    ensures Cost(Do(s, step)) < Cost(s)
  {
    hide Cost, Finish, Disarming, DelCost;
    FinishCost(s.worker.del);
    var k, s' := s.worker.kind, Do(s, step);
    SetCosts(s, k, s'.Get(k), s'.worker);
  }

  lemma DeleteCosts(s: State)
    requires LifeInv(s) && Enabled(s, Delete)
    ensures Cost(Do(s, Delete)) < Cost(s)
  {
    hide LifeInv, Do, Cost;
    DeleteLife(s, s.worker.d);
    DetachedGone(s.delegates, s.worker.d.addr);
    DeletedCosts(s, s.worker.d);
  }

  lemma DeletedCosts(s: State, d: Rankable)
    requires s.worker == WDelete(d) && d.addr in s.delegates
    requires Attached(s.delegates - {d.addr}) == Attached(s.delegates)
    ensures Cost(DoDelete(s, d)) < Cost(s) && DoDelete(s, d) == Do(s, Delete)
  {
    hide DropLock, Count, QueueCost, PollCost, Disarming, Attached;
  }

  lemma DetachedGone(dl: map<int, Delegate>, a: int)
    requires a in dl && dl[a].mClient == None
    ensures Attached(dl - {a}) == Attached(dl)
  {
  }

  lemma StepCosts(s: State, step: Step)
    requires Sound(s) && Enabled(s, step) && System(step)
    ensures Cost(Do(s, step)) < Cost(s)
  {
    assert HeapsOk(s);
    hide LifeInv, ClientInv, WakeupInv, HeapsOk, Cost, DoTake, DoExpireOne;
    match step {
      case Wake(ready) => WakeCosts(s, ready);
      case PollDisarm => PollCosts(s, step);
      case PollUnpoll => PollCosts(s, step);
      case PollSend => SendCosts(s);
      case Take => TakeCosts(s);
      case ExpireOne => ExpireOneCosts(s);
      case Delete => DeleteCosts(s);
      case _ => KernelCallCosts(s, step);
    }
  }

  // ---------- what clients and time add ----------

  lemma AttachCosts(dl: map<int, Delegate>, a: int, e: Delegate)
    requires a !in dl && e.mClient.Some?
    ensures |Attached(dl[a := e])| == |Attached(dl)| + 1
  {
    assert Attached(dl[a := e]) == Attached(dl) + {a};
  }

  lemma StartCosts(s: State, c: nat, k: Kind, delay: nat)
    requires s.nextAddr !in s.delegates && Enabled(s, Start(c, k, delay))
    ensures Cost(DoStart(s, c, k, delay)) <= Cost(s) + 40
  {
    if s.clients[c].mTimer.None? {
      var e := Delegate(s.now + delay, k, c, Some(c));
      AttachCosts(s.delegates, s.nextAddr, e);
      QueueCostAppend(s.queue, MPush(k, Rankable(s.nextAddr, e.key)));
      hide Count, Attached, QueueCost, PollCost, WorkerCost, Disarming;
    }
  }

  lemma StopCosts(s: State, c: nat, how: End)
    requires OwnInv(s.clients, s.delegates) && c in s.clients
    ensures Cost(DoStop(s, c, how)) <= Cost(s)
  {
    if s.clients[c].mTimer.Some? {
      var d := s.clients[c].mTimer.value;
      DetachCosts(s.delegates, d.addr);
      QueueCostAppend(s.queue, MRemove(s.delegates[d.addr].kind, d));
      hide Count, Attached, QueueCost, PollCost, WorkerCost, Disarming, OwnInv;
    }
  }

  /** What the cost depends on. */
  function CostSide(s: State): (seq<Msg>, Box, Box, Poll, Worker, map<int, Delegate>) {
    (s.queue, s.sw, s.hw, s.poll, s.worker, s.delegates)
  }

  lemma SameCost(s: State, s': State)
    requires CostSide(s') == CostSide(s)
    ensures Cost(s') == Cost(s)
  {
  }

  /** Only a start makes work; the passing of time makes none. */
  lemma ClientCosts(s: State, step: Step)
    requires Sound(s) && Enabled(s, step) && !System(step)
    ensures Cost(Do(s, step)) <= Cost(s) + if step.Start? then 40 else 0
  {
    OwnOfClient(s);
    FreshAddr(s);
    hide LifeInv, ClientInv, WakeupInv, Cost, DoStart, DoStop, OwnInv;
    match step {
      case Start(c, k, delay) => StartCosts(s, c, k, delay);
      case Stop(c) => StopCosts(s, c, Stopped);
      case Close(c) => StopCosts(s, c, Stopped); SameCost(DoStop(s, c, Stopped), Do(s, step));
      case NewClient(_) => SameCost(s, Do(s, step));
      case Drop(_) => SameCost(s, Do(s, step));
      case Tick(_) => SameCost(s, Do(s, step));
    }
  }

  function Services(steps: seq<Step>): nat {
    if steps == [] then 0 else Services(steps[..|steps| - 1]) + if System(steps[|steps| - 1]) then 1 else 0
  }

  function Starts(steps: seq<Step>): nat {
    if steps == [] then 0 else Starts(steps[..|steps| - 1]) + if steps[|steps| - 1].Start? then 1 else 0
  }

  /** Over every stretch of every run, with any calls of clients in it and time passing:
      the service threads take at most 40 steps for each start, besides what was left to
      do. Without a start they come to rest. */
  lemma {:induction false} WorkIsBounded(states: seq<State>, steps: seq<Step>, i: nat, j: nat)
    requires IsRun(states, steps) && i <= j < |states|
    ensures Services(steps[i..j]) + Cost(states[j]) <= Cost(states[i]) + 40 * Starts(steps[i..j])
  {
    hide Sound, Do, Cost, System;
    if i < j {
      WorkIsBounded(states, steps, i, j - 1);
      RunSound(states, steps, j - 1);
      assert Enabled(states[j - 1], steps[j - 1]) && states[j - 1 + 1] == Do(states[j - 1], steps[j - 1]);
      if System(steps[j - 1]) { StepCosts(states[j - 1], steps[j - 1]); } else { ClientCosts(states[j - 1], steps[j - 1]); }
      assert steps[i..j][..j - i - 1] == steps[i..j - 1];
    }
  }

  lemma InitCost()
    ensures Cost(INIT) == 0
  {
    assert Attached(INIT.delegates) == {};
  }

  /** From the start of a run there is nothing left to do, so 40 steps for each start are
      all there are. */
  lemma AllWorkIsBounded(states: seq<State>, steps: seq<Step>)
    requires IsRun(states, steps)
    ensures Services(steps) <= 40 * Starts(steps)
  {
    InitCost();
    WorkIsBounded(states, steps, 0, |steps|);
    assert steps[0..|steps|] == steps;
  }

  /** They cannot stop before there is nothing left to do. */
  lemma StuckOnlyWhenQuiet(s: State)
    ensures Quiet(s) <==> !exists step :: Enabled(s, step) && System(step)
  {
    if s.worker.WIdle? && s.queue != [] { assert Enabled(s, Take) && System(Take); }
    if s.worker.WExpiring? { assert Enabled(s, ExpireOne) && System(ExpireOne); }
    if s.worker.WAddPoll? { assert Enabled(s, AddPoll) && System(AddPoll); }
    if s.worker.WSetTime? { assert Enabled(s, SetTime) && System(SetTime); }
    if s.worker.WRemovePoll? { assert Enabled(s, RemovePoll) && System(RemovePoll); }
    if s.worker.WDisarm? { assert Enabled(s, Step.Disarm) && System(Step.Disarm); }
    if s.worker.WDelete? { assert Enabled(s, Delete) && System(Delete); }
    if s.poll.PExpire? {
      var next := match s.poll.stage case Woken => PollDisarm case Disarmed => PollUnpoll case Unpolled => PollSend;
      assert Enabled(s, next) && System(next);
    } else {
      if Ready(s, Sw) { assert Enabled(s, Wake([Sw])) && System(Wake([Sw])); }
      if Ready(s, Hw) { assert Enabled(s, Wake([Hw])) && System(Wake([Hw])); }
    }
    if Quiet(s) {
      forall step: Step | System(step) ensures !Enabled(s, step) { QuietIsStuck(s, step); }
    }
  }

  /** The poll thread may be told of one expired fd or of both, in either order, and a client
      that is in use may start, stop or give up its timer at any time. */
  lemma NothingIsExcluded(s: State, c: nat)
    ensures s.poll.PWait? && Ready(s, Sw) ==> Enabled(s, Wake([Sw]))
    ensures s.poll.PWait? && Ready(s, Hw) ==> Enabled(s, Wake([Hw]))
    ensures s.poll.PWait? && Ready(s, Sw) && Ready(s, Hw) ==> Enabled(s, Wake([Sw, Hw])) && Enabled(s, Wake([Hw, Sw]))
    ensures c in s.clients && s.clients[c].phase.Alive? ==>
              Enabled(s, Stop(c)) && Enabled(s, Close(c)) && forall k, delay :: Enabled(s, Start(c, k, delay))
    ensures forall dt :: Enabled(s, Tick(dt))
  {
  }

  lemma QuietIsStuck(s: State, step: Step)
    requires Quiet(s) && System(step)
    ensures !Enabled(s, step)
  {
    if step.Wake? && 0 < |step.ready| { assert step.ready[0] == Sw || step.ready[0] == Hw; }
  }

  // ---------- at rest ----------

  lemma QuietHeaps(s: State, k: Kind, d: Rankable)
    requires WakeupInv(s) && Quiet(s) && d in Elems(s.Get(k).heap)
    ensures d.key > s.now
  {
    assert k == Sw || k == Hw;
    TopRanksHighest(s.Get(k).heap, d);
  }

  /** Every delegate there is belongs to a running client, waits in its heap and is not
      due. */
  ghost predicate Clean(s: State) {
    forall a :: a in s.delegates ==>
      var e := s.delegates[a];
      && e.mClient.Some? && e.mClient.value in s.clients && s.clients[e.mClient.value].mTimer == Some(Rankable(a, e.key))
      && Rankable(a, e.key) in Elems(s.Get(e.kind).heap)
      && e.key > s.now
  }

  lemma SoundRest(s: State)
    requires Sound(s) && Quiet(s)
    ensures Clean(s)
  {
    hide CountsOk, EndsOk, LocksOk, OrderOk, Ordered, Sized, Elems;
    assert Placed(s) == Elems(s.sw.heap) + Elems(s.hw.heap);
    assert Doomed(s) == multiset{};
    forall a | a in s.delegates
      ensures
        var e := s.delegates[a];
        && e.mClient.Some? && e.mClient.value in s.clients && s.clients[e.mClient.value].mTimer == Some(Rankable(a, e.key))
        && Rankable(a, e.key) in Elems(s.Get(e.kind).heap)
        && e.key > s.now
    {
      var d := Rankable(a, s.delegates[a].key);
      assert d in Placed(s);
      if d in Elems(s.sw.heap) { QuietHeaps(s, Sw, d); } else { QuietHeaps(s, Hw, d); }
    }
  }

  /** In every reachable state in which the service rests, nothing has leaked and nothing
      is overdue. */
  lemma RestIsClean(states: seq<State>, steps: seq<Step>, i: nat)
    requires IsRun(states, steps) && i < |states| && Quiet(states[i])
    ensures Clean(states[i])
  {
    hide Sound, Quiet, Clean;
    RunSound(states, steps, i);
    SoundRest(states[i]);
  }

  // ---------- every due timer expires ----------

  lemma StopKeepsTimer(s: State, other: nat, how: End, c: nat)
    requires OwnInv(s.clients, s.delegates) && c in s.clients && s.clients[c].mTimer.Some? && other in s.clients
    ensures var s' := DoStop(s, other, how);
            c in s'.clients && (s'.clients[c].mTimer == s.clients[c].mTimer || s.clients[c].mTimer.value.addr in s'.ends)
  {
  }

  lemma TimeoutKeepsTimer(s: State, d: Rankable, c: nat)
    requires OwnInv(s.clients, s.delegates) && c in s.clients && s.clients[c].mTimer.Some?
    ensures var s' := DoTimeout(s, d);
            c in s'.clients && (s'.clients[c].mTimer == s.clients[c].mTimer || s.clients[c].mTimer.value.addr in s'.ends)
  {
    hide DoStop;
    if d.addr in s.delegates && s.delegates[d.addr].mClient.Some? && s.delegates[d.addr].mClient.value in s.clients {
      StopKeepsTimer(s, s.delegates[d.addr].mClient.value, TimedOut, c);
    }
  }

  /** A running timer runs on until it has ended. */
  lemma TimerStays(s: State, step: Step, c: nat)
    requires OwnInv(s.clients, s.delegates) && Enabled(s, step) && c in s.clients && s.clients[c].mTimer.Some?
    ensures var s' := Do(s, step);
            c in s'.clients && (s'.clients[c].mTimer == s.clients[c].mTimer || s.clients[c].mTimer.value.addr in s'.ends)
  {
    hide DoStop, DoTake, DoExpireOne, DoTimeout, DoDelete, NextExpire, Finish, DropLock, OwnInv;
    match step {
      case Stop(other) => StopKeepsTimer(s, other, Stopped, c);
      case Close(other) => StopKeepsTimer(s, other, Stopped, c);
      case Take => TakeClientSide(s);
      case ExpireOne => ExpireTouches(s); TimeoutKeepsTimer(s, s.worker.d, c);
      case Delete => DeleteKeepsClients(s, s.worker.d);
      case _ =>
    }
  }

  lemma DeleteKeepsClients(s: State, d: Rankable)
    ensures DoDelete(s, d).clients == s.clients
  {
  }

  /** If it is not its client that ends it, it ends with a callback. */
  lemma EndIsCallback(s: State, step: Step, c: nat)
    requires Sound(s) && Enabled(s, step) && c in s.clients && s.clients[c].mTimer.Some?
    requires step != Stop(c) && step != Close(c)
    ensures var a := s.clients[c].mTimer.value.addr;
            a !in s.ends && (a in Do(s, step).ends ==> Do(s, step).ends[a] == TimedOut)
  {
    var a := s.clients[c].mTimer.value.addr;
    RunningNotEnded(s, c);
    SoundOwns(s);
    hide Sound, Do, Enabled, OwnInv;
    EndStep(s, step, a);
    if a in Do(s, step).ends {
      forall other: nat | EndedBy(s, step, Do(s, step), a, other, Do(s, step).ends[a])
        ensures Do(s, step).ends[a] == TimedOut
      {
        OneOwner(s, c, other);
      }
    }
  }

  lemma OneOwner(s: State, c: nat, other: nat)
    requires OwnInv(s.clients, s.delegates) && c in s.clients && other in s.clients
    requires s.clients[c].mTimer.Some? && s.clients[other].mTimer.Some?
    requires s.clients[c].mTimer.value.addr == s.clients[other].mTimer.value.addr
    ensures c == other
  {
  }

  lemma RunningNotEnded(s: State, c: nat)
    requires Sound(s) && c in s.clients && s.clients[c].mTimer.Some?
    ensures var d := s.clients[c].mTimer.value;
            d.addr !in s.ends && 0 <= d.addr < s.nextAddr && Live(s.delegates, d)
  {
  }

  /** Over every stretch of a run in which its client does not stop it, a timer runs on or
      has ended with a callback. */
  lemma {:induction false} RunsOrTimedOut(states: seq<State>, steps: seq<Step>, i: nat, j: nat, c: nat)
    requires IsRun(states, steps) && i <= j < |states|
    requires c in states[i].clients && states[i].clients[c].mTimer.Some?
    requires forall k :: i <= k < j ==> steps[k] != Stop(c) && steps[k] != Close(c)
    ensures var d := states[i].clients[c].mTimer.value;
            if d.addr in states[j].ends then states[j].ends[d.addr] == TimedOut
            else c in states[j].clients && states[j].clients[c].mTimer == Some(d)
  {
    hide Sound, Do, Enabled, OwnInv;
    if i == j {
      RunSound(states, steps, i);
      RunningNotEnded(states[i], c);
    } else {
      RunsOrTimedOut(states, steps, i, j - 1, c);
      var a := states[i].clients[c].mTimer.value.addr;
      var s, step := states[j - 1], steps[j - 1];
      RunSound(states, steps, j - 1);
      SoundOwns(s);
      assert Enabled(s, step) && states[j - 1 + 1] == Do(s, step);
      EndStep(s, step, a);
      if a !in s.ends {
        TimerStays(s, step, c);
        EndIsCallback(s, step, c);
      }
    }
  }

  /** Over every run, with any calls of any clients in it and however time passes: when the
      service rests, every timer that was started before and is due by then, and that its
      client has not stopped, has been called back. */
  lemma DueTimersExpire(states: seq<State>, steps: seq<Step>, i: nat, j: nat, c: nat)
    requires IsRun(states, steps) && i <= j < |states| && Quiet(states[j])
    requires c in states[i].clients && states[i].clients[c].mTimer.Some?
    requires states[i].clients[c].mTimer.value.key <= states[j].now
    requires forall k :: i <= k < j ==> steps[k] != Stop(c) && steps[k] != Close(c)
    ensures var a := states[i].clients[c].mTimer.value.addr;
            a !in states[i].ends && a in states[j].ends && states[j].ends[a] == TimedOut
  {
    hide Sound, Quiet, Do, Enabled;
    RunSound(states, steps, i);
    RunningNotEnded(states[i], c);
    RunsOrTimedOut(states, steps, i, j, c);
    RestIsClean(states, steps, j);
    RunSound(states, steps, j);
    if states[i].clients[c].mTimer.value.addr !in states[j].ends { RunningNotEnded(states[j], c); }
  }

  // ---------- the expiry loop without interference ----------

  /** The loop of MsgTimerExpire run to its end. */
  function ExpireAll(s: State): State
    requires s.worker.WExpiring? ==> Wf(s.Get(s.worker.kind).heap)
    decreases if s.worker.WExpiring? then 1 + Count(s.Get(s.worker.kind).heap) else 0
  {
    if !s.worker.WExpiring? then s
    else
      NextLoop(s);
      ExpireAll(DoExpireOne(s))
  }

  lemma NextLoop(s: State)
    requires s.worker.WExpiring? && Wf(s.Get(s.worker.kind).heap)
    ensures
      var k, at, t, s' := s.worker.kind, s.worker.at, s.Get(s.worker.kind).heap, DoExpireOne(s);
      if Due(t, at) then s'.worker == WExpiring(k, at, t.data) && s'.Get(k).heap == Pop(t) && Wf(Pop(t)) && Count(Pop(t)) < Count(t)
      else !s'.worker.WExpiring? && s'.Get(k).heap == t
  {
    var t := s.Get(s.worker.kind).heap;
    if t.Node? { PopWf(t); }
    assert OnlyQueues(s, DoTimeout(s, s.worker.d));
    hide DoTimeout, Ordered, Sized;
  }

  /** The interleaved steps take the same timers out of the heap as the handler that
      LocTimerContainer.dfy runs in one go. */
  lemma {:induction false} LoopIsHandler(s: State)
    requires s.worker.WExpiring? && Wf(s.Get(s.worker.kind).heap)
    ensures ExpireAll(s).Get(s.worker.kind).heap == PopDue(s.Get(s.worker.kind).heap, s.worker.at).tree
    decreases Count(s.Get(s.worker.kind).heap)
  {
    NextLoop(s);
    if Due(s.Get(s.worker.kind).heap, s.worker.at) { LoopIsHandler(DoExpireOne(s)); }
  }
}
