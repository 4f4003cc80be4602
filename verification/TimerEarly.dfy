/** The failing side of NoEarlyPop is reachable: a stop and an expiry that cross each other
    make the service call a client back before its time. */
module TimerEarly {
  import opened Wrappers
  import opened HeapTree
  import opened TimerBox
  import opened TimerSystem
  import opened TimerWakeup
  import opened TimerLifetime
  import opened TimerTheorems

  ghost predicate Reachable(s: State) {
    exists states: seq<State>, steps: seq<Step> :: IsRun(states, steps) && states[|steps|] == s
  }

  lemma InitReached()
    ensures Reachable(INIT)
  {
    var steps: seq<Step> := [];
    assert IsRun([INIT], steps) && [INIT][|steps|] == INIT;
  }

  lemma StepReached(s: State, step: Step)
    requires Reachable(s) && Enabled(s, step)
    ensures Reachable(Do(s, step))
  {
    hide Do, Enabled;
    var states: seq<State>, steps: seq<Step> :| IsRun(states, steps) && states[|steps|] == s;
    var states', steps' := states + [Do(s, step)], steps + [step];
    forall i | 0 <= i < |steps'| ensures Enabled(states'[i], steps'[i]) && states'[i + 1] == Do(states'[i], steps'[i]) {
      if i < |steps| { assert Enabled(states[i], steps[i]) && states[i + 1] == Do(states[i], steps[i]); }
    }
    assert IsRun(states', steps') && states'[|steps'|] == Do(s, step);
  }

  /** The two system calls that arm the kernel. */
  lemma ArmingReached(s: State)
    requires Reachable(s) && s.worker.WAddPoll? && s.worker.kind == Sw
    ensures Reachable(s.(sw := Box(s.sw.heap, Some(s.worker.time), true), worker := Finish(s.worker.del)))
  {
    hide Reachable, DoStart, DoStop, DoTake, DoExpireOne, DoDelete, Finish;
    StepReached(s, AddPoll);
    StepReached(Do(s, AddPoll), SetTime);
    assert Do(Do(s, AddPoll), SetTime) == s.(sw := Box(s.sw.heap, Some(s.worker.time), true), worker := Finish(s.worker.del));
  }

  /** The poll thread reports an expired fd, disarms it and takes it out of the poll. */
  lemma PollingReached(s: State)
    requires Reachable(s) && s.poll.PWait? && Ready(s, Sw)
    ensures Reachable(s.(sw := Box(s.sw.heap, None, false), poll := PExpire(Unpolled, Sw, [])))
  {
    hide Reachable, DoStart, DoStop, DoTake, DoExpireOne, DoDelete;
    var s1 := Do(s, Wake([Sw]));
    StepReached(s, Wake([Sw]));
    assert [Sw][1..] == [];
    assert s1 == s.(poll := PExpire(Woken, Sw, []));
    StepReached(s1, PollDisarm);
    var s2 := Do(s1, PollDisarm);
    assert s2 == s.(sw := Box(s.sw.heap, None, s.sw.inPoll), poll := PExpire(Disarmed, Sw, []));
    StepReached(s2, PollUnpoll);
    assert Do(s2, PollUnpoll) == s.(sw := Box(s.sw.heap, None, false), poll := PExpire(Unpolled, Sw, []));
  }

  // ---------- two timers, due at 1 and at 10 ----------

  const FIRST := Rankable(0, 1)
  const SECOND := Rankable(1, 10)
  const BOTH := Node(FIRST, 2, Node(SECOND, 1, Leaf, Leaf), Leaf)
  const ONE := Node(SECOND, 1, Leaf, Leaf)
  const NO_BOX := Box(Leaf, None, false)

  /** Both clients have started their timers. */
  function Started(): State {
    State(map[1 := Client(Some(FIRST), Alive, 1, 0, 0), 2 := Client(Some(SECOND), Alive, 1, 0, 0)],
          map[1 := 2, 2 := 2],
          map[0 := Delegate(1, Sw, 1, Some(1)), 1 := Delegate(10, Sw, 2, Some(2))],
          2, map[], [MPush(Sw, FIRST), MPush(Sw, SECOND)], NO_BOX, NO_BOX, PWait, WIdle, 0)
  }

  /** Both are in the heap and the kernel waits for the first. */
  function Armed(): State {
    Started().(queue := [], sw := Box(BOTH, Some(1), true))
  }

  /** The first is due and the poll thread has taken the fd out of the poll, but has not
      yet posted the expiry. */
  function Polled(): State {
    Armed().(now := 1, sw := Box(BOTH, None, false), poll := PExpire(Unpolled, Sw, []))
  }

  /** The first client has stopped its timer before the expiry is posted. */
  function Crossed(): State {
    Polled().(clients := map[1 := Client(None, Alive, 1, 1, 0), 2 := Client(Some(SECOND), Alive, 1, 0, 0)],
              delegates := map[0 := Delegate(1, Sw, 1, None), 1 := Delegate(10, Sw, 2, Some(2))],
              ends := map[0 := Stopped], queue := [MRemove(Sw, FIRST), MExpire(Sw)], poll := PWait)
  }

  /** The stopped timer is gone and the kernel waits for the second, but the expiry is
      still in the queue. */
  function Removed(): State {
    Crossed().(locks := map[1 := 1, 2 := 2], delegates := map[1 := Delegate(10, Sw, 2, Some(2))],
               queue := [MExpire(Sw)], sw := Box(ONE, Some(10), true))
  }

  function Expiring(): State {
    Removed().(queue := [], sw := Box(Leaf, Some(10), true), worker := WExpiring(Sw, 1, SECOND))
  }

  lemma StartedReached()
    ensures Reachable(Started())
  {
    InitReached();
    var s1 := Do(INIT, NewClient(1));
    var s2 := Do(s1, NewClient(2));
    var s3 := Do(s2, Start(1, Sw, 1));
    StepReached(INIT, NewClient(1));
    StepReached(s1, NewClient(2));
    StepReached(s2, Start(1, Sw, 1));
    StepReached(s3, Start(2, Sw, 10));
    hide Reachable;
    assert Do(s3, Start(2, Sw, 10)) == Started();
  }

  lemma ArmedReached()
    requires Reachable(Started())
    ensures Reachable(Armed())
  {
    hide Reachable, DoStart, DoStop, DoExpireOne, DoDelete;
    var s := Started();
    var top := Node(FIRST, 1, Leaf, Leaf);
    var s1 := s.(queue := [MPush(Sw, SECOND)], sw := Box(top, None, false), worker := WAddPoll(Sw, 1, None));
    assert Do(s, Take) == s1;
    StepReached(s, Take);
    ArmingReached(s1);
    var s2 := s1.(sw := Box(top, Some(1), true), worker := WIdle);
    assert Do(s2, Take) == Armed();
    StepReached(s2, Take);
  }

  lemma PolledReached()
    requires Reachable(Armed())
    ensures Reachable(Polled())
  {
    hide Reachable, DoStart, DoStop, DoTake, DoExpireOne, DoDelete;
    StepReached(Armed(), Tick(1));
    assert Do(Armed(), Tick(1)) == Armed().(now := 1);
    PollingReached(Armed().(now := 1));
  }

  lemma CrossedReached()
    requires Reachable(Polled())
    ensures Reachable(Crossed())
  {
    hide Reachable;
    var s := Polled();
    var s1 := Crossed().(queue := [MRemove(Sw, FIRST)], poll := s.poll);
    assert Do(s, Stop(1)) == s1;
    assert Do(s1, PollSend) == Crossed();
    StepReached(s, Stop(1));
    StepReached(s1, PollSend);
  }

  /** The removal has been handled up to the first system call. */
  function Removing(): State {
    Crossed().(queue := [MExpire(Sw)], sw := Box(ONE, None, false), worker := WAddPoll(Sw, 10, Some(FIRST)))
  }

  lemma RemovingReached()
    requires Reachable(Crossed())
    ensures Reachable(Removing())
  {
    hide Reachable;
    assert Do(Crossed(), Take) == Removing();
    StepReached(Crossed(), Take);
  }

  lemma RemovedReached()
    requires Reachable(Removing())
    ensures Reachable(Removed())
  {
    hide Reachable, DoStart, DoStop, DoTake, DoExpireOne;
    ArmingReached(Removing());
    var s := Removing().(sw := Box(ONE, Some(10), true), worker := WDelete(FIRST));
    assert Do(s, Delete) == Removed();
    StepReached(s, Delete);
  }

  lemma ExpiringReached()
    requires Reachable(Removed())
    ensures Reachable(Expiring())
  {
    hide Reachable;
    assert Do(Removed(), Take) == Expiring();
    StepReached(Removed(), Take);
  }

  lemma ExpiringReachable()
    ensures Reachable(Expiring())
  {
    hide Reachable;
    StartedReached();
    ArmedReached();
    PolledReached();
    CrossedReached();
    RemovingReached();
    RemovedReached();
    ExpiringReached();
  }

  /** There is a run after which the next step calls a client back, and counts its timer
      as timed out, at time 1, although the timer is due at 10. */
  lemma CalledBackEarly()
    ensures exists s ::
              && Reachable(s) && Enabled(s, ExpireOne) && s.now == 1 && s.worker.d == Rankable(1, 10)
              && 2 in s.clients && s.clients[2] == Client(Some(Rankable(1, 10)), Alive, 1, 0, 0)
              && var s' := Do(s, ExpireOne);
                 2 in s'.clients && s'.clients[2] == Client(None, Alive, 1, 0, 1) && s'.ends[1 := TimedOut] == s'.ends
  {
    ExpiringReachable();
    hide Reachable;
    var s := Expiring();
    assert Do(s, ExpireOne).ends[1 := TimedOut] == Do(s, ExpireOne).ends;
  }

  // ---------- every early callback ----------

  predicate WorkerStep(step: Step) {
    step.Take? || step.ExpireOne? || step.AddPoll? || step.SetTime? || step.RemovePoll? || step.Disarm? || step.Delete?
  }

  lemma TakenForExpiry(s: State)
    requires Enabled(s, Take) && DoTake(s).worker.WExpiring?
    ensures s.queue[0].MExpire? && s.Get(s.queue[0].kind).heap.Node?
    ensures DoTake(s).worker == WExpiring(s.queue[0].kind, s.now, s.Get(s.queue[0].kind).heap.data)
  {
    hide OnPush, OnRemove, UpdateAction, Pop;
  }

  lemma TimeoutKeepsWorker(s: State, d: Rankable)
    ensures var s' := DoTimeout(s, d); s'.worker == s.worker && s'.sw == s.sw && s'.hw == s.hw && s'.now == s.now
  {
  }

  /** Every timer after the first is popped when it is due. */
  lemma NextIsDue(s: State)
    requires s.worker.WExpiring? && DoExpireOne(s).worker.WExpiring?
    ensures DoExpireOne(s).worker.at == s.worker.at && DoExpireOne(s).worker.d.key <= s.worker.at && DoExpireOne(s).now == s.now
  {
    hide DoTimeout, UpdateAction, Pop;
    TimeoutKeepsWorker(s, s.worker.d);
  }

  lemma OthersKeepWorker(s: State, step: Step)
    requires Enabled(s, step) && !WorkerStep(step)
    ensures Do(s, step).worker == s.worker && Do(s, step).now >= s.now
  {
    hide NextExpire, DropLock;
  }

  lemma FinishIsNotExpiring(s: State, step: Step)
    requires Enabled(s, step) && WorkerStep(step) && !step.Take? && !step.ExpireOne?
    ensures !Do(s, step).worker.WExpiring?
  {
    hide DropLock, DoStart, DoStop, DoTake, DoExpireOne, NextExpire;
  }

  lemma TakeKeepsTime(s: State)
    requires Enabled(s, Take)
    ensures DoTake(s).now == s.now
  {
    hide OnPush, OnRemove, UpdateAction, Pop, Continue;
  }

  /** Step j begins to handle an expiry whose top timer is not due even at time now, and
      the message thread has done nothing since. */
  ghost predicate TakesUndue(states: seq<State>, steps: seq<Step>, j: nat, i: nat, now: int)
    requires |states| == |steps| + 1 && i < |states|
  {
    && j < i && steps[j].Take? && states[j].queue != [] && states[j].queue[0].MExpire?
    && states[j].Get(states[j].queue[0].kind).heap.Node?
    && states[j].Get(states[j].queue[0].kind).heap.data.key > now
    && forall k :: j < k < i ==> !WorkerStep(steps[k])
  }

  lemma ExpiringFrom(s: State, step: Step)
    requires Enabled(s, step) && Do(s, step).worker.WExpiring?
    ensures if step.Take? then
              s.queue != [] && s.queue[0].MExpire? && s.Get(s.queue[0].kind).heap.Node?
              && Do(s, step).worker == WExpiring(s.queue[0].kind, s.now, s.Get(s.queue[0].kind).heap.data) && Do(s, step).now == s.now
            else
              s.worker.WExpiring? && Do(s, step).worker.at == s.worker.at && Do(s, step).now >= s.now
              && if step.ExpireOne? then Do(s, step).worker.d.key <= s.worker.at else !WorkerStep(step) && Do(s, step).worker == s.worker
  {
    hide DoStart, DoStop, DoTake, DoExpireOne, DoTimeout, DoDelete, NextExpire, Finish, DropLock;
    if step.Take? {
      TakenForExpiry(s);
      TakeKeepsTime(s);
    } else if step.ExpireOne? {
      NextIsDue(s);
    } else if WorkerStep(step) {
      FinishIsNotExpiring(s, step);
    } else {
      OthersKeepWorker(s, step);
    }
  }

  lemma TakesNow(states: seq<State>, steps: seq<Step>, j: nat, now: int)
    requires |states| == |steps| + 1 && j < |steps| && steps[j].Take? && states[j].queue != [] && states[j].queue[0].MExpire?
    requires states[j].Get(states[j].queue[0].kind).heap.Node? && states[j].Get(states[j].queue[0].kind).heap.data.key > now
    ensures TakesUndue(states, steps, j, j + 1, now)
  {
  }

  lemma TakesStill(states: seq<State>, steps: seq<Step>, j: nat, i: nat, now: int)
    requires |states| == |steps| + 1 && i < |steps| && TakesUndue(states, steps, j, i, now) && !WorkerStep(steps[i])
    ensures TakesUndue(states, steps, j, i + 1, now)
  {
  }

  /** The timer at hand was taken by the handler's first, unconditional pop, or was due. */
  lemma {:induction false} DueOrFirst(states: seq<State>, steps: seq<Step>, i: nat, now: int)
    requires IsRun(states, steps) && i < |states| && states[i].worker.WExpiring? && now >= states[i].now
    ensures states[i].worker.at <= states[i].now
    ensures states[i].worker.d.key > now ==> exists j :: TakesUndue(states, steps, j, i, now)
  {
    hide Do, Enabled, DoTake, DoExpireOne, TakesUndue;
    if i > 0 {
      var s, step := states[i - 1], steps[i - 1];
      assert Enabled(s, step) && states[i - 1 + 1] == Do(s, step);
      ExpiringFrom(s, step);
      if step.Take? {
        if states[i].worker.d.key > now { TakesNow(states, steps, i - 1, now); }
      } else {
        DueOrFirst(states, steps, i - 1, now);
        if states[i].worker.d.key > now {
          var j :| TakesUndue(states, steps, j, i - 1, now);
          TakesStill(states, steps, j, i - 1, now);
        }
      }
    }
  }

  /** What was taken is still at hand. */
  lemma {:induction false} TakenIsAtHand(states: seq<State>, steps: seq<Step>, j: nat, i: nat, now: int)
    requires IsRun(states, steps) && i < |states| && TakesUndue(states, steps, j, i, now)
    ensures states[i].worker.WExpiring? && states[i].worker.d.key > now
  {
    hide Do, Enabled, DoTake;
    var s, step := states[i - 1], steps[i - 1];
    assert Enabled(s, step) && states[i - 1 + 1] == Do(s, step);
    if j == i - 1 {
      TakesExpiry(s);
    } else {
      assert TakesUndue(states, steps, j, i - 1, now);
      TakenIsAtHand(states, steps, j, i - 1, now);
      OthersKeepWorker(s, step);
    }
  }

  lemma TakesExpiry(s: State)
    requires Enabled(s, Take) && s.queue[0].MExpire? && s.Get(s.queue[0].kind).heap.Node?
    ensures Do(s, Take).worker == WExpiring(s.queue[0].kind, s.now, s.Get(s.queue[0].kind).heap.data)
  {
    hide OnPush, OnRemove, UpdateAction, Pop;
  }

  /** The step calls the client of the timer at hand back. */
  predicate CallsBack(s: State, step: Step) {
    step.ExpireOne? && s.worker.WExpiring? && s.worker.d.addr in s.delegates && s.delegates[s.worker.d.addr].mClient.Some?
  }

  /** Over every run, a callback is early if and only if it comes in the first turn of the
      handling of an expiry whose top timer is not due. */
  lemma EarlyIff(states: seq<State>, steps: seq<Step>, i: nat)
    requires IsRun(states, steps) && i < |steps| && CallsBack(states[i], steps[i])
    ensures states[i].worker.d.key > states[i].now <==> exists j :: TakesUndue(states, steps, j, i, states[i].now)
  {
    hide TakesUndue, Do, Enabled;
    DueOrFirst(states, steps, i, states[i].now);
    if j: nat :| TakesUndue(states, steps, j, i, states[i].now) {
      TakenIsAtHand(states, steps, j, i, states[i].now);
    }
  }

  /** Such a callback is what ends the timer. */
  lemma CallbackEnds(states: seq<State>, steps: seq<Step>, i: nat)
    requires IsRun(states, steps) && i < |steps| && CallsBack(states[i], steps[i])
    ensures var a := states[i].worker.d.addr;
            a !in states[i].ends && a in states[i + 1].ends && states[i + 1].ends[a] == TimedOut
  {
    hide Sound, Do, Enabled;
    RunSound(states, steps, i);
    assert Enabled(states[i], steps[i]) && states[i + 1] == Do(states[i], steps[i]);
    CallbackRecorded(states[i], steps[i]);
  }

  lemma CallbackRecorded(s: State, step: Step)
    requires Sound(s) && Enabled(s, step) && CallsBack(s, step)
    ensures var a := s.worker.d.addr;
            a !in s.ends && a in Do(s, step).ends && Do(s, step).ends[a] == TimedOut
  {
    hide WakeupInv, LifeInv, UpdateAction, Continue, Pop, LocksOk, CountsOk;
  }
}
