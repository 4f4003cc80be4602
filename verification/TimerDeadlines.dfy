/** From the call of start() to the callback: what the client asked for is what the service
    does, over every run. Nothing here depends on how a delegate stores its deadline. */
module TimerDeadlines {
  import opened Wrappers
  import opened HeapTree
  import opened TimerBox
  import opened TimerSystem
  import opened TimerWakeup
  import opened TimerLifetime
  import opened TimerTheorems
  import opened TimerProgress
  import opened TimerEarly

  /** In this step a client that was idle starts its timer. */
  predicate Starts(states: seq<State>, steps: seq<Step>, i: nat, c: nat, k: Kind, delay: nat)
    requires |states| == |steps| + 1 && i < |steps|
  {
    steps[i] == Start(c, k, delay) && c in states[i].clients && states[i].clients[c].mTimer == None
  }

  /** The client does not stop its timer in steps i to j. */
  predicate NotStopped(steps: seq<Step>, i: nat, j: nat, c: nat)
    requires i <= j <= |steps|
  {
    forall n :: i <= n < j ==> steps[n] != Stop(c) && steps[n] != Close(c)
  }

  /** In this step the client is called back. */
  predicate CalledBack(states: seq<State>, steps: seq<Step>, n: nat, c: nat)
    requires |states| == |steps| + 1 && n < |steps|
  {
    && steps[n].ExpireOne? && c in states[n].clients && c in states[n + 1].clients
    && states[n + 1].clients[c].timeouts == states[n].clients[c].timeouts + 1
  }

  /** In none of steps i to j. */
  predicate NotCalledBack(states: seq<State>, steps: seq<Step>, i: nat, j: nat, c: nat)
    requires |states| == |steps| + 1 && i <= j <= |steps|
  {
    forall n :: i <= n < j ==> !CalledBack(states, steps, n, c)
  }

  // ---------- what a start does ----------

  /** The insertion is posted to the container that the client chose, with the time of the
      call plus the timeout as the deadline. */
  lemma StartPosts(s: State, c: nat, k: Kind, delay: nat)
    requires Enabled(s, Start(c, k, delay)) && s.clients[c].mTimer == None
    ensures var s', d := Do(s, Start(c, k, delay)), Rankable(s.nextAddr, s.now + delay);
            && s'.queue == s.queue + [MPush(k, d)] && s'.now == s.now
            && c in s'.clients && s'.clients[c].mTimer == Some(d) && s'.clients[c].timeouts == s.clients[c].timeouts
            && d.addr in s'.delegates && s'.delegates[d.addr].kind == k
  {
  }

  // ---------- one step of a running timer ----------

  /** A timer that its client does not stop runs on unless it is called back. */
  lemma RunsOn(s: State, step: Step, c: nat)
    requires Sound(s) && Enabled(s, step) && c in s.clients && s.clients[c].mTimer.Some?
    requires step != Stop(c) && step != Close(c)
    ensures var s' := Do(s, step);
            && c in s'.clients
            && (s'.clients[c].mTimer == s.clients[c].mTimer || Expires(s, step, c))
  {
    var a := s.clients[c].mTimer.value.addr;
    SoundOwns(s);
    RunningNotEnded(s, c);
    hide Sound, Do, Enabled, OwnInv;
    TimerStays(s, step, c);
    EndStep(s, step, a);
    if a in Do(s, step).ends {
      forall other: nat | EndedBy(s, step, Do(s, step), a, other, Do(s, step).ends[a]) ensures Expires(s, step, c) {
        OneOwner(s, c, other);
      }
    }
  }

  /** The step calls the client back for the timer that it runs. */
  predicate Expires(s: State, step: Step, c: nat)
    requires Enabled(s, step)
  {
    && step.ExpireOne? && c in s.clients && c in Do(s, step).clients && s.clients[c].mTimer.Some?
    && s.worker.WExpiring? && s.worker.d.addr == s.clients[c].mTimer.value.addr
    && Do(s, step).clients[c].timeouts == s.clients[c].timeouts + 1
  }

  lemma TimeoutCounts(s: State, d: Rankable, c: nat)
    requires c in s.clients && c in DoTimeout(s, d).clients && DoTimeout(s, d).clients[c].timeouts == s.clients[c].timeouts + 1
    ensures d.addr in s.delegates && s.delegates[d.addr].mClient == Some(c)
  {
  }

  /** Who is called back is the client of the timer at hand, which it runs. */
  lemma CallbackIsOfTimer(s: State, c: nat)
    requires Sound(s) && s.worker.WExpiring? && c in s.clients && c in DoExpireOne(s).clients
    requires DoExpireOne(s).clients[c].timeouts == s.clients[c].timeouts + 1
    ensures s.clients[c].mTimer == Some(s.worker.d) && CallsBack(s, ExpireOne)
  {
    SoundOwns(s);
    assert Live(s.delegates, s.worker.d) by { hide WakeupInv, ClientInv; ExpiringIsLive(s); }
    hide Sound, DoExpireOne, DoTimeout;
    ExpireTouches(s);
    TimeoutCounts(s, s.worker.d, c);
  }

  // ---------- over every run ----------

  /** While it is neither stopped nor called back, the timer that was started runs, with the
      deadline that the call implies. */
  lemma {:induction false} RunsWithDeadline(states: seq<State>, steps: seq<Step>, i: nat, j: nat, c: nat, k: Kind, delay: nat)
    requires IsRun(states, steps) && i < j <= |steps| && Starts(states, steps, i, c, k, delay)
    requires NotStopped(steps, i + 1, j, c) && NotCalledBack(states, steps, i + 1, j, c)
    ensures c in states[j].clients && states[j].clients[c].mTimer == Some(Rankable(states[i].nextAddr, states[i].now + delay))
  {
    hide Sound, Do, Enabled;
    var s, step := states[j - 1], steps[j - 1];
    assert Enabled(s, step) && states[j - 1 + 1] == Do(s, step);
    if j == i + 1 {
      StartPosts(s, c, k, delay);
    } else {
      RunsWithDeadline(states, steps, i, j - 1, c, k, delay);
      RunSound(states, steps, j - 1);
      RunsOn(s, step, c);
      assert !CalledBack(states, steps, j - 1, c);
    }
  }

  /** Whenever the service rests at or after the deadline, the client has been called back,
      unless it stopped the timer itself. */
  lemma StartedIsCalledBack(states: seq<State>, steps: seq<Step>, i: nat, j: nat, c: nat, k: Kind, delay: nat)
    requires IsRun(states, steps) && i < j <= |steps| && Starts(states, steps, i, c, k, delay)
    requires NotStopped(steps, i + 1, j, c)
    requires Quiet(states[j]) && states[j].now >= states[i].now + delay
    ensures exists n :: i < n < j && CalledBack(states, steps, n, c)
  {
    hide Quiet, Starts, CalledBack;
    if NotCalledBack(states, steps, i + 1, j, c) {
      RunsWithDeadline(states, steps, i, j, c, k, delay);
      RunningIsNotDue(states, steps, j, c);
    }
  }

  lemma RunningIsNotDue(states: seq<State>, steps: seq<Step>, j: nat, c: nat)
    requires IsRun(states, steps) && j < |states| && Quiet(states[j])
    requires c in states[j].clients && states[j].clients[c].mTimer.Some?
    ensures states[j].clients[c].mTimer.value.key > states[j].now
  {
    hide Quiet, Sound;
    RestIsClean(states, steps, j);
    RunSound(states, steps, j);
    RunningNotEnded(states[j], c);
  }

  /** The first callback after a start comes before the deadline if and only if it is in the
      first turn of the handling of an expiry whose top timer is not due. */
  lemma CalledBackEarlyIff(states: seq<State>, steps: seq<Step>, i: nat, n: nat, c: nat, k: Kind, delay: nat)
    requires IsRun(states, steps) && i < n < |steps| && Starts(states, steps, i, c, k, delay)
    requires NotStopped(steps, i + 1, n, c) && NotCalledBack(states, steps, i + 1, n, c) && CalledBack(states, steps, n, c)
    ensures states[n].now < states[i].now + delay <==> exists j :: TakesUndue(states, steps, j, n, states[n].now)
  {
    hide Sound, Do, Enabled, DoExpireOne, TakesUndue, NotStopped, NotCalledBack, Starts;
    RunsWithDeadline(states, steps, i, n, c, k, delay);
    RunSound(states, steps, n);
    ExpireOneStep(states, steps, n);
    CallbackIsOfTimer(states[n], c);
    EarlyIff(states, steps, n);
  }

  lemma ExpireOneStep(states: seq<State>, steps: seq<Step>, n: nat)
    requires IsRun(states, steps) && n < |steps| && steps[n].ExpireOne?
    ensures states[n].worker.WExpiring? && states[n + 1] == DoExpireOne(states[n])
  {
    hide DoExpireOne;
    assert Enabled(states[n], steps[n]) && states[n + 1] == Do(states[n], steps[n]);
  }

  // ---------- where a timer waits ----------

  predicate SameDelegate(dl: map<int, Delegate>, dl': map<int, Delegate>, a: int) {
    a in dl && a in dl' ==> dl'[a].kind == dl[a].kind && dl'[a].key == dl[a].key
  }

  lemma StopKeepsKind(s: State, c: nat, how: End, a: int)
    requires c in s.clients
    ensures SameDelegate(s.delegates, DoStop(s, c, how).delegates, a)
  {
  }

  lemma TimeoutKeepsKind(s: State, d: Rankable, a: int)
    ensures SameDelegate(s.delegates, DoTimeout(s, d).delegates, a)
  {
    hide DoStop;
    if d.addr in s.delegates && s.delegates[d.addr].mClient.Some? && s.delegates[d.addr].mClient.value in s.clients {
      StopKeepsKind(s, s.delegates[d.addr].mClient.value, TimedOut, a);
    }
  }

  lemma StartKeepsKind(s: State, c: nat, k: Kind, delay: nat, a: int)
    requires c in s.clients && s.nextAddr !in s.delegates
    ensures SameDelegate(s.delegates, DoStart(s, c, k, delay).delegates, a)
  {
  }

  lemma DeleteKeepsKind(s: State, d: Rankable, a: int)
    ensures SameDelegate(s.delegates, DoDelete(s, d).delegates, a)
  {
  }

  /** A delegate stays in its container. */
  lemma KindStays(s: State, step: Step, a: int)
    requires LifeInv(s) && Enabled(s, step)
    ensures SameDelegate(s.delegates, Do(s, step).delegates, a)
  {
    hide LifeInv, DoStart, DoStop, DoTake, DoExpireOne, DoTimeout, DoDelete, NextExpire, Finish, DropLock, SameDelegate;
    Unchanged(s.delegates, a);
    match step {
      case Start(c, k, delay) => FreshAddr(s); StartKeepsKind(s, c, k, delay, a);
      case Stop(c) => StopKeepsKind(s, c, Stopped, a);
      case Close(c) => StopKeepsKind(s, c, Stopped, a);
      case Take => TakeClientSide(s);
      case ExpireOne => ExpireTouches(s); TimeoutKeepsKind(s, s.worker.d, a);
      case Delete => DeleteKeepsKind(s, s.worker.d, a);
      case _ => OthersKeepDelegates(s, step);
    }
  }

  lemma OthersKeepDelegates(s: State, step: Step)
    requires Enabled(s, step) && !step.Start? && !step.Stop? && !step.Close? && !step.Take? && !step.ExpireOne? && !step.Delete?
    ensures Do(s, step).delegates == s.delegates
  {
    hide Do, Enabled;
    if step.AddPoll? || step.SetTime? || step.RemovePoll? || step.Disarm? {
      KernelCallsKeepDelegates(s, step);
    } else {
      PollKeepsDelegates(s, step);
    }
  }

  lemma KernelCallsKeepDelegates(s: State, step: Step)
    requires Enabled(s, step) && (step.AddPoll? || step.SetTime? || step.RemovePoll? || step.Disarm?)
    ensures Do(s, step).delegates == s.delegates
  {
    hide DoStart, DoStop, DoTake, DoExpireOne, DoDelete, NextExpire, Finish, DropLock;
  }

  lemma PollKeepsDelegates(s: State, step: Step)
    requires Enabled(s, step)
    requires step.NewClient? || step.Drop? || step.Tick? || step.Wake? || step.PollDisarm? || step.PollUnpoll? || step.PollSend?
    ensures Do(s, step).delegates == s.delegates
  {
    hide DoStart, DoStop, DoTake, DoExpireOne, DoDelete, NextExpire, Finish, DropLock;
  }

  lemma Unchanged(dl: map<int, Delegate>, a: int)
    ensures SameDelegate(dl, dl, a)
  {
  }

  lemma {:induction false} ContainerStays(states: seq<State>, steps: seq<Step>, i: nat, j: nat, c: nat, k: Kind, delay: nat)
    requires IsRun(states, steps) && i < j <= |steps| && Starts(states, steps, i, c, k, delay)
    requires NotStopped(steps, i + 1, j, c) && NotCalledBack(states, steps, i + 1, j, c)
    ensures states[i].nextAddr in states[j].delegates && states[j].delegates[states[i].nextAddr].kind == k
  {
    hide WakeupInv, LifeInv, ClientInv, Do, Enabled;
    var s, step, a := states[j - 1], steps[j - 1], states[i].nextAddr;
    assert Enabled(s, step) && states[j - 1 + 1] == Do(s, step);
    if j == i + 1 {
      StartPosts(s, c, k, delay);
    } else {
      ContainerStays(states, steps, i, j - 1, c, k, delay);
      RunSound(states, steps, j - 1);
      KindStays(s, step, a);
      RunsWithDeadline(states, steps, i, j, c, k, delay);
      RunSound(states, steps, j);
      RunningNotEnded(states[j], c);
    }
  }

  /** Until then it waits, whenever the service rests, in the container that the client
      chose and with the deadline that the call implies. */
  lemma StartedWaits(states: seq<State>, steps: seq<Step>, i: nat, j: nat, c: nat, k: Kind, delay: nat)
    requires IsRun(states, steps) && i < j <= |steps| && Starts(states, steps, i, c, k, delay)
    requires NotStopped(steps, i + 1, j, c) && NotCalledBack(states, steps, i + 1, j, c) && Quiet(states[j])
    ensures c in states[j].clients
    ensures exists d :: d in Elems(states[j].Get(k).heap) && d.key == states[i].now + delay && states[j].clients[c].mTimer == Some(d)
  {
    hide Quiet, Sound, Starts, Elems;
    RunsWithDeadline(states, steps, i, j, c, k, delay);
    ContainerStays(states, steps, i, j, c, k, delay);
    RestIsClean(states, steps, j);
    RunSound(states, steps, j);
    RunningNotEnded(states[j], c);
    var d := Rankable(states[i].nextAddr, states[i].now + delay);
    assert d in Elems(states[j].Get(k).heap);
  }

  // ---------- an expiry is handled to the end ----------

  /** A step of another thread leaves the message thread in its turn; the turn itself goes
      on with the same expiry, or ends with a top that is not due. */
  lemma TurnStep(s: State, step: Step)
    requires WakeupInv(s) && Enabled(s, step) && s.worker.WExpiring?
    ensures var s', k, at := Do(s, step), s.worker.kind, s.worker.at;
            if s'.worker.WExpiring? then s'.worker.kind == k && s'.worker.at == at
            else s'.Get(k).heap.Node? ==> s'.Get(k).heap.data.key > at
  {
    hide DoStart, DoStop, DoTimeout, DoTake, DoExpireOne, DoDelete, NextExpire, DropLock, UpdateAction, Wf;
    assert Wf(s.Get(s.worker.kind).heap);
    if step.ExpireOne? {
      NextLoop(s);
    } else {
      assert !WorkerStep(step);
      OthersKeepWorker(s, step);
    }
  }

  /** From the step that takes an expiry from the queue to the end of its handling. */
  predicate Handles(states: seq<State>, steps: seq<Step>, j: nat, i: nat, k: Kind)
    requires |states| == |steps| + 1 && i < |states|
  {
    && j < i && steps[j].Take? && states[j].queue != [] && states[j].queue[0] == MExpire(k) && states[j].Get(k).heap.Node?
    && forall n :: j < n < i ==> states[n].worker.WExpiring?
  }

  lemma {:induction false} HandlesAt(states: seq<State>, steps: seq<Step>, j: nat, i: nat, k: Kind)
    requires IsRun(states, steps) && i < |states| && Handles(states, steps, j, i, k) && states[i].worker.WExpiring?
    ensures states[i].worker.kind == k && states[i].worker.at == states[j].now
  {
    hide Do, Enabled, DoTake, WakeupInv, LifeInv, ClientInv;
    var s, step := states[i - 1], steps[i - 1];
    assert Enabled(s, step) && states[i - 1 + 1] == Do(s, step);
    if j == i - 1 {
      TakesExpiry(s);
    } else {
      HandlesAt(states, steps, j, i - 1, k);
      RunSound(states, steps, i - 1);
      TurnStep(s, step);
    }
  }

  /** Over every run: when the handling of an expiry ends, no timer is left in the container
      that was due when it began. */
  lemma ExpiryIsComplete(states: seq<State>, steps: seq<Step>, j: nat, i: nat, k: Kind)
    requires IsRun(states, steps) && i < |states| && Handles(states, steps, j, i, k) && !states[i].worker.WExpiring?
    ensures forall d :: d in Elems(states[i].Get(k).heap) ==> d.key > states[j].now
  {
    hide Do, Enabled, DoTake, Elems, WakeupInv, LifeInv, ClientInv;
    var s, step := states[i - 1], steps[i - 1];
    assert Enabled(s, step) && states[i - 1 + 1] == Do(s, step);
    if j == i - 1 { TakesExpiry(s); }
    HandlesAt(states, steps, j, i - 1, k);
    RunSound(states, steps, i - 1);
    RunSound(states, steps, i);
    TurnStep(s, step);
    forall d | d in Elems(states[i].Get(k).heap) ensures d.key > states[j].now { TopIsSoonest(states[i], k, d); }
  }

  lemma TopIsSoonest(s: State, k: Kind, d: Rankable)
    requires WakeupInv(s) && d in Elems(s.Get(k).heap)
    ensures s.Get(k).heap.Node? && s.Get(k).heap.data.key <= d.key
  {
    assert k == Sw || k == Hw;
    TopRanksHighest(s.Get(k).heap, d);
  }
}
