/** What the timer service guarantees over every run, and that it never stands still
    while a timer is due. */
module TimerTheorems {
  import opened Wrappers
  import opened HeapTree
  import opened TimerBox
  import opened TimerSystem
  import opened TimerWakeup
  import opened TimerLifetime

  predicate Sound(s: State) {
    WakeupInv(s) && LifeInv(s) && ClientInv(s)
  }

  lemma SoundStep(s: State, step: Step)
    requires Sound(s) && Enabled(s, step)
    ensures Sound(Do(s, step))
  {
    assert Wf(s.sw.heap) && Wf(s.hw.heap);
    hide LifeInv, ClientInv, WakeupInv, Wf, Do;
    StepKeepsWakeup(s, step);
    StepClient(s, step);
    assert OwnInv(s.clients, s.delegates) by { OwnOfClient(s); }
    StepLife(s, step);
  }

  lemma OwnOfClient(s: State)
    requires ClientInv(s)
    ensures OwnInv(s.clients, s.delegates)
  {
  }

  /** Every reachable state is sound. */
  lemma {:induction false} RunSound(states: seq<State>, steps: seq<Step>, i: nat)
    requires IsRun(states, steps) && i < |states|
    ensures Sound(states[i])
  {
    hide Sound, Do;
    if i == 0 {
      InitSound();
    } else {
      RunSound(states, steps, i - 1);
      assert Enabled(states[i - 1], steps[i - 1]) && states[i - 1 + 1] == Do(states[i - 1], steps[i - 1]);
      SoundStep(states[i - 1], steps[i - 1]);
    }
  }

  lemma InitSound()
    ensures Sound(INIT)
  {
    InitInv();
  }

  // ---------- lifetime of delegates and locks ----------

  /** In every reachable state, whatever a thread may still reach is not deleted: the
      timers in the heaps, in queued messages, in the hands of the message thread, and
      behind mTimer. Each has at most one insertion and one removal under way. */
  lemma NoDeadDelegate(states: seq<State>, steps: seq<Step>, i: nat)
    requires IsRun(states, steps) && i < |states|
    ensures
      var s := states[i];
      && (forall d :: d in Elems(s.sw.heap) || d in Elems(s.hw.heap) ==> Live(s.delegates, d))
      && (forall m :: m in s.queue && !m.MExpire? ==> Live(s.delegates, m.d))
      && (s.worker.WExpiring? || s.worker.WDelete? ==> Live(s.delegates, s.worker.d))
      && (forall c :: c in s.clients && s.clients[c].mTimer.Some? ==> Live(s.delegates, s.clients[c].mTimer.value))
      && (forall d :: Placed(s)[d] <= 1 && Doomed(s)[d] <= 1)
  {
    RunSound(states, steps, i);
    var s := states[i];
    ReachableIsLive(s);
  }

  lemma ReachableIsLive(s: State)
    requires LifeInv(s) && OwnInv(s.clients, s.delegates)
    ensures forall d :: d in Elems(s.sw.heap) || d in Elems(s.hw.heap) ==> Live(s.delegates, d)
    ensures forall m :: m in s.queue && !m.MExpire? ==> Live(s.delegates, m.d)
    ensures s.worker.WExpiring? || s.worker.WDelete? ==> Live(s.delegates, s.worker.d)
    ensures forall c :: c in s.clients && s.clients[c].mTimer.Some? ==> Live(s.delegates, s.clients[c].mTimer.value)
    ensures forall d :: Placed(s)[d] <= 1 && Doomed(s)[d] <= 1
  {
    hide Elems, Pushed, Removed;
    if s.worker.WDelete? { assert s.worker.d in Doomed(s); }
    if s.worker.WExpiring? { assert Belongs(s.delegates, s.worker.d, s.worker.kind); }
    forall d ensures Placed(s)[d] <= 1 && Doomed(s)[d] <= 1 {
      if d in Placed(s) { assert Placed(s)[d] == 1; }
      if d in Doomed(s) { assert Doomed(s)[d] == 1; }
    }
  }

  // ---------- what a step touches ----------

  lemma ExpireTouches(s: State)
    requires s.worker.WExpiring?
    ensures ClientSide(DoExpireOne(s)) == ClientSide(DoTimeout(s, s.worker.d))
  {
    hide UpdateAction, Continue, Pop, DoTimeout;
  }

  lemma StopTouches(s: State, c: nat, how: End)
    requires c in s.clients
    ensures DoStop(s, c, how).delegates.Keys == s.delegates.Keys && DoStop(s, c, how).locks == s.locks
  {
  }

  lemma TimeoutTouches(s: State, d: Rankable)
    ensures DoTimeout(s, d).delegates.Keys == s.delegates.Keys && DoTimeout(s, d).locks == s.locks
  {
    hide DoStop;
    if d.addr in s.delegates && s.delegates[d.addr].mClient.Some? && s.delegates[d.addr].mClient.value in s.clients {
      StopTouches(s, s.delegates[d.addr].mClient.value, TimedOut);
    }
  }

  /** Only the end of a removal deletes a delegate, and only that and the end of a
      client's destructor free a lock. */
  lemma WhatGoes(s: State, step: Step)
    requires Enabled(s, step)
    ensures step.Delete? || s.delegates.Keys <= Do(s, step).delegates.Keys
    ensures step.Delete? || step.Drop? || s.locks.Keys <= Do(s, step).locks.Keys
  {
    hide DoStop, DoTake, DoExpireOne, DoTimeout, DoDelete, NextExpire, Finish, DropLock;
    match step {
      case Stop(c) => StopTouches(s, c, Stopped);
      case Close(c) => StopTouches(s, c, Stopped);
      case Take => TakeClientSide(s);
      case ExpireOne => ExpireTouches(s); TimeoutTouches(s, s.worker.d);
      case _ =>
    }
  }

  // ---------- deletion ----------

  /** The step deletes the delegate, to which nothing else refers. */
  predicate DeletesLast(s: State, step: Step, a: int) {
    && step.Delete? && s.worker.WDelete? && s.worker.d.addr == a && a in s.delegates && s.delegates[a].mClient == None
    && s.worker.d !in Placed(s) && s.worker.d !in Removed(s.queue)
  }

  lemma DeletionStep(s: State, step: Step, a: int)
    requires LifeInv(s) && ClientInv(s) && Enabled(s, step) && a in s.delegates && a !in Do(s, step).delegates
    ensures DeletesLast(s, step, a)
  {
    hide LifeInv, ClientInv, DropLock, Elems, Pushed, Removed, DoStart, DoStop, DoTake, DoExpireOne, NextExpire;
    WhatGoes(s, step);
    DeleteLife(s, s.worker.d);
    DyingNowhere(s, s.worker.d);
  }

  /** Over every run a delegate goes only in the step that ends the handling of its one
      removal, at a point where nothing else refers to it. */
  lemma DeletedOnlyByRemove(states: seq<State>, steps: seq<Step>, i: nat, a: int)
    requires IsRun(states, steps) && i < |steps|
    requires a in states[i].delegates && a !in states[i + 1].delegates
    ensures DeletesLast(states[i], steps[i], a)
  {
    hide WakeupInv, LifeInv, ClientInv, Do, Enabled, DeletesLast;
    RunSound(states, steps, i);
    assert Enabled(states[i], steps[i]) && states[i + 1] == Do(states[i], steps[i]);
    DeletionStep(states[i], steps[i], a);
  }

  lemma SoundOwns(s: State)
    requires Sound(s)
    ensures OwnInv(s.clients, s.delegates)
  {
    hide LifeInv, WakeupInv, OwnInv;
  }

  lemma SoundLocks(s: State)
    requires Sound(s)
    ensures LocksOk(s.clients, s.delegates, s.locks)
  {
    hide LifeInv, WakeupInv, LocksOk;
  }

  lemma FreedAtOne(s: State, step: Step, c: nat)
    requires Enabled(s, step) && (step.Drop? || step.Delete?) && c in s.locks && c !in Do(s, step).locks
    ensures s.locks[c] == 1
  {
  }

  lemma LockStep(s: State, step: Step, c: nat)
    requires Sound(s) && c in s.clients && Enabled(s, step)
    ensures s.clients[c].phase != Gone || Holders(s.delegates, c) != {} ==> c in s.locks
    ensures c in s.locks ==> s.locks[c] == Refs(s.clients, s.delegates, c)
    ensures c in s.locks && c !in Do(s, step).locks ==> (step.Drop? || step.Delete?) && s.locks[c] == 1
  {
    hide Sound, Do, Enabled;
    SoundLocks(s);
    WhatGoes(s, step);
    if c in s.locks && c !in Do(s, step).locks { FreedAtOne(s, step, c); }
  }

  /** Over every run a shared lock is there while its client or a delegate of it remains,
      its count is the number of these, and it is freed only by the drop of the last. */
  lemma LockOutlivesHolders(states: seq<State>, steps: seq<Step>, i: nat, c: nat)
    requires IsRun(states, steps) && i < |steps| && c in states[i].clients
    ensures
      var s := states[i];
      && (s.clients[c].phase != Gone || Holders(s.delegates, c) != {} ==> c in s.locks)
      && (c in s.locks ==> s.locks[c] == Refs(s.clients, s.delegates, c))
      && (c in s.locks && c !in states[i + 1].locks ==> (steps[i].Drop? || steps[i].Delete?) && s.locks[c] == 1)
  {
    hide Sound, Do, Refs, Holders;
    RunSound(states, steps, i);
    assert Enabled(states[i], steps[i]) && states[i + 1] == Do(states[i], steps[i]);
    LockStep(states[i], steps[i], c);
  }

  // ---------- one consumption per start ----------

  lemma StopEnds(s: State, c: nat, how: End, a: int)
    requires LifeInv(s) && ClientInv(s) && c in s.clients
    ensures var s' := DoStop(s, c, how);
            && (a in s.ends ==> a in s'.ends && s'.ends[a] == s.ends[a])
            && (a in s'.ends && a !in s.ends ==>
                  && s'.ends[a] == how
                  && s.clients[c].mTimer.Some? && s.clients[c].mTimer.value.addr == a && s'.clients[c].mTimer == None
                  && s'.clients[c].stops == s.clients[c].stops + (if how.Stopped? then 1 else 0)
                  && s'.clients[c].timeouts == s.clients[c].timeouts + (if how.TimedOut? then 1 else 0))
  {
    hide LifeInv, LocksOk, CountsOk;
  }

  /** How a timer ended: a stop() of its client succeeded, or its client was called back. */
  predicate EndedBy(s: State, step: Step, s': State, a: int, c: nat, how: End) {
    && c in s.clients && c in s'.clients
    && s.clients[c].mTimer.Some? && s.clients[c].mTimer.value.addr == a && s'.clients[c].mTimer == None
    && match how
       case Stopped => (step == Stop(c) || step == Close(c)) && s'.clients[c].stops == s.clients[c].stops + 1
       case TimedOut => step == ExpireOne && s.worker.WExpiring? && s.worker.d.addr == a && s'.clients[c].timeouts == s.clients[c].timeouts + 1
  }

  ghost predicate EndedOnce(s: State, step: Step, s': State, a: int)
    requires a in s'.ends
  {
    exists c :: EndedBy(s, step, s', a, c, s'.ends[a])
  }

  lemma TimeoutEnds(s: State, a: int)
    requires LifeInv(s) && ClientInv(s) && s.worker.WExpiring?
    ensures var s' := DoTimeout(s, s.worker.d);
            && (a in s.ends ==> a in s'.ends && s'.ends[a] == s.ends[a])
            && (a in s'.ends && a !in s.ends ==>
                  s'.ends[a] == TimedOut && exists c :: EndedBy(s, ExpireOne, s', a, c, TimedOut))
  {
    hide LifeInv, ClientInv, DoTimeout, DoStop, OwnInv;
    var d := s.worker.d;
    ExpiringIsLive(s);
    OwnOfClient(s);
    TimeoutDetaches(s, d);
    if s.delegates[d.addr].mClient.Some? {
      var c := s.delegates[d.addr].mClient.value;
      StopEnds(s, c, TimedOut, a);
      if a in DoStop(s, c, TimedOut).ends && a !in s.ends {
        StopKeepsClients(s, c, TimedOut);
        assert EndedBy(s, ExpireOne, DoTimeout(s, d), a, c, TimedOut);
      }
    }
  }

  lemma StopKeepsClients(s: State, c: nat, how: End)
    requires c in s.clients
    ensures DoStop(s, c, how).clients.Keys == s.clients.Keys
  {
  }

  lemma ClientEnds(s: State, step: Step, c: nat, a: int)
    requires Sound(s) && Enabled(s, step) && (step == Stop(c) || step == Close(c))
    ensures a in s.ends ==> a in Do(s, step).ends && Do(s, step).ends[a] == s.ends[a]
    ensures a in Do(s, step).ends && a !in s.ends ==> EndedOnce(s, step, Do(s, step), a)
  {
    hide LifeInv, WakeupInv, ClientInv, DoStart, DoStop, DoTake, DoExpireOne, DoDelete, NextExpire, Finish, DropLock;
    var s' := Do(s, step);
    StopEnds(s, c, Stopped, a);
    StopKeepsClients(s, c, Stopped);
    if a in s'.ends && a !in s.ends { assert EndedBy(s, step, s', a, c, Stopped); }
  }

  lemma EndStep(s: State, step: Step, a: int)
    requires Sound(s) && Enabled(s, step)
    ensures a in s.ends ==> a in Do(s, step).ends && Do(s, step).ends[a] == s.ends[a]
    ensures a in Do(s, step).ends && a !in s.ends ==> EndedOnce(s, step, Do(s, step), a)
  {
    hide LifeInv, WakeupInv, ClientInv, DoStop, DoTake, DoExpireOne, DoTimeout, NextExpire, Finish, DropLock;
    var s' := Do(s, step);
    match step {
      case Stop(c) => ClientEnds(s, step, c, a);
      case Close(c) => ClientEnds(s, step, c, a);
      case Take => TakeClientSide(s);
      case ExpireOne => ExpireTouches(s); TimeoutEnds(s, a);
        if a in s'.ends && a !in s.ends {
          var c :| EndedBy(s, ExpireOne, DoTimeout(s, s.worker.d), a, c, TimedOut);
          assert EndedBy(s, step, s', a, c, TimedOut);
        }
      case _ =>
    }
  }

  lemma SoundCounts(s: State)
    requires Sound(s)
    ensures CountsOk(s.clients) && EndsOk(s)
  {
    hide LifeInv, WakeupInv;
  }

  /** Over every run: an end stays what it was, and at each moment a client has had as
      many successful starts as stops and callbacks together, and one more exactly while
      it runs; the starts that have not ended are those of the running clients. */
  lemma {:induction false} StartsAreConsumedOnce(states: seq<State>, steps: seq<Step>, i: nat, j: nat, a: int)
    requires IsRun(states, steps) && i <= j < |states|
    ensures a in states[i].ends ==> a in states[j].ends && states[j].ends[a] == states[i].ends[a]
    ensures CountsOk(states[j].clients) && EndsOk(states[j])
  {
    hide Sound, Do, CountsOk, EndsOk;
    RunSound(states, steps, j);
    SoundCounts(states[j]);
    if i < j {
      StartsAreConsumedOnce(states, steps, i, j - 1, a);
      RunSound(states, steps, j - 1);
      assert Enabled(states[j - 1], steps[j - 1]) && states[j - 1 + 1] == Do(states[j - 1], steps[j - 1]);
      EndStep(states[j - 1], steps[j - 1], a);
    }
  }

  /** Over every run a started timer ends in one step, by one successful stop() of its
      client or by one callback. */
  lemma EndsByStopOrCallback(states: seq<State>, steps: seq<Step>, i: nat, a: int)
    requires IsRun(states, steps) && i < |steps| && a !in states[i].ends && a in states[i + 1].ends
    ensures EndedOnce(states[i], steps[i], states[i + 1], a)
  {
    hide Sound, Do, EndedOnce;
    RunSound(states, steps, i);
    assert Enabled(states[i], steps[i]) && states[i + 1] == Do(states[i], steps[i]);
    EndStep(states[i], steps[i], a);
  }
}
