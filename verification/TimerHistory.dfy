/** What happens to one delegate over the whole of a run: one insertion is posted, then at
    most one removal, then it is deleted and never comes back. */
module TimerHistory {
  import opened Wrappers
  import opened HeapTree
  import opened TimerBox
  import opened TimerSystem
  import opened TimerLifetime
  import opened TimerTheorems

  /** The step posts this message. */
  predicate Posts(s: State, s': State, m: Msg) {
    s'.queue == s.queue + [m]
  }

  /** The step posts an insertion of the delegate with this address. */
  predicate PostsPush(s: State, s': State, a: int) {
    && |s'.queue| == |s.queue| + 1 && s.queue <= s'.queue
    && s'.queue[|s.queue|].MPush? && s'.queue[|s.queue|].d.addr == a
  }

  // ---------- one step ----------

  lemma StartPosts(s: State, c: nat, k: Kind, delay: nat, m: Msg)
    requires c in s.clients && Posts(s, DoStart(s, c, k, delay), m)
    ensures m.MPush? && m.d.addr == s.nextAddr && DoStart(s, c, k, delay).nextAddr == s.nextAddr + 1
  {
    if s.clients[c].mTimer.None? { assert m == (s.queue + [m])[|s.queue|]; }
  }

  lemma StopPosts(s: State, c: nat, how: End, m: Msg)
    requires c in s.clients && Posts(s, DoStop(s, c, how), m)
    requires OwnInv(s.clients, s.delegates) && EndsOk(s)
    ensures m.MRemove? && m.d.addr !in s.ends && m.d.addr in DoStop(s, c, how).ends
  {
    if s.clients[c].mTimer.Some? { assert m == (s.queue + [m])[|s.queue|]; }
  }

  lemma StopGrows(s: State, c: nat, how: End)
    requires c in s.clients
    ensures DoStop(s, c, how).nextAddr == s.nextAddr
  {
  }

  lemma TimeoutPosts(s: State, d: Rankable, m: Msg)
    requires Posts(s, DoTimeout(s, d), m) && OwnInv(s.clients, s.delegates) && EndsOk(s)
    ensures m.MRemove? && m.d.addr !in s.ends && m.d.addr in DoTimeout(s, d).ends
  {
    hide DoStop, OwnInv, EndsOk;
    if d.addr in s.delegates && s.delegates[d.addr].mClient.Some? && s.delegates[d.addr].mClient.value in s.clients {
      StopPosts(s, s.delegates[d.addr].mClient.value, TimedOut, m);
    }
  }

  lemma ExpireQueue(s: State)
    requires s.worker.WExpiring?
    ensures DoExpireOne(s).queue == DoTimeout(s, s.worker.d).queue
  {
    hide UpdateAction, Continue, Pop, DoTimeout;
  }

  lemma TakeShortens(s: State)
    requires s.queue != []
    ensures DoTake(s).queue == s.queue[1..]
  {
    hide OnPush, OnRemove, UpdateAction, Continue, Pop;
  }

  predicate Posting(step: Step) {
    step.Start? || step.Stop? || step.Close? || step.ExpireOne? || step.PollSend?
  }

  lemma OthersPostNothing(s: State, step: Step)
    requires Enabled(s, step) && !Posting(step)
    ensures |Do(s, step).queue| <= |s.queue|
  {
    hide DoTake, DoDelete, NextExpire, Finish, DropLock;
    if step.Take? { TakeShortens(s); }
    if step.Delete? { DeleteQueues(s, s.worker.d); }
  }

  lemma ExpirePosts(s: State, m: Msg)
    requires Sound(s) && s.worker.WExpiring? && Posts(s, DoExpireOne(s), m)
    ensures m.MRemove? && m.d.addr !in s.ends && m.d.addr in DoExpireOne(s).ends
  {
    SoundCounts(s);
    SoundOwns(s);
    hide Sound, DoExpireOne, DoTimeout, OwnInv, EndsOk, CountsOk;
    ExpireQueue(s);
    ExpireTouches(s);
    TimeoutPosts(s, s.worker.d, m);
  }

  lemma ClientStopPosts(s: State, c: nat, m: Msg)
    requires Sound(s) && c in s.clients && Posts(s, DoStop(s, c, Stopped), m)
    ensures m.MRemove? && m.d.addr !in s.ends && m.d.addr in DoStop(s, c, Stopped).ends
  {
    SoundCounts(s);
    SoundOwns(s);
    hide Sound, DoStop, OwnInv, EndsOk, CountsOk;
    StopPosts(s, c, Stopped, m);
  }

  lemma SendPosts(s: State, m: Msg)
    requires Enabled(s, PollSend) && Posts(s, Do(s, PollSend), m)
    ensures m.MExpire?
  {
    assert m == (s.queue + [m])[|s.queue|];
  }

  /** An insertion is posted with an address that has not been used before, a removal in
      the step that ends the timer. */
  lemma PostStep(s: State, step: Step, m: Msg)
    requires Sound(s) && Enabled(s, step) && Posts(s, Do(s, step), m)
    ensures m.MPush? ==> m.d.addr == s.nextAddr && m.d.addr < Do(s, step).nextAddr
    ensures m.MRemove? ==> m.d.addr !in s.ends && m.d.addr in Do(s, step).ends
  {
    hide Sound, DoStart, DoStop, DoTake, DoExpireOne, DoDelete, NextExpire, Finish, DropLock;
    if !Posting(step) { OthersPostNothing(s, step); }
    match step {
      case Start(c, k, delay) => StartPosts(s, c, k, delay, m);
      case Stop(c) => ClientStopPosts(s, c, m);
      case Close(c) => ClientStopPosts(s, c, m);
      case ExpireOne => ExpirePosts(s, m);
      case PollSend => SendPosts(s, m);
      case _ =>
    }
  }

  lemma DeleteQueues(s: State, d: Rankable)
    ensures DoDelete(s, d).queue == s.queue && DoDelete(s, d).nextAddr == s.nextAddr
    ensures DoDelete(s, d).delegates.Keys <= s.delegates.Keys
  {
  }

  /** Addresses are taken in turn, and a delegate comes into being only with the next. */
  predicate Grows(s: State, s': State) {
    && s.nextAddr <= s'.nextAddr
    && forall a :: a in s'.delegates && a !in s.delegates ==> s.nextAddr <= a
  }

  lemma TimeoutGrows(s: State, d: Rankable)
    ensures DoTimeout(s, d).nextAddr == s.nextAddr
  {
    hide DoStop;
    if d.addr in s.delegates && s.delegates[d.addr].mClient.Some? && s.delegates[d.addr].mClient.value in s.clients {
      StopGrows(s, s.delegates[d.addr].mClient.value, TimedOut);
    }
  }

  lemma StartGrows(s: State, c: nat, k: Kind, delay: nat)
    requires c in s.clients
    ensures Grows(s, DoStart(s, c, k, delay))
    ensures DoStart(s, c, k, delay).nextAddr > s.nextAddr ==> PostsPush(s, DoStart(s, c, k, delay), s.nextAddr)
    ensures DoStart(s, c, k, delay).nextAddr <= s.nextAddr + 1
  {
  }

  lemma StepGrows(s: State, step: Step)
    requires Enabled(s, step)
    ensures Grows(s, Do(s, step))
  {
    hide DoStart, DoStop, DoTake, DoExpireOne, DoTimeout, DoDelete, NextExpire, Finish, DropLock;
    match step {
      case Start(c, k, delay) => StartGrows(s, c, k, delay);
      case Stop(c) => StopTouches(s, c, Stopped); StopGrows(s, c, Stopped);
      case Close(c) => StopTouches(s, c, Stopped); StopGrows(s, c, Stopped);
      case Take => TakeClientSide(s);
      case ExpireOne => ExpireTouches(s); TimeoutTouches(s, s.worker.d); TimeoutGrows(s, s.worker.d);
      case Delete => DeleteQueues(s, s.worker.d);
      case _ =>
    }
  }

  // ---------- over every run ----------

  lemma {:induction false} AddressesGrow(states: seq<State>, steps: seq<Step>, i: nat, j: nat)
    requires IsRun(states, steps) && i <= j < |states|
    ensures states[i].nextAddr <= states[j].nextAddr
  {
    hide Do, Enabled;
    if i < j {
      AddressesGrow(states, steps, i, j - 1);
      assert Enabled(states[j - 1], steps[j - 1]) && states[j - 1 + 1] == Do(states[j - 1], steps[j - 1]);
      StepGrows(states[j - 1], steps[j - 1]);
    }
  }

  lemma PostedAt(states: seq<State>, steps: seq<Step>, i: nat, m: Msg)
    requires IsRun(states, steps) && i < |steps| && Posts(states[i], states[i + 1], m)
    ensures m.MPush? ==> m.d.addr == states[i].nextAddr && m.d.addr < states[i + 1].nextAddr
    ensures m.MRemove? ==> m.d.addr !in states[i].ends && m.d.addr in states[i + 1].ends
  {
    hide Sound, Do, Enabled, Posts;
    RunSound(states, steps, i);
    assert Enabled(states[i], steps[i]) && states[i + 1] == Do(states[i], steps[i]);
    PostStep(states[i], steps[i], m);
  }

  /** Over every run: no delegate is posted for insertion twice, none is posted for removal
      twice, and none is posted for insertion after its removal. */
  lemma OnePushThenOneRemove(states: seq<State>, steps: seq<Step>, i: nat, j: nat, m: Msg, m2: Msg)
    requires IsRun(states, steps) && i < j < |steps|
    requires Posts(states[i], states[i + 1], m) && Posts(states[j], states[j + 1], m2)
    requires !m.MExpire? && !m2.MExpire? && (m.MPush? ==> m2.MPush?)
    ensures m.d.addr != m2.d.addr
  {
    hide Sound, Posts, Do, Enabled;
    PostedAt(states, steps, i, m);
    PostedAt(states, steps, j, m2);
    AddressesGrow(states, steps, i + 1, j);
    RunSound(states, steps, i + 1);
    SoundCounts(states[i + 1]);
    StartsAreConsumedOnce(states, steps, i + 1, j, m.d.addr);
  }

  predicate PushedAt(states: seq<State>, i: nat, a: int)
    requires i + 1 < |states|
  {
    PostsPush(states[i], states[i + 1], a)
  }

  ghost predicate PushedBefore(states: seq<State>, i: nat, a: int)
    requires i < |states|
  {
    exists j: nat | j < i :: PushedAt(states, j, a)
  }

  lemma StepPushes(s: State, step: Step)
    requires Enabled(s, step)
    ensures Do(s, step).nextAddr <= s.nextAddr + 1
    ensures Do(s, step).nextAddr > s.nextAddr ==> PostsPush(s, Do(s, step), s.nextAddr)
  {
    hide DoStart, DoStop, DoTake, DoExpireOne, DoTimeout, DoDelete, NextExpire, Finish, DropLock, PostsPush;
    match step {
      case Start(c, k, delay) => StartGrows(s, c, k, delay);
      case Stop(c) => StopGrows(s, c, Stopped);
      case Close(c) => StopGrows(s, c, Stopped);
      case Take => TakeClientSide(s);
      case ExpireOne => ExpireTouches(s); TimeoutGrows(s, s.worker.d);
      case Delete => DeleteQueues(s, s.worker.d);
      case _ =>
    }
  }

  /** Over every run: every delegate there ever was has been posted for insertion. */
  lemma {:induction false} EveryDelegateIsPushed(states: seq<State>, steps: seq<Step>, i: nat, a: int)
    requires IsRun(states, steps) && i < |states| && 0 <= a < states[i].nextAddr
    ensures PushedBefore(states, i, a)
  {
    hide Do, Enabled, PostsPush;
    if i > 0 {
      assert Enabled(states[i - 1], steps[i - 1]) && states[i - 1 + 1] == Do(states[i - 1], steps[i - 1]);
      StepPushes(states[i - 1], steps[i - 1]);
      if a < states[i - 1].nextAddr {
        EveryDelegateIsPushed(states, steps, i - 1, a);
        var j: nat :| j < i - 1 && PushedAt(states, j, a);
        assert PushedAt(states, j, a);
      } else {
        assert PushedAt(states, i - 1, a);
      }
    }
  }

  /** Over every run: a delegate that has been deleted never comes back. */
  lemma {:induction false} DeletedStaysDeleted(states: seq<State>, steps: seq<Step>, i: nat, j: nat, a: int)
    requires IsRun(states, steps) && i <= j < |states|
    requires a < states[i].nextAddr && a !in states[i].delegates
    ensures a !in states[j].delegates
  {
    hide Do, Enabled;
    if i < j {
      DeletedStaysDeleted(states, steps, i, j - 1, a);
      AddressesGrow(states, steps, i, j - 1);
      assert Enabled(states[j - 1], steps[j - 1]) && states[j - 1 + 1] == Do(states[j - 1], steps[j - 1]);
      StepGrows(states[j - 1], steps[j - 1]);
    }
  }
}
