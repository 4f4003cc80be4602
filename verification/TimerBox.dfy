/** What the message handlers of a timer container compute from its heap: the new heap,
    the timers that expire, and what is to be told to the kernel. */
module TimerBox {
  import opened Wrappers
  import opened HeapTree
  import Time = TimerTime

  /** The two system calls updateSoonestTime makes, if any: remove the fd from the poll
      and disarm it, or add it to the poll and arm it. */
  datatype Action = Keep | Disarm | Arm(time: int)

  function Top(t: Tree): Option<Rankable> {
    if t.Leaf? then None else Some(t.data)
  }

  function UpdateAction(priorTop: Option<Rankable>, t: Tree): Action {
    var curTop := Top(t);
    if curTop == priorTop then Keep
    else if curTop.None? then Disarm
    else if priorTop.None? || curTop.value.OutRanks(priorTop.value) then Arm(curTop.value.key)
    else Keep
  }

  datatype Handled = Handled(tree: Tree, action: Action)

  /** MsgTimerPush. */
  function OnPush(t: Tree, d: Rankable): Handled {
    Handled(Push(t, d), UpdateAction(Top(t), Push(t, d)))
  }

  /** MsgTimerRemove. */
  function OnRemove(t: Tree, d: Rankable): Handled {
    var r := Remove(t, d);
    var removed := if r.found then Some(d) else None;
    Handled(r.tree, if Top(t) == removed then UpdateAction(None, r.tree) else Keep)
  }

  /** The top is popped by popIfOutRanks unless now outranks it. */
  predicate Due(t: Tree, now: int) {
    t.Node? && !Rankable(0, now).OutRanks(t.data)
  }

  datatype Expired = Expired(timers: seq<Rankable>, tree: Tree)

  function PopDue(t: Tree, now: int): Expired
    requires Wf(t)
    decreases Count(t)
  {
    if !Due(t, now) then Expired([], t)
    else
      PopKeeps(t);
      var rest := PopDue(Pop(t), now);
      Expired([t.data] + rest.timers, rest.tree)
  }

  /** MsgTimerExpire: the first pop is unconditional. */
  function OnExpire(t: Tree, now: int): Expired
    requires Wf(t)
  {
    if t.Leaf? then Expired([], t)
    else
      PopKeeps(t);
      var rest := PopDue(Pop(t), now);
      Expired([t.data] + rest.timers, rest.tree)
  }

  // ---------- the kernel is told the right thing ----------

  /** After a push the kernel's time is the time of the top if it was so before. It is told
      a new one if and only if the pushed timer is the first or outranks the old top. */
  lemma PushArms(t: Tree, d: Rankable)
    requires Wf(t)
    ensures OnPush(t, d).tree.Node?
    ensures match OnPush(t, d).action
            case Keep => t.Node? && d.key >= t.data.key && OnPush(t, d).tree.data == t.data
            case Arm(time) => (t.Leaf? || d.key < t.data.key) && OnPush(t, d).tree.data == d && time == d.key
            case Disarm => false
  {
    PushKeeps(t, d);
  }

  /** After a remove likewise; the branch that disarms is never taken, since a heap
      that becomes empty is compared with the null pointer. */
  lemma RemoveArms(t: Tree, d: Rankable)
    requires Wf(t)
    ensures match OnRemove(t, d).action
            case Keep => OnRemove(t, d).tree.Node? ==> t.Node? && OnRemove(t, d).tree.data == t.data
            case Arm(time) => OnRemove(t, d).tree.Node? && time == OnRemove(t, d).tree.data.key
            case Disarm => false
  {
    RemoveExact(t, d);
  }

  /** The kernel is told a new time if and only if the removed timer was the top and
      others remain. */
  lemma RemoveArmsIff(t: Tree, d: Rankable)
    requires Wf(t)
    ensures OnRemove(t, d).action.Arm? <==> t.Node? && t.data == d && Elems(t) != multiset{d}
  {
    hide Wf, Remove, Pop, Elems;
    RemoveExact(t, d);
    if t.Node? {
      NotEmpty(t);
      if t.data == d { PopEmpties(t); } else { RemoveKeepsTop(t, d); }
    } else {
      RemoveNothing(d);
    }
  }

  lemma NotEmpty(t: Tree)
    requires t.Node?
    ensures t.data in Elems(t)
  {
  }

  lemma RemoveNothing(d: Rankable)
    ensures Remove(Leaf, d) == Removal(false, Leaf)
  {
  }

  lemma PopEmpties(t: Tree)
    requires t.Node?
    ensures Remove(t, t.data) == Removal(true, Pop(t))
    ensures Pop(t).Leaf? <==> Elems(t) == multiset{t.data}
  {
    if t.left.Node? {
      assert t.left.data in Elems(t.left);
      assert |Elems(t)| >= 2;
    }
    if t.right.Node? {
      assert t.right.data in Elems(t.right);
      assert |Elems(t)| >= 2;
    }
  }

  lemma RemoveKeepsTop(t: Tree, d: Rankable)
    requires t.Node? && t.data != d
    ensures Remove(t, d).tree.Node? && Remove(t, d).tree.data == t.data
  {
  }

  lemma ExpireArms(t: Tree)
    ensures match UpdateAction(None, t)
            case Keep => t.Leaf?
            case Arm(time) => t.Node? && time == t.data.key
            case Disarm => false
  {
  }

  // ---------- expiry ----------

  predicate TimeSorted(s: seq<Rankable>) {
    forall i, j :: 0 <= i < j < |s| ==> s[i].key <= s[j].key
  }

  lemma ConsMultiset(x: Rankable, s: seq<Rankable>)
    ensures multiset([x] + s) == multiset{x} + multiset(s)
  {
  }

  lemma ConsSorted(x: Rankable, s: seq<Rankable>)
    requires TimeSorted(s) && forall y :: y in s ==> x.key <= y.key
    ensures TimeSorted([x] + s)
  {
  }

  lemma {:induction false} PopDueConserves(t: Tree, now: int)
    requires Wf(t)
    ensures Wf(PopDue(t, now).tree)
    ensures Elems(t) == multiset(PopDue(t, now).timers) + Elems(PopDue(t, now).tree)
    decreases Count(t)
  {
    if Due(t, now) {
      PopKeeps(t);
      PopDueConserves(Pop(t), now);
      ConsMultiset(t.data, PopDue(Pop(t), now).timers);
    }
  }

  lemma {:induction false} PopDueTimes(t: Tree, now: int)
    requires Wf(t)
    ensures forall x :: x in PopDue(t, now).timers ==> x.key <= now
    ensures forall x :: x in Elems(PopDue(t, now).tree) ==> x.key > now
    decreases Count(t)
  {
    if Due(t, now) {
      PopKeeps(t);
      PopDueTimes(Pop(t), now);
    } else {
      forall x | x in Elems(t) ensures x.key > now { TopRanksHighest(t, x); }
    }
  }

  /** Everything popped after the top of t is at least as late as it. */
  lemma PoppedLater(t: Tree, now: int, x: Rankable)
    requires Wf(t) && t.Node? && Wf(Pop(t)) && x in PopDue(Pop(t), now).timers
    ensures t.data.key <= x.key
  {
    PopKeeps(t);
    PopDueConserves(Pop(t), now);
    assert x in multiset(PopDue(Pop(t), now).timers);
    TopRanksHighest(t, x);
  }

  lemma {:induction false} PopDueSorted(t: Tree, now: int)
    requires Wf(t)
    ensures TimeSorted(PopDue(t, now).timers)
    decreases Count(t)
  {
    if Due(t, now) {
      PopKeeps(t);
      PopDueSorted(Pop(t), now);
      forall x | x in PopDue(Pop(t), now).timers ensures t.data.key <= x.key { PoppedLater(t, now, x); }
      ConsSorted(t.data, PopDue(Pop(t), now).timers);
    }
  }

  /** Expiry conserves the timers and pops them in the order of their times. */
  lemma ExpireConserves(t: Tree, now: int)
    requires Wf(t)
    ensures Wf(OnExpire(t, now).tree)
    ensures Elems(t) == multiset(OnExpire(t, now).timers) + Elems(OnExpire(t, now).tree)
    ensures TimeSorted(OnExpire(t, now).timers)
  {
    if t.Node? {
      PopKeeps(t);
      PopDueConserves(Pop(t), now);
      PopDueSorted(Pop(t), now);
      forall x | x in PopDue(Pop(t), now).timers ensures t.data.key <= x.key { PoppedLater(t, now, x); }
      ConsMultiset(t.data, PopDue(Pop(t), now).timers);
      ConsSorted(t.data, PopDue(Pop(t), now).timers);
    }
  }

  /** Expiry leaves only timers strictly later than now and pops only due ones, except
      possibly for the first; if the top was due, it pops exactly the due timers. */
  lemma ExpireExact(t: Tree, now: int)
    requires Wf(t)
    ensures forall x :: x in Elems(OnExpire(t, now).tree) ==> x.key > now
    ensures forall i :: 0 < i < |OnExpire(t, now).timers| ==> OnExpire(t, now).timers[i].key <= now
    ensures Due(t, now) ==>
              forall x :: x in Elems(t) ==> (x in OnExpire(t, now).timers <==> x.key <= now)
  {
    if t.Node? {
      PopKeeps(t);
      PopDueTimes(Pop(t), now);
      ExpireConserves(t, now);
      var e := OnExpire(t, now);
      assert e.timers == [t.data] + PopDue(Pop(t), now).timers;
      forall x | Due(t, now) && x in Elems(t) ensures x in e.timers <==> x.key <= now {
        assert x in e.timers <==> x in multiset(e.timers);
      }
    }
  }

  /** The first pop can take a timer that is not due, so "no timer is popped early" holds
      of an expiry if and only if the heap is empty or its top is due. */
  lemma NoEarlyPop(t: Tree, now: int)
    requires Wf(t)
    ensures (forall x :: x in OnExpire(t, now).timers ==> x.key <= now) <==> t.Leaf? || t.data.key <= now
  {
    if t.Node? {
      PopKeeps(t);
      PopDueTimes(Pop(t), now);
      assert OnExpire(t, now).timers[0] == t.data;
    }
  }

  /** Ranking two delegates by their deadlines, with the arithmetic the program uses, is
      ranking them by their times in nanoseconds. */
  lemma DelegatesRankByTime(a: Time.Timespec, b: Time.Timespec, i: int, j: int)
    requires a.Normal() && b.Normal() && a.sec < Time.TWO31 && b.sec < Time.TWO31
    ensures Time.Ranks(a, b) > 0 <==> Rankable(i, a.Total()).OutRanks(Rankable(j, b.Total()))
  {
    Time.RanksExact(a, b);
  }
}
