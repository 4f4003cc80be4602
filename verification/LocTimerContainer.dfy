/** One timer container: a heap of timers, the kernel timer that stands for its soonest
    one, and the handlers that the message thread runs. Each handler is shown here as it
    runs without interference; TimerSystem.dfy interleaves its system calls with the
    other threads. */
module LocTimerContainer {
  import opened Wrappers
  import opened HeapTree
  import opened TimerBox
  import LocHeap

  /** What the kernel knows: the absolute time the fd is set to, if any, and whether the
      fd is in the poll set. */
  datatype Kernel = Kernel(armed: Option<int>, inPoll: bool)

  function Told(k: Kernel, a: Action): Kernel {
    match a
    case Keep => k
    case Disarm => Kernel(None, false)
    case Arm(time) => Kernel(Some(time), true)
  }

  /** The kernel is waiting for the top timer. */
  predicate Waiting(k: Kernel, t: Tree) {
    t.Node? ==> k.inPoll && k.armed == Some(t.data.key)
  }

  class LocTimerContainer {
    const heap: LocHeap.LocHeap
    var armed: Option<int>
    var inPoll: bool
    ghost var Repr: set<object>

    ghost predicate Valid()
      reads this, Repr
      ensures Valid() ==> this in Repr
    {
      this in Repr && heap in Repr && heap.Repr <= Repr && this !in heap.Repr && heap.Valid()
    }

    ghost function Tree(): HeapTree.Tree
      reads this, Repr
      requires Valid()
    {
      heap.Tree()
    }

    ghost function InKernel(): Kernel
      reads this
    {
      Kernel(armed, inPoll)
    }

    constructor ()
      ensures Valid() && fresh(Repr) && Tree() == Leaf && InKernel() == Kernel(None, false)
    {
      heap := new LocHeap.LocHeap();
      armed, inPoll := None, false;
      new;
      Repr := {this} + heap.Repr;
    }

    method AddPoll()
      modifies this`inPoll
      ensures inPoll
    {
      inPoll := true;
    }

    method RemovePoll()
      modifies this`inPoll
      ensures !inPoll
    {
      inPoll := false;
    }

    method SetTime(time: Option<int>)
      modifies this`armed
      ensures armed == time
    {
      armed := time;
    }

    /** Tells the kernel about a changed top. */
    method UpdateSoonestTime(priorTop: Option<Rankable>)
      requires Valid()
      modifies this`armed, this`inPoll
      ensures Valid() && Tree() == old(Tree())
      ensures InKernel() == Told(old(InKernel()), UpdateAction(priorTop, Tree()))
    {
      var curTop := heap.Peek();
      if curTop != priorTop {
        var delay: Option<int> := None;
        var toSetTime := false;
        if curTop == None {
          RemovePoll();
          toSetTime := true;
        } else if priorTop == None || curTop.value.OutRanks(priorTop.value) {
          AddPoll();
          delay := Some(curTop.value.key);
          toSetTime := true;
        }
        if toSetTime {
          SetTime(delay);
        }
      }
    }

    /** MsgTimerPush::proc. */
    method ProcPush(d: Rankable)
      requires Valid()
      modifies Repr
      ensures Valid() && fresh(Repr - old(Repr))
      ensures Tree() == OnPush(old(Tree()), d).tree
      ensures InKernel() == Told(old(InKernel()), OnPush(old(Tree()), d).action)
      ensures old(Waiting(InKernel(), Tree())) ==> Waiting(InKernel(), Tree())
    {
      PushArms(Tree(), d);
      var priorTop := heap.Peek();
      heap.Push(d);
      Repr := Repr + heap.Repr;
      UpdateSoonestTime(priorTop);
    }

    /** MsgTimerRemove::proc; deleting the delegate is in TimerSystem.dfy. */
    method ProcRemove(d: Rankable)
      requires Valid()
      modifies Repr
      ensures Valid() && Repr == old(Repr)
      ensures Tree() == OnRemove(old(Tree()), d).tree
      ensures InKernel() == Told(old(InKernel()), OnRemove(old(Tree()), d).action)
      ensures old(Waiting(InKernel(), Tree())) ==> Waiting(InKernel(), Tree())
    {
      RemoveArms(Tree(), d);
      var priorTop := heap.Peek();
      var removed := heap.Remove(d);
      if priorTop == removed {
        UpdateSoonestTime(None);
      }
    }

    /** popIfOutRanks: pops the top unless now outranks it. */
    method PopIfOutRanks(now: int) returns (popped: Option<Rankable>)
      requires Valid()
      modifies Repr
      ensures Valid() && Repr == old(Repr) && InKernel() == old(InKernel())
      ensures if Due(old(Tree()), now) then popped == Some(old(Tree()).data) && Tree() == Pop(old(Tree()))
              else popped == None && Tree() == old(Tree())
    {
      popped := None;
      var top := heap.Peek();
      if top != None && !Rankable(0, now).OutRanks(top.value) {
        popped := heap.Pop();
      }
    }

    /** MsgTimerExpire::proc: the timers on which expire() is called, in that order. */
    method ProcExpire(now: int) returns (expired: seq<Rankable>)
      requires Valid()
      modifies Repr
      ensures Valid() && Repr == old(Repr)
      ensures Expired(expired, Tree()) == OnExpire(old(Tree()), now)
      ensures Waiting(InKernel(), Tree())
    {
      ghost var whole := OnExpire(Tree(), now);
      RestStart(Tree(), now);
      hide IsRest, OnExpire, Pop, Count, Wf, Elems, QueueStep;
      expired := [];
      var timer := heap.Pop();
      while timer != None
        invariant Valid() && Repr == old(Repr)
        invariant IsRest(whole, expired, timer, Tree(), now)
        decreases Count(Tree()) + if timer == None then 0 else 1
      {
        RestStep(whole, expired, timer.value, Tree(), now);
        expired := expired + [timer.value];
        timer := PopIfOutRanks(now);
      }
      RestEnd(whole, expired, Tree(), now);
      ExpireArms(Tree());
      UpdateSoonestTime(None);
    }

    /** expire(), on the poll thread, up to the message it posts. */
    method Expire()
      modifies this`armed, this`inPoll
      ensures InKernel() == Kernel(None, false)
    {
      SetTime(None);
      RemovePoll();
    }
  }

  /** The whole of an expiry is what has expired so far, then the timer at hand, then
      what popping the due timers of t still delivers. */
  ghost predicate IsRest(whole: Expired, done: seq<Rankable>, timer: Option<Rankable>, t: HeapTree.Tree, now: int) {
    && Wf(t)
    && if timer == None then whole == Expired(done, t)
       else whole == Expired(done + [timer.value] + PopDue(t, now).timers, PopDue(t, now).tree)
  }

  lemma RestStart(t: HeapTree.Tree, now: int)
    requires Wf(t)
    ensures if t.Node? then IsRest(OnExpire(t, now), [], Some(t.data), Pop(t), now) else IsRest(OnExpire(t, now), [], None, t, now)
  {
    if t.Node? {
      PopKeeps(t);
      assert [] + [t.data] + PopDue(Pop(t), now).timers == [t.data] + PopDue(Pop(t), now).timers;
    }
  }

  lemma RestEnd(whole: Expired, done: seq<Rankable>, t: HeapTree.Tree, now: int)
    requires IsRest(whole, done, None, t, now)
    ensures whole == Expired(done, t)
  {
  }

  lemma RestStep(whole: Expired, done: seq<Rankable>, d: Rankable, t: HeapTree.Tree, now: int)
    requires IsRest(whole, done, Some(d), t, now)
    ensures if Due(t, now) then IsRest(whole, done + [d], Some(t.data), Pop(t), now) && Count(Pop(t)) < Count(t)
            else IsRest(whole, done + [d], None, t, now)
  {
    if Due(t, now) {
      PopKeeps(t);
      var rest := PopDue(Pop(t), now).timers;
      assert done + [d] + ([t.data] + rest) == done + [d] + [t.data] + rest;
    }
  }
}
