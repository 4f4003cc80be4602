/** The delegate that a LocThread and the thread it spawns share. Each of them releases it
    once; every access to it is a step, and the steps of the two threads interleave. */
module LocThread {

  /** destroy(): the test of the count, the critical section, and, for the last, delete. */
  datatype Release = Test | Lock | Free

  /** The owner: about to check in create() that the thread runs, in possession of the
      delegate, in stop(), in destroy(), or without it. */
  datatype Owner = Made | Owns | Stopping | Unjoining | Joining | Destroying(at: Release) | Gone

  /** The spawned thread, in threadMain(). */
  datatype Child = Born | Starting | Looping | Running | Finishing | Nulling | Deleting | Leaving(at: Release) | Ended

  /** isRunning says whether mRunnable is set. The last fields are history: whether the
      thread was created and took the runnable over, how often the runnable and the
      delegate have been deleted. */
  datatype State = State(
    alive: bool, refCount: int, isRunning: bool, joinable: bool,
    owner: Owner, child: Child,
    took: bool, runnableDeletes: nat, deletes: nat)

  datatype Step =
    | Check | Stop | Bye | NullRunnable | ReadJoinable | Join | OwnerDestroys
    | ReadRunnable | Prerun | Loop | Ran(again: bool) | Postrun | ChildNulls | DeleteRunnable | ChildDestroys

  /** After a successful and after a failed creation of the thread. */
  function Created(joinable: bool): State {
    State(true, 2, true, joinable, Made, Born, false, 0, 0)
  }

  const NOT_CREATED := State(true, 1, false, false, Made, Ended, false, 0, 0)

  predicate Enabled(s: State, step: Step) {
    match step
    case Check => s.owner.Made?
    case Stop => s.owner.Owns?
    case Bye => s.owner.Owns?
    case NullRunnable => s.owner.Stopping?
    case ReadJoinable => s.owner.Unjoining?
    case Join => s.owner.Joining? && s.child.Ended?
    case OwnerDestroys => s.owner.Destroying?
    case ReadRunnable => s.child.Born?
    case Prerun => s.child.Starting?
    case Loop => s.child.Looping?
    case Ran(_) => s.child.Running?
    case Postrun => s.child.Finishing?
    case ChildNulls => s.child.Nulling?
    case DeleteRunnable => s.child.Deleting?
    case ChildDestroys => s.child.Leaving?
  }

  /** The critical section: the count goes down, and who brings it to zero deletes. */
  function Next(at: Release, refCount: int): (bool, Release, int) {
    match at
    case Test => (refCount <= 0, Lock, refCount)
    case Lock => (refCount != 1, Free, refCount - 1)
    case Free => (true, Free, refCount)
  }

  function Freed(s: State, at: Release): State {
    if at.Free? then s.(alive := false, deletes := s.deletes + 1) else s
  }

  function Do(s: State, step: Step): State
    requires Enabled(s, step)
  {
    match step
    case Check => s.(owner := if s.isRunning then Owns else Destroying(Test))
    case Stop => s.(owner := Stopping)
    case Bye => s.(owner := if s.joinable then Stopping else Destroying(Test))
    case NullRunnable => s.(isRunning := false, owner := Unjoining)
    case ReadJoinable => if s.joinable then s.(joinable := false, owner := Joining) else s.(owner := Destroying(Test))
    case Join => s.(owner := Destroying(Test))
    case OwnerDestroys =>
      var (done, at, refCount) := Next(s.owner.at, s.refCount);
      Freed(s, s.owner.at).(refCount := refCount, owner := if done then Gone else Destroying(at))
    case ReadRunnable => if s.isRunning then s.(took := true, child := Starting) else s.(child := Leaving(Test))
    case Prerun => s.(child := Looping)
    case Loop => s.(child := if s.isRunning then Running else Finishing)
    case Ran(again) => s.(child := if again then Looping else Finishing)
    case Postrun => s.(child := Nulling)
    case ChildNulls => s.(isRunning := false, child := Deleting)
    case DeleteRunnable => s.(runnableDeletes := s.runnableDeletes + 1, child := Leaving(Test))
    case ChildDestroys =>
      var (done, at, refCount) := Next(s.child.at, s.refCount);
      Freed(s, s.child.at).(refCount := refCount, child := if done then Ended else Leaving(at))
  }

  ghost predicate IsRun(states: seq<State>, steps: seq<Step>) {
    && |states| == |steps| + 1
    && (states[0] == Created(true) || states[0] == Created(false) || states[0] == NOT_CREATED)
    && forall i :: 0 <= i < |steps| ==> Enabled(states[i], steps[i]) && states[i + 1] == Do(states[i], steps[i])
  }

  // ---------- the invariant ----------

  predicate OwnerHolds(s: State) {
    !s.owner.Gone? && s.owner != Destroying(Free)
  }

  predicate ChildHolds(s: State) {
    !s.child.Ended? && s.child != Leaving(Free)
  }

  /** The thread is past its loop, or was never created. */
  predicate Finished(c: Child) {
    c.Deleting? || c.Leaving? || c.Ended?
  }

  predicate Inv(s: State) {
    && s.refCount == (if OwnerHolds(s) then 1 else 0) + (if ChildHolds(s) then 1 else 0)
    && !(s.owner == Destroying(Free) && s.child == Leaving(Free))
    && (s.owner == Destroying(Free) || s.child == Leaving(Free) ==> s.refCount == 0)
    && (s.alive <==> s.refCount > 0 || s.owner == Destroying(Free) || s.child == Leaving(Free))
    && s.deletes == (if s.alive then 0 else 1)
    && (s.owner.Unjoining? || s.owner.Joining? ==> !s.isRunning)
    && (s.owner.Made? || s.owner.Owns? ==> (s.isRunning <==> !Finished(s.child)))
    && s.runnableDeletes == (if s.took && (s.child.Leaving? || s.child.Ended?) then 1 else 0)
    && (s.child.Born? ==> !s.took)
    && (s.child.Starting? || s.child.Looping? || s.child.Running? || s.child.Finishing? || s.child.Nulling? || s.child.Deleting? ==> s.took)
  }

  lemma StepKeeps(s: State, step: Step)
    requires Inv(s) && Enabled(s, step)
    ensures Inv(Do(s, step))
  {
  }

  lemma {:induction false} EveryRunKeeps(states: seq<State>, steps: seq<Step>, i: nat)
    requires IsRun(states, steps) && i < |states|
    ensures Inv(states[i])
  {
    if i > 0 {
      EveryRunKeeps(states, steps, i - 1);
      assert Enabled(states[i - 1], steps[i - 1]) && states[i - 1 + 1] == Do(states[i - 1], steps[i - 1]);
      StepKeeps(states[i - 1], steps[i - 1]);
    }
  }

  /** The step accesses the delegate. Waiting for the thread and running the runnable do
      not. */
  predicate Touches(step: Step) {
    !step.Join? && !step.Ran? && !step.DeleteRunnable?
  }

  /** However the two threads interleave, joinable or detached: no step touches the
      delegate after it has been deleted, it is never deleted twice, the count is positive
      when destroy() tests it, and once both are through it has been deleted. */
  lemma DeletedExactlyOnce(states: seq<State>, steps: seq<Step>, i: nat)
    requires IsRun(states, steps) && i < |states|
    ensures i < |steps| && Touches(steps[i]) ==> states[i].alive
    ensures states[i].deletes <= 1
    ensures states[i].owner == Destroying(Test) || states[i].child == Leaving(Test) ==> states[i].refCount > 0
    ensures states[i].owner.Gone? && states[i].child.Ended? ==> states[i].deletes == 1
  {
    EveryRunKeeps(states, steps, i);
    if i < |steps| { assert Enabled(states[i], steps[i]); }
  }

  /** start() reports success if and only if the thread was created and has not already
      finished when create() looks. */
  lemma StartSucceedsIffRunning(states: seq<State>, steps: seq<Step>, i: nat)
    requires IsRun(states, steps) && i < |steps| && steps[i].Check?
    ensures states[i + 1].owner.Owns? <==> !Finished(states[i].child)
  {
    EveryRunKeeps(states, steps, i);
    assert Enabled(states[i], steps[i]) && states[i + 1] == Do(states[i], steps[i]);
  }

  predicate StopsBefore(steps: seq<Step>, j: nat)
    requires j <= |steps|
  {
    exists k :: 0 <= k < j && steps[k].NullRunnable?
  }

  /** This step is the first look of the thread, with no stop before it. */
  predicate LooksInTime(steps: seq<Step>, j: nat)
    requires j < |steps|
  {
    steps[j].ReadRunnable? && !StopsBefore(steps, j)
  }

  ghost predicate Looked(steps: seq<Step>, i: nat)
    requires i <= |steps|
  {
    exists j: nat :: j < i && LooksInTime(steps, j)
  }

  lemma LookStep(s: State, step: Step)
    requires Inv(s) && Enabled(s, step)
    ensures Do(s, step).took <==> s.took || (step.ReadRunnable? && s.isRunning)
    ensures step.ReadRunnable? ==> s.child.Born?
    ensures Do(s, step).child.Born? ==> s.child.Born? && (Do(s, step).isRunning <==> s.isRunning && !step.NullRunnable?)
  {
  }

  /** Until the thread looks, mRunnable is set unless a stop has come. */
  lemma {:induction false} TakenIffLooked(states: seq<State>, steps: seq<Step>, i: nat)
    requires IsRun(states, steps) && i < |states|
    ensures states[i].took <==> Looked(steps, i)
    ensures states[i].child.Born? ==> (states[i].isRunning <==> !StopsBefore(steps, i))
  {
    hide Do, Enabled, Inv, LooksInTime, Looked;
    if i == 0 {
      assert !Looked(steps, 0) by { NobodyLooked(steps); }
    } else {
      TakenIffLooked(states, steps, i - 1);
      EveryRunKeeps(states, steps, i - 1);
      var s, step := states[i - 1], steps[i - 1];
      assert Enabled(s, step) && states[i - 1 + 1] == Do(s, step);
      LookStep(s, step);
      LookedMore(steps, i);
    }
  }

  lemma NobodyLooked(steps: seq<Step>)
    ensures !Looked(steps, 0)
  {
  }

  lemma LookedMore(steps: seq<Step>, i: nat)
    requires 0 < i <= |steps|
    ensures Looked(steps, i) <==> Looked(steps, i - 1) || (steps[i - 1].ReadRunnable? && !StopsBefore(steps, i - 1))
    ensures StopsBefore(steps, i) <==> StopsBefore(steps, i - 1) || steps[i - 1].NullRunnable?
  {
    assert LooksInTime(steps, i - 1) <==> steps[i - 1].ReadRunnable? && !StopsBefore(steps, i - 1);
    hide LooksInTime, StopsBefore;
  }

  /** When the thread has ended, the runnable has been deleted, once, if the thread took
      its first look before any stop cleared mRunnable; otherwise it never is. */
  lemma RunnableDeletedIffTaken(states: seq<State>, steps: seq<Step>, i: nat)
    requires IsRun(states, steps) && i < |states| && states[i].child.Ended?
    ensures states[i].runnableDeletes == if Looked(steps, i) then 1 else 0
  {
    EveryRunKeeps(states, steps, i);
    TakenIffLooked(states, steps, i);
    hide Looked;
  }

  /** So the promise that the runnable is deleted whenever start() succeeded does not hold
      of a thread that is stopped before it gets to look: in this run it never is. */
  lemma StoppedBeforeItStarts()
    ensures exists states: seq<State>, steps: seq<Step> ::
              && IsRun(states, steps)
              && |states| > 1 && states[1].owner.Owns?
              && states[|states| - 1].owner.Gone? && states[|states| - 1].child.Ended?
              && states[|states| - 1].runnableDeletes == 0
  {
    var s0 := Created(false);
    var s1 := Do(s0, Check);
    var s2 := Do(s1, Stop);
    var s3 := Do(s2, NullRunnable);
    var s4 := Do(s3, ReadRunnable);
    var s5 := Do(s4, ChildDestroys);
    var s6 := Do(s5, ChildDestroys);
    var s7 := Do(s6, ReadJoinable);
    var s8 := Do(s7, OwnerDestroys);
    var s9 := Do(s8, OwnerDestroys);
    var s10 := Do(s9, OwnerDestroys);
    var states := [s0, s1, s2, s3, s4, s5, s6, s7, s8, s9, s10];
    var steps := [Check, Stop, NullRunnable, ReadRunnable, ChildDestroys, ChildDestroys, ReadJoinable, OwnerDestroys, OwnerDestroys, OwnerDestroys];
    assert IsRun(states, steps);
  }

  // ---------- who waits for the thread ----------

  /** The owner has the delegate and has not given the thread up. */
  predicate Holding(o: Owner) {
    o.Made? || o.Owns? || o.Stopping? || o.Unjoining?
  }

  lemma {:induction false} JoinableStays(states: seq<State>, steps: seq<Step>, i: nat)
    requires IsRun(states, steps) && i < |states| && Holding(states[i].owner)
    ensures states[i].joinable == states[0].joinable
  {
    if i > 0 {
      var s, step := states[i - 1], steps[i - 1];
      assert Enabled(s, step) && states[i - 1 + 1] == Do(s, step);
      assert Holding(s.owner);
      JoinableStays(states, steps, i - 1);
    }
  }

  lemma JoinStep(s: State, step: Step)
    requires Enabled(s, step)
    requires if s.owner.Destroying? || s.owner.Gone? then s.child.Ended? else !s.owner.Made? && (s.owner.Joining? || s.joinable)
    ensures var s' := Do(s, step);
            if s'.owner.Destroying? || s'.owner.Gone? then s'.child.Ended? else !s'.owner.Made? && (s'.owner.Joining? || s'.joinable)
  {
  }

  /** Once start() has succeeded on a joinable thread, its owner lets go of the delegate only
      after the thread has ended, whether it calls stop() or just goes. */
  lemma {:induction false} JoinableIsJoined(states: seq<State>, steps: seq<Step>, j: nat, i: nat)
    requires IsRun(states, steps) && j <= i < |states| && states[0].joinable && states[j].owner.Owns?
    ensures states[i].owner.Destroying? || states[i].owner.Gone? ==> states[i].child.Ended?
    ensures !states[i].owner.Made? && (states[i].owner.Destroying? || states[i].owner.Gone? || states[i].owner.Joining? || states[i].joinable)
  {
    if i == j {
      JoinableStays(states, steps, j);
    } else {
      JoinableIsJoined(states, steps, j, i - 1);
      assert Enabled(states[i - 1], steps[i - 1]) && states[i - 1 + 1] == Do(states[i - 1], steps[i - 1]);
      JoinStep(states[i - 1], steps[i - 1]);
    }
  }

  /** An owner that just goes leaves a detached thread alone. */
  lemma {:induction false} DetachedIsLeft(states: seq<State>, steps: seq<Step>, i: nat)
    requires IsRun(states, steps) && i < |states| && states[0] == Created(false)
    requires forall k :: 0 <= k < i ==> !steps[k].Stop?
    ensures !states[i].owner.Stopping? && !states[i].owner.Unjoining? && !states[i].owner.Joining?
    ensures !StopsBefore(steps, i)
  {
    if i > 0 {
      var s, step := states[i - 1], steps[i - 1];
      DetachedIsLeft(states, steps, i - 1);
      assert Enabled(s, step) && states[i - 1 + 1] == Do(s, step);
      if Holding(s.owner) { JoinableStays(states, steps, i - 1); }
    }
  }

  // ---------- stopping ends ----------

  function ReleaseCost(at: Release): nat {
    match at case Test => 3 case Lock => 2 case Free => 1
  }

  function OwnerCost(o: Owner): nat {
    match o
    case Made => 8
    case Owns => 7
    case Stopping => 6
    case Unjoining => 5
    case Joining => 4
    case Destroying(at) => ReleaseCost(at)
    case Gone => 0
  }

  function ChildCost(c: Child): nat {
    match c
    case Born => 10
    case Starting => 9
    case Running => 8
    case Looping => 7
    case Finishing => 6
    case Nulling => 5
    case Deleting => 4
    case Leaving(at) => ReleaseCost(at)
    case Ended => 0
  }

  /** Once mRunnable is null only a bounded number of steps is left. */
  lemma StoppingEnds(s: State, step: Step)
    requires Inv(s) && !s.isRunning && Enabled(s, step)
    ensures !Do(s, step).isRunning
    ensures OwnerCost(Do(s, step).owner) + ChildCost(Do(s, step).child) < OwnerCost(s.owner) + ChildCost(s.child)
  {
    hide Inv;
  }

  /** Until both threads are through there is always a step to take: a stop() that waits
      for the thread is not left waiting. */
  lemma NeverStuck(s: State)
    ensures s.owner.Gone? && s.child.Ended? <==> forall step :: !Enabled(s, step)
  {
    var owner := match s.owner
      case Made => Check case Owns => Stop case Stopping => NullRunnable case Unjoining => ReadJoinable
      case Joining => Join case Destroying(_) => OwnerDestroys case Gone => Join;
    var child := match s.child
      case Born => ReadRunnable case Starting => Prerun case Looping => Loop case Running => Ran(false)
      case Finishing => Postrun case Nulling => ChildNulls case Deleting => DeleteRunnable
      case Leaving(_) => ChildDestroys case Ended => ChildDestroys;
    assert !s.child.Ended? ==> Enabled(s, child);
    assert s.child.Ended? && !s.owner.Gone? ==> Enabled(s, owner);
  }
}
