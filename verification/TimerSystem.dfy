/** The timer service as a transition system: client threads that start, stop and destroy
    timers, the poll thread, and the message thread that owns the heaps. Every system
    call and every access to data that two threads share is a step of its own; work on
    data that only one thread touches is joined to the next such access. */
module TimerSystem {
  import opened Wrappers
  import opened HeapTree
  import opened TimerBox

  /** The two containers. */
  datatype Kind = Sw | Hw

  /** A LocTimerDelegate that has not been deleted. The address and the deadline make up
      the rankable the heap stores. lock is the client whose shared lock it holds;
      mClient and mContainer become null together. */
  datatype Delegate = Delegate(key: int, kind: Kind, lock: nat, mClient: Option<nat>)

  datatype Msg = MPush(kind: Kind, d: Rankable) | MRemove(kind: Kind, d: Rankable) | MExpire(kind: Kind)

  /** A container's heap, what its fd is armed for, and whether the fd is polled. */
  datatype Box = Box(heap: Tree, armed: Option<int>, inPoll: bool)

  /** The poll thread: blocked in epoll_wait, or in expire() for one container with the
      other reported containers still to come. */
  datatype Stage = Woken | Disarmed | Unpolled
  datatype Poll = PWait | PExpire(stage: Stage, kind: Kind, rest: seq<Kind>)

  /** The message thread: between messages, about to expire a timer it has popped, or at
      one of the system calls of updateSoonestTime. del is the delegate that the handler
      deletes at its end. */
  datatype Worker =
    | WIdle
    | WExpiring(kind: Kind, at: int, d: Rankable)
    | WAddPoll(kind: Kind, time: int, del: Option<Rankable>)
    | WSetTime(kind: Kind, time: int, del: Option<Rankable>)
    | WRemovePoll(kind: Kind, del: Option<Rankable>)
    | WDisarm(kind: Kind, del: Option<Rankable>)
    | WDelete(d: Rankable)

  /** A LocTimer: in use, past the stop() of its destructor, or destroyed. The counters
      are history: successful starts and stops, and callbacks. */
  datatype Phase = Alive | Closing | Gone
  datatype Client = Client(mTimer: Option<Rankable>, phase: Phase, starts: nat, stops: nat, timeouts: nat)

  /** How a started timer ended. */
  datatype End = Stopped | TimedOut

  datatype State = State(
    clients: map<nat, Client>,
    locks: map<nat, int>,
    delegates: map<int, Delegate>,
    nextAddr: nat,
    ends: map<int, End>,
    queue: seq<Msg>,
    sw: Box,
    hw: Box,
    poll: Poll,
    worker: Worker,
    now: int)
  {
    function Get(k: Kind): Box {
      if k.Sw? then sw else hw
    }

    function Set(k: Kind, b: Box): State {
      if k.Sw? then this.(sw := b) else this.(hw := b)
    }
  }

  const INIT := State(map[], map[], map[], 0, map[], [], Box(Leaf, None, false), Box(Leaf, None, false), PWait, WIdle, 0)

  datatype Step =
    | NewClient(c: nat) | Start(c: nat, kind: Kind, delay: nat) | Stop(c: nat) | Close(c: nat) | Drop(c: nat)
    | Tick(dt: nat)
    | Wake(ready: seq<Kind>) | PollDisarm | PollUnpoll | PollSend
    | Take | ExpireOne | AddPoll | SetTime | RemovePoll | Disarm | Delete

  // ---------- client threads ----------

  /** LocTimer::start. It fails on a timer that is running. The delegate shares the
      client's lock and is queued for insertion. The time and the delay are in nanoseconds;
      that the fields of a timespec add up so is FutureTime in TimerTime.dfy. */
  function DoStart(s: State, c: nat, k: Kind, delay: nat): State
    requires c in s.clients
  {
    var cl := s.clients[c];
    if cl.mTimer.Some? then s
    else
      var d := Rankable(s.nextAddr, s.now + delay);
      s.(clients := s.clients[c := cl.(mTimer := Some(d), starts := cl.starts + 1)],
         locks := Share(s.locks, c),
         delegates := s.delegates[d.addr := Delegate(d.key, k, c, Some(c))],
         nextAddr := s.nextAddr + 1,
         queue := s.queue + [MPush(k, d)])
  }

  /** LocTimer::stop, called by the client or by the expiring delegate. It succeeds on a
      running timer: destroyLocked() cuts the delegate off and queues its removal. Here
      and below, touching a deleted delegate is given no effect; that it never happens is
      NoDeadDelegate in TimerTheorems.dfy. */
  function DoStop(s: State, c: nat, how: End): State
    requires c in s.clients
  {
    var cl := s.clients[c];
    if cl.mTimer.None? || cl.mTimer.value.addr !in s.delegates then s
    else
      var d := cl.mTimer.value;
      var dl := s.delegates[d.addr];
      s.(clients := s.clients[c := if how.Stopped? then cl.(mTimer := None, stops := cl.stops + 1)
                                   else cl.(mTimer := None, timeouts := cl.timeouts + 1)],
         delegates := s.delegates[d.addr := dl.(mClient := None)],
         ends := s.ends[d.addr := how],
         queue := s.queue + [MRemove(dl.kind, d)])
  }

  /** LocSharedLock::share and drop: the last drop frees the lock. */
  function Share(locks: map<nat, int>, c: nat): map<nat, int> {
    if c in locks then locks[c := locks[c] + 1] else locks
  }

  function DropLock(locks: map<nat, int>, c: nat): map<nat, int> {
    if c !in locks then locks
    else if locks[c] == 1 then locks - {c}
    else locks[c := locks[c] - 1]
  }

  function WithPhase(s: State, c: nat, phase: Phase): State
    requires c in s.clients
  {
    s.(clients := s.clients[c := s.clients[c].(phase := phase)])
  }

  // ---------- poll thread ----------

  /** The fd reads as expired. */
  predicate Ready(s: State, k: Kind) {
    s.Get(k).inPoll && s.Get(k).armed.Some? && s.Get(k).armed.value <= s.now
  }

  function NextExpire(rest: seq<Kind>): Poll {
    if rest == [] then PWait else PExpire(Woken, rest[0], rest[1..])
  }

  // ---------- message thread ----------

  /** What follows the heap part of a handler. */
  function Continue(k: Kind, a: Action, del: Option<Rankable>): Worker {
    match a
    case Arm(time) => WAddPoll(k, time, del)
    case Disarm => WRemovePoll(k, del)
    case Keep => Finish(del)
  }

  function Finish(del: Option<Rankable>): Worker {
    if del.None? then WIdle else WDelete(del.value)
  }

  function WithHeap(s: State, k: Kind, t: Tree): State {
    s.Set(k, s.Get(k).(heap := t))
  }

  /** Pops the top for expiry. */
  function PopFor(s: State, k: Kind, at: int): State
    requires s.Get(k).heap.Node?
  {
    var t := s.Get(k).heap;
    WithHeap(s, k, Pop(t)).(worker := WExpiring(k, at, t.data))
  }

  /** The head message is received and its handler runs up to its first system call. */
  function DoTake(s: State): State
    requires s.queue != []
  {
    var s1 := s.(queue := s.queue[1..]);
    match s.queue[0]
    case MPush(k, d) =>
      var h := OnPush(s.Get(k).heap, d);
      WithHeap(s1, k, h.tree).(worker := Continue(k, h.action, None))
    case MRemove(k, d) =>
      var h := OnRemove(s.Get(k).heap, d);
      WithHeap(s1, k, h.tree).(worker := Continue(k, h.action, Some(d)))
    case MExpire(k) =>
      if s.Get(k).heap.Node? then PopFor(s1, k, s.now)
      else s1.(worker := Continue(k, UpdateAction(None, s.Get(k).heap), None))
  }

  /** expire() on the popped delegate: if it still has a client, the client is stopped
      and called back. */
  function DoTimeout(s: State, d: Rankable): State {
    if d.addr !in s.delegates || s.delegates[d.addr].mClient.None? || s.delegates[d.addr].mClient.value !in s.clients then s
    else DoStop(s, s.delegates[d.addr].mClient.value, TimedOut)
  }

  /** The next due timer is popped, or the loop ends and the kernel is told. */
  function NextDue(s: State, k: Kind, at: int): State {
    if Due(s.Get(k).heap, at) then PopFor(s, k, at)
    else s.(worker := Continue(k, UpdateAction(None, s.Get(k).heap), None))
  }

  function DoExpireOne(s: State): State
    requires s.worker.WExpiring?
  {
    NextDue(DoTimeout(s, s.worker.d), s.worker.kind, s.worker.at)
  }

  /** delete mTimer, which drops the lock it shares. */
  function DoDelete(s: State, d: Rankable): State {
    if d.addr !in s.delegates then s.(worker := WIdle)
    else s.(delegates := s.delegates - {d.addr}, locks := DropLock(s.locks, s.delegates[d.addr].lock), worker := WIdle)
  }

  // ---------- steps ----------

  predicate Enabled(s: State, step: Step) {
    match step
    case NewClient(c) => c !in s.clients && c !in s.locks
    case Start(c, _, _) => c in s.clients && s.clients[c].phase == Alive
    case Stop(c) => c in s.clients && s.clients[c].phase == Alive
    case Close(c) => c in s.clients && s.clients[c].phase == Alive
    case Drop(c) => c in s.clients && s.clients[c].phase == Closing
    case Tick(_) => true
    case Wake(ready) =>
      && s.poll.PWait? && 0 < |ready| <= 2
      && (forall i :: 0 <= i < |ready| ==> Ready(s, ready[i]))
      && (|ready| == 2 ==> ready[0] != ready[1])
    case PollDisarm => s.poll.PExpire? && s.poll.stage == Woken
    case PollUnpoll => s.poll.PExpire? && s.poll.stage == Disarmed
    case PollSend => s.poll.PExpire? && s.poll.stage == Unpolled
    case Take => s.worker.WIdle? && s.queue != []
    case ExpireOne => s.worker.WExpiring?
    case AddPoll => s.worker.WAddPoll?
    case SetTime => s.worker.WSetTime?
    case RemovePoll => s.worker.WRemovePoll?
    case Disarm => s.worker.WDisarm?
    case Delete => s.worker.WDelete?
  }

  function Do(s: State, step: Step): State
    requires Enabled(s, step)
  {
    match step
    case NewClient(c) =>
      s.(clients := s.clients[c := Client(None, Alive, 0, 0, 0)], locks := s.locks[c := 1])
    case Start(c, k, delay) => DoStart(s, c, k, delay)
    case Stop(c) => DoStop(s, c, Stopped)
    case Close(c) => WithPhase(DoStop(s, c, Stopped), c, Closing)
    case Drop(c) => WithPhase(s, c, Gone).(locks := DropLock(s.locks, c))
    case Tick(dt) => s.(now := s.now + dt)
    case Wake(ready) => s.(poll := NextExpire(ready))
    case PollDisarm =>
      s.Set(s.poll.kind, s.Get(s.poll.kind).(armed := None)).(poll := s.poll.(stage := Disarmed))
    case PollUnpoll =>
      s.Set(s.poll.kind, s.Get(s.poll.kind).(inPoll := false)).(poll := s.poll.(stage := Unpolled))
    case PollSend =>
      s.(queue := s.queue + [MExpire(s.poll.kind)], poll := NextExpire(s.poll.rest))
    case Take => DoTake(s)
    case ExpireOne => DoExpireOne(s)
    case AddPoll =>
      var w := s.worker;
      s.Set(w.kind, s.Get(w.kind).(inPoll := true)).(worker := WSetTime(w.kind, w.time, w.del))
    case SetTime =>
      var w := s.worker;
      s.Set(w.kind, s.Get(w.kind).(armed := Some(w.time))).(worker := Finish(w.del))
    case RemovePoll =>
      var w := s.worker;
      s.Set(w.kind, s.Get(w.kind).(inPoll := false)).(worker := WDisarm(w.kind, w.del))
    case Disarm =>
      var w := s.worker;
      s.Set(w.kind, s.Get(w.kind).(armed := None)).(worker := Finish(w.del))
    case Delete => DoDelete(s, s.worker.d)
  }

  /** A run: every state follows from the one before by a step that is enabled in it. */
  ghost predicate IsRun(states: seq<State>, steps: seq<Step>) {
    && |states| == |steps| + 1
    && states[0] == INIT
    && forall i :: 0 <= i < |steps| ==> Enabled(states[i], steps[i]) && states[i + 1] == Do(states[i], steps[i])
  }
}
