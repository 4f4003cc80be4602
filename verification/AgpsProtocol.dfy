/** What an AGPS state machine does with each event, as functions of its state and its
    subscriber list, and what follows over every run of the AGPS manager. The objects
    that are updated in place are in Agps.dfy. */
module AgpsProtocol {
  import opened Wrappers

  datatype AgpsState = Released | Pending | Acquired | Releasing

  /** One AGPS request. A subscriber waits for the close to complete, or not; one that
      waits is inactive from its unsubscribing until the connection has closed. */
  datatype AgpsSubscriber = AgpsSubscriber(mConnHandle: int, mWaitForCloseComplete: bool, mIsInactive: bool) {
    predicate Equals(s: AgpsSubscriber) {
      mConnHandle == s.mConnHandle
    }
  }

  datatype NotificationType = AllSubscribers | InactiveSubscribers | ActiveSubscribers

  datatype Nif = Agnss | Internet

  /** A call of a callback: the open or close status of a handle, or the request or
      release of a data connection. */
  datatype Output = OpenStatus(h: int, ok: bool) | CloseStatus(h: int, ok: bool) | DataConn(nif: Nif, request: bool)

  datatype Event =
    | SubscribeEvent(cur: AgpsSubscriber) | UnsubscribeEvent(cur: AgpsSubscriber)
    | GrantedEvent | ReleasedEvent | DeniedEvent

  datatype Machine = Machine(state: AgpsState, list: seq<AgpsSubscriber>)

  /** The machine after an event, the notifications it sends, and the data connection
      request (true) or release (false) it then sends, if any. */
  datatype Reply = Reply(machine: Machine, notes: seq<Output>, conn: Option<bool>) {
    function Sent(k: Nif): seq<Output> {
      if conn.None? then notes else notes + [DataConn(k, conn.value)]
    }
  }

  // ---------- the subscriber list ----------

  predicate Listed(l: seq<AgpsSubscriber>, h: int) {
    exists x :: x in l && x.mConnHandle == h
  }

  predicate AnyActive(l: seq<AgpsSubscriber>) {
    exists x :: x in l && !x.mIsInactive
  }

  predicate Matches(x: AgpsSubscriber, which: NotificationType) {
    match which
    case AllSubscribers => true
    case InactiveSubscribers => x.mIsInactive
    case ActiveSubscribers => !x.mIsInactive
  }

  function Added(l: seq<AgpsSubscriber>, x: AgpsSubscriber): seq<AgpsSubscriber> {
    if Listed(l, x.mConnHandle) then l else l + [x]
  }

  function Without(l: seq<AgpsSubscriber>, h: int): seq<AgpsSubscriber> {
    if l == [] then []
    else
      var rest := Without(l[..|l| - 1], h);
      if l[|l| - 1].mConnHandle == h then rest else rest + [l[|l| - 1]]
  }

  /** The subscriber with this handle becomes inactive. */
  function Deactivated(l: seq<AgpsSubscriber>, h: int): seq<AgpsSubscriber> {
    seq(|l|, i requires 0 <= i < |l| => if l[i].mConnHandle == h then l[i].(mIsInactive := true) else l[i])
  }

  /** The subscribers a notification is meant for, and the others. */
  function Chosen(l: seq<AgpsSubscriber>, which: NotificationType): seq<AgpsSubscriber> {
    if l == [] then []
    else
      var rest := Chosen(l[..|l| - 1], which);
      if Matches(l[|l| - 1], which) then rest + [l[|l| - 1]] else rest
  }

  function Spared(l: seq<AgpsSubscriber>, which: NotificationType): seq<AgpsSubscriber> {
    if l == [] then []
    else
      var rest := Spared(l[..|l| - 1], which);
      if Matches(l[|l| - 1], which) then rest else rest + [l[|l| - 1]]
  }

  /** The status callback for a subscriber. */
  function Notice(ev: Event, h: int): Output {
    match ev
    case GrantedEvent => OpenStatus(h, true)
    case DeniedEvent => OpenStatus(h, false)
    case _ => CloseStatus(h, true)
  }

  function Notices(ev: Event, l: seq<AgpsSubscriber>): seq<Output> {
    seq(|l|, i requires 0 <= i < |l| => Notice(ev, l[i].mConnHandle))
  }

  // ---------- events ----------

  function OnSubscribe(m: Machine, cur: AgpsSubscriber): Reply {
    var m' := m.(list := Added(m.list, cur));
    match m.state
    case Released => Reply(m'.(state := Pending), [], Some(true))
    case Acquired => Reply(m', [OpenStatus(cur.mConnHandle, true)], None)
    case _ => Reply(m', [], None)
  }

  function OnUnsubscribe(m: Machine, cur: AgpsSubscriber): Reply {
    var h := cur.mConnHandle;
    if m.state.Released? then Reply(m, [CloseStatus(h, true)], None)
    else
      var l := if cur.mWaitForCloseComplete then Deactivated(m.list, h) else Without(m.list, h);
      var notes := if cur.mWaitForCloseComplete then [] else [CloseStatus(h, true)];
      if l == [] then Reply(Machine(Released, l), notes, if m.state.Releasing? then None else Some(false))
      else if !m.state.Releasing? && !AnyActive(l) then Reply(Machine(Releasing, l), notes, Some(false))
      else Reply(m.(list := l), notes, None)
  }

  function OnGranted(m: Machine): Reply {
    if m.state.Pending? then
      Reply(m.(state := Acquired), Notices(GrantedEvent, Chosen(m.list, ActiveSubscribers)), None)
    else Reply(m, [], None)
  }

  /** The connection that was being released is gone. */
  function Closed(m: Machine): Reply {
    var l := Spared(m.list, InactiveSubscribers);
    var notes := Notices(ReleasedEvent, Chosen(m.list, InactiveSubscribers));
    if AnyActive(l) then Reply(Machine(Pending, l), notes, Some(true)) else Reply(Machine(Released, l), notes, None)
  }

  function Dropped(m: Machine, ev: Event): Reply {
    Reply(Machine(Released, Spared(m.list, AllSubscribers)), Notices(ev, Chosen(m.list, AllSubscribers)), None)
  }

  function OnReleased(m: Machine): Reply {
    match m.state
    case Acquired => Dropped(m, ReleasedEvent)
    case Releasing => Closed(m)
    case _ => Reply(m, [], None)
  }

  function OnDenied(m: Machine): Reply {
    match m.state
    case Pending => Dropped(m, DeniedEvent)
    case Releasing => Closed(m)
    case _ => Reply(m, [], None)
  }

  function OnEvent(m: Machine, ev: Event): Reply {
    match ev
    case SubscribeEvent(cur) => OnSubscribe(m, cur)
    case UnsubscribeEvent(cur) => OnUnsubscribe(m, cur)
    case GrantedEvent => OnGranted(m)
    case ReleasedEvent => OnReleased(m)
    case DeniedEvent => OnDenied(m)
  }

  // ---------- the manager ----------

  const LOC_AGPS_TYPE_INVALID := -1
  const LOC_AGPS_TYPE_SUPL := 1
  const LOC_AGPS_TYPE_SUPL_ES := 5

  /** The state machine for an AGPS type, with no separate emergency connection. */
  function NifOf(agpsType: int): Nif {
    if agpsType == LOC_AGPS_TYPE_INVALID || agpsType == LOC_AGPS_TYPE_SUPL || agpsType == LOC_AGPS_TYPE_SUPL_ES then Agnss
    else Internet
  }

  datatype Call =
    | CreateMachines(agpsCapable: bool)
    | RequestATL(h: int, agpsType: int) | ReleaseATL(h: int)
    | OpenSuccess(agpsType: int) | OpenFailed(agpsType: int) | ConnClosed(agpsType: int)

  /** The state machines; null until they are created. */
  datatype Manager = Manager(agnss: Option<Machine>, internet: Option<Machine>) {
    function Get(k: Nif): Option<Machine> {
      if k.Agnss? then agnss else internet
    }

    function Set(k: Nif, m: Machine): Manager {
      if k.Agnss? then this.(agnss := Some(m)) else this.(internet := Some(m))
    }
  }

  /** The framework reports only on connections of machines that exist. */
  predicate Callable(g: Manager, c: Call) {
    (c.OpenSuccess? || c.OpenFailed? || c.ConnClosed?) ==> g.Get(NifOf(c.agpsType)).Some?
  }

  const NEW_MACHINE := Machine(Released, [])

  function Created(g: Manager, agpsCapable: bool): Manager {
    Manager(if agpsCapable && g.agnss.None? then Some(NEW_MACHINE) else g.agnss,
            if g.internet.None? then Some(NEW_MACHINE) else g.internet)
  }

  function Find(l: seq<AgpsSubscriber>, h: int): Option<AgpsSubscriber> {
    if l == [] then None
    else if l[0].mConnHandle == h then Some(l[0])
    else Find(l[1..], h)
  }

  function FindIn(g: Manager, k: Nif, h: int): Option<AgpsSubscriber> {
    match g.Get(k)
    case None => None
    case Some(m) => Find(m.list, h)
  }

  datatype Answer = Answer(manager: Manager, sent: seq<Output>)

  function Process(g: Manager, k: Nif, ev: Event): Answer
    requires g.Get(k).Some?
  {
    var r := OnEvent(g.Get(k).value, ev);
    Answer(g.Set(k, r.machine), r.Sent(k))
  }

  function OnCall(g: Manager, c: Call): Answer
    requires Callable(g, c)
  {
    match c
    case CreateMachines(agpsCapable) => Answer(Created(g, agpsCapable), [])
    case RequestATL(h, agpsType) =>
      if g.Get(NifOf(agpsType)).None? then Answer(g, [OpenStatus(h, false)])
      else Process(g, NifOf(agpsType), SubscribeEvent(AgpsSubscriber(h, agpsType == LOC_AGPS_TYPE_SUPL_ES, false)))
    case ReleaseATL(h) =>
      if FindIn(g, Agnss, h).Some? then Process(g, Agnss, UnsubscribeEvent(FindIn(g, Agnss, h).value))
      else if FindIn(g, Internet, h).Some? then Process(g, Internet, UnsubscribeEvent(FindIn(g, Internet, h).value))
      else Answer(g, [CloseStatus(h, false)])
    case OpenSuccess(agpsType) => Process(g, NifOf(agpsType), GrantedEvent)
    case OpenFailed(agpsType) => Process(g, NifOf(agpsType), DeniedEvent)
    case ConnClosed(agpsType) => Process(g, NifOf(agpsType), ReleasedEvent)
  }

  /** A run from the start: every call, and everything sent in answer to it. */
  datatype Entry = Called(call: Call) | Sent(out: Output)
  datatype System = System(manager: Manager, history: seq<Entry>)

  function Entries(sent: seq<Output>): seq<Entry> {
    seq(|sent|, i requires 0 <= i < |sent| => Sent(sent[i]))
  }

  const START := System(Manager(None, None), [])

  function Next(s: System, c: Call): System
    requires Callable(s.manager, c)
  {
    var a := OnCall(s.manager, c);
    System(a.manager, s.history + [Called(c)] + Entries(a.sent))
  }

  ghost predicate IsRun(states: seq<System>, calls: seq<Call>) {
    && |states| == |calls| + 1
    && states[0] == START
    && forall i :: 0 <= i < |calls| ==> Callable(states[i].manager, calls[i]) && states[i + 1] == Next(states[i], calls[i])
  }

  // ---------- the list functions by membership ----------

  ghost predicate Unique(l: seq<AgpsSubscriber>) {
    forall i, j :: 0 <= i < j < |l| ==> l[i].mConnHandle != l[j].mConnHandle
  }

  lemma UniqueSnoc(l: seq<AgpsSubscriber>, x: AgpsSubscriber)
    requires Unique(l) && forall y :: y in l ==> y.mConnHandle != x.mConnHandle
    ensures Unique(l + [x])
  {
  }

  lemma FirstIsMember(l: seq<AgpsSubscriber>)
    ensures l == [] || l[0] in l
  {
  }

  lemma WithoutNext(l: seq<AgpsSubscriber>, n: nat, h: int)
    requires n < |l|
    ensures Without(l[..n + 1], h) == if l[n].mConnHandle == h then Without(l[..n], h) else Without(l[..n], h) + [l[n]]
  {
    assert l[..n + 1][..n] == l[..n];
  }

  lemma {:induction false} WithoutIs(l: seq<AgpsSubscriber>, h: int)
    ensures forall x :: x in Without(l, h) <==> x in l && x.mConnHandle != h
    ensures Unique(l) ==> Unique(Without(l, h))
  {
    if l != [] {
      var p := l[..|l| - 1];
      assert l == p + [l[|l| - 1]];
      WithoutIs(p, h);
      if Unique(l) { assert Unique(p); }
    }
  }

  /** The elements of part are found in l at these increasing positions. */
  ghost predicate At(part: seq<AgpsSubscriber>, l: seq<AgpsSubscriber>, at: seq<nat>) {
    && |at| == |part|
    && (forall i, j :: 0 <= i < j < |at| ==> at[i] < at[j])
    && (forall i :: 0 <= i < |at| ==> at[i] < |l| && l[at[i]] == part[i])
  }

  ghost predicate InOrder(part: seq<AgpsSubscriber>, l: seq<AgpsSubscriber>) {
    exists at: seq<nat> :: At(part, l, at)
  }

  lemma InOrderSnoc(part: seq<AgpsSubscriber>, l: seq<AgpsSubscriber>, x: AgpsSubscriber)
    requires InOrder(part, l)
    ensures InOrder(part, l + [x]) && InOrder(part + [x], l + [x])
  {
    var at: seq<nat> :| At(part, l, at);
    assert At(part, l + [x], at);
    assert At(part + [x], l + [x], at + [|l|]);
  }

  /** The chosen and the others, each in the order of the list. */
  lemma {:induction false} SplitKeepsOrder(l: seq<AgpsSubscriber>, which: NotificationType)
    ensures InOrder(Chosen(l, which), l) && InOrder(Spared(l, which), l)
  {
    if l == [] {
      assert At([], [], []);
    } else {
      var p, x := l[..|l| - 1], l[|l| - 1];
      assert l == p + [x];
      SplitKeepsOrder(p, which);
      InOrderSnoc(Chosen(p, which), p, x);
      InOrderSnoc(Spared(p, which), p, x);
      hide InOrder;
    }
  }

  lemma {:induction false} SplitIs(l: seq<AgpsSubscriber>, which: NotificationType)
    ensures forall x :: x in Chosen(l, which) <==> x in l && Matches(x, which)
    ensures forall x :: x in Spared(l, which) <==> x in l && !Matches(x, which)
    ensures Unique(l) ==> Unique(Chosen(l, which)) && Unique(Spared(l, which))
  {
    if l != [] {
      var p := l[..|l| - 1];
      assert l == p + [l[|l| - 1]];
      SplitIs(p, which);
      if Unique(l) {
        assert Unique(p);
        UniqueSnoc(Chosen(p, which), l[|l| - 1]);
        UniqueSnoc(Spared(p, which), l[|l| - 1]);
      }
    }
  }

  lemma DeactivatedIs(l: seq<AgpsSubscriber>, h: int)
    ensures forall x :: x in Deactivated(l, h) <==>
              exists y :: y in l && x == if y.mConnHandle == h then y.(mIsInactive := true) else y
    ensures Unique(l) ==> Unique(Deactivated(l, h))
  {
    var l' := Deactivated(l, h);
    forall y | y in l ensures (if y.mConnHandle == h then y.(mIsInactive := true) else y) in l' {
      var i :| 0 <= i < |l| && l[i] == y;
      assert l'[i] == if y.mConnHandle == h then y.(mIsInactive := true) else y;
    }
  }

  lemma {:induction false} FindIs(l: seq<AgpsSubscriber>, h: int)
    ensures Find(l, h).Some? ==> Find(l, h).value in l && Find(l, h).value.mConnHandle == h
    ensures Find(l, h).None? ==> !Listed(l, h)
  {
    if l != [] { FindIs(l[1..], h); }
  }

  // ---------- every reachable state of one machine ----------

  /** In Released nobody is listed; otherwise somebody is. A connection is asked for or
      held only for an active subscriber, and one is being closed only for one that
      waits for that. Only those who wait become inactive, and handles are unique. */
  ghost predicate MachineOk(m: Machine) {
    && Unique(m.list)
    && (forall x :: x in m.list && x.mIsInactive ==> x.mWaitForCloseComplete)
    && match m.state
       case Released => m.list == []
       case Pending => AnyActive(m.list)
       case Acquired => AnyActive(m.list)
       case Releasing => exists x :: x in m.list && x.mIsInactive
  }

  /** The subscriber at hand is new, or is the one in the list. */
  predicate EventOk(m: Machine, ev: Event) {
    && (ev.SubscribeEvent? ==> !ev.cur.mIsInactive)
    && (ev.UnsubscribeEvent? ==> ev.cur in m.list)
  }

  lemma SubscribeKeeps(m: Machine, cur: AgpsSubscriber)
    requires MachineOk(m) && !cur.mIsInactive
    ensures MachineOk(OnSubscribe(m, cur).machine)
  {
    var l := Added(m.list, cur);
    assert forall x :: x in m.list ==> x in l;
    if m.state.Released? { assert cur in l; }
  }

  lemma UnsubscribeKeeps(m: Machine, cur: AgpsSubscriber)
    requires MachineOk(m) && cur in m.list
    ensures MachineOk(OnUnsubscribe(m, cur).machine)
  {
    var h := cur.mConnHandle;
    DeactivatedIs(m.list, h);
    WithoutIs(m.list, h);
    if cur.mWaitForCloseComplete {
      assert cur.(mIsInactive := true) in Deactivated(m.list, h);
    } else if m.state.Releasing? {
      var x :| x in m.list && x.mIsInactive;
      assert x.mConnHandle != h by { SameHandle(m.list, x, cur); }
      assert x in Without(m.list, h);
    }
    OthersWait(m.list, cur);
    FirstIsMember(OnUnsubscribe(m, cur).machine.list);
  }

  lemma SameHandle(l: seq<AgpsSubscriber>, x: AgpsSubscriber, y: AgpsSubscriber)
    requires Unique(l) && x in l && y in l
    ensures x.mConnHandle == y.mConnHandle <==> x == y
  {
  }

  lemma OthersWait(l: seq<AgpsSubscriber>, cur: AgpsSubscriber)
    requires Unique(l) && cur in l
    requires forall x :: x in l && x.mIsInactive ==> x.mWaitForCloseComplete
    ensures cur.mWaitForCloseComplete ==>
              forall x :: x in Deactivated(l, cur.mConnHandle) && x.mIsInactive ==> x.mWaitForCloseComplete
  {
    DeactivatedIs(l, cur.mConnHandle);
    forall x | cur.mWaitForCloseComplete && x in Deactivated(l, cur.mConnHandle) && x.mIsInactive
      ensures x.mWaitForCloseComplete
    {
      var y :| y in l && x == if y.mConnHandle == cur.mConnHandle then y.(mIsInactive := true) else y;
      SameHandle(l, y, cur);
    }
  }

  lemma FrameworkKeeps(m: Machine, ev: Event)
    requires MachineOk(m) && !ev.SubscribeEvent? && !ev.UnsubscribeEvent?
    ensures MachineOk(OnEvent(m, ev).machine)
  {
    SplitIs(m.list, InactiveSubscribers);
    SplitIs(m.list, AllSubscribers);
    FirstIsMember(Spared(m.list, AllSubscribers));
    FirstIsMember(Spared(m.list, InactiveSubscribers));
  }

  /** No event breaks the invariant of a machine, in whatever order events arrive. */
  lemma EventKeeps(m: Machine, ev: Event)
    requires MachineOk(m) && EventOk(m, ev)
    ensures MachineOk(OnEvent(m, ev).machine)
  {
    match ev {
      case SubscribeEvent(cur) => SubscribeKeeps(m, cur);
      case UnsubscribeEvent(cur) => UnsubscribeKeeps(m, cur);
      case _ => FrameworkKeeps(m, ev);
    }
  }

  /** While a connection is being closed somebody is waiting for that, so the branch that
      moves on when an unsubscribing empties the list is never taken. */
  lemma ReleasingIsNeverEmptied(m: Machine, cur: AgpsSubscriber)
    requires MachineOk(m) && m.state.Releasing? && cur in m.list
    ensures OnUnsubscribe(m, cur).machine.state.Releasing? && OnUnsubscribe(m, cur).conn.None?
  {
    if !cur.mWaitForCloseComplete {
      var x :| x in m.list && x.mIsInactive;
      SameHandle(m.list, x, cur);
      WithoutIs(m.list, cur.mConnHandle);
      assert x in Without(m.list, cur.mConnHandle);
    }
  }
}
