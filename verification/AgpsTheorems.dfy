/** What the AGPS manager guarantees over every run, judged from outside: by the calls it
    receives and the callbacks it makes. */
module AgpsTheorems {
  import opened Wrappers
  import opened AgpsProtocol

  // ---------- the data connection ----------

  /** A data connection as the framework sees it: not wanted, asked for, or open. Broken
      is a request for one already wanted, or a release of one that is not. */
  datatype Conn = Idle | Asked | Open | Broken

  function ConnStep(k: Nif, c: Conn, e: Entry): Conn {
    match e
    case Sent(DataConn(n, request)) =>
      if n != k then c
      else if request then (if c.Idle? then Asked else Broken)
      else if c.Asked? || c.Open? then Idle else Broken
    case Called(OpenSuccess(t)) => if NifOf(t) == k && c.Asked? then Open else c
    case Called(OpenFailed(t)) => if NifOf(t) == k && c.Asked? then Idle else c
    case Called(ConnClosed(t)) => if NifOf(t) == k && c.Open? then Idle else c
    case _ => c
  }

  function ConnFrom(k: Nif, c: Conn, es: seq<Entry>): Conn {
    if es == [] then c else ConnStep(k, ConnFrom(k, c, es[..|es| - 1]), es[|es| - 1])
  }

  function ConnOf(state: AgpsState): Conn {
    match state
    case Pending => Asked
    case Acquired => Open
    case _ => Idle
  }

  lemma {:induction false} ConnJoin(k: Nif, c: Conn, a: seq<Entry>, b: seq<Entry>)
    ensures ConnFrom(k, c, a + b) == ConnFrom(k, ConnFrom(k, c, a), b)
  {
    if b == [] {
      assert a + b == a;
    } else {
      assert (a + b)[..|a + b| - 1] == a + b[..|b| - 1];
      ConnJoin(k, c, a, b[..|b| - 1]);
    }
  }

  /** Notifications do not touch the connection. */
  lemma {:induction false} NotesKeepConn(k: Nif, c: Conn, notes: seq<Output>)
    requires forall i :: 0 <= i < |notes| ==> !notes[i].DataConn?
    ensures ConnFrom(k, c, Entries(notes)) == c
  {
    if notes != [] {
      assert Entries(notes)[..|notes| - 1] == Entries(notes[..|notes| - 1]);
      NotesKeepConn(k, c, notes[..|notes| - 1]);
    }
  }

  lemma ReplyConn(k: Nif, n: Nif, c: Conn, r: Reply)
    requires forall i :: 0 <= i < |r.notes| ==> !r.notes[i].DataConn?
    ensures ConnFrom(n, c, Entries(r.Sent(k)))
         == if r.conn.Some? then ConnStep(n, c, Sent(DataConn(k, r.conn.value))) else c
  {
    NotesKeepConn(n, c, r.notes);
    if r.conn.Some? { assert Entries(r.Sent(k))[..|r.notes|] == Entries(r.notes); }
  }

  /** What the framework's own report does to the connection. */
  function Reported(c: Conn, ev: Event): Conn {
    match ev
    case GrantedEvent => if c.Asked? then Open else c
    case DeniedEvent => if c.Asked? then Idle else c
    case ReleasedEvent => if c.Open? then Idle else c
    case _ => c
  }

  /** Each event leaves the connection in the state the machine is in, and does not touch
      the connection of the other machine. */
  lemma EventConn(k: Nif, n: Nif, m: Machine, ev: Event, c: Conn)
    ensures
      var r := OnEvent(m, ev);
      && ConnFrom(k, Reported(ConnOf(m.state), ev), Entries(r.Sent(k))) == ConnOf(r.machine.state)
      && (n != k ==> ConnFrom(n, c, Entries(r.Sent(k))) == c)
  {
    var r := OnEvent(m, ev);
    ReplyConn(k, k, Reported(ConnOf(m.state), ev), r);
    ReplyConn(k, n, c, r);
  }

  // ---------- one handle ----------

  /** A connection handle as its owner sees it. Done is after a terminal notification: a
      successful close or a failed open. Wrong is any notification that does not belong. */
  datatype Handle = Unknown | Waiting | Opened | Done | Wrong {
    predicate Outstanding() {
      Waiting? || Opened?
    }
  }

  function HandleStep(h: int, s: Handle, e: Entry): Handle {
    match e
    case Called(RequestATL(x, _)) =>
      if x != h then s else if s.Unknown? || s.Done? then Waiting else Wrong
    case Sent(OpenStatus(x, ok)) =>
      if x != h then s else if !s.Waiting? then Wrong else if ok then Opened else Done
    case Sent(CloseStatus(x, ok)) =>
      if x != h then s else if s.Wrong? || s.Outstanding() != ok then Wrong else if ok then Done else s
    case _ => s
  }

  function HandleFrom(h: int, s: Handle, es: seq<Entry>): Handle {
    if es == [] then s else HandleStep(h, HandleFrom(h, s, es[..|es| - 1]), es[|es| - 1])
  }

  lemma {:induction false} HandleJoin(h: int, s: Handle, a: seq<Entry>, b: seq<Entry>)
    ensures HandleFrom(h, s, a + b) == HandleFrom(h, HandleFrom(h, s, a), b)
  {
    if b == [] {
      assert a + b == a;
    } else {
      assert (a + b)[..|a + b| - 1] == a + b[..|b| - 1];
      HandleJoin(h, s, a, b[..|b| - 1]);
    }
  }

  lemma HandleLast(h: int, s: Handle, sent: seq<Output>, o: Output)
    ensures HandleFrom(h, s, Entries(sent + [o])) == HandleStep(h, HandleFrom(h, s, Entries(sent)), Sent(o))
  {
    assert Entries(sent + [o])[..|sent|] == Entries(sent);
  }

  /** Notifying a list tells each handle in it once. */
  lemma {:induction false} HandleNotices(h: int, s: Handle, ev: Event, l: seq<AgpsSubscriber>)
    requires Unique(l)
    ensures HandleFrom(h, s, Entries(Notices(ev, l)))
         == if Listed(l, h) then HandleStep(h, s, Sent(Notice(ev, h))) else s
  {
    if l != [] {
      var p, x := l[..|l| - 1], l[|l| - 1];
      assert l == p + [x];
      assert Unique(p) && !Listed(p, x.mConnHandle);
      HandleNotices(h, s, ev, p);
      assert Notices(ev, l) == Notices(ev, p) + [Notice(ev, x.mConnHandle)];
      HandleLast(h, s, Notices(ev, p), Notice(ev, x.mConnHandle));
      if Listed(p, h) { var y :| y in p && y.mConnHandle == h; assert y in l; }
    }
  }

  /** What a listed subscriber has been told, given the state of its machine. */
  predicate Fits(state: AgpsState, x: AgpsSubscriber, s: Handle) {
    if x.mIsInactive then (if state.Pending? then s.Waiting? else s.Outstanding())
    else if state.Acquired? then s.Opened? else s.Waiting?
  }

  ghost predicate ListFits(m: Machine, h: int, s: Handle) {
    forall x :: x in m.list && x.mConnHandle == h ==> Fits(m.state, x, s)
  }

  /** The effect of an event on one handle: a handle in the list is told what it should
      be, one that leaves the list is told so, any other is told nothing. */
  ghost predicate Told(m: Machine, m': Machine, h: int, s: Handle, s': Handle) {
    && ListFits(m', h, s')
    && (Listed(m.list, h) && !Listed(m'.list, h) ==> s'.Done?)
    && (!Listed(m.list, h) ==> !Listed(m'.list, h) && s' == s)
  }

  lemma ReplyTells(k: Nif, h: int, s: Handle, r: Reply)
    ensures HandleFrom(h, s, Entries(r.Sent(k))) == HandleFrom(h, s, Entries(r.notes))
  {
    if r.conn.Some? { HandleLast(h, s, r.notes, DataConn(k, r.conn.value)); }
  }

  lemma OneNote(h: int, s: Handle, o: Output)
    ensures HandleFrom(h, s, Entries([o])) == HandleStep(h, s, Sent(o))
  {
    HandleLast(h, s, [], o);
    assert [] + [o] == [o];
  }

  lemma SubscribeTells(m: Machine, cur: AgpsSubscriber, h: int, s: Handle)
    requires MachineOk(m) && !cur.mIsInactive && ListFits(m, h, s)
    requires cur.mConnHandle == h ==> !Listed(m.list, h) && s.Waiting?
    ensures var r := OnSubscribe(m, cur);
            var s' := HandleFrom(h, s, Entries(r.notes));
            if cur.mConnHandle == h then Listed(r.machine.list, h) && ListFits(r.machine, h, s')
            else Told(m, r.machine, h, s, s')
  {
    var r := OnSubscribe(m, cur);
    OneNote(h, s, OpenStatus(cur.mConnHandle, true));
    if cur.mConnHandle == h { assert cur in r.machine.list; }
    forall x | x in m.list ensures x in r.machine.list { }
  }

  lemma UnsubscribeTells(m: Machine, cur: AgpsSubscriber, h: int, s: Handle)
    requires MachineOk(m) && cur in m.list && ListFits(m, h, s)
    ensures var r := OnUnsubscribe(m, cur);
            Told(m, r.machine, h, s, HandleFrom(h, s, Entries(r.notes)))
  {
    var r := OnUnsubscribe(m, cur);
    OneNote(h, s, CloseStatus(cur.mConnHandle, true));
    LeaveIs(m, cur);
    hide Unique, Without, Deactivated, HandleFrom;
  }

  /** Only the subscriber at hand leaves the list, or only it becomes inactive. */
  lemma LeaveIs(m: Machine, cur: AgpsSubscriber)
    requires MachineOk(m) && cur in m.list
    ensures forall x :: x in Without(m.list, cur.mConnHandle) <==> x in m.list && x != cur
    ensures forall x :: x in Deactivated(m.list, cur.mConnHandle) <==>
              x == cur.(mIsInactive := true) || (x in m.list && x != cur)
    ensures forall x :: x in m.list && x.mConnHandle == cur.mConnHandle ==> x == cur
  {
    WithoutIs(m.list, cur.mConnHandle);
    DeactivatedIs(m.list, cur.mConnHandle);
    forall y | y in m.list ensures y.mConnHandle == cur.mConnHandle <==> y == cur { SameHandle(m.list, y, cur); }
  }

  lemma GrantedTells(m: Machine, h: int, s: Handle)
    requires MachineOk(m) && m.state.Pending? && ListFits(m, h, s)
    ensures Told(m, OnGranted(m).machine, h, s, HandleFrom(h, s, Entries(OnGranted(m).notes)))
  {
    ChosenTells(h, s, GrantedEvent, m.list, ActiveSubscribers);
    hide Unique, Chosen, Spared, Notices, HandleFrom, Entries;
  }

  lemma ClosedTells(m: Machine, h: int, s: Handle)
    requires MachineOk(m) && m.state.Releasing? && ListFits(m, h, s)
    ensures Told(m, Closed(m).machine, h, s, HandleFrom(h, s, Entries(Closed(m).notes)))
  {
    ChosenTells(h, s, ReleasedEvent, m.list, InactiveSubscribers);
    hide Unique, Chosen, Spared, Notices, HandleFrom, Entries;
  }

  lemma DroppedTells(m: Machine, ev: Event, h: int, s: Handle)
    requires MachineOk(m) && ListFits(m, h, s)
    requires (m.state.Pending? && ev.DeniedEvent?) || (m.state.Acquired? && ev.ReleasedEvent?)
    ensures Told(m, Dropped(m, ev).machine, h, s, HandleFrom(h, s, Entries(Dropped(m, ev).notes)))
  {
    ChosenTells(h, s, ev, m.list, AllSubscribers);
    hide Unique, Chosen, Spared, Notices, HandleFrom, Entries;
  }

  lemma FrameworkTells(m: Machine, ev: Event, h: int, s: Handle)
    requires MachineOk(m) && !ev.SubscribeEvent? && !ev.UnsubscribeEvent? && ListFits(m, h, s)
    ensures var r := OnEvent(m, ev);
            Told(m, r.machine, h, s, HandleFrom(h, s, Entries(r.notes)))
  {
    hide MachineOk, Closed, Dropped, Chosen, Notices;
    if m.state.Pending? && ev.GrantedEvent? { GrantedTells(m, h, s); }
    if m.state.Pending? && ev.DeniedEvent? { DroppedTells(m, ev, h, s); }
    if m.state.Acquired? && ev.ReleasedEvent? { DroppedTells(m, ev, h, s); }
    if m.state.Releasing? && !ev.GrantedEvent? { ClosedTells(m, h, s); }
  }

  lemma ChosenTells(h: int, s: Handle, ev: Event, l: seq<AgpsSubscriber>, which: NotificationType)
    requires Unique(l)
    ensures forall x :: x in l && x.mConnHandle == h ==>
              HandleFrom(h, s, Entries(Notices(ev, Chosen(l, which)))) == if Matches(x, which) then HandleStep(h, s, Sent(Notice(ev, h))) else s
    ensures !Listed(l, h) ==> HandleFrom(h, s, Entries(Notices(ev, Chosen(l, which)))) == s
    ensures forall x :: x in Spared(l, which) <==> x in l && !Matches(x, which)
  {
    SplitIs(l, which);
    HandleNotices(h, s, ev, Chosen(l, which));
    forall x | x in l && x.mConnHandle == h ensures Listed(Chosen(l, which), h) <==> Matches(x, which) {
      if Listed(Chosen(l, which), h) {
        var y :| y in Chosen(l, which) && y.mConnHandle == h;
        SameHandle(l, x, y);
      }
    }
  }

  // ---------- every run ----------

  ghost predicate MachinesOk(g: Manager) {
    forall k: Nif :: g.Get(k).Some? ==> MachineOk(g.Get(k).value)
  }

  /** Seen from outside, machine k wants a connection exactly while it is Pending or
      Acquired, and holds it exactly while it is Acquired. */
  predicate ConnOk(s: System, k: Nif) {
    ConnFrom(k, Idle, s.history) == if s.manager.Get(k).None? then Idle else ConnOf(s.manager.Get(k).value.state)
  }

  predicate Has(g: Manager, k: Nif, h: int) {
    g.Get(k).Some? && Listed(g.Get(k).value.list, h)
  }

  /** A handle is listed by one machine, which has told it what is the case, or by none,
      and then nothing is outstanding. */
  ghost predicate HandleOk(g: Manager, h: int, s: Handle) {
    && (forall k: Nif :: Has(g, k, h) ==> ListFits(g.Get(k).value, h, s))
    && !(Has(g, Agnss, h) && Has(g, Internet, h))
    && (!Has(g, Agnss, h) && !Has(g, Internet, h) ==> s.Unknown? || s.Done?)
  }

  function Status(s: System, h: int): Handle {
    HandleFrom(h, Unknown, s.history)
  }

  lemma FindInIs(g: Manager, k: Nif, h: int)
    ensures FindIn(g, k, h).Some? ==>
              Has(g, k, h) && FindIn(g, k, h).value in g.Get(k).value.list && FindIn(g, k, h).value.mConnHandle == h
    ensures FindIn(g, k, h).None? ==> !Has(g, k, h)
  {
    if g.Get(k).Some? { FindIs(g.Get(k).value.list, h); }
  }

  /** Which machine a call concerns, if any, and the event it gives it. */
  function Route(g: Manager, c: Call): Option<(Nif, Event)> {
    match c
    case CreateMachines(_) => None
    case RequestATL(h, t) =>
      if g.Get(NifOf(t)).None? then None
      else Some((NifOf(t), SubscribeEvent(AgpsSubscriber(h, t == LOC_AGPS_TYPE_SUPL_ES, false))))
    case ReleaseATL(h) =>
      if FindIn(g, Agnss, h).Some? then Some((Agnss, UnsubscribeEvent(FindIn(g, Agnss, h).value)))
      else if FindIn(g, Internet, h).Some? then Some((Internet, UnsubscribeEvent(FindIn(g, Internet, h).value)))
      else None
    case OpenSuccess(t) => Some((NifOf(t), GrantedEvent))
    case OpenFailed(t) => Some((NifOf(t), DeniedEvent))
    case ConnClosed(t) => Some((NifOf(t), ReleasedEvent))
  }

  lemma RouteIs(g: Manager, c: Call)
    requires Callable(g, c)
    ensures Route(g, c).Some? ==>
              var (k, ev) := Route(g, c).value;
              && g.Get(k).Some? && EventOk(g.Get(k).value, ev) && OnCall(g, c) == Process(g, k, ev)
              && (ev.UnsubscribeEvent? ==> c == ReleaseATL(ev.cur.mConnHandle))
  {
    if c.ReleaseATL? {
      FindInIs(g, Agnss, c.h);
      FindInIs(g, Internet, c.h);
    }
  }

  lemma NextMachines(s: System, c: Call)
    requires MachinesOk(s.manager) && Callable(s.manager, c)
    ensures MachinesOk(Next(s, c).manager)
  {
    RouteIs(s.manager, c);
    if Route(s.manager, c).Some? {
      var (k, ev) := Route(s.manager, c).value;
      RoutedMachines(s.manager, k, ev);
    } else {
      var g' := Next(s, c).manager;
      forall n: Nif | g'.Get(n).Some? ensures MachineOk(g'.Get(n).value) {
        assert g'.Get(n) == s.manager.Get(n) || g'.Get(n) == Some(NEW_MACHINE);
      }
    }
  }

  lemma RoutedMachines(g: Manager, k: Nif, ev: Event)
    requires MachinesOk(g) && g.Get(k).Some? && EventOk(g.Get(k).value, ev)
    ensures MachinesOk(Process(g, k, ev).manager)
  {
    EventKeeps(g.Get(k).value, ev);
    hide MachineOk, OnEvent;
    var g' := Process(g, k, ev).manager;
    forall n: Nif | g'.Get(n).Some? ensures MachineOk(g'.Get(n).value) {
      if n != k { assert g'.Get(n) == g.Get(n); }
    }
  }

  lemma NextConnFrom(s: System, c: Call, n: Nif)
    requires Callable(s.manager, c)
    ensures ConnFrom(n, Idle, Next(s, c).history)
         == ConnFrom(n, ConnStep(n, ConnFrom(n, Idle, s.history), Called(c)), Entries(OnCall(s.manager, c).sent))
  {
    ConnJoin(n, Idle, s.history + [Called(c)], Entries(OnCall(s.manager, c).sent));
    assert (s.history + [Called(c)])[..|s.history|] == s.history;
  }

  /** The entry for the call itself does to the connection what its event reports. */
  lemma CalledIsReported(g: Manager, c: Call, n: Nif, conn: Conn)
    requires Callable(g, c)
    ensures match Route(g, c)
            case None => ConnStep(n, conn, Called(c)) == conn
            case Some((k, ev)) => ConnStep(n, conn, Called(c)) == if n == k then Reported(conn, ev) else conn
  {
  }

  lemma UnroutedConn(g: Manager, c: Call, n: Nif, conn: Conn)
    requires Route(g, c).None? && Callable(g, c)
    ensures ConnFrom(n, conn, Entries(OnCall(g, c).sent)) == conn
    ensures OnCall(g, c).manager.Get(n) == g.Get(n) || (g.Get(n).None? && OnCall(g, c).manager.Get(n) == Some(NEW_MACHINE))
  {
    NotesKeepConn(n, conn, OnCall(g, c).sent);
  }

  lemma NextConn(s: System, c: Call, n: Nif)
    requires ConnOk(s, n) && Callable(s.manager, c)
    ensures ConnOk(Next(s, c), n)
  {
    var g, conn := s.manager, ConnFrom(n, Idle, s.history);
    NextConnFrom(s, c, n);
    CalledIsReported(g, c, n, conn);
    RouteIs(g, c);
    hide ConnFrom, ConnStep, Entries, Route, Reported, OnEvent, Callable;
    if Route(g, c).Some? {
      var (k, ev) := Route(g, c).value;
      EventConn(k, n, g.Get(k).value, ev, conn);
    } else {
      UnroutedConn(g, c, n, conn);
    }
  }

  /** This handle is requested only when nothing is outstanding for it: the first time, or
      after its terminal notification. */
  predicate Polite(s: System, c: Call, h: int) {
    c.RequestATL? && c.h == h ==> !Status(s, h).Outstanding()
  }

  lemma ListFitsOutstanding(g: Manager, k: Nif, h: int, s: Handle)
    requires Has(g, k, h) && ListFits(g.Get(k).value, h, s)
    ensures s.Outstanding()
  {
  }

  lemma NotListedFits(g: Manager, k: Nif, h: int, s: Handle)
    requires g.Get(k).Some? && (Has(g, k, h) ==> ListFits(g.Get(k).value, h, s))
    ensures ListFits(g.Get(k).value, h, s)
  {
  }

  /** One machine has told a handle what has changed for it. */
  lemma ToldKeeps(g: Manager, k: Nif, m': Machine, h: int, s: Handle, s': Handle)
    requires HandleOk(g, h, s) && g.Get(k).Some? && Told(g.Get(k).value, m', h, s, s')
    ensures HandleOk(g.Set(k, m'), h, s')
  {
    hide Listed, ListFits;
    forall n: Nif ensures n == k || g.Set(k, m').Get(n) == g.Get(n) { }
  }

  lemma NewKeeps(g: Manager, k: Nif, m': Machine, h: int, s': Handle)
    requires g.Get(k).Some? && !Has(g, Agnss, h) && !Has(g, Internet, h)
    requires Listed(m'.list, h) && ListFits(m', h, s')
    ensures HandleOk(g.Set(k, m'), h, s')
  {
    hide Listed, ListFits;
    forall n: Nif ensures n == k || g.Set(k, m').Get(n) == g.Get(n) { }
  }

  lemma RoutedHandle(g: Manager, k: Nif, ev: Event, h: int, s: Handle)
    requires MachinesOk(g) && g.Get(k).Some? && EventOk(g.Get(k).value, ev)
    requires if ev.SubscribeEvent? && ev.cur.mConnHandle == h then s.Waiting? && !Has(g, Agnss, h) && !Has(g, Internet, h)
             else HandleOk(g, h, s)
    ensures HandleOk(Process(g, k, ev).manager, h, HandleFrom(h, s, Entries(Process(g, k, ev).sent)))
  {
    hide MachineOk, OnSubscribe, OnUnsubscribe, OnGranted, OnReleased, OnDenied, HandleFrom, Entries, Fits, Listed, ListFits, Told;
    var m := g.Get(k).value;
    var r := OnEvent(m, ev);
    var s' := HandleFrom(h, s, Entries(r.notes));
    ReplyTells(k, h, s, r);
    NotListedFits(g, k, h, s);
    match ev {
      case SubscribeEvent(cur) => SubscribeTells(m, cur, h, s);
      case UnsubscribeEvent(cur) => UnsubscribeTells(m, cur, h, s);
      case _ => FrameworkTells(m, ev, h, s);
    }
    if ev.SubscribeEvent? && ev.cur.mConnHandle == h {
      NewKeeps(g, k, r.machine, h, s');
    } else {
      ToldKeeps(g, k, r.machine, h, s, s');
    }
  }

  lemma NextStatus(s: System, c: Call, h: int)
    requires Callable(s.manager, c)
    ensures Status(Next(s, c), h)
         == HandleFrom(h, HandleStep(h, Status(s, h), Called(c)), Entries(OnCall(s.manager, c).sent))
  {
    HandleJoin(h, Unknown, s.history + [Called(c)], Entries(OnCall(s.manager, c).sent));
    assert (s.history + [Called(c)])[..|s.history|] == s.history;
  }

  lemma NextHandle(s: System, c: Call, h: int)
    requires MachinesOk(s.manager) && HandleOk(s.manager, h, Status(s, h)) && Callable(s.manager, c) && Polite(s, c, h)
    ensures HandleOk(Next(s, c).manager, h, Status(Next(s, c), h))
  {
    var g, before := s.manager, Status(s, h);
    NextStatus(s, c, h);
    HandleOkMeans(g, h, before);
    RouteIs(g, c);
    hide MachinesOk, Status, HandleFrom, Entries, Listed, ListFits, Process;
    if Route(g, c).Some? {
      var (k, ev) := Route(g, c).value;
      RoutedHandle(g, k, ev, h, HandleStep(h, before, Called(c)));
    } else {
      UnroutedHandle(g, c, h, before);
    }
  }

  /** A call that concerns no machine: a request that is refused, a release of an unknown
      handle, or the creation of the machines. */
  lemma UnroutedHandle(g: Manager, c: Call, h: int, s: Handle)
    requires HandleOk(g, h, s) && Route(g, c).None? && Callable(g, c)
    requires c.RequestATL? && c.h == h ==> !s.Outstanding()
    ensures HandleOk(OnCall(g, c).manager, h, HandleFrom(h, HandleStep(h, s, Called(c)), Entries(OnCall(g, c).sent)))
  {
    HandleOkMeans(g, h, s);
    if c.ReleaseATL? {
      FindInIs(g, Agnss, c.h);
      FindInIs(g, Internet, c.h);
    }
    match c {
      case RequestATL(x, _) => OneNote(h, HandleStep(h, s, Called(c)), OpenStatus(x, false));
      case ReleaseATL(x) => OneNote(h, s, CloseStatus(x, false));
      case CreateMachines(_) => CreatedListsNobody(g, c.agpsCapable, h);
    }
    hide HandleFrom, Entries, ListFits, Listed;
  }

  lemma CreatedListsNobody(g: Manager, agpsCapable: bool, h: int)
    ensures forall k: Nif :: Has(Created(g, agpsCapable), k, h) <==> Has(g, k, h)
    ensures forall k: Nif :: Has(g, k, h) ==> Created(g, agpsCapable).Get(k) == g.Get(k)
  {
  }

  /** Whatever the calls and reports, in every reachable state: Released means that
      nobody is listed, Pending and Acquired that an active subscriber is; handles are
      unique in a machine; and one connection is wanted precisely in Pending and
      Acquired, never asked for twice, never given back without being wanted. */
  lemma {:induction false} EveryRunIsBalanced(states: seq<System>, calls: seq<Call>, i: nat, k: Nif)
    requires IsRun(states, calls) && i < |states|
    ensures MachinesOk(states[i].manager) && ConnOk(states[i], k)
  {
    hide MachinesOk, ConnOk, Next;
    if i == 0 {
      StartOk(k);
    } else {
      EveryRunIsBalanced(states, calls, i - 1, k);
      assert states[i - 1 + 1] == Next(states[i - 1], calls[i - 1]);
      NextMachines(states[i - 1], calls[i - 1]);
      NextConn(states[i - 1], calls[i - 1], k);
    }
  }

  lemma StartOk(k: Nif)
    ensures MachinesOk(START.manager) && ConnOk(START, k)
  {
  }

  /** In every run that requests a handle only when nothing is outstanding for it, whatever
      it does with other handles, the handle is told of an opening at most once, gets one
      terminal notification and none after it, and is listed exactly while that is still to
      come. */
  lemma {:induction false} OneTerminalNotification(states: seq<System>, calls: seq<Call>, i: nat, h: int)
    requires IsRun(states, calls) && i < |states|
    requires forall j :: 0 <= j < i ==> Polite(states[j], calls[j], h)
    ensures HandleOk(states[i].manager, h, Status(states[i], h))
    ensures !Status(states[i], h).Wrong?
    ensures Has(states[i].manager, Agnss, h) || Has(states[i].manager, Internet, h) <==> Status(states[i], h).Outstanding()
  {
    if i > 0 {
      OneTerminalNotification(states, calls, i - 1, h);
      EveryRunIsBalanced(states, calls, i - 1, Agnss);
      assert states[i - 1 + 1] == Next(states[i - 1], calls[i - 1]);
      NextHandle(states[i - 1], calls[i - 1], h);
    }
    HandleOkMeans(states[i].manager, h, Status(states[i], h));
  }

  lemma HandleOkMeans(g: Manager, h: int, s: Handle)
    requires HandleOk(g, h, s)
    ensures !s.Wrong? && (Has(g, Agnss, h) || Has(g, Internet, h) <==> s.Outstanding())
  {
    if Has(g, Agnss, h) { ListFitsOutstanding(g, Agnss, h, s); }
    if Has(g, Internet, h) { ListFitsOutstanding(g, Internet, h, s); }
  }

  lemma {:induction false} WrongStays(h: int, es: seq<Entry>)
    ensures HandleFrom(h, Wrong, es) == Wrong
  {
    if es != [] { WrongStays(h, es[..|es| - 1]); }
  }

  lemma NextWrong(s: System, c: Call, h: int)
    requires Callable(s.manager, c) && (Status(s, h).Wrong? || !Polite(s, c, h))
    ensures Status(Next(s, c), h).Wrong?
  {
    NextStatus(s, c, h);
    WrongStays(h, Entries(OnCall(s.manager, c).sent));
    hide Status, OnCall, HandleFrom;
  }

  /** That is exact: the notifications of a handle are in order, after every call of a run,
      if and only if it was requested only when nothing was outstanding for it. */
  lemma {:induction false} InOrderIff(states: seq<System>, calls: seq<Call>, i: nat, h: int)
    requires IsRun(states, calls) && i < |states|
    ensures !Status(states[i], h).Wrong? <==> forall j :: 0 <= j < i ==> Polite(states[j], calls[j], h)
  {
    hide Status, Next, Polite;
    if forall j :: 0 <= j < i ==> Polite(states[j], calls[j], h) {
      OneTerminalNotification(states, calls, i, h);
    } else {
      InOrderIff(states, calls, i - 1, h);
      assert states[i - 1 + 1] == Next(states[i - 1], calls[i - 1]);
      NextWrong(states[i - 1], calls[i - 1], h);
    }
  }
}
