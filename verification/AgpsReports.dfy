/** What each call of the AGPS manager sends to each handle, and what it does to the data
    connections, over every run. The types of AGPS, the state of a machine and the calls
    made so far decide it. */
module AgpsReports {
  import opened Wrappers
  import opened AgpsProtocol
  import opened AgpsTheorems

  // ---------- what was sent, and what was called before ----------

  predicate IsFor(e: Entry, h: int) {
    e.Sent? && (e.out.OpenStatus? || e.out.CloseStatus?) && e.out.h == h
  }

  /** The status callbacks for one handle. */
  function ToldTo(h: int, es: seq<Entry>): seq<Output> {
    if es == [] then []
    else ToldTo(h, es[..|es| - 1]) + if IsFor(es[|es| - 1], h) then [es[|es| - 1].out] else []
  }

  /** The requests (true) and releases (false) of one data connection. */
  function ConnCalls(k: Nif, es: seq<Entry>): seq<bool> {
    if es == [] then []
    else
      var e := es[|es| - 1];
      ConnCalls(k, es[..|es| - 1]) + if e.Sent? && e.out.DataConn? && e.out.nif == k then [e.out.request] else []
  }

  /** What a call of a run sends. */
  function Answered(s: System, s': System): seq<Entry> {
    if |s.history| < |s'.history| then s'.history[|s.history| + 1..] else []
  }

  /** The type with which a handle was last requested. */
  function LastType(h: int, es: seq<Entry>): Option<int> {
    if es == [] then None
    else
      var e := es[|es| - 1];
      if e.Called? && e.call.RequestATL? && e.call.h == h then Some(e.call.agpsType) else LastType(h, es[..|es| - 1])
  }

  /** The owner has released the handle since. */
  function Left(h: int, es: seq<Entry>): bool {
    if es == [] then false
    else
      var e := es[|es| - 1];
      if e.Called? && e.call.RequestATL? && e.call.h == h then false
      else if e.Called? && e.call.ReleaseATL? && e.call.h == h then true
      else Left(h, es[..|es| - 1])
  }

  // ---------- folds over what is sent ----------

  lemma ToldLast(h: int, es: seq<Entry>, e: Entry)
    ensures ToldTo(h, es + [e]) == ToldTo(h, es) + if IsFor(e, h) then [e.out] else []
  {
    assert (es + [e])[..|es|] == es;
  }

  lemma ConnLast(k: Nif, es: seq<Entry>, e: Entry)
    ensures ConnCalls(k, es + [e]) == ConnCalls(k, es) + if e.Sent? && e.out.DataConn? && e.out.nif == k then [e.out.request] else []
  {
    assert (es + [e])[..|es|] == es;
  }

  lemma {:induction false} SentIsNotCalled(h: int, es: seq<Entry>, sent: seq<Output>)
    ensures LastType(h, es + Entries(sent)) == LastType(h, es)
    ensures Left(h, es + Entries(sent)) == Left(h, es)
  {
    if sent == [] {
      assert es + Entries(sent) == es;
    } else {
      assert (es + Entries(sent))[..|es| + |sent| - 1] == es + Entries(sent[..|sent| - 1]);
      SentIsNotCalled(h, es, sent[..|sent| - 1]);
    }
  }

  /** Notifying a list tells each handle in it once. */
  lemma {:induction false} ToldByNotices(h: int, ev: Event, l: seq<AgpsSubscriber>)
    requires Unique(l)
    ensures ToldTo(h, Entries(Notices(ev, l))) == if Listed(l, h) then [Notice(ev, h)] else []
  {
    if l != [] {
      var p, x := l[..|l| - 1], l[|l| - 1];
      assert l == p + [x];
      assert Unique(p) && !Listed(p, x.mConnHandle);
      ToldByNotices(h, ev, p);
      assert Entries(Notices(ev, l)) == Entries(Notices(ev, p)) + [Sent(Notice(ev, x.mConnHandle))];
      ToldLast(h, Entries(Notices(ev, p)), Sent(Notice(ev, x.mConnHandle)));
      assert Listed(l, h) <==> Listed(p, h) || x.mConnHandle == h;
    }
  }

  lemma {:induction false} NotesCallNoConn(k: Nif, notes: seq<Output>)
    requires forall i :: 0 <= i < |notes| ==> !notes[i].DataConn?
    ensures ConnCalls(k, Entries(notes)) == []
  {
    if notes != [] {
      assert Entries(notes)[..|notes| - 1] == Entries(notes[..|notes| - 1]);
      NotesCallNoConn(k, notes[..|notes| - 1]);
    }
  }

  lemma ToldByReply(k: Nif, h: int, r: Reply)
    ensures ToldTo(h, Entries(r.Sent(k))) == ToldTo(h, Entries(r.notes))
  {
    if r.conn.Some? {
      assert Entries(r.Sent(k)) == Entries(r.notes) + [Sent(DataConn(k, r.conn.value))];
      ToldLast(h, Entries(r.notes), Sent(DataConn(k, r.conn.value)));
    }
  }

  lemma ConnByReply(k: Nif, n: Nif, r: Reply)
    requires forall i :: 0 <= i < |r.notes| ==> !r.notes[i].DataConn?
    ensures ConnCalls(n, Entries(r.Sent(k))) == if n == k && r.conn.Some? then [r.conn.value] else []
  {
    NotesCallNoConn(n, r.notes);
    if r.conn.Some? {
      assert Entries(r.Sent(k)) == Entries(r.notes) + [Sent(DataConn(k, r.conn.value))];
      ConnLast(n, Entries(r.notes), Sent(DataConn(k, r.conn.value)));
    }
  }

  lemma ToldOne(h: int, o: Output)
    ensures ToldTo(h, Entries([])) == []
    ensures ToldTo(h, Entries([o])) == if IsFor(Sent(o), h) then [o] else []
  {
    ToldLast(h, [], Sent(o));
    assert Entries([o]) == [] + [Sent(o)];
  }

  // ---------- one machine ----------

  lemma ChosenTold(h: int, ev: Event, l: seq<AgpsSubscriber>, which: NotificationType)
    requires Unique(l)
    ensures forall x :: x in l && x.mConnHandle == h ==>
              && ToldTo(h, Entries(Notices(ev, Chosen(l, which)))) == (if Matches(x, which) then [Notice(ev, h)] else [])
              && (Listed(Spared(l, which), h) <==> !Matches(x, which))
    ensures !Listed(l, h) ==> ToldTo(h, Entries(Notices(ev, Chosen(l, which)))) == [] && !Listed(Spared(l, which), h)
  {
    SplitIs(l, which);
    ToldByNotices(h, ev, Chosen(l, which));
    forall x | x in l && x.mConnHandle == h
      ensures (Listed(Chosen(l, which), h) <==> Matches(x, which)) && (Listed(Spared(l, which), h) <==> !Matches(x, which))
    {
      forall y | y in l && y.mConnHandle == h ensures y == x { SameHandle(l, x, y); }
    }
  }

  /** A report of the framework in terms of the subscriber with the handle. */
  lemma ReportInPending(m: Machine, ev: Event, x: AgpsSubscriber)
    requires MachineOk(m) && m.state.Pending? && x in m.list && (ev.GrantedEvent? || ev.ReleasedEvent? || ev.DeniedEvent?)
    ensures var r, h := OnEvent(m, ev), x.mConnHandle;
            var out := ToldTo(h, Entries(r.notes));
            if ev.GrantedEvent? then out == (if x.mIsInactive then [] else [OpenStatus(h, true)]) && Listed(r.machine.list, h)
            else if ev.DeniedEvent? then out == [OpenStatus(h, false)] && !Listed(r.machine.list, h)
            else out == [] && Listed(r.machine.list, h)
  {
    var h := x.mConnHandle;
    ChosenTold(h, ev, m.list, AllSubscribers);
    ChosenTold(h, GrantedEvent, m.list, ActiveSubscribers);
    NobodyTold(h);
    hide Unique, Chosen, Spared, Notices, Entries;
  }

  lemma ReportInAcquired(m: Machine, ev: Event, x: AgpsSubscriber)
    requires MachineOk(m) && m.state.Acquired? && x in m.list && (ev.GrantedEvent? || ev.ReleasedEvent? || ev.DeniedEvent?)
    ensures var r, h := OnEvent(m, ev), x.mConnHandle;
            var out := ToldTo(h, Entries(r.notes));
            if ev.ReleasedEvent? then out == [CloseStatus(h, true)] && !Listed(r.machine.list, h)
            else out == [] && Listed(r.machine.list, h)
  {
    var h := x.mConnHandle;
    ChosenTold(h, ev, m.list, AllSubscribers);
    NobodyTold(h);
    hide Unique, Chosen, Spared, Notices, Entries;
  }

  lemma ReportInReleasing(m: Machine, ev: Event, x: AgpsSubscriber)
    requires MachineOk(m) && m.state.Releasing? && x in m.list && (ev.GrantedEvent? || ev.ReleasedEvent? || ev.DeniedEvent?)
    ensures var r, h := OnEvent(m, ev), x.mConnHandle;
            var out := ToldTo(h, Entries(r.notes));
            if x.mIsInactive && !ev.GrantedEvent? then out == [CloseStatus(h, true)] && !Listed(r.machine.list, h)
            else out == [] && Listed(r.machine.list, h)
  {
    var h := x.mConnHandle;
    ChosenTold(h, ReleasedEvent, m.list, InactiveSubscribers);
    NobodyTold(h);
    hide Unique, Chosen, Spared, Notices, Entries, AnyActive;
  }

  lemma NobodyTold(h: int)
    ensures ToldTo(h, Entries([])) == []
  {
  }

  /** Nothing is told to a handle that is not listed, nor is it listed. */
  lemma ReportToOthers(m: Machine, ev: Event, h: int)
    requires MachineOk(m) && !Listed(m.list, h) && (ev.GrantedEvent? || ev.ReleasedEvent? || ev.DeniedEvent?)
    ensures ToldTo(h, Entries(OnEvent(m, ev).notes)) == [] && !Listed(OnEvent(m, ev).machine.list, h)
  {
    ChosenTold(h, ev, m.list, AllSubscribers);
    ChosenTold(h, ReleasedEvent, m.list, InactiveSubscribers);
    ChosenTold(h, GrantedEvent, m.list, ActiveSubscribers);
    NobodyTold(h);
    hide Unique, Chosen, Spared, Notices, Entries;
  }

  /** What a report of the framework does to the machine and its connection. */
  lemma ReportMovesMachine(m: Machine, ev: Event)
    requires MachineOk(m) && (ev.GrantedEvent? || ev.ReleasedEvent? || ev.DeniedEvent?)
    ensures var r, serves := OnEvent(m, ev), exists x :: x in m.list && !x.mIsInactive;
            match m.state
            case Pending =>
              r.conn == None && r.machine.state == if ev.GrantedEvent? then Acquired else if ev.DeniedEvent? then Released else Pending
            case Acquired => r.conn == None && r.machine.state == if ev.ReleasedEvent? then Released else Acquired
            case Releasing =>
              if ev.GrantedEvent? then r.conn == None && r.machine.state == Releasing
              else if serves then r.conn == Some(true) && r.machine.state == Pending
              else r.conn == None && r.machine.state == Released
            case Released => r.conn == None && r.machine.state == Released
  {
    SplitIs(m.list, InactiveSubscribers);
    hide Unique, Chosen, Spared, Notices;
  }

  /** A subscription in terms of the machine. */
  lemma SubscribeToMachine(m: Machine, cur: AgpsSubscriber, h: int)
    requires MachineOk(m) && !Listed(m.list, cur.mConnHandle)
    ensures var r := OnSubscribe(m, cur);
            && r.machine.list == m.list + [cur]
            && r.machine.state == (if m.state.Released? then Pending else m.state)
            && r.conn == (if m.state.Released? then Some(true) else None)
            && ToldTo(h, Entries(r.notes)) == (if h == cur.mConnHandle && m.state.Acquired? then [OpenStatus(h, true)] else [])
            && (Listed(r.machine.list, h) <==> Listed(m.list, h) || h == cur.mConnHandle)
  {
    ToldOne(h, OpenStatus(cur.mConnHandle, true));
    assert Listed(m.list + [cur], h) <==> Listed(m.list, h) || h == cur.mConnHandle by {
      assert cur in m.list + [cur];
      forall x | x in m.list ensures x in m.list + [cur] { }
    }
  }

  /** An unsubscription in terms of the machine. A subscriber that waits for the close is
      told nothing yet and stays listed; any other is told and goes. The connection is
      given back as soon as no other subscriber is active. */
  lemma UnsubscribeToMachine(m: Machine, cur: AgpsSubscriber, h: int)
    requires MachineOk(m) && cur in m.list
    ensures var r := OnUnsubscribe(m, cur);
            var serves := exists x :: x in m.list && x.mConnHandle != cur.mConnHandle && !x.mIsInactive;
            && ToldTo(h, Entries(r.notes)) == (if h == cur.mConnHandle && !cur.mWaitForCloseComplete then [CloseStatus(h, true)] else [])
            && (Listed(r.machine.list, h) <==> Listed(m.list, h) && (h == cur.mConnHandle ==> cur.mWaitForCloseComplete))
            && r.conn == (if m.state.Releasing? || serves then None else Some(false))
            && r.machine.state == (if m.state.Releasing? || serves then m.state
                                   else if r.machine.list == [] then Released else Releasing)
  {
    LeaveIs(m, cur);
    ToldOne(h, CloseStatus(cur.mConnHandle, true));
    if m.state.Releasing? { ReleasingIsNeverEmptied(m, cur); }
    ServesOthers(m, cur);
    LeaveListed(m, cur, h);
    hide Unique, Without, Deactivated, ToldTo, Entries, AnyActive;
    FirstIsMember(OnUnsubscribe(m, cur).machine.list);
  }

  lemma ServesOthers(m: Machine, cur: AgpsSubscriber)
    requires MachineOk(m) && cur in m.list
    ensures var serves := exists x :: x in m.list && x.mConnHandle != cur.mConnHandle && !x.mIsInactive;
            && (AnyActive(Without(m.list, cur.mConnHandle)) <==> serves)
            && (AnyActive(Deactivated(m.list, cur.mConnHandle)) <==> serves)
  {
    LeaveIs(m, cur);
    hide Unique, Without, Deactivated;
  }

  lemma LeaveListed(m: Machine, cur: AgpsSubscriber, h: int)
    requires MachineOk(m) && cur in m.list
    ensures Listed(Without(m.list, cur.mConnHandle), h) <==> Listed(m.list, h) && h != cur.mConnHandle
    ensures Listed(Deactivated(m.list, cur.mConnHandle), h) <==> Listed(m.list, h)
    ensures Deactivated(m.list, cur.mConnHandle) != []
  {
    LeaveIs(m, cur);
    assert cur.(mIsInactive := true) in Deactivated(m.list, cur.mConnHandle);
    hide Unique, Without, Deactivated;
  }

  // ---------- subscribers and the calls made so far ----------

  /** The subscriber is in the list of the machine for the type it was requested with; it
      waits for the close if that is the emergency type, and is inactive if its owner has
      released it since. */
  predicate IsAsCalled(k: Nif, x: AgpsSubscriber, es: seq<Entry>) {
    var t := LastType(x.mConnHandle, es);
    && t.Some? && k == (if t.value == -1 || t.value == 1 || t.value == 5 then Agnss else Internet)
    && (x.mWaitForCloseComplete <==> t.value == 5)
    && (x.mIsInactive <==> Left(x.mConnHandle, es))
  }

  ghost predicate AllAsCalled(s: System, h: int) {
    forall k: Nif, x :: s.manager.Get(k).Some? && x in s.manager.Get(k).value.list && x.mConnHandle == h ==>
      IsAsCalled(k, x, s.history)
  }

  lemma NextFolds(s: System, c: Call, h: int)
    requires Callable(s.manager, c)
    ensures var es := Next(s, c).history;
            && LastType(h, es) == (if c.RequestATL? && c.h == h then Some(c.agpsType) else LastType(h, s.history))
            && Left(h, es) == (if c.RequestATL? && c.h == h then false else if c.ReleaseATL? && c.h == h then true else Left(h, s.history))
            && Answered(s, Next(s, c)) == Entries(OnCall(s.manager, c).sent)
  {
    var es := s.history + [Called(c)];
    assert es[..|s.history|] == s.history;
    SentIsNotCalled(h, es, OnCall(s.manager, c).sent);
    hide OnCall;
  }

  /** Where the subscribers come from that an event leaves in the list. */
  lemma EventMembers(m: Machine, ev: Event)
    requires MachineOk(m) && EventOk(m, ev)
    ensures var l := OnEvent(m, ev).machine.list;
            match ev
            case SubscribeEvent(cur) => forall x :: x in l ==> x in m.list || x == cur
            case UnsubscribeEvent(cur) =>
              forall x :: x in l ==> if x.mConnHandle == cur.mConnHandle then x == cur.(mIsInactive := true) else x in m.list
            case _ => forall x :: x in l ==> x in m.list
  {
    match ev {
      case SubscribeEvent(_) =>
      case UnsubscribeEvent(cur) => LeaveIs(m, cur); hide Without, Deactivated, Unique;
      case _ =>
        SplitIs(m.list, AllSubscribers);
        SplitIs(m.list, InactiveSubscribers);
        hide Chosen, Spared, Unique;
    }
  }

  lemma NextAsCalled(s: System, c: Call, h: int)
    requires MachinesOk(s.manager) && HandleOk(s.manager, h, Status(s, h)) && AllAsCalled(s, h)
    requires Callable(s.manager, c) && Polite(s, c, h)
    ensures AllAsCalled(Next(s, c), h)
  {
    var g, g' := s.manager, Next(s, c).manager;
    NextFolds(s, c, h);
    HandleOkMeans(g, h, Status(s, h));
    RouteIs(g, c);
    hide HandleOk, Status, LastType, Left, MachineOk, OnEvent;
    forall n: Nif, x | g'.Get(n).Some? && x in g'.Get(n).value.list && x.mConnHandle == h
      ensures IsAsCalled(n, x, Next(s, c).history)
    {
      if Route(g, c).Some? && Route(g, c).value.0 == n {
        RoutedAsCalled(s, c, x);
      } else {
        assert g.Get(n).Some? && g'.Get(n) == g.Get(n);
        assert IsAsCalled(n, x, s.history);
        ElsewhereAsCalled(s, c, n, x);
      }
    }
  }

  lemma RoutedAsCalled(s: System, c: Call, x: AgpsSubscriber)
    requires MachinesOk(s.manager) && AllAsCalled(s, x.mConnHandle) && Callable(s.manager, c) && Route(s.manager, c).Some?
    requires s.manager.Get(Route(s.manager, c).value.0).Some?
    requires x in OnEvent(s.manager.Get(Route(s.manager, c).value.0).value, Route(s.manager, c).value.1).machine.list
    requires c.RequestATL? && c.h == x.mConnHandle ==> !Has(s.manager, Agnss, c.h) && !Has(s.manager, Internet, c.h)
    ensures IsAsCalled(Route(s.manager, c).value.0, x, Next(s, c).history)
  {
    var (k, ev) := Route(s.manager, c).value;
    var m := s.manager.Get(k).value;
    RouteIs(s.manager, c);
    NextFolds(s, c, x.mConnHandle);
    EventMembers(m, ev);
    hide MachineOk, OnEvent, LastType, Left;
    if x in m.list { assert IsAsCalled(k, x, s.history); }
    if ev.UnsubscribeEvent? { assert IsAsCalled(k, ev.cur, s.history) || ev.cur.mConnHandle != x.mConnHandle; }
  }

  /** A handle listed elsewhere is not what the call is about. */
  lemma ElsewhereAsCalled(s: System, c: Call, n: Nif, x: AgpsSubscriber)
    requires Callable(s.manager, c) && IsAsCalled(n, x, s.history) && Has(s.manager, n, x.mConnHandle)
    requires !(Has(s.manager, Agnss, x.mConnHandle) && Has(s.manager, Internet, x.mConnHandle))
    requires c.RequestATL? && c.h == x.mConnHandle ==> !Has(s.manager, n, c.h)
    requires Route(s.manager, c).Some? ==> Route(s.manager, c).value.0 != n
    ensures IsAsCalled(n, x, Next(s, c).history)
  {
    NextFolds(s, c, x.mConnHandle);
    if c.ReleaseATL? {
      FindInIs(s.manager, Agnss, c.h);
      FindInIs(s.manager, Internet, c.h);
    }
    hide LastType, Left;
  }

  lemma {:induction false} EveryRunAsCalled(states: seq<System>, calls: seq<Call>, i: nat, h: int)
    requires IsRun(states, calls) && i < |states|
    requires forall j :: 0 <= j < i ==> Polite(states[j], calls[j], h)
    ensures AllAsCalled(states[i], h)
  {
    if i > 0 {
      EveryRunAsCalled(states, calls, i - 1, h);
      OneTerminalNotification(states, calls, i - 1, h);
      EveryRunIsBalanced(states, calls, i - 1, Agnss);
      assert states[i - 1 + 1] == Next(states[i - 1], calls[i - 1]);
      NextAsCalled(states[i - 1], calls[i - 1], h);
    }
  }

  // ---------- every call of every run ----------

  ghost predicate PoliteUpTo(states: seq<System>, calls: seq<Call>, i: nat, h: int)
    requires i <= |calls| && i <= |states|
  {
    forall j :: 0 <= j < i ==> Polite(states[j], calls[j], h)
  }

  /** The call is a report of the framework on the connection for this type. */
  predicate Reports(c: Call, t: int) {
    c == OpenSuccess(t) || c == OpenFailed(t) || c == ConnClosed(t)
  }

  lemma ReportIsRouted(g: Manager, c: Call, k: Nif, t: int)
    requires Callable(g, c) && Reports(c, t) && k == if t == -1 || t == 1 || t == 5 then Agnss else Internet
    ensures g.Get(k).Some?
    ensures var ev := match c case OpenSuccess(_) => GrantedEvent case OpenFailed(_) => DeniedEvent case _ => ReleasedEvent;
            Route(g, c) == Some((k, ev)) && OnCall(g, c) == Process(g, k, ev)
  {
  }

  lemma StepAnswer(states: seq<System>, calls: seq<Call>, i: nat)
    requires IsRun(states, calls) && i < |calls|
    ensures Callable(states[i].manager, calls[i])
    ensures states[i + 1].manager == OnCall(states[i].manager, calls[i]).manager
    ensures Answered(states[i], states[i + 1]) == Entries(OnCall(states[i].manager, calls[i]).sent)
    ensures MachinesOk(states[i].manager)
  {
    EveryRunIsBalanced(states, calls, i, Agnss);
    assert Callable(states[i].manager, calls[i]) && states[i + 1] == Next(states[i], calls[i]);
    NextFolds(states[i], calls[i], 0);
    hide OnCall, MachinesOk;
  }

  /** What a report of the framework tells a handle. A grant opens each handle that has not
      been released since it was requested. A denial ends all. The loss of an open
      connection ends all; the close of one being released ends those that were released,
      and only those. */
  lemma ReportTells(states: seq<System>, calls: seq<Call>, i: nat, h: int, k: Nif, t: int)
    requires IsRun(states, calls) && i < |calls| && PoliteUpTo(states, calls, i, h)
    requires Reports(calls[i], t) && k == if t == -1 || t == 1 || t == 5 then Agnss else Internet
    ensures states[i].manager.Get(k).Some?
    ensures
      var out, left := ToldTo(h, Answered(states[i], states[i + 1])), Left(h, states[i].history);
      var state, listed := states[i].manager.Get(k).value.state, Has(states[i + 1].manager, k, h);
      if !Has(states[i].manager, k, h) then out == [] && !listed
      else
        match (state, calls[i])
        case (Pending, OpenSuccess(_)) => out == (if left then [] else [OpenStatus(h, true)]) && listed
        case (Pending, OpenFailed(_)) => out == [OpenStatus(h, false)] && !listed
        case (Acquired, ConnClosed(_)) => out == [CloseStatus(h, true)] && !listed
        case (Releasing, OpenFailed(_)) => if left then out == [CloseStatus(h, true)] && !listed else out == [] && listed
        case (Releasing, ConnClosed(_)) => if left then out == [CloseStatus(h, true)] && !listed else out == [] && listed
        case _ => out == [] && listed
  {
    StepAnswer(states, calls, i);
    ReportIsRouted(states[i].manager, calls[i], k, t);
    EveryRunAsCalled(states, calls, i, h);
    var m, ev := states[i].manager.Get(k).value, Route(states[i].manager, calls[i]).value.1;
    assert MachineOk(m);
    ToldByReply(k, h, OnEvent(m, ev));
    hide MachineOk, OnEvent, Left, LastType, Route, Callable, Answered;
    if Listed(m.list, h) {
      var x :| x in m.list && x.mConnHandle == h;
      assert IsAsCalled(k, x, states[i].history);
      NotReleased(m, x);
      if m.state.Pending? { ReportInPending(m, ev, x); }
      if m.state.Acquired? { ReportInAcquired(m, ev, x); }
      if m.state.Releasing? { ReportInReleasing(m, ev, x); }
    } else {
      ReportToOthers(m, ev, h);
    }
  }

  lemma NotReleased(m: Machine, x: AgpsSubscriber)
    requires MachineOk(m) && x in m.list
    ensures !m.state.Released?
  {
  }

  /** What a report of the framework does to the machine and its connection: after the close
      of a connection that was being released, it is requested again if and only if an
      active subscriber is listed. The other machine and its connection are left alone. */
  lemma ReportMoves(states: seq<System>, calls: seq<Call>, i: nat, k: Nif, t: int, n: Nif)
    requires IsRun(states, calls) && i < |calls| && n != k
    requires Reports(calls[i], t) && k == if t == -1 || t == 1 || t == 5 then Agnss else Internet
    ensures states[i].manager.Get(k).Some? && states[i + 1].manager.Get(k).Some?
    ensures states[i + 1].manager.Get(n) == states[i].manager.Get(n) && ConnCalls(n, Answered(states[i], states[i + 1])) == []
    ensures
      var conn, m := ConnCalls(k, Answered(states[i], states[i + 1])), states[i].manager.Get(k).value;
      var state, serves := states[i + 1].manager.Get(k).value.state, exists x :: x in m.list && !x.mIsInactive;
      match (m.state, calls[i])
      case (Pending, OpenSuccess(_)) => state == Acquired && conn == []
      case (Pending, OpenFailed(_)) => state == Released && conn == []
      case (Acquired, ConnClosed(_)) => state == Released && conn == []
      case (Releasing, OpenFailed(_)) => if serves then state == Pending && conn == [true] else state == Released && conn == []
      case (Releasing, ConnClosed(_)) => if serves then state == Pending && conn == [true] else state == Released && conn == []
      case _ => state == m.state && conn == []
  {
    StepAnswer(states, calls, i);
    ReportIsRouted(states[i].manager, calls[i], k, t);
    var m, ev := states[i].manager.Get(k).value, Route(states[i].manager, calls[i]).value.1;
    assert MachineOk(m);
    ReportMovesMachine(m, ev);
    NotesAreNotes(m, ev);
    ConnByReply(k, k, OnEvent(m, ev));
    ConnByReply(k, n, OnEvent(m, ev));
    hide MachineOk, OnEvent, Route, Callable, Answered, Entries;
  }

  lemma NotesAreNotes(m: Machine, ev: Event)
    ensures forall i :: 0 <= i < |OnEvent(m, ev).notes| ==> !OnEvent(m, ev).notes[i].DataConn?
  {
    hide Chosen, Spared, Without, Deactivated, AnyActive;
  }

  /** A report ends a handle only if its owner has released it, or the connection was lost
      or denied. */
  lemma WhomReportsEnd(states: seq<System>, calls: seq<Call>, i: nat, h: int, k: Nif, t: int)
    requires IsRun(states, calls) && i < |calls| && PoliteUpTo(states, calls, i, h)
    requires Reports(calls[i], t) && k == if t == -1 || t == 1 || t == 5 then Agnss else Internet
    requires Has(states[i].manager, k, h) && !Has(states[i + 1].manager, k, h)
    ensures
      || Left(h, states[i].history)
      || (states[i].manager.Get(k).value.state.Acquired? && calls[i].ConnClosed?)
      || (states[i].manager.Get(k).value.state.Pending? && calls[i].OpenFailed?)
  {
    ReportTells(states, calls, i, h, k, t);
  }

  /** A handle that its owner has not released survives the release of the connection: it
      stays listed, is told nothing, and the connection is requested again for it. */
  lemma StayerIsServed(states: seq<System>, calls: seq<Call>, i: nat, h: int, k: Nif, t: int)
    requires IsRun(states, calls) && i < |calls| && PoliteUpTo(states, calls, i, h)
    requires Reports(calls[i], t) && !calls[i].OpenSuccess? && k == if t == -1 || t == 1 || t == 5 then Agnss else Internet
    requires Has(states[i].manager, k, h) && states[i].manager.Get(k).value.state.Releasing? && !Left(h, states[i].history)
    ensures Has(states[i + 1].manager, k, h) && states[i + 1].manager.Get(k).value.state.Pending?
    ensures ToldTo(h, Answered(states[i], states[i + 1])) == [] && ConnCalls(k, Answered(states[i], states[i + 1])) == [true]
  {
    ReportTells(states, calls, i, h, k, t);
    ReportMoves(states, calls, i, k, t, if k == Agnss then Internet else Agnss);
    EveryRunAsCalled(states, calls, i, h);
    var m := states[i].manager.Get(k).value;
    var x :| x in m.list && x.mConnHandle == h;
    assert IsAsCalled(k, x, states[i].history);
  }

  /** What a request does: it is refused at once if there is no machine for its type.
      Otherwise the handle is listed, told of the opening at once exactly when the
      connection is open, and the connection is requested exactly when nobody was listed. */
  lemma RequestDoes(states: seq<System>, calls: seq<Call>, i: nat, h: int, t: int, k: Nif, other: int)
    requires IsRun(states, calls) && i < |calls| && PoliteUpTo(states, calls, i + 1, h) && other != h
    requires calls[i] == RequestATL(h, t) && k == if t == -1 || t == 1 || t == 5 then Agnss else Internet
    ensures
      var sent, old', now := Answered(states[i], states[i + 1]), states[i].manager.Get(k), states[i + 1].manager.Get(k);
      && ToldTo(other, sent) == []
      && if old'.None? then ToldTo(h, sent) == [OpenStatus(h, false)] && states[i + 1].manager == states[i].manager
         else
           && now.Some? && Has(states[i + 1].manager, k, h)
           && (Has(states[i + 1].manager, k, other) <==> Has(states[i].manager, k, other))
           && ToldTo(h, sent) == (if old'.value.state.Acquired? then [OpenStatus(h, true)] else [])
           && now.value.state == (if old'.value.list == [] then Pending else old'.value.state)
           && ConnCalls(k, sent) == (if old'.value.list == [] then [true] else [])
  {
    StepAnswer(states, calls, i);
    OneTerminalNotification(states, calls, i, h);
    var g := states[i].manager;
    if g.Get(k).None? {
      ToldOne(h, OpenStatus(h, false));
      ToldOne(other, OpenStatus(h, false));
    } else {
      var m, cur := g.Get(k).value, AgpsSubscriber(h, t == 5, false);
      assert MachineOk(m);
      assert OnCall(g, calls[i]) == Process(g, k, SubscribeEvent(cur));
      EmptyIsReleased(m);
      SubscribeToMachine(m, cur, h);
      SubscribeToMachine(m, cur, other);
      NotesAreNotes(m, SubscribeEvent(cur));
      ToldByReply(k, h, OnSubscribe(m, cur));
      ToldByReply(k, other, OnSubscribe(m, cur));
      ConnByReply(k, k, OnSubscribe(m, cur));
      hide MachineOk, OnSubscribe, Answered, Entries, MachinesOk, Listed, ToldTo, ConnCalls;
    }
  }

  lemma EmptyIsReleased(m: Machine)
    requires MachineOk(m)
    ensures m.state.Released? <==> m.list == []
  {
  }

  /** What a release does. A handle requested with the emergency type waits: it stays listed
      and is told nothing until the connection has closed. Any other is told at once and is
      gone. The connection is given back exactly when it is wanted and no other listed
      subscriber is active. */
  lemma ReleaseDoes(states: seq<System>, calls: seq<Call>, i: nat, h: int, k: Nif, other: int)
    requires IsRun(states, calls) && i < |calls| && PoliteUpTo(states, calls, i, h) && other != h
    requires calls[i] == ReleaseATL(h) && Has(states[i].manager, k, h)
    ensures
      var sent, m := Answered(states[i], states[i + 1]), states[i].manager.Get(k).value;
      var waits := LastType(h, states[i].history) == Some(5);
      var gives := !m.state.Releasing? && forall x :: x in m.list && !x.mIsInactive ==> x.mConnHandle == h;
      && ToldTo(h, sent) == (if waits then [] else [CloseStatus(h, true)])
      && ToldTo(other, sent) == []
      && states[i + 1].manager.Get(k).Some? && (Has(states[i + 1].manager, k, h) <==> waits)
      && (Has(states[i + 1].manager, k, other) <==> Has(states[i].manager, k, other))
      && ConnCalls(k, sent) == (if gives then [false] else [])
      && var m' := states[i + 1].manager.Get(k).value;
         m'.state == if !gives then m.state else if m'.list == [] then Released else Releasing
  {
    StepAnswer(states, calls, i);
    OneTerminalNotification(states, calls, i, h);
    EveryRunAsCalled(states, calls, i, h);
    var g := states[i].manager;
    var m := g.Get(k).value;
    FindInIs(g, Agnss, h);
    FindInIs(g, Internet, h);
    var cur := FindIn(g, k, h).value;
    assert MachineOk(m) && IsAsCalled(k, cur, states[i].history);
    assert OnCall(g, calls[i]) == Process(g, k, UnsubscribeEvent(cur));
    UnsubscribeToMachine(m, cur, h);
    UnsubscribeToMachine(m, cur, other);
    NotesAreNotes(m, UnsubscribeEvent(cur));
    ToldByReply(k, h, OnUnsubscribe(m, cur));
    ToldByReply(k, other, OnUnsubscribe(m, cur));
    ConnByReply(k, k, OnUnsubscribe(m, cur));
    hide MachineOk, OnUnsubscribe, Answered, Entries, MachinesOk, Listed, ToldTo, ConnCalls, FindIn, LastType, Left;
  }

  /** The release of a handle that is not listed is answered with a failure and changes
      nothing. */
  lemma UnknownRelease(states: seq<System>, calls: seq<Call>, i: nat, h: int)
    requires IsRun(states, calls) && i < |calls| && calls[i] == ReleaseATL(h)
    requires !Has(states[i].manager, Agnss, h) && !Has(states[i].manager, Internet, h)
    ensures states[i + 1].manager == states[i].manager
    ensures Answered(states[i], states[i + 1]) == [Sent(CloseStatus(h, false))]
  {
    StepAnswer(states, calls, i);
    FindInIs(states[i].manager, Agnss, h);
    FindInIs(states[i].manager, Internet, h);
  }

  /** The machines are created once: that for AGNSS if it is capable, the other always. */
  lemma CreationDoes(states: seq<System>, calls: seq<Call>, i: nat, agpsCapable: bool)
    requires IsRun(states, calls) && i < |calls| && calls[i] == CreateMachines(agpsCapable)
    ensures
      var g, g' := states[i].manager, states[i + 1].manager;
      && Answered(states[i], states[i + 1]) == []
      && g'.agnss == (if g.agnss.Some? || !agpsCapable then g.agnss else Some(Machine(Released, [])))
      && g'.internet == (if g.internet.Some? then g.internet else Some(Machine(Released, [])))
  {
    StepAnswer(states, calls, i);
  }
}
