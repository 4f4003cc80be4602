/** Conservation of AGPS requests: each one is still listed, or has had its terminal
    notification, or came for a handle that its machine had listed already. */
module AgpsConservation {
  import opened Wrappers
  import opened AgpsProtocol
  import opened AgpsTheorems

  // ---------- one handle ----------

  function CountRequests(h: int, es: seq<Entry>): nat {
    if es == [] then 0
    else CountRequests(h, es[..|es| - 1]) + if es[|es| - 1].Called? && es[|es| - 1].call.RequestATL? && es[|es| - 1].call.h == h then 1 else 0
  }

  predicate Terminal(e: Entry, h: int) {
    e == Sent(CloseStatus(h, true)) || e == Sent(OpenStatus(h, false))
  }

  function CountTerminals(h: int, es: seq<Entry>): nat {
    if es == [] then 0 else CountTerminals(h, es[..|es| - 1]) + if Terminal(es[|es| - 1], h) then 1 else 0
  }

  /** The requests for a handle are its terminal notifications, plus one while it is
      outstanding. */
  lemma {:induction false} RequestsAreConserved(h: int, es: seq<Entry>)
    requires !HandleFrom(h, Unknown, es).Wrong?
    ensures CountRequests(h, es) == CountTerminals(h, es) + if HandleFrom(h, Unknown, es).Outstanding() then 1 else 0
  {
    if es != [] {
      RequestsAreConserved(h, es[..|es| - 1]);
    }
  }

  // ---------- all handles ----------

  function Requests(es: seq<Entry>): nat {
    if es == [] then 0
    else Requests(es[..|es| - 1]) + if es[|es| - 1].Called? && es[|es| - 1].call.RequestATL? then 1 else 0
  }

  /** A notification that ends a subscription, or refuses it. */
  predicate Ends(o: Output) {
    (o.CloseStatus? && o.ok) || (o.OpenStatus? && !o.ok)
  }

  function Terminals(es: seq<Entry>): nat {
    if es == [] then 0
    else Terminals(es[..|es| - 1]) + if es[|es| - 1].Sent? && Ends(es[|es| - 1].out) then 1 else 0
  }

  function ListLength(g: Manager, k: Nif): nat {
    if g.Get(k).None? then 0 else |g.Get(k).value.list|
  }

  lemma {:induction false} CountsJoin(a: seq<Entry>, b: seq<Entry>)
    ensures Requests(a + b) == Requests(a) + Requests(b)
    ensures Terminals(a + b) == Terminals(a) + Terminals(b)
  {
    if b == [] {
      assert a + b == a;
    } else {
      assert (a + b)[..|a + b| - 1] == a + b[..|b| - 1];
      CountsJoin(a, b[..|b| - 1]);
    }
  }

  lemma CountsLast(es: seq<Entry>, e: Entry)
    ensures Requests(es + [e]) == Requests(es) + if e.Called? && e.call.RequestATL? then 1 else 0
    ensures Terminals(es + [e]) == Terminals(es) + if e.Sent? && Ends(e.out) then 1 else 0
  {
    assert (es + [e])[..|es|] == es;
  }

  lemma {:induction false} NothingSentIsRequested(sent: seq<Output>)
    ensures Requests(Entries(sent)) == 0
  {
    if sent != [] {
      assert Entries(sent)[..|sent| - 1] == Entries(sent[..|sent| - 1]);
      NothingSentIsRequested(sent[..|sent| - 1]);
    }
  }

  lemma TerminalsLast(sent: seq<Output>, o: Output)
    ensures Terminals(Entries(sent + [o])) == Terminals(Entries(sent)) + if Ends(o) then 1 else 0
  {
    assert Entries(sent + [o]) == Entries(sent) + [Sent(o)];
    CountsLast(Entries(sent), Sent(o));
  }

  /** Notifying a list sends each subscriber in it one notification. */
  lemma {:induction false} NoticesEnd(ev: Event, l: seq<AgpsSubscriber>)
    ensures Terminals(Entries(Notices(ev, l))) == if ev.GrantedEvent? then 0 else |l|
  {
    if l != [] {
      var n := |l| - 1;
      NoticesEnd(ev, l[..n]);
      assert Notices(ev, l) == Notices(ev, l[..n]) + [Notice(ev, l[n].mConnHandle)];
      TerminalsLast(Notices(ev, l[..n]), Notice(ev, l[n].mConnHandle));
    }
  }

  lemma {:induction false} SplitSizes(l: seq<AgpsSubscriber>, which: NotificationType)
    ensures |Chosen(l, which)| + |Spared(l, which)| == |l|
  {
    if l != [] { SplitSizes(l[..|l| - 1], which); }
  }

  /** The one subscriber with a listed handle is taken out. */
  lemma {:induction false} WithoutSize(l: seq<AgpsSubscriber>, h: int)
    requires Unique(l)
    ensures |Without(l, h)| == |l| - if Listed(l, h) then 1 else 0
  {
    if l != [] {
      var p, x := l[..|l| - 1], l[|l| - 1];
      assert l == p + [x];
      assert Unique(p) && !Listed(p, x.mConnHandle);
      WithoutSize(p, h);
      assert Listed(l, h) <==> Listed(p, h) || x.mConnHandle == h;
    }
  }

  /** Each event lists a new subscriber or ends as many subscriptions as leave the list. A
      subscription of a listed handle does neither. */
  lemma EventConserves(k: Nif, m: Machine, ev: Event)
    requires MachineOk(m) && EventOk(m, ev)
    ensures var r := OnEvent(m, ev);
            Terminals(Entries(r.Sent(k))) + |r.machine.list|
            == |m.list| + if ev.SubscribeEvent? && !Listed(m.list, ev.cur.mConnHandle) then 1 else 0
  {
    var r := OnEvent(m, ev);
    if r.conn.Some? { TerminalsLast(r.notes, DataConn(k, r.conn.value)); }
    match ev {
      case SubscribeEvent(cur) => OneEnd(OpenStatus(cur.mConnHandle, true));
      case UnsubscribeEvent(cur) =>
        OneEnd(CloseStatus(cur.mConnHandle, true));
        WithoutSize(m.list, cur.mConnHandle);
      case _ => FrameworkConserves(m, ev);
    }
  }

  lemma OneEnd(o: Output)
    ensures Terminals(Entries([o])) == if Ends(o) then 1 else 0
  {
    TerminalsLast([], o);
    assert [] + [o] == [o];
  }

  lemma FrameworkConserves(m: Machine, ev: Event)
    requires !ev.SubscribeEvent? && !ev.UnsubscribeEvent?
    ensures var r := OnEvent(m, ev);
            Terminals(Entries(r.notes)) + |r.machine.list| == |m.list|
  {
    SplitSizes(m.list, AllSubscribers);
    SplitSizes(m.list, InactiveSubscribers);
    NoticesEnd(GrantedEvent, Chosen(m.list, ActiveSubscribers));
    NoticesEnd(ReleasedEvent, Chosen(m.list, InactiveSubscribers));
    NoticesEnd(ev, Chosen(m.list, AllSubscribers));
    assert Terminals(Entries([])) == 0;
    hide Chosen, Spared, Notices, Terminals, Entries;
  }

  /** The request comes for a handle that the machine of its type lists already. */
  predicate ListedAlready(g: Manager, c: Call) {
    c.RequestATL? && Has(g, NifOf(c.agpsType), c.h)
  }

  /** How many of the first calls of a run are such requests. */
  function Repeated(states: seq<System>, calls: seq<Call>, i: nat): nat
    requires i <= |calls| && i <= |states|
  {
    if i == 0 then 0
    else Repeated(states, calls, i - 1) + if ListedAlready(states[i - 1].manager, calls[i - 1]) then 1 else 0
  }

  function Balance(g: Manager): nat {
    ListLength(g, Agnss) + ListLength(g, Internet)
  }

  /** What a call requests is what it ends and what it adds to the lists. */
  lemma CallConserves(g: Manager, c: Call)
    requires MachinesOk(g) && Callable(g, c)
    ensures var a := OnCall(g, c);
            Terminals(Entries(a.sent)) + Balance(a.manager)
            == Balance(g) + if c.RequestATL? && !ListedAlready(g, c) then 1 else 0
  {
    RouteIs(g, c);
    if Route(g, c).Some? {
      var (k, ev) := Route(g, c).value;
      EventConserves(k, g.Get(k).value, ev);
      hide OnEvent, Terminals, Entries, Listed;
    } else {
      match c {
        case RequestATL(h, _) => OneEnd(OpenStatus(h, false));
        case ReleaseATL(h) => OneEnd(CloseStatus(h, false));
        case _ =>
      }
    }
  }

  lemma NextCounts(s: System, c: Call)
    requires Callable(s.manager, c)
    ensures Requests(Next(s, c).history) == Requests(s.history) + if c.RequestATL? then 1 else 0
    ensures Terminals(Next(s, c).history) == Terminals(s.history) + Terminals(Entries(OnCall(s.manager, c).sent))
  {
    var sent := OnCall(s.manager, c).sent;
    CountsLast(s.history, Called(c));
    CountsJoin(s.history + [Called(c)], Entries(sent));
    NothingSentIsRequested(sent);
    hide OnCall, Terminals, Requests, Entries;
  }

  /** Over every run at all: the requests are the terminal notifications sent, the
      subscribers still listed, and the requests that came for a listed handle. */
  lemma {:induction false} SubscriptionsAreConserved(states: seq<System>, calls: seq<Call>, i: nat)
    requires IsRun(states, calls) && i < |states|
    ensures Requests(states[i].history)
         == Terminals(states[i].history) + ListLength(states[i].manager, Agnss) + ListLength(states[i].manager, Internet)
            + Repeated(states, calls, i)
  {
    if i > 0 {
      var s, c := states[i - 1], calls[i - 1];
      SubscriptionsAreConserved(states, calls, i - 1);
      EveryRunIsBalanced(states, calls, i - 1, Agnss);
      assert states[i - 1 + 1] == Next(s, c);
      CallConserves(s.manager, c);
      NextCounts(s, c);
      hide OnCall, Terminals, Requests, Entries, MachinesOk;
    }
  }

  lemma {:induction false} RepeatedIs(states: seq<System>, calls: seq<Call>, i: nat)
    requires i <= |calls| && i <= |states|
    ensures Repeated(states, calls, i) == 0 <==> forall j :: 0 <= j < i ==> !ListedAlready(states[j].manager, calls[j])
  {
    if i > 0 { RepeatedIs(states, calls, i - 1); }
  }

  /** So the requests are exactly accounted for by notifications and lists if and only if
      none of them came for a handle that the machine of its type had listed. */
  lemma ConservedIff(states: seq<System>, calls: seq<Call>, i: nat)
    requires IsRun(states, calls) && i < |states|
    ensures Requests(states[i].history)
         == Terminals(states[i].history) + ListLength(states[i].manager, Agnss) + ListLength(states[i].manager, Internet)
       <==> forall j :: 0 <= j < i ==> !ListedAlready(states[j].manager, calls[j])
  {
    SubscriptionsAreConserved(states, calls, i);
    RepeatedIs(states, calls, i);
  }

  /** A request that repeats an outstanding one for the other machine is not lost: the
      handle is then listed by both, and both will notify it. */
  lemma ListedByBoth()
    ensures exists states: seq<System>, calls: seq<Call> ::
              && IsRun(states, calls) && |states| > 0
              && Has(states[|states| - 1].manager, Agnss, 7) && Has(states[|states| - 1].manager, Internet, 7)
  {
    var x := AgpsSubscriber(7, false, false);
    var m := Machine(Pending, [x]);
    var calls := [CreateMachines(true), RequestATL(7, 1), RequestATL(7, 3)];
    var s1 := Next(START, calls[0]);
    var s2 := Next(s1, calls[1]);
    var s3 := Next(s2, calls[2]);
    assert [] + [x] == [x];
    assert s2.manager == Manager(Some(m), Some(NEW_MACHINE));
    assert s3.manager == Manager(Some(m), Some(m));
    assert x in m.list;
    assert IsRun([START, s1, s2, s3], calls);
  }
}
