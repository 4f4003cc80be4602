/** Who may still refer to a delegate: in every run the heaps, the queue, the message
    thread and the running clients refer only to delegates that have not been deleted. */
module TimerLifetime {
  import opened Wrappers
  import opened HeapTree
  import opened TimerBox
  import opened TimerSystem

  // ---------- where a delegate is ----------

  function PushOf(m: Msg): multiset<Rankable> {
    if m.MPush? then multiset{m.d} else multiset{}
  }

  function RemoveOf(m: Msg): multiset<Rankable> {
    if m.MRemove? then multiset{m.d} else multiset{}
  }

  /** The delegates that queued messages insert and remove. */
  function Pushed(q: seq<Msg>): multiset<Rankable> {
    if q == [] then multiset{} else PushOf(q[0]) + Pushed(q[1..])
  }

  function Removed(q: seq<Msg>): multiset<Rankable> {
    if q == [] then multiset{} else RemoveOf(q[0]) + Removed(q[1..])
  }

  function Held(w: Worker): multiset<Rankable> {
    if w.WExpiring? then multiset{w.d} else multiset{}
  }

  function DelOf(del: Option<Rankable>): multiset<Rankable> {
    if del.Some? then multiset{del.value} else multiset{}
  }

  /** The delegate the current handler deletes at its end. */
  function Dying(w: Worker): multiset<Rankable> {
    match w
    case WDelete(d) => multiset{d}
    case WAddPoll(_, _, del) => DelOf(del)
    case WSetTime(_, _, del) => DelOf(del)
    case WRemovePoll(_, del) => DelOf(del)
    case WDisarm(_, del) => DelOf(del)
    case _ => multiset{}
  }

  /** Everything on its way into a heap, in a heap, or just popped from one. */
  function Placed(s: State): multiset<Rankable> {
    Pushed(s.queue) + Elems(s.sw.heap) + Elems(s.hw.heap) + Held(s.worker)
  }

  /** Everything whose removal is queued or being handled. */
  function Doomed(s: State): multiset<Rankable> {
    Removed(s.queue) + Dying(s.worker)
  }

  // ---------- the invariant ----------

  predicate Live(dl: map<int, Delegate>, d: Rankable) {
    d.addr in dl && dl[d.addr].key == d.key
  }

  /** Each placed delegate is placed once and not deleted. */
  predicate PlacedOk(dl: map<int, Delegate>, p: multiset<Rankable>) {
    forall d :: d in p ==> p[d] == 1 && Live(dl, d)
  }

  /** Each delegate to be removed has one removal, is not deleted, and has no client. */
  predicate DoomedOk(dl: map<int, Delegate>, r: multiset<Rankable>) {
    forall d :: d in r ==> r[d] == 1 && Live(dl, d) && dl[d.addr].mClient == None
  }

  /** A delegate with a client is placed somewhere; one without is about to be deleted. */
  predicate Complete(dl: map<int, Delegate>, p: multiset<Rankable>, r: multiset<Rankable>) {
    forall a :: a in dl ==> if dl[a].mClient.Some? then Rankable(a, dl[a].key) in p else Rankable(a, dl[a].key) in r
  }

  /** The delegate is not deleted and belongs to this container. */
  predicate Belongs(dl: map<int, Delegate>, d: Rankable, k: Kind) {
    Live(dl, d) && dl[d.addr].kind == k
  }

  predicate QueueOk(dl: map<int, Delegate>, q: seq<Msg>) {
    forall m :: m in q ==> m.MExpire? || Belongs(dl, m.d, m.kind)
  }

  predicate HeapOf(dl: map<int, Delegate>, t: Tree, k: Kind) {
    forall d :: d in Elems(t) ==> Belongs(dl, d, k)
  }

  predicate KindsOk(s: State) {
    && QueueOk(s.delegates, s.queue)
    && HeapOf(s.delegates, s.sw.heap, Sw) && HeapOf(s.delegates, s.hw.heap, Hw)
    && (s.worker.WExpiring? ==> Belongs(s.delegates, s.worker.d, s.worker.kind))
  }

  /** No insertion is queued behind the removal of the same delegate. */
  predicate OrderOk(q: seq<Msg>) {
    forall i, j :: 0 <= i < j < |q| && q[i].MRemove? && q[j].MPush? ==> q[i].d != q[j].d
  }

  predicate Core(dl: map<int, Delegate>, p: multiset<Rankable>, r: multiset<Rankable>, dying: multiset<Rankable>) {
    && PlacedOk(dl, p) && DoomedOk(dl, r) && Complete(dl, p, r)
    && forall d :: d in dying ==> d !in p
  }

  predicate LifeInv(s: State) {
    && (forall a :: a in s.delegates ==> 0 <= a < s.nextAddr)
    && Core(s.delegates, Placed(s), Doomed(s), Dying(s.worker))
    && KindsOk(s) && OrderOk(s.queue)
  }

  // ---------- queues as multisets ----------

  lemma {:induction false} PushedAppend(q: seq<Msg>, m: Msg)
    ensures Pushed(q + [m]) == Pushed(q) + PushOf(m)
    ensures Removed(q + [m]) == Removed(q) + RemoveOf(m)
  {
    if q == [] {
      assert q + [m] == [m];
    } else {
      assert (q + [m])[1..] == q[1..] + [m];
      PushedAppend(q[1..], m);
    }
  }

  lemma {:induction false} PushedIn(q: seq<Msg>, d: Rankable)
    ensures d in Pushed(q) <==> exists k: Kind :: MPush(k, d) in q
    ensures d in Removed(q) <==> exists k: Kind :: MRemove(k, d) in q
  {
    if q != [] {
      PushedIn(q[1..], d);
      assert q == [q[0]] + q[1..];
      if d in Pushed(q) && d !in Pushed(q[1..]) { assert q[0] == MPush(q[0].kind, d); }
      if d in Removed(q) && d !in Removed(q[1..]) { assert q[0] == MRemove(q[0].kind, d); }
    }
  }

  // ---------- what a step does to the delegates and their places ----------

  lemma Created(dl: map<int, Delegate>, p: multiset<Rankable>, r: multiset<Rankable>, dying: multiset<Rankable>, d: Rankable, e: Delegate)
    requires Core(dl, p, r, dying) && dying <= r
    requires d.addr !in dl && e.key == d.key && e.mClient.Some?
    ensures Core(dl[d.addr := e], p + multiset{d}, r, dying)
  {
  }

  lemma Detached(dl: map<int, Delegate>, p: multiset<Rankable>, r: multiset<Rankable>, dying: multiset<Rankable>, d: Rankable)
    requires Core(dl, p, r, dying)
    requires Live(dl, d) && dl[d.addr].mClient.Some?
    ensures Core(dl[d.addr := dl[d.addr].(mClient := None)], p, r + multiset{d}, dying)
  {
  }

  lemma Unplaced(dl: map<int, Delegate>, p: multiset<Rankable>, r: multiset<Rankable>, d: Rankable, dying: multiset<Rankable>)
    requires Core(dl, p, r, multiset{})
    requires d in r && dying <= multiset{d}
    ensures Core(dl, p - multiset{d}, r, dying)
  {
    var p' := p - multiset{d};
    forall x | x in p' ensures p'[x] == 1 && Live(dl, x) && x != d { assert x in p; }
    forall x | x in dying ensures x !in p' { assert x in multiset{d}; }
  }

  lemma Deleted(dl: map<int, Delegate>, p: multiset<Rankable>, r: multiset<Rankable>, d: Rankable)
    requires Core(dl, p, r, multiset{d}) && d in r
    ensures Core(dl - {d.addr}, p, r - multiset{d}, multiset{})
  {
    var dl', r' := dl - {d.addr}, r - multiset{d};
    assert d !in p;
    forall x | x in r' ensures r'[x] == 1 && Live(dl', x) && dl'[x.addr].mClient == None { assert x in r; }
  }

  // ---------- clients and their delegates ----------

  /** A running client and its delegate point at each other; a client in or past its
      destructor does not run. */
  predicate OwnInv(clients: map<nat, Client>, dl: map<int, Delegate>) {
    && (forall c :: c in clients && clients[c].mTimer.Some? ==>
          clients[c].phase == Alive && Live(dl, clients[c].mTimer.value) && dl[clients[c].mTimer.value.addr].mClient == Some(c))
    && (forall a :: a in dl && dl[a].mClient.Some? ==>
          dl[a].mClient.value in clients && clients[dl[a].mClient.value].mTimer == Some(Rankable(a, dl[a].key)))
    && (forall a :: a in dl ==> dl[a].lock in clients)
  }

  /** Every started timer that no longer runs ended in exactly one way. */
  predicate EndsOk(s: State) {
    && (forall a :: a in s.ends ==> 0 <= a < s.nextAddr && !(a in s.delegates && s.delegates[a].mClient.Some?))
    && (forall a :: 0 <= a < s.nextAddr && a !in s.ends ==> a in s.delegates && s.delegates[a].mClient.Some?)
  }

  predicate CountsOk(clients: map<nat, Client>) {
    forall c :: c in clients ==>
      clients[c].starts == clients[c].stops + clients[c].timeouts + if clients[c].mTimer.Some? then 1 else 0
  }

  function Holders(dl: map<int, Delegate>, c: nat): set<int> {
    set a | a in dl && dl[a].lock == c
  }

  /** The holders of a client's shared lock: the client itself until it drops the lock at
      the end of its destructor, and each delegate of it that has not been deleted. */
  function Refs(clients: map<nat, Client>, dl: map<int, Delegate>, c: nat): nat
    requires c in clients
  {
    |Holders(dl, c)| + if clients[c].phase == Gone then 0 else 1
  }

  /** The count in a lock is the number of its holders; it is freed when there is none. */
  predicate LocksOk(clients: map<nat, Client>, dl: map<int, Delegate>, locks: map<nat, int>) {
    && (forall c :: c in locks ==> c in clients)
    && (forall c :: c in clients ==>
          if Refs(clients, dl, c) == 0 then c !in locks else c in locks && locks[c] == Refs(clients, dl, c))
  }

  // ---------- locks ----------

  lemma HolderAdded(dl: map<int, Delegate>, a: int, e: Delegate, c: nat)
    requires a !in dl
    ensures |Holders(dl[a := e], c)| == |Holders(dl, c)| + if e.lock == c then 1 else 0
  {
    if e.lock == c { assert Holders(dl[a := e], c) == Holders(dl, c) + {a}; }
    else { assert Holders(dl[a := e], c) == Holders(dl, c); }
  }

  lemma HolderGone(dl: map<int, Delegate>, a: int, c: nat)
    requires a in dl
    ensures |Holders(dl, c)| == |Holders(dl - {a}, c)| + if dl[a].lock == c then 1 else 0
  {
    if dl[a].lock == c { assert Holders(dl, c) == Holders(dl - {a}, c) + {a}; }
    else { assert Holders(dl, c) == Holders(dl - {a}, c); }
  }

  lemma HolderSame(dl: map<int, Delegate>, a: int, c: nat)
    requires a in dl
    ensures Holders(dl[a := dl[a].(mClient := None)], c) == Holders(dl, c)
  {
  }

  /** Both client tables have the same clients, which are equally far in their lives. */
  predicate SamePhases(clients: map<nat, Client>, clients': map<nat, Client>) {
    clients'.Keys == clients.Keys && forall c :: c in clients ==> clients'[c].phase == clients[c].phase
  }

  lemma ShareKeepsLocks(clients: map<nat, Client>, clients': map<nat, Client>, dl: map<int, Delegate>, locks: map<nat, int>, a: int, e: Delegate)
    requires LocksOk(clients, dl, locks) && SamePhases(clients, clients') && a !in dl
    requires e.lock in clients && clients[e.lock].phase != Gone
    ensures LocksOk(clients', dl[a := e], Share(locks, e.lock))
  {
    forall x | x in clients
      ensures Refs(clients', dl[a := e], x) == Refs(clients, dl, x) + if x == e.lock then 1 else 0
    {
      HolderAdded(dl, a, e, x);
    }
    assert Refs(clients, dl, e.lock) > 0;
  }

  lemma DetachKeepsLocks(clients: map<nat, Client>, clients': map<nat, Client>, dl: map<int, Delegate>, locks: map<nat, int>, a: int)
    requires LocksOk(clients, dl, locks) && SamePhases(clients, clients') && a in dl
    ensures LocksOk(clients', dl[a := dl[a].(mClient := None)], locks)
  {
    forall x | x in clients ensures Refs(clients', dl[a := dl[a].(mClient := None)], x) == Refs(clients, dl, x) {
      HolderSame(dl, a, x);
    }
  }

  lemma DropKeepsLocks(clients: map<nat, Client>, dl: map<int, Delegate>, locks: map<nat, int>, c: nat)
    requires LocksOk(clients, dl, locks) && c in clients && clients[c].phase != Gone
    ensures LocksOk(clients[c := clients[c].(phase := Gone)], dl, DropLock(locks, c))
  {
    var clients' := clients[c := clients[c].(phase := Gone)];
    forall x | x in clients ensures Refs(clients', dl, x) == Refs(clients, dl, x) - if x == c then 1 else 0 { }
    assert Refs(clients, dl, c) > 0;
  }

  lemma DeleteKeepsLocks(clients: map<nat, Client>, dl: map<int, Delegate>, locks: map<nat, int>, a: int)
    requires LocksOk(clients, dl, locks) && a in dl && dl[a].lock in clients
    ensures LocksOk(clients, dl - {a}, DropLock(locks, dl[a].lock))
  {
    forall x | x in clients
      ensures Refs(clients, dl - {a}, x) == Refs(clients, dl, x) - if x == dl[a].lock then 1 else 0
    {
      HolderGone(dl, a, x);
    }
    assert a in Holders(dl, dl[a].lock);
    assert Refs(clients, dl, dl[a].lock) > 0;
  }

  lemma NewKeepsLocks(clients: map<nat, Client>, dl: map<int, Delegate>, locks: map<nat, int>, c: nat)
    requires LocksOk(clients, dl, locks) && c !in clients && forall a :: a in dl ==> dl[a].lock != c
    ensures LocksOk(clients[c := Client(None, Alive, 0, 0, 0)], dl, locks[c := 1])
  {
    var clients' := clients[c := Client(None, Alive, 0, 0, 0)];
    assert Holders(dl, c) == {} by {
      forall a ensures a !in Holders(dl, c) { }
    }
    forall x | x in clients ensures Refs(clients', dl, x) == Refs(clients, dl, x) { }
  }

  // ---------- what a step does to clients ----------

  lemma StartKeepsOwn(s: State, c: nat, k: Kind, delay: nat)
    requires OwnInv(s.clients, s.delegates) && EndsOk(s) && CountsOk(s.clients)
    requires Enabled(s, Start(c, k, delay)) && s.nextAddr !in s.delegates
    ensures var s' := DoStart(s, c, k, delay);
            OwnInv(s'.clients, s'.delegates) && EndsOk(s') && CountsOk(s'.clients) && SamePhases(s.clients, s'.clients)
  {
    hide EndsOk, CountsOk, SamePhases, OwnInv, DoStart;
    StartKeepsCounts(s, c, k, delay);
    StartKeepsEnds(s, c, k, delay);
    StartKeepsOwners(s, c, k, delay);
  }

  lemma StartKeepsOwners(s: State, c: nat, k: Kind, delay: nat)
    requires OwnInv(s.clients, s.delegates) && Enabled(s, Start(c, k, delay)) && s.nextAddr !in s.delegates
    ensures OwnInv(DoStart(s, c, k, delay).clients, DoStart(s, c, k, delay).delegates)
  {
  }

  lemma StopKeepsOwners(s: State, c: nat, how: End)
    requires OwnInv(s.clients, s.delegates) && c in s.clients
    ensures OwnInv(DoStop(s, c, how).clients, DoStop(s, c, how).delegates)
    ensures c in DoStop(s, c, how).clients && DoStop(s, c, how).clients[c].mTimer == None
  {
  }

  lemma StartKeepsCounts(s: State, c: nat, k: Kind, delay: nat)
    requires CountsOk(s.clients) && c in s.clients
    ensures CountsOk(DoStart(s, c, k, delay).clients) && SamePhases(s.clients, DoStart(s, c, k, delay).clients)
  {
  }

  lemma StartKeepsEnds(s: State, c: nat, k: Kind, delay: nat)
    requires EndsOk(s) && c in s.clients && s.nextAddr !in s.delegates
    ensures EndsOk(DoStart(s, c, k, delay))
  {
  }

  lemma StopKeepsCounts(s: State, c: nat, how: End)
    requires CountsOk(s.clients) && c in s.clients
    ensures CountsOk(DoStop(s, c, how).clients) && SamePhases(s.clients, DoStop(s, c, how).clients)
  {
  }

  lemma StopKeepsEnds(s: State, c: nat, how: End)
    requires EndsOk(s) && c in s.clients && forall a :: a in s.delegates ==> 0 <= a < s.nextAddr
    ensures EndsOk(DoStop(s, c, how))
  {
  }

  lemma StopKeepsOwn(s: State, c: nat, how: End)
    requires OwnInv(s.clients, s.delegates) && EndsOk(s) && CountsOk(s.clients) && c in s.clients
    requires forall a :: a in s.delegates ==> 0 <= a < s.nextAddr
    ensures var s' := DoStop(s, c, how);
            OwnInv(s'.clients, s'.delegates) && EndsOk(s') && CountsOk(s'.clients) && SamePhases(s.clients, s'.clients)
    ensures c in DoStop(s, c, how).clients && DoStop(s, c, how).clients[c].mTimer == None
  {
    hide EndsOk, CountsOk, SamePhases, OwnInv, DoStop;
    StopKeepsCounts(s, c, how);
    StopKeepsEnds(s, c, how);
    StopKeepsOwners(s, c, how);
  }

  lemma DeleteKeepsOwn(s: State, d: Rankable)
    requires OwnInv(s.clients, s.delegates) && EndsOk(s) && CountsOk(s.clients)
    requires d.addr in s.delegates && s.delegates[d.addr].mClient == None
    ensures var s' := DoDelete(s, d); OwnInv(s'.clients, s'.delegates) && EndsOk(s') && CountsOk(s'.clients)
  {
  }

  lemma PhaseKeepsOwn(s: State, c: nat, phase: Phase)
    requires OwnInv(s.clients, s.delegates) && EndsOk(s) && CountsOk(s.clients)
    requires c in s.clients && s.clients[c].mTimer == None
    ensures var s' := WithPhase(s, c, phase); OwnInv(s'.clients, s'.delegates) && EndsOk(s') && CountsOk(s'.clients)
  {
  }

  // ---------- what a step does to the places of delegates ----------

  /** One message was appended; heaps and message thread are as they were, and every
      delegate kept its deadline and its container. */
  ghost predicate Appended(s: State, s': State, m: Msg) {
    && s'.queue == s.queue + [m]
    && s'.sw.heap == s.sw.heap && s'.hw.heap == s.hw.heap && s'.worker == s.worker
    && (forall a :: a in s.delegates ==>
          a in s'.delegates && s'.delegates[a].key == s.delegates[a].key && s'.delegates[a].kind == s.delegates[a].kind)
    && (m.MExpire? || Belongs(s'.delegates, m.d, m.kind))
  }

  lemma AppendPlaces(s: State, s': State, m: Msg)
    requires Appended(s, s', m)
    ensures Placed(s') == if m.MPush? then Placed(s) + multiset{m.d} else Placed(s)
    ensures Doomed(s') == if m.MRemove? then Doomed(s) + multiset{m.d} else Doomed(s)
  {
    PushedAppend(s.queue, m);
    hide Pushed, Removed, Elems, Held, Dying;
    var p, r := Pushed(s.queue), Removed(s.queue);
    var a, b, h := Elems(s.sw.heap), Elems(s.hw.heap), Held(s.worker);
    assert Placed(s') == (p + PushOf(m)) + a + b + h;
    assert (p + PushOf(m)) + a + b + h == (p + a + b + h) + PushOf(m);
    assert Doomed(s') == (r + RemoveOf(m)) + Dying(s.worker);
    assert (r + RemoveOf(m)) + Dying(s.worker) == (r + Dying(s.worker)) + RemoveOf(m);
  }

  lemma DyingDoomed(s: State)
    ensures Dying(s.worker) <= Doomed(s)
  {
  }

  lemma AppendKinds(s: State, s': State, m: Msg)
    requires Appended(s, s', m) && KindsOk(s)
    ensures KindsOk(s')
  {
  }

  lemma AppendOrder(dl: map<int, Delegate>, q: seq<Msg>, m: Msg)
    requires QueueOk(dl, q) && OrderOk(q) && (m.MPush? ==> m.d.addr !in dl)
    ensures OrderOk(q + [m])
  {
    forall i | 0 <= i < |q| && q[i].MRemove? ensures m.MPush? ==> q[i].d != m.d {
      assert q[i] in q;
    }
  }

  lemma StartKeepsLife(s: State, c: nat, k: Kind, delay: nat)
    requires LifeInv(s) && Enabled(s, Start(c, k, delay)) && s.clients[c].mTimer.None?
    ensures LifeInv(DoStart(s, c, k, delay))
  {
    hide Placed, Doomed, QueueOk, HeapOf, OrderOk, PlacedOk, DoomedOk, Complete;
    var s' := DoStart(s, c, k, delay);
    var d := Rankable(s.nextAddr, s.now + delay);
    AppendPlaces(s, s', MPush(k, d));
    AppendKinds(s, s', MPush(k, d));
    AppendOrder(s.delegates, s.queue, MPush(k, d));
    DyingDoomed(s);
    Created(s.delegates, Placed(s), Doomed(s), Dying(s.worker), d, Delegate(d.key, k, c, Some(c)));
  }

  lemma StopKeepsLife(s: State, c: nat, how: End)
    requires LifeInv(s) && OwnInv(s.clients, s.delegates) && c in s.clients && s.clients[c].mTimer.Some?
    ensures LifeInv(DoStop(s, c, how))
  {
    hide Placed, Doomed, QueueOk, HeapOf, OrderOk, PlacedOk, DoomedOk, Complete;
    var s' := DoStop(s, c, how);
    var d := s.clients[c].mTimer.value;
    var m := MRemove(s.delegates[d.addr].kind, d);
    AppendPlaces(s, s', m);
    AppendKinds(s, s', m);
    AppendOrder(s.delegates, s.queue, m);
    Detached(s.delegates, Placed(s), Doomed(s), Dying(s.worker), d);
  }

  lemma SendKeepsLife(s: State)
    requires LifeInv(s) && Enabled(s, PollSend)
    ensures LifeInv(Do(s, PollSend))
  {
    hide Placed, Doomed, Core, QueueOk, HeapOf, OrderOk;
    var s' := Do(s, PollSend);
    AppendPlaces(s, s', MExpire(s.poll.kind));
    AppendKinds(s, s', MExpire(s.poll.kind));
    AppendOrder(s.delegates, s.queue, MExpire(s.poll.kind));
  }

  // ---------- the message thread ----------

  lemma HeadPlaces(q: seq<Msg>)
    requires q != []
    ensures Pushed(q) == PushOf(q[0]) + Pushed(q[1..])
    ensures Removed(q) == RemoveOf(q[0]) + Removed(q[1..])
  {
  }

  lemma TailKinds(dl: map<int, Delegate>, q: seq<Msg>)
    requires QueueOk(dl, q) && OrderOk(q) && q != []
    ensures QueueOk(dl, q[1..]) && OrderOk(q[1..])
    ensures q[0].MExpire? || Belongs(dl, q[0].d, q[0].kind)
  {
    forall m | m in q[1..] ensures m in q { }
    assert q[0] in q;
  }

  lemma NotPushedBehind(q: seq<Msg>)
    requires OrderOk(q) && q != [] && q[0].MRemove?
    ensures q[0].d !in Pushed(q)
  {
    PushedIn(q, q[0].d);
    forall k: Kind ensures MPush(k, q[0].d) !in q { }
  }

  lemma ContinueOwes(k: Kind, a: Action, del: Option<Rankable>)
    ensures Held(Continue(k, a, del)) == multiset{} && Dying(Continue(k, a, del)) == DelOf(del)
    ensures !Continue(k, a, del).WExpiring?
  {
  }

  /** A state is changed in the queue, the heap of container k and the message thread. */
  ghost predicate Moved(s: State, s': State, k: Kind) {
    && s'.delegates == s.delegates && s'.nextAddr == s.nextAddr
    && if k.Sw? then s'.hw.heap == s.hw.heap else s'.sw.heap == s.sw.heap
  }

  /** Moving d from the head of the queue into a heap keeps all places. */
  lemma MoveIn(s: State, s': State, k: Kind, d: Rankable)
    requires Moved(s, s', k) && Held(s.worker) == Held(s'.worker) == multiset{}
    requires Pushed(s.queue) == multiset{d} + Pushed(s'.queue)
    requires Elems(s'.Get(k).heap) == Elems(s.Get(k).heap) + multiset{d}
    ensures Placed(s') == Placed(s)
  {
    hide Elems, Pushed;
    var p, a, b := Pushed(s'.queue), Elems(s.sw.heap), Elems(s.hw.heap);
    Regroup(multiset{d}, p, a, b);
  }

  lemma Regroup(d: multiset<Rankable>, p: multiset<Rankable>, a: multiset<Rankable>, b: multiset<Rankable>)
    ensures (d + p) + a + b + multiset{} == p + (a + d) + b + multiset{}
    ensures (d + p) + a + b + multiset{} == p + a + (b + d) + multiset{}
    ensures p + (a + d) + b + multiset{} == p + a + b + d
    ensures p + a + (b + d) + multiset{} == p + a + b + d
  {
  }

  /** Taking d out of a heap that holds it, or does not, takes it out of all places. */
  lemma MoveOut(s: State, s': State, k: Kind, d: Rankable)
    requires Moved(s, s', k) && Held(s.worker) == Held(s'.worker) == multiset{}
    requires Pushed(s.queue) == Pushed(s'.queue) && d !in Pushed(s.queue)
    requires d !in Elems(s.Get(if k.Sw? then Hw else Sw).heap)
    requires Elems(s'.Get(k).heap) == Elems(s.Get(k).heap) - multiset{d}
    ensures Placed(s') == Placed(s) - multiset{d}
  {
    hide Elems, Pushed;
    var p, a, b := Pushed(s'.queue), Elems(s.sw.heap), Elems(s.hw.heap);
    if k.Sw? { TakeOut(p, a, b, d); } else { TakeOut(p, b, a, d); }
  }

  lemma TakeOut(p: multiset<Rankable>, a: multiset<Rankable>, b: multiset<Rankable>, d: Rankable)
    requires d !in p && d !in b
    ensures p + a + b + multiset{} - multiset{d} == p + (a - multiset{d}) + b + multiset{}
    ensures p + b + a + multiset{} - multiset{d} == p + b + (a - multiset{d}) + multiset{}
  {
  }

  /** Popping the top of a heap for expiry keeps all places. */
  lemma MovePopped(s: State, s': State, k: Kind, d: Rankable)
    requires Moved(s, s', k) && Held(s.worker) == multiset{} && Held(s'.worker) == multiset{d}
    requires Pushed(s.queue) == Pushed(s'.queue)
    requires Elems(s.Get(k).heap) == Elems(s'.Get(k).heap) + multiset{d}
    ensures Placed(s') == Placed(s)
  {
    hide Elems, Pushed;
    var p, a, b := Pushed(s'.queue), Elems(s'.sw.heap), Elems(s'.hw.heap);
    Regroup(multiset{d}, p, a, b);
  }

  /** The kinds after a handler: every object of the new heap was in the old one or is d. */
  lemma MoveKinds(s: State, s': State, k: Kind, d: Rankable)
    requires KindsOk(s) && Moved(s, s', k) && QueueOk(s.delegates, s'.queue)
    requires Belongs(s.delegates, d, k) && Elems(s'.Get(k).heap) <= Elems(s.Get(k).heap) + multiset{d}
    requires s'.worker.WExpiring? ==> s'.worker.d == d && s'.worker.kind == k
    ensures KindsOk(s')
  {
    hide Elems, QueueOk;
    forall x | x in Elems(s'.Get(k).heap) ensures Belongs(s.delegates, x, k) {
      assert x in Elems(s.Get(k).heap) + multiset{d};
    }
  }

  /** A handler that popped nothing has run its heap part. */
  ghost predicate HandledHead(s: State, s': State, k: Kind, del: multiset<Rankable>) {
    && s.worker.WIdle? && s.queue != [] && s'.queue == s.queue[1..] && Moved(s, s', k)
    && Held(s'.worker) == multiset{} && Dying(s'.worker) == del && !s'.worker.WExpiring?
  }

  lemma TakePushIs(s: State, k: Kind, d: Rankable)
    requires s.worker.WIdle? && s.queue != [] && s.queue[0] == MPush(k, d)
    ensures HandledHead(s, DoTake(s), k, multiset{}) && DoTake(s).Get(k).heap == Push(s.Get(k).heap, d)
  {
    hide Push, UpdateAction, Continue;
    ContinueOwes(k, OnPush(s.Get(k).heap, d).action, None);
  }

  lemma TakeRemoveIs(s: State, k: Kind, d: Rankable)
    requires s.worker.WIdle? && s.queue != [] && s.queue[0] == MRemove(k, d)
    ensures HandledHead(s, DoTake(s), k, multiset{d}) && DoTake(s).Get(k).heap == Remove(s.Get(k).heap, d).tree
  {
    hide Remove, UpdateAction, Continue;
    ContinueOwes(k, OnRemove(s.Get(k).heap, d).action, Some(d));
  }

  /** The delegates to be removed, when a message has become its handler's work. */
  lemma HeadDoomed(s: State, s': State, k: Kind, del: multiset<Rankable>)
    requires HandledHead(s, s', k, del) && RemoveOf(s.queue[0]) == del
    ensures Doomed(s') == Doomed(s)
  {
    HeadPlaces(s.queue);
  }

  lemma TakePushLife(s: State, s': State, k: Kind, d: Rankable)
    requires LifeInv(s) && s.worker.WIdle? && s.queue != [] && s.queue[0] == MPush(k, d) && s' == DoTake(s)
    ensures LifeInv(s')
  {
    TakePushIs(s, k, d);
    HeadPlaces(s.queue);
    TailKinds(s.delegates, s.queue);
    PushElems(s.Get(k).heap, d);
    HeadDoomed(s, s', k, multiset{});
    hide DoTake, Elems, Pushed, Removed, QueueOk, OrderOk, Placed, Doomed, Core, HeapOf, Push;
    MoveIn(s, s', k, d);
    MoveKinds(s, s', k, d);
  }

  lemma RemoveTakesOut(t: Tree, d: Rankable)
    requires Wf(t)
    ensures Elems(Remove(t, d).tree) == Elems(t) - multiset{d}
  {
    RemoveExact(t, d);
  }

  lemma TakeRemovePlaces(s: State, s': State, k: Kind, d: Rankable)
    requires KindsOk(s) && OrderOk(s.queue) && HandledHead(s, s', k, multiset{d}) && s.queue[0] == MRemove(k, d)
    requires Elems(s'.Get(k).heap) == Elems(s.Get(k).heap) - multiset{d}
    ensures Placed(s') == Placed(s) - multiset{d}
  {
    HeadPlaces(s.queue);
    TailKinds(s.delegates, s.queue);
    NotPushedBehind(s.queue);
    OtherKind(s.delegates, s.hw.heap, Hw, d);
    OtherKind(s.delegates, s.sw.heap, Sw, d);
    hide Elems, Pushed, Removed, QueueOk, OrderOk, Placed, HeapOf;
    MoveOut(s, s', k, d);
  }

  lemma OtherKind(dl: map<int, Delegate>, t: Tree, k: Kind, d: Rankable)
    requires HeapOf(dl, t, k) && d.addr in dl
    ensures dl[d.addr].kind != k ==> d !in Elems(t)
  {
  }

  lemma HeadIsDoomed(s: State, d: Rankable)
    requires s.queue != [] && s.queue[0].MRemove? && s.queue[0].d == d
    ensures d in Doomed(s)
  {
  }

  lemma TakeRemoveLife(s: State, s': State, k: Kind, d: Rankable)
    requires LifeInv(s) && s.worker.WIdle? && s.queue != [] && s.queue[0] == MRemove(k, d) && s' == DoTake(s)
    requires Wf(s.Get(k).heap)
    ensures LifeInv(s')
  {
    hide DoTake, QueueOk, OrderOk, Placed, Doomed, Core, HeapOf, Wf, Elems, Remove;
    TakeRemoveIs(s, k, d);
    RemoveTakesOut(s.Get(k).heap, d);
    TakeRemovePlaces(s, s', k, d);
    TailKinds(s.delegates, s.queue);
    HeadDoomed(s, s', k, multiset{d});
    HeadIsDoomed(s, d);
    Unplaced(s.delegates, Placed(s), Doomed(s), d, multiset{d});
    MoveKinds(s, s', k, d);
  }

  lemma TakeExpireIs(s: State, k: Kind)
    requires s.worker.WIdle? && s.queue != [] && s.queue[0] == MExpire(k)
    ensures s.Get(k).heap.Leaf? ==> DoTake(s) == s.(queue := s.queue[1..])
    ensures s.Get(k).heap.Node? ==> DoTake(s) == PopFor(s.(queue := s.queue[1..]), k, s.now)
  {
  }

  lemma DropExpirePlaces(s: State, s': State)
    requires s.queue != [] && s.queue[0].MExpire? && s' == s.(queue := s.queue[1..])
    ensures Placed(s') == Placed(s) && Doomed(s') == Doomed(s)
  {
    HeadPlaces(s.queue);
    hide Elems, Pushed, Removed;
    assert Pushed(s'.queue) == Pushed(s.queue) && Removed(s'.queue) == Removed(s.queue);
  }

  /** An expiry that leaves the queue changes no place. */
  lemma DropExpire(s: State, s': State)
    requires LifeInv(s) && s.queue != [] && s.queue[0].MExpire? && s' == s.(queue := s.queue[1..])
    ensures LifeInv(s')
  {
    hide Placed, Doomed, QueueOk, OrderOk, Core, HeapOf, Dying;
    DropExpirePlaces(s, s');
    TailKinds(s.delegates, s.queue);
  }

  lemma PopForLife(s: State, s': State, k: Kind, at: int)
    requires LifeInv(s) && s.worker.WIdle? && s.Get(k).heap.Node? && s' == PopFor(s, k, at)
    ensures LifeInv(s')
  {
    var d := s.Get(k).heap.data;
    PopElems(s.Get(k).heap);
    assert d in Elems(s.Get(k).heap);
    hide Elems, Pushed, Removed, QueueOk, OrderOk, Placed, Core, Pop;
    assert Belongs(s.delegates, d, k);
    MovePopped(s, s', k, d);
    MoveKinds(s, s', k, d);
    assert Doomed(s') == Doomed(s);
  }

  function HeapSide(s: State): (map<int, Delegate>, nat, seq<Msg>, Tree, Tree) {
    (s.delegates, s.nextAddr, s.queue, s.sw.heap, s.hw.heap)
  }

  function ClientSide(s: State): (map<nat, Client>, map<int, Delegate>, map<nat, int>, map<int, End>, nat) {
    (s.clients, s.delegates, s.locks, s.ends, s.nextAddr)
  }

  /** The position of the message thread changed, but not what it holds and owes. */
  lemma SameDutiesLife(s: State, s': State)
    requires LifeInv(s) && HeapSide(s') == HeapSide(s)
    requires Held(s'.worker) == Held(s.worker) && Dying(s'.worker) == Dying(s.worker)
    requires s'.worker.WExpiring? ==> s'.worker == s.worker
    ensures LifeInv(s')
  {
    hide Elems, Pushed, Removed, QueueOk, OrderOk, Core, HeapOf;
  }

  lemma LetGoPlaces(s: State, d: Rankable)
    requires s.worker.WExpiring? && s.worker.d == d
    ensures Placed(s.(worker := WIdle)) == Placed(s) - multiset{d}
    ensures Doomed(s.(worker := WIdle)) == Doomed(s) && Dying(s.worker) == multiset{}
  {
    hide Elems, Pushed, Removed;
  }

  /** A timer whose client has been told is no longer held by the message thread. */
  lemma LetGoLife(s: State, d: Rankable)
    requires LifeInv(s) && s.worker.WExpiring? && s.worker.d == d
    requires Live(s.delegates, d) && s.delegates[d.addr].mClient == None
    ensures LifeInv(s.(worker := WIdle))
  {
    LetGoPlaces(s, d);
    assert Rankable(d.addr, s.delegates[d.addr].key) == d;
    assert d in Doomed(s);
    Unplaced(s.delegates, Placed(s), Doomed(s), d, multiset{});
    hide Placed, Doomed, Core, QueueOk, OrderOk, HeapOf;
  }

  /** expire() on a delegate that has a client stops and calls back exactly that client,
      and afterwards the delegate has no client. */
  lemma TimeoutDetaches(s: State, d: Rankable)
    requires OwnInv(s.clients, s.delegates) && Live(s.delegates, d)
    ensures var s1 := DoTimeout(s, d);
            Live(s1.delegates, d) && s1.delegates[d.addr].mClient == None
    ensures match s.delegates[d.addr].mClient
            case None => DoTimeout(s, d) == s
            case Some(c) => c in s.clients && s.clients[c].mTimer == Some(d) && DoTimeout(s, d) == DoStop(s, c, TimedOut)
  {
    if s.delegates[d.addr].mClient.Some? {
      assert d == Rankable(d.addr, s.delegates[d.addr].key);
    }
  }

  lemma ExpireOneLife(s: State)
    requires LifeInv(s) && OwnInv(s.clients, s.delegates) && s.worker.WExpiring?
    ensures LifeInv(DoExpireOne(s))
  {
    var k, at, d := s.worker.kind, s.worker.at, s.worker.d;
    ExpiringIsLive(s);
    hide LifeInv, DoTimeout, DoStop, Continue, UpdateAction, Due, OwnInv, HeapSide, Held, Dying;
    var s1 := DoTimeout(s, d);
    TimeoutDetaches(s, d);
    TimeoutTurns(s, d);
    if s.delegates[d.addr].mClient.Some? { StopKeepsLife(s, s.delegates[d.addr].mClient.value, TimedOut); }
    LetGoLife(s1, d);
    NextDueLife(s1, s1.(worker := WIdle), k, at);
  }

  lemma ExpiringIsLive(s: State)
    requires LifeInv(s) && s.worker.WExpiring?
    ensures Live(s.delegates, s.worker.d)
  {
    hide QueueOk, OrderOk, Placed, Doomed, Core, HeapOf;
  }

  lemma TimeoutTurns(s: State, d: Rankable)
    ensures DoTimeout(s, d).worker == s.worker
  {
  }

  /** Popping the next due timer, or leaving the loop, once the last one is let go. */
  lemma NextDueLife(s: State, idle: State, k: Kind, at: int)
    requires idle == s.(worker := WIdle) && LifeInv(idle)
    ensures LifeInv(NextDue(s, k, at))
  {
    var t := idle.Get(k).heap;
    ContinueOwes(k, UpdateAction(None, t), None);
    hide LifeInv, Continue, UpdateAction, Pop;
    if Due(t, at) {
      assert PopFor(s, k, at) == PopFor(idle, k, at);
      PopForLife(idle, PopFor(idle, k, at), k, at);
    } else {
      SameDutiesLife(idle, NextDue(s, k, at));
    }
  }

  lemma DeletePlaces(s: State, d: Rankable)
    requires s.worker == WDelete(d) && d.addr in s.delegates
    ensures Placed(DoDelete(s, d)) == Placed(s) && Doomed(DoDelete(s, d)) == Doomed(s) - multiset{d}
    ensures d in Doomed(s)
  {
    hide Elems, Pushed, Removed;
  }

  lemma DeleteQueue(dl: map<int, Delegate>, q: seq<Msg>, d: Rankable)
    requires QueueOk(dl, q) && Live(dl, d) && d !in Pushed(q) && d !in Removed(q)
    ensures QueueOk(dl - {d.addr}, q)
  {
    forall m | m in q && !m.MExpire? ensures m.d.addr != d.addr {
      PushedIn(q, m.d);
      assert m == MPush(m.kind, m.d) || m == MRemove(m.kind, m.d);
    }
  }

  lemma DeleteHeap(dl: map<int, Delegate>, t: Tree, k: Kind, d: Rankable)
    requires HeapOf(dl, t, k) && Live(dl, d) && d !in Elems(t)
    ensures HeapOf(dl - {d.addr}, t, k)
  {
    forall x | x in Elems(t) ensures x.addr != d.addr { }
  }

  lemma DyingNowhere(s: State, d: Rankable)
    requires LifeInv(s) && s.worker == WDelete(d)
    ensures Live(s.delegates, d) && d !in Pushed(s.queue) && d !in Removed(s.queue)
    ensures d !in Elems(s.sw.heap) && d !in Elems(s.hw.heap)
  {
    hide Elems, Pushed, Removed, QueueOk, OrderOk, HeapOf;
    assert d in Doomed(s) && d !in Placed(s);
  }

  /** No queued message and no heap refers to the delegate that is being deleted. */
  lemma DeleteKinds(s: State, d: Rankable)
    requires LifeInv(s) && s.worker == WDelete(d)
    ensures KindsOk(s.(delegates := s.delegates - {d.addr}, worker := WIdle))
  {
    DyingNowhere(s, d);
    DeleteQueue(s.delegates, s.queue, d);
    DeleteHeap(s.delegates, s.sw.heap, Sw, d);
    DeleteHeap(s.delegates, s.hw.heap, Hw, d);
    hide Elems, QueueOk, HeapOf, OrderOk, Core;
  }

  lemma DyingDetached(s: State, d: Rankable)
    requires LifeInv(s) && s.worker == WDelete(d)
    ensures Live(s.delegates, d) && s.delegates[d.addr].mClient == None
  {
    hide Placed, QueueOk, OrderOk, HeapOf, Pushed, Removed, Elems;
    assert d in Doomed(s);
  }

  lemma DeleteLife(s: State, d: Rankable)
    requires LifeInv(s) && s.worker == WDelete(d)
    ensures d.addr in s.delegates && s.delegates[d.addr].mClient == None
    ensures LifeInv(DoDelete(s, d))
  {
    hide Placed, Doomed, Core, QueueOk, OrderOk, HeapOf;
    DyingDetached(s, d);
    DeletePlaces(s, d);
    DeleteKinds(s, d);
    Deleted(s.delegates, Placed(s), Doomed(s), d);
  }

  // ---------- every run ----------

  lemma TakeLife(s: State)
    requires LifeInv(s) && Wf(s.sw.heap) && Wf(s.hw.heap) && s.worker.WIdle? && s.queue != []
    ensures LifeInv(DoTake(s))
  {
    hide LifeInv, DoTake, Wf;
    var s' := DoTake(s);
    match s.queue[0] {
      case MPush(k, d) => TakePushLife(s, s', k, d);
      case MRemove(k, d) => TakeRemoveLife(s, s', k, d);
      case MExpire(k) =>
        TakeExpireIs(s, k);
        var s1 := s.(queue := s.queue[1..]);
        DropExpire(s, s1);
        if s.Get(k).heap.Node? { PopForLife(s1, s', k, s.now); }
    }
  }

  lemma SetKeepsSide(s: State, k: Kind, b: Box, w: Worker)
    requires b.heap == s.Get(k).heap
    ensures HeapSide(s.Set(k, b).(worker := w)) == HeapSide(s) && s.Set(k, b).(worker := w).worker == w
  {
  }

  lemma PollCallLife(s: State, step: Step)
    requires LifeInv(s) && Enabled(s, step) && (step.AddPoll? || step.RemovePoll?)
    ensures LifeInv(Do(s, step))
  {
    hide LifeInv, HeapSide, DoStart, DoStop, DoTake, DoExpireOne, DoDelete, NextExpire, DropLock;
    var k, s' := s.worker.kind, Do(s, step);
    SetKeepsSide(s, k, s.Get(k).(inPoll := step.AddPoll?), s'.worker);
    SameDutiesLife(s, s');
  }

  lemma TimeCallLife(s: State, step: Step)
    requires LifeInv(s) && Enabled(s, step) && (step.SetTime? || step.Disarm?)
    ensures LifeInv(Do(s, step))
  {
    hide LifeInv, Finish, Held, Dying, HeapSide, DoStart, DoStop, DoTake, DoExpireOne, DoDelete, NextExpire, DropLock;
    FinishDuties(s.worker);
    var k, s' := s.worker.kind, Do(s, step);
    SetKeepsSide(s, k, s.Get(k).(armed := if step.SetTime? then Some(s.worker.time) else None), s'.worker);
    SameDutiesLife(s, s');
  }

  lemma PollStepLife(s: State, step: Step)
    requires LifeInv(s) && Enabled(s, step)
    requires step.Wake? || step.PollDisarm? || step.PollUnpoll? || step.Tick? || step.NewClient? || step.Drop?
    ensures LifeInv(Do(s, step))
  {
    hide LifeInv, NextExpire, DropLock;
    ClientsOnly(s, Do(s, step));
  }

  lemma StepLife(s: State, step: Step)
    requires LifeInv(s) && OwnInv(s.clients, s.delegates) && Wf(s.sw.heap) && Wf(s.hw.heap) && Enabled(s, step)
    ensures LifeInv(Do(s, step))
  {
    hide LifeInv, DoTake, DoExpireOne, DoStart, DoStop, DoDelete, Wf, OwnInv;
    match step {
      case Start(c, k, delay) => StartLife(s, c, k, delay);
      case Stop(c) => StopLife(s, c, Stopped);
      case Close(c) => StopLife(s, c, Stopped); ClientsOnly(DoStop(s, c, Stopped), Do(s, step));
      case PollSend => SendKeepsLife(s);
      case Take => TakeLife(s);
      case ExpireOne => ExpireOneLife(s);
      case Delete => DeleteLife(s, s.worker.d);
      case AddPoll => PollCallLife(s, step);
      case SetTime => TimeCallLife(s, step);
      case RemovePoll => PollCallLife(s, step);
      case Disarm => TimeCallLife(s, step);
      case _ => PollStepLife(s, step);
    }
  }

  lemma FinishDuties(w: Worker)
    requires w.WSetTime? || w.WDisarm?
    ensures Held(Finish(w.del)) == Held(w) && Dying(Finish(w.del)) == Dying(w) && !Finish(w.del).WExpiring?
  {
  }

  lemma StartLife(s: State, c: nat, k: Kind, delay: nat)
    requires LifeInv(s) && Enabled(s, Start(c, k, delay))
    ensures LifeInv(DoStart(s, c, k, delay))
  {
    hide LifeInv;
    if s.clients[c].mTimer.None? { StartKeepsLife(s, c, k, delay); }
  }

  lemma StopLife(s: State, c: nat, how: End)
    requires LifeInv(s) && OwnInv(s.clients, s.delegates) && c in s.clients
    ensures LifeInv(DoStop(s, c, how))
  {
    hide LifeInv, OwnInv;
    if s.clients[c].mTimer.Some? { StopKeepsLife(s, c, how); }
  }

  lemma ClientsOnly(s: State, s': State)
    requires LifeInv(s) && HeapSide(s') == HeapSide(s) && s'.worker == s.worker
    ensures LifeInv(s')
  {
    SameDutiesLife(s, s');
  }

  // ---------- clients over a step ----------

  predicate ClientInv(s: State) {
    && OwnInv(s.clients, s.delegates) && EndsOk(s) && CountsOk(s.clients)
    && LocksOk(s.clients, s.delegates, s.locks)
  }

  lemma FreshAddr(s: State)
    requires LifeInv(s)
    ensures s.nextAddr !in s.delegates
  {
  }

  lemma StartClient(s: State, c: nat, k: Kind, delay: nat)
    requires LifeInv(s) && ClientInv(s) && Enabled(s, Start(c, k, delay))
    ensures ClientInv(DoStart(s, c, k, delay))
  {
    hide LifeInv, OwnInv, EndsOk, CountsOk, LocksOk, SamePhases, Share;
    FreshAddr(s);
    StartKeepsOwn(s, c, k, delay);
    if s.clients[c].mTimer.None? {
      var s' := DoStart(s, c, k, delay);
      ShareKeepsLocks(s.clients, s'.clients, s.delegates, s.locks, s.nextAddr, Delegate(s.now + delay, k, c, Some(c)));
    }
  }

  lemma StopClient(s: State, c: nat, how: End)
    requires LifeInv(s) && ClientInv(s) && c in s.clients
    ensures ClientInv(DoStop(s, c, how))
    ensures SamePhases(s.clients, DoStop(s, c, how).clients) && DoStop(s, c, how).clients[c].mTimer == None
  {
    StopKeepsOwn(s, c, how);
    if s.clients[c].mTimer.Some? {
      var s' := DoStop(s, c, how);
      DetachKeepsLocks(s.clients, s'.clients, s.delegates, s.locks, s.clients[c].mTimer.value.addr);
    }
    hide LifeInv, OwnInv, EndsOk, CountsOk, LocksOk, SamePhases;
  }

  lemma DeleteClient(s: State, d: Rankable)
    requires ClientInv(s) && d.addr in s.delegates && s.delegates[d.addr].mClient == None
    ensures ClientInv(DoDelete(s, d))
  {
    DeleteKeepsOwn(s, d);
    DeleteKeepsLocks(s.clients, s.delegates, s.locks, d.addr);
  }

  lemma ClosingKeepsLocks(clients: map<nat, Client>, dl: map<int, Delegate>, locks: map<nat, int>, c: nat)
    requires LocksOk(clients, dl, locks) && c in clients && clients[c].phase != Gone
    ensures LocksOk(clients[c := clients[c].(phase := Closing)], dl, locks)
  {
    var clients' := clients[c := clients[c].(phase := Closing)];
    forall x | x in clients ensures Refs(clients', dl, x) == Refs(clients, dl, x) { }
  }

  lemma CloseClient(s: State, c: nat)
    requires LifeInv(s) && ClientInv(s) && Enabled(s, Close(c))
    ensures ClientInv(Do(s, Close(c)))
  {
    hide LifeInv, DoStop, OwnInv, EndsOk, CountsOk, LocksOk;
    StopClient(s, c, Stopped);
    var s1 := DoStop(s, c, Stopped);
    PhaseKeepsOwn(s1, c, Closing);
    assert s1.clients[c].phase != Gone;
    ClosingKeepsLocks(s1.clients, s1.delegates, s1.locks, c);
  }

  lemma DropClient(s: State, c: nat)
    requires ClientInv(s) && Enabled(s, Drop(c))
    ensures ClientInv(Do(s, Drop(c)))
  {
    PhaseKeepsOwn(s, c, Gone);
    DropKeepsLocks(s.clients, s.delegates, s.locks, c);
  }

  lemma NewClientClient(s: State, c: nat)
    requires ClientInv(s) && Enabled(s, NewClient(c))
    ensures ClientInv(Do(s, NewClient(c)))
  {
    NewKeepsLocks(s.clients, s.delegates, s.locks, c);
  }

  lemma SameClients(s: State, s': State)
    requires ClientInv(s) && ClientSide(s') == ClientSide(s)
    ensures ClientInv(s')
  {
    hide OwnInv, CountsOk, LocksOk;
  }

  lemma TimeoutClient(s: State, d: Rankable)
    requires LifeInv(s) && ClientInv(s) && Live(s.delegates, d)
    ensures ClientInv(DoTimeout(s, d))
  {
    TimeoutDetaches(s, d);
    hide DoStop, DoTimeout, LifeInv, ClientInv, OwnInv;
    if s.delegates[d.addr].mClient.Some? { StopClient(s, s.delegates[d.addr].mClient.value, TimedOut); }
  }

  lemma ExpireOneClient(s: State)
    requires LifeInv(s) && ClientInv(s) && s.worker.WExpiring?
    ensures ClientInv(DoExpireOne(s))
  {
    assert Live(s.delegates, s.worker.d);
    hide DoTimeout, LifeInv, ClientInv, Continue, UpdateAction, Due;
    TimeoutClient(s, s.worker.d);
    SameClients(DoTimeout(s, s.worker.d), DoExpireOne(s));
  }

  lemma TakeClientSide(s: State)
    requires s.queue != []
    ensures ClientSide(DoTake(s)) == ClientSide(s)
  {
    hide OnPush, OnRemove, UpdateAction, Continue, Pop;
  }

  lemma TakeClient(s: State)
    requires ClientInv(s) && Enabled(s, Take)
    ensures ClientInv(DoTake(s))
  {
    hide ClientInv, ClientSide, DoTake;
    TakeClientSide(s);
    SameClients(s, DoTake(s));
  }

  lemma PollClient(s: State, step: Step)
    requires ClientInv(s) && Enabled(s, step)
    requires step.Tick? || step.Wake? || step.PollDisarm? || step.PollUnpoll? || step.PollSend?
    ensures ClientInv(Do(s, step))
  {
    hide ClientInv, NextExpire;
    SameClients(s, Do(s, step));
  }

  lemma SetKeepsClientSide(s: State, k: Kind, b: Box, w: Worker)
    ensures ClientSide(s.Set(k, b).(worker := w)) == ClientSide(s)
  {
  }

  lemma KernelClient(s: State, step: Step)
    requires ClientInv(s) && Enabled(s, step)
    requires step.AddPoll? || step.SetTime? || step.RemovePoll? || step.Disarm?
    ensures ClientInv(Do(s, step))
  {
    hide ClientInv, Finish, ClientSide, DoStart, DoStop, DoTake, DoExpireOne, DoDelete, NextExpire, DropLock;
    var k, s' := s.worker.kind, Do(s, step);
    SetKeepsClientSide(s, k, s'.Get(k), s'.worker);
    SameClients(s, s');
  }

  lemma StepClient(s: State, step: Step)
    requires LifeInv(s) && ClientInv(s) && Enabled(s, step)
    ensures ClientInv(Do(s, step))
  {
    hide LifeInv, ClientInv, DoExpireOne, DoStart, DoStop, DoDelete, DoTake;
    match step {
      case Start(c, k, delay) => StartClient(s, c, k, delay);
      case Stop(c) => assert ClientInv(s) ==> c in s.clients; StopClient(s, c, Stopped);
      case Close(c) => CloseClient(s, c);
      case Drop(c) => DropClient(s, c);
      case NewClient(c) => NewClientClient(s, c);
      case ExpireOne => ExpireOneClient(s);
      case Take => TakeClient(s);
      case Delete => DeleteLife(s, s.worker.d); DeleteClient(s, s.worker.d);
      case AddPoll => KernelClient(s, step);
      case SetTime => KernelClient(s, step);
      case RemovePoll => KernelClient(s, step);
      case Disarm => KernelClient(s, step);
      case _ => PollClient(s, step);
    }
  }

  // ---------- every reachable state ----------

  lemma InitInv()
    ensures LifeInv(INIT) && ClientInv(INIT)
  {
    assert Placed(INIT) == multiset{} && Doomed(INIT) == multiset{};
  }
}
