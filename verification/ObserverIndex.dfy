/** The subscription index of the OS observer: which client wants which data item, kept
    in both directions, and what the framework has been told about it. */
module ObserverIndex {
  import opened Wrappers
  import opened LocUnorderedSetMap

  /** A call on a framework subscription object. */
  datatype FrameworkCall =
    | FwSubscribe(obj: int, items: set<int>)
    | FwRequestData(obj: int, items: set<int>)
    | FwUnsubscribe(obj: int, items: set<int>)

  datatype Index = Index(
    clients: map<int, set<int>>,
    items: map<int, set<int>>,
    obj: Option<int>,
    told: seq<FrameworkCall>)

  datatype Op =
    | Install(obj: int)
    | Subscribe(l: set<int>, client: int, requestData: bool)
    | Unsubscribe(l: set<int>, client: int)
    | UnsubscribeAll(client: int)
    | Update(l: set<int>, client: int)

  const EMPTY := Index(map[], map[], None, [])

  // ---------- operations ----------

  /** Items that nobody wanted before are asked of the framework, if it is there. */
  function TellNew(ix: Index, items: set<int>, requestData: bool): seq<FrameworkCall> {
    if ix.obj.None? || items == {} then ix.told
    else ix.told + [if requestData then FwRequestData(ix.obj.value, items) else FwSubscribe(ix.obj.value, items)]
  }

  /** Items that nobody wants any more are given back. */
  function TellGone(ix: Index, items: set<int>): seq<FrameworkCall> {
    if ix.obj.None? || items == {} then ix.told else ix.told + [FwUnsubscribe(ix.obj.value, items)]
  }

  function DoInstall(ix: Index, obj: int): Index {
    var ix' := ix.(obj := Some(obj));
    if ix.items == map[] then ix'
    else ix'.(told := ix.told + [FwSubscribe(obj, ix.items.Keys), FwRequestData(obj, ix.items.Keys)])
  }

  function DoSubscribe(ix: Index, l: set<int>, client: int, requestData: bool): Index {
    ix.(clients := Added(ix.clients, {client}, l),
        items := Added(ix.items, l, {client}),
        told := TellNew(ix, l - ix.items.Keys, requestData))
  }

  function DoUnsubscribe(ix: Index, l: set<int>, client: int): Index {
    var unused := GoneVals(ix.clients, {client}, l);
    ix.(clients := Trimmed(ix.clients, {client}, l),
        items := Trimmed(ix.items, unused, {client}),
        told := TellGone(ix, GoneKeys(ix.items, unused, {client})))
  }

  function DoUnsubscribeAll(ix: Index, client: int): Index {
    var all := ValSet(ix.clients, client);
    if all == {} then ix
    else
      ix.(clients := ix.clients - {client},
          items := Trimmed(ix.items, all, {client}),
          told := TellGone(ix, GoneKeys(ix.items, all, {client})))
  }

  /** updateSubscription, whose inner update reports the items that the client keeps instead
      of those it gives up. An empty list is ignored. */
  function DoUpdate(ix: Index, l: set<int>, client: int): Index {
    if l == {} then ix
    else
      var kept := ValSet(ix.clients, client) * l;
      var trimmed := Trimmed(ix.items, kept, {client});
      ix.(clients := ix.clients[client := l],
          items := Added(trimmed, l - kept, {client}),
          told := TellGone(ix.(told := TellNew(ix, l - kept - trimmed.Keys, false)), GoneKeys(ix.items, kept, {client})))
  }

  function Do(ix: Index, op: Op): Index {
    match op
    case Install(obj) => DoInstall(ix, obj)
    case Subscribe(l, client, requestData) => DoSubscribe(ix, l, client, requestData)
    case Unsubscribe(l, client) => DoUnsubscribe(ix, l, client)
    case UnsubscribeAll(client) => DoUnsubscribeAll(ix, client)
    case Update(l, client) => DoUpdate(ix, l, client)
  }

  ghost predicate IsRun(states: seq<Index>, ops: seq<Op>) {
    && |states| == |ops| + 1 && states[0] == EMPTY
    && forall i :: 0 <= i < |ops| ==> states[i + 1] == Do(states[i], ops[i])
  }

  ghost predicate Reachable(ix: Index) {
    exists states: seq<Index>, ops: seq<Op> :: IsRun(states, ops) && states[|ops|] == ix
  }

  lemma EmptyReached()
    ensures Reachable(EMPTY)
  {
    var ops: seq<Op> := [];
    assert IsRun([EMPTY], ops) && [EMPTY][|ops|] == EMPTY;
  }

  lemma StepReached(ix: Index, op: Op)
    requires Reachable(ix)
    ensures Reachable(Do(ix, op))
  {
    hide Do;
    var states: seq<Index>, ops: seq<Op> :| IsRun(states, ops) && states[|ops|] == ix;
    var states', ops' := states + [Do(ix, op)], ops + [op];
    forall i | 0 <= i < |ops'| ensures states'[i + 1] == Do(states'[i], ops'[i]) {
      if i < |ops| { assert states[i + 1] == Do(states[i], ops[i]); }
    }
    assert IsRun(states', ops') && states'[|ops'|] == Do(ix, op);
  }

  // ---------- both directions ----------

  predicate NoEmpties(ix: Index) {
    NoEmpty(ix.clients) && NoEmpty(ix.items)
  }

  ghost predicate IndexOk(ix: Index) {
    && NoEmpties(ix)
    && forall c, i :: Has(ix.clients, c, i) <==> Has(ix.items, i, c)
  }

  /** Which pairs there are after an operation, given those before. */
  predicate Wants(ix: Index, op: Op, c: int, i: int) {
    match op
    case Install(_) => Has(ix.clients, c, i)
    case Subscribe(l, client, _) => Has(ix.clients, c, i) || (c == client && i in l)
    case Unsubscribe(l, client) => Has(ix.clients, c, i) && !(c == client && i in l)
    case UnsubscribeAll(client) => Has(ix.clients, c, i) && c != client
    case Update(l, client) => if c == client && l != {} then i in l else Has(ix.clients, c, i)
  }

  /** An update is the first subscription of its client. */
  predicate Clean(ix: Index, op: Op) {
    op.Update? && op.l != {} ==> ValSet(ix.clients, op.client) == {}
  }

  lemma SubscribeOk(ix: Index, l: set<int>, client: int, requestData: bool)
    requires IndexOk(ix)
    ensures var ix' := DoSubscribe(ix, l, client, requestData);
            IndexOk(ix') && forall c, i :: Has(ix'.clients, c, i) <==> Wants(ix, Subscribe(l, client, requestData), c, i)
  {
    AddedPairs(ix.clients, {client}, l);
    AddedPairs(ix.items, l, {client});
    hide Added;
  }

  lemma UnsubscribeOk(ix: Index, l: set<int>, client: int)
    requires IndexOk(ix)
    ensures var ix' := DoUnsubscribe(ix, l, client);
            IndexOk(ix') && forall c, i :: Has(ix'.clients, c, i) <==> Wants(ix, Unsubscribe(l, client), c, i)
  {
    var unused := GoneVals(ix.clients, {client}, l);
    assert forall i :: i in unused <==> Has(ix.clients, client, i) && i in l;
    TrimmedPairs(ix.clients, {client}, l);
    TrimmedPairs(ix.items, unused, {client});
    hide Trimmed, GoneVals, GoneKeys;
  }

  lemma UnsubscribeAllOk(ix: Index, client: int)
    requires IndexOk(ix)
    ensures var ix' := DoUnsubscribeAll(ix, client);
            IndexOk(ix') && forall c, i :: Has(ix'.clients, c, i) <==> Wants(ix, UnsubscribeAll(client), c, i)
  {
    TrimmedPairs(ix.items, ValSet(ix.clients, client), {client});
    hide Trimmed, GoneKeys;
  }

  lemma UpdateNoEmpties(ix: Index, l: set<int>, client: int)
    requires NoEmpties(ix)
    ensures NoEmpties(DoUpdate(ix, l, client))
    ensures l != {} ==>
              var kept := ValSet(ix.clients, client) * l;
              forall i, c :: Has(DoUpdate(ix, l, client).items, i, c) <==>
                (Has(ix.items, i, c) && !(i in kept && c == client)) || (i in l - kept && c == client)
  {
    if l != {} {
      var kept := ValSet(ix.clients, client) * l;
      TrimmedPairs(ix.items, kept, {client});
      AddedPairs(Trimmed(ix.items, kept, {client}), l - kept, {client});
      hide Added, Trimmed, GoneKeys;
    }
  }

  /** An update keeps the maps inverses if and only if the client had no item before: then
      it is a subscription. */
  lemma UpdateExact(ix: Index, l: set<int>, client: int)
    requires IndexOk(ix)
    ensures IndexOk(DoUpdate(ix, l, client)) <==> Clean(ix, Update(l, client))
  {
    var had, ix' := ValSet(ix.clients, client), DoUpdate(ix, l, client);
    UpdateNoEmpties(ix, l, client);
    if l != {} && had != {} {
      var i := EntryHasValue(ix.clients, client);
      assert Has(ix'.clients, client, i) <==> i in l;
      assert Has(ix'.items, i, client) <==> i !in l;
    }
    hide Added, Trimmed, GoneKeys;
  }

  /** Each operation changes the pairs of the clients just as asked, and keeps the two maps
      exact inverses without empty entries if and only if it is no update that has to give
      an item up. */
  lemma DoIsExact(ix: Index, op: Op)
    requires IndexOk(ix)
    ensures IndexOk(Do(ix, op)) <==> Clean(ix, op)
    ensures forall c, i :: Has(Do(ix, op).clients, c, i) <==> Wants(ix, op, c, i)
  {
    match op {
      case Install(_) =>
      case Subscribe(l, client, requestData) => SubscribeOk(ix, l, client, requestData);
      case Unsubscribe(l, client) => UnsubscribeOk(ix, l, client);
      case UnsubscribeAll(client) => UnsubscribeAllOk(ix, client);
      case Update(l, client) => UpdateExact(ix, l, client);
    }
  }

  ghost predicate UpdatesClean(states: seq<Index>, ops: seq<Op>, i: nat)
    requires |states| == |ops| + 1 && i <= |ops|
  {
    forall j :: 0 <= j < i ==> Clean(states[j], ops[j])
  }

  lemma {:induction false} EveryRunIsIndexed(states: seq<Index>, ops: seq<Op>, i: nat)
    requires IsRun(states, ops) && i < |states| && UpdatesClean(states, ops, i)
    ensures IndexOk(states[i])
  {
    if i > 0 {
      EveryRunIsIndexed(states, ops, i - 1);
      assert states[i - 1 + 1] == Do(states[i - 1], ops[i - 1]);
      DoIsExact(states[i - 1], ops[i - 1]);
    }
  }

  lemma {:induction false} FirstUnclean(states: seq<Index>, ops: seq<Op>, i: nat) returns (j: nat)
    requires |states| == |ops| + 1 && i <= |ops| && !UpdatesClean(states, ops, i)
    ensures j < i && UpdatesClean(states, ops, j) && !Clean(states[j], ops[j])
  {
    if UpdatesClean(states, ops, i - 1) { j := i - 1; } else { j := FirstUnclean(states, ops, i - 1); }
  }

  /** Over every run the two maps are exact inverses in every state if and only if each
      update in it is the first subscription of its client. */
  lemma AlwaysIndexedIff(states: seq<Index>, ops: seq<Op>)
    requires IsRun(states, ops)
    ensures UpdatesClean(states, ops, |ops|) <==> forall i :: 0 <= i < |states| ==> IndexOk(states[i])
  {
    if UpdatesClean(states, ops, |ops|) {
      forall i | 0 <= i < |states| ensures IndexOk(states[i]) { EveryRunIsIndexed(states, ops, i); }
    } else {
      var j := FirstUnclean(states, ops, |ops|);
      EveryRunIsIndexed(states, ops, j);
      DoIsExact(states[j], ops[j]);
      assert states[j + 1] == Do(states[j], ops[j]);
    }
  }

  /** The client remains listed under each item that it gives up. */
  lemma UpdateLeavesPairs(ix: Index, l: set<int>, client: int, i: int)
    requires IndexOk(ix) && Has(ix.clients, client, i) && i !in l && l != {}
    ensures Has(DoUpdate(ix, l, client).items, i, client) && !Has(DoUpdate(ix, l, client).clients, client, i)
  {
    UpdateNoEmpties(ix, l, client);
    hide Added, Trimmed, GoneKeys;
  }

  /** A run in which that happens: a client that wants item 7 changes to item 8. */
  lemma UpdateLeavesStalePair()
    ensures exists ix :: Reachable(ix) && Has(ix.items, 7, 5) && !Has(ix.clients, 5, 7)
  {
    hide Reachable, IsRun;
    var ix := Do(EMPTY, Subscribe({7}, 5, false));
    EmptyReached();
    StepReached(EMPTY, Subscribe({7}, 5, false));
    DoIsExact(EMPTY, Subscribe({7}, 5, false));
    StepReached(ix, Update({8}, 5));
    hide DoSubscribe;
    UpdateLeavesPairs(ix, {8}, 5, 7);
    hide DoUpdate;
    assert Has(Do(ix, Update({8}, 5)).items, 7, 5);
  }

  lemma DoNoEmpties(ix: Index, op: Op)
    requires NoEmpties(ix)
    ensures NoEmpties(Do(ix, op))
  {
    match op {
      case Install(_) =>
      case Subscribe(l, client, _) =>
        AddedPairs(ix.clients, {client}, l);
        AddedPairs(ix.items, l, {client});
      case Unsubscribe(l, client) =>
        TrimmedPairs(ix.clients, {client}, l);
        TrimmedPairs(ix.items, GoneVals(ix.clients, {client}, l), {client});
      case UnsubscribeAll(client) => TrimmedPairs(ix.items, ValSet(ix.clients, client), {client});
      case Update(l, client) => UpdateNoEmpties(ix, l, client);
    }
    hide Added, Trimmed, GoneVals, GoneKeys;
  }

  /** Over every run at all there is no empty entry. */
  lemma {:induction false} EveryRunHasNoEmpties(states: seq<Index>, ops: seq<Op>, i: nat)
    requires IsRun(states, ops) && i < |states|
    ensures NoEmpties(states[i])
  {
    if i > 0 {
      EveryRunHasNoEmpties(states, ops, i - 1);
      assert states[i - 1 + 1] == Do(states[i - 1], ops[i - 1]);
      DoNoEmpties(states[i - 1], ops[i - 1]);
    }
  }

  /** The items in the index are those that some client wants. */
  lemma ItemsAreWanted(ix: Index, i: int)
    requires IndexOk(ix)
    ensures i in ix.items <==> exists c :: Has(ix.clients, c, i)
  {
    if i in ix.items {
      var c := EntryHasValue(ix.items, i);
    }
  }

  // ---------- what the framework was told ----------

  /** What a subscription object has been asked for and not been told to drop. */
  function Net(obj: int, told: seq<FrameworkCall>): set<int> {
    if told == [] then {}
    else
      var before := Net(obj, told[..|told| - 1]);
      match told[|told| - 1]
      case FwSubscribe(o, items) => if o == obj then before + items else before
      case FwRequestData(o, items) => if o == obj then before + items else before
      case FwUnsubscribe(o, items) => if o == obj then before - items else before
  }

  lemma NetLast(obj: int, told: seq<FrameworkCall>, call: FrameworkCall)
    ensures Net(obj, told + [call]) ==
            if call.obj != obj then Net(obj, told)
            else if call.FwUnsubscribe? then Net(obj, told) - call.items else Net(obj, told) + call.items
  {
    assert (told + [call])[..|told|] == told;
  }

  lemma InstallNet(ix: Index, obj: int)
    ensures Net(obj, DoInstall(ix, obj).told) == Net(obj, ix.told) + ix.items.Keys
  {
    var keys := ix.items.Keys;
    if ix.items == map[] {
      assert keys == {};
    } else {
      NetLast(obj, ix.told, FwSubscribe(obj, keys));
      NetLast(obj, ix.told + [FwSubscribe(obj, keys)], FwRequestData(obj, keys));
      assert ix.told + [FwSubscribe(obj, keys)] + [FwRequestData(obj, keys)] == DoInstall(ix, obj).told;
    }
  }

  lemma InstallKeepsOthers(ix: Index, obj: int, other: int)
    requires other != obj
    ensures Net(other, DoInstall(ix, obj).told) == Net(other, ix.told)
  {
    var keys := ix.items.Keys;
    if ix.items != map[] {
      NetLast(other, ix.told, FwSubscribe(obj, keys));
      NetLast(other, ix.told + [FwSubscribe(obj, keys)], FwRequestData(obj, keys));
      assert ix.told + [FwSubscribe(obj, keys)] + [FwRequestData(obj, keys)] == DoInstall(ix, obj).told;
    }
  }

  /** The installed framework object has been told of exactly the items in the index. */
  predicate NetExact(ix: Index) {
    ix.obj.Some? ==> Net(ix.obj.value, ix.told) == ix.items.Keys
  }

  /** It has been told of at least those. */
  predicate NetCovers(ix: Index) {
    ix.obj.Some? ==> ix.items.Keys <= Net(ix.obj.value, ix.told)
  }

  lemma SubscribeNet(ix: Index, l: set<int>, client: int, requestData: bool)
    requires NetCovers(ix)
    ensures var ix' := DoSubscribe(ix, l, client, requestData);
            NetCovers(ix') && (NetExact(ix) ==> NetExact(ix'))
  {
    assert Added(ix.items, l, {client}).Keys == ix.items.Keys + l;
    assert ix.items.Keys + l == ix.items.Keys + (l - ix.items.Keys);
    if ix.obj.Some? && l - ix.items.Keys != {} {
      var told' := TellNew(ix, l - ix.items.Keys, requestData);
      NetLast(ix.obj.value, ix.told, told'[|ix.told|]);
    }
  }

  lemma GoneNet(ix: Index, ix': Index, gone: set<int>)
    requires NetCovers(ix) && ix'.obj == ix.obj && ix'.told == TellGone(ix, gone)
    requires ix'.items.Keys == ix.items.Keys - gone
    ensures NetCovers(ix') && (NetExact(ix) ==> NetExact(ix'))
  {
    if ix.obj.Some? && gone != {} { NetLast(ix.obj.value, ix.told, FwUnsubscribe(ix.obj.value, gone)); }
  }

  /** An update tells the framework of the items that it adds to the index, and of those
      that go. */
  lemma UpdateNet(ix: Index, l: set<int>, client: int)
    requires NoEmpties(ix) && NetCovers(ix)
    ensures var ix' := DoUpdate(ix, l, client);
            NetCovers(ix') && (NetExact(ix) ==> NetExact(ix'))
  {
    if l != {} {
      var kept := ValSet(ix.clients, client) * l;
      TrimmedPairs(ix.items, kept, {client});
      var trimmed, gone := Trimmed(ix.items, kept, {client}), GoneKeys(ix.items, kept, {client});
      var added := l - kept - trimmed.Keys;
      var told' := TellNew(ix, added, false);
      assert Added(trimmed, l - kept, {client}).Keys == trimmed.Keys + (l - kept);
      assert ix.items.Keys - gone + (l - kept) == ix.items.Keys + added - gone;
      hide Trimmed, Added, GoneKeys;
      if ix.obj.Some? {
        if added != {} { NetLast(ix.obj.value, ix.told, told'[|ix.told|]); }
        if gone != {} { NetLast(ix.obj.value, told', FwUnsubscribe(ix.obj.value, gone)); }
      }
    }
  }

  /** The framework keeps up with every operation but, possibly, an installation. */
  lemma DoNet(ix: Index, op: Op)
    requires NoEmpties(ix) && NetCovers(ix)
    ensures NetCovers(Do(ix, op))
    ensures NetExact(ix) && !op.Install? ==> NetExact(Do(ix, op))
  {
    match op {
      case Install(obj) => InstallNet(ix, obj);
      case Subscribe(l, client, requestData) => SubscribeNet(ix, l, client, requestData);
      case Unsubscribe(l, client) =>
        var unused := GoneVals(ix.clients, {client}, l);
        TrimmedPairs(ix.items, unused, {client});
        GoneNet(ix, Do(ix, op), GoneKeys(ix.items, unused, {client}));
      case UnsubscribeAll(client) =>
        var all := ValSet(ix.clients, client);
        TrimmedPairs(ix.items, all, {client});
        if all != {} { GoneNet(ix, Do(ix, op), GoneKeys(ix.items, all, {client})); }
      case Update(l, client) => UpdateNet(ix, l, client);
    }
  }

  /** Installing an object leaves it with exactly the items in the index if and only if
      it holds no other item already. A new object holds none; one that was replaced and
      comes back may. */
  lemma InstallExact(ix: Index, obj: int)
    ensures NetExact(DoInstall(ix, obj)) <==> Net(obj, ix.told) <= ix.items.Keys
  {
    InstallNet(ix, obj);
    assert Net(obj, ix.told) <= Net(obj, ix.told) + ix.items.Keys;
  }

  /** An object that is installed has been told of no item that is not in the index. */
  ghost predicate InstallsClean(states: seq<Index>, ops: seq<Op>, i: nat)
    requires |states| == |ops| + 1 && i <= |ops|
  {
    forall j :: 0 <= j < i && ops[j].Install? ==> Net(ops[j].obj, states[j].told) <= states[j].items.Keys
  }

  /** Over every run in which no installed object comes back with an item that has been
      dropped meanwhile: once an object is installed, the framework's net set is that of the
      items in the index, and these are the union of what the clients want as long as each
      update is the first subscription of its client. */
  lemma {:induction false} FrameworkMatchesClients(states: seq<Index>, ops: seq<Op>, i: nat)
    requires IsRun(states, ops) && i < |states| && InstallsClean(states, ops, i)
    ensures NetCovers(states[i]) && NetExact(states[i])
    ensures states[i].obj.Some? && UpdatesClean(states, ops, i) ==>
              forall item :: item in Net(states[i].obj.value, states[i].told) <==> exists c :: Has(states[i].clients, c, item)
  {
    if i > 0 {
      var s, op := states[i - 1], ops[i - 1];
      FrameworkMatchesClients(states, ops, i - 1);
      EveryRunHasNoEmpties(states, ops, i - 1);
      assert states[i - 1 + 1] == Do(s, op);
      DoNet(s, op);
      if op.Install? { InstallExact(s, op.obj); }
    }
    if UpdatesClean(states, ops, i) {
      EveryRunIsIndexed(states, ops, i);
      forall item { ItemsAreWanted(states[i], item); }
    }
  }

  /** That condition is exact: it is met if and only if the framework's net set is right
      in every state of the run. */
  lemma AlwaysExactIff(states: seq<Index>, ops: seq<Op>)
    requires IsRun(states, ops)
    ensures InstallsClean(states, ops, |ops|) <==> forall i :: 0 <= i < |states| ==> NetExact(states[i])
  {
    if InstallsClean(states, ops, |ops|) {
      forall i | 0 <= i < |states| ensures NetExact(states[i]) { FrameworkMatchesClients(states, ops, i); }
    } else {
      var j :| 0 <= j < |ops| && ops[j].Install? && !(Net(ops[j].obj, states[j].told) <= states[j].items.Keys);
      InstallExact(states[j], ops[j].obj);
      assert states[j + 1] == DoInstall(states[j], ops[j].obj);
    }
  }

  /** A first subscription, and the client's leaving after it. */
  lemma OnlySubscription(ix: Index, item: int, client: int)
    requires ix.clients == map[] && ix.items == map[] && ix.obj.Some?
    ensures Do(ix, Subscribe({item}, client, false))
         == ix.(clients := map[client := {item}], items := map[item := {client}],
                told := ix.told + [FwSubscribe(ix.obj.value, {item})])
  {
    assert {item} - ix.items.Keys == {item};
    assert ValSet(ix.items, item) + {client} == {client} && ValSet(ix.clients, client) + {item} == {item};
    assert Added(ix.items, {item}, {client}) == map[item := {client}];
    assert Added(ix.clients, {client}, {item}) == map[client := {item}];
  }

  lemma LastLeaves(ix: Index, item: int, client: int)
    requires ix.clients == map[client := {item}] && ix.items == map[item := {client}] && ix.obj.Some?
    ensures Do(ix, UnsubscribeAll(client))
         == ix.(clients := map[], items := map[], told := ix.told + [FwUnsubscribe(ix.obj.value, {item})])
  {
    assert ValSet(ix.clients, client) == {item};
    assert GoneKeys(ix.items, {item}, {client}) == {item};
    assert ix.clients - {client} == map[];
  }

  /** A run in which it is not: the first object is told of item 7, is replaced while the
      item is dropped, and comes back holding an item that nobody wants. */
  lemma ReturningObjectHoldsTooMuch()
    ensures exists ix :: Reachable(ix) && ix.obj == Some(1) && ix.clients == map[] && Net(1, ix.told) == {7} && !NetExact(ix)
  {
    hide Reachable, IsRun;
    var s1 := Do(EMPTY, Install(1));
    var s2 := Do(s1, Subscribe({7}, 5, false));
    var s3 := Do(s2, Install(2));
    var s4 := Do(s3, UnsubscribeAll(5));
    EmptyReached();
    StepReached(EMPTY, Install(1));
    StepReached(s1, Subscribe({7}, 5, false));
    StepReached(s2, Install(2));
    StepReached(s3, UnsubscribeAll(5));
    StepReached(s4, Install(1));
    OnlySubscription(s1, 7, 5);
    LastLeaves(s3, 7, 5);
    NetLast(1, s1.told, FwSubscribe(1, {7}));
    InstallKeepsOthers(s2, 2, 1);
    NetLast(1, s3.told, FwUnsubscribe(2, {7}));
    InstallNet(s4, 1);
    assert Net(1, s1.told) == {};
    hide DoSubscribe, DoUnsubscribeAll, Net;
    assert Do(s4, Install(1)).obj == Some(1);
  }

  /** Over every run at all, the installed object lacks no item in the index, and so none
      that a client wants as long as each update is the first subscription of its client. */
  lemma {:induction false} FrameworkLacksNothing(states: seq<Index>, ops: seq<Op>, i: nat)
    requires IsRun(states, ops) && i < |states|
    ensures NetCovers(states[i])
    ensures states[i].obj.Some? && UpdatesClean(states, ops, i) ==>
              forall c, item :: Has(states[i].clients, c, item) ==> item in Net(states[i].obj.value, states[i].told)
  {
    if i > 0 {
      FrameworkLacksNothing(states, ops, i - 1);
      EveryRunHasNoEmpties(states, ops, i - 1);
      assert states[i - 1 + 1] == Do(states[i - 1], ops[i - 1]);
      DoNet(states[i - 1], ops[i - 1]);
    }
    if UpdatesClean(states, ops, i) { EveryRunIsIndexed(states, ops, i); }
  }

  // ---------- by which call ----------

  datatype CallKind = BySubscribe | ByRequest | ByUnsubscribe

  predicate IsOfKind(call: FrameworkCall, kind: CallKind) {
    match kind
    case BySubscribe => call.FwSubscribe?
    case ByRequest => call.FwRequestData?
    case ByUnsubscribe => call.FwUnsubscribe?
  }

  /** All items that calls of one kind have named to an object. */
  function Named(obj: int, kind: CallKind, told: seq<FrameworkCall>): set<int> {
    if told == [] then {}
    else
      var call := told[|told| - 1];
      Named(obj, kind, told[..|told| - 1]) + if call.obj == obj && IsOfKind(call, kind) then call.items else {}
  }

  /** The items that a step gives cause to name to an object: on its installation those in
      the index, by both calls; while it is installed those that a plain subscription, an
      update or a data request adds to the index, and those that any step takes out. */
  function Caused(obj: int, kind: CallKind, ix: Index, op: Op, ix': Index): set<int> {
    match op
    case Install(o) => if o == obj && !kind.ByUnsubscribe? then ix.items.Keys else {}
    case Subscribe(_, _, requestData) =>
      if ix.obj != Some(obj) then {}
      else if kind == (if requestData then ByRequest else BySubscribe) then ix'.items.Keys - ix.items.Keys
      else {}
    case Update(_, _) =>
      if ix.obj != Some(obj) || kind.ByRequest? then {}
      else if kind.BySubscribe? then ix'.items.Keys - ix.items.Keys
      else ix.items.Keys - ix'.items.Keys
    case _ => if ix.obj == Some(obj) && kind.ByUnsubscribe? then ix.items.Keys - ix'.items.Keys else {}
  }

  function AllCaused(obj: int, kind: CallKind, states: seq<Index>, ops: seq<Op>, i: nat): set<int>
    requires |states| == |ops| + 1 && i <= |ops|
  {
    if i == 0 then {}
    else AllCaused(obj, kind, states, ops, i - 1) + Caused(obj, kind, states[i - 1], ops[i - 1], states[i])
  }

  lemma NamedLast(obj: int, kind: CallKind, told: seq<FrameworkCall>, call: FrameworkCall)
    ensures Named(obj, kind, told + [call]) ==
            Named(obj, kind, told) + if call.obj == obj && IsOfKind(call, kind) then call.items else {}
  {
    assert (told + [call])[..|told|] == told;
  }

  lemma InstallNames(obj: int, kind: CallKind, ix: Index, o: int)
    ensures Named(obj, kind, DoInstall(ix, o).told) == Named(obj, kind, ix.told) + Caused(obj, kind, ix, Install(o), DoInstall(ix, o))
  {
    var keys := ix.items.Keys;
    if ix.items == map[] {
      assert keys == {};
    } else {
      NamedLast(obj, kind, ix.told, FwSubscribe(o, keys));
      NamedLast(obj, kind, ix.told + [FwSubscribe(o, keys)], FwRequestData(o, keys));
      assert ix.told + [FwSubscribe(o, keys)] + [FwRequestData(o, keys)] == DoInstall(ix, o).told;
    }
  }

  lemma NewNamed(obj: int, kind: CallKind, ix: Index, items: set<int>, requestData: bool)
    ensures Named(obj, kind, TellNew(ix, items, requestData)) ==
            Named(obj, kind, ix.told) + if ix.obj == Some(obj) && kind == (if requestData then ByRequest else BySubscribe) then items else {}
  {
    if ix.obj.Some? && items != {} {
      NamedLast(obj, kind, ix.told, if requestData then FwRequestData(ix.obj.value, items) else FwSubscribe(ix.obj.value, items));
    }
  }

  lemma GoneNamed(obj: int, kind: CallKind, ix: Index, items: set<int>)
    ensures Named(obj, kind, TellGone(ix, items)) ==
            Named(obj, kind, ix.told) + if ix.obj == Some(obj) && kind.ByUnsubscribe? then items else {}
  {
    if ix.obj.Some? && items != {} { NamedLast(obj, kind, ix.told, FwUnsubscribe(ix.obj.value, items)); }
  }

  lemma StepNames(obj: int, kind: CallKind, ix: Index, op: Op)
    requires NoEmpties(ix)
    ensures Named(obj, kind, Do(ix, op).told) == Named(obj, kind, ix.told) + Caused(obj, kind, ix, op, Do(ix, op))
  {
    match op {
      case Install(o) => InstallNames(obj, kind, ix, o);
      case Subscribe(l, client, requestData) =>
        assert Added(ix.items, l, {client}).Keys - ix.items.Keys == l - ix.items.Keys;
        NewNamed(obj, kind, ix, l - ix.items.Keys, requestData);
      case Unsubscribe(l, client) =>
        var unused := GoneVals(ix.clients, {client}, l);
        TrimmedPairs(ix.items, unused, {client});
        GoneOut(ix, unused, client);
        GoneNamed(obj, kind, ix, GoneKeys(ix.items, unused, {client}));
      case UnsubscribeAll(client) =>
        var all := ValSet(ix.clients, client);
        GoneOut(ix, all, client);
        GoneNamed(obj, kind, ix, GoneKeys(ix.items, all, {client}));
      case Update(l, client) => UpdateNames(obj, kind, ix, l, client);
    }
    hide Named, Added, Trimmed, GoneKeys, GoneVals;
  }

  lemma GoneOut(ix: Index, keys: set<int>, client: int)
    requires NoEmpties(ix)
    ensures ix.items.Keys - Trimmed(ix.items, keys, {client}).Keys == GoneKeys(ix.items, keys, {client})
  {
    TrimmedPairs(ix.items, keys, {client});
  }

  lemma UpdateKeys(ix: Index, l: set<int>, client: int)
    requires NoEmpties(ix) && l != {}
    ensures var kept := ValSet(ix.clients, client) * l;
            var keys, keys' := ix.items.Keys, DoUpdate(ix, l, client).items.Keys;
            && keys' - keys == l - kept - Trimmed(ix.items, kept, {client}).Keys
            && keys - keys' == GoneKeys(ix.items, kept, {client})
  {
    var kept := ValSet(ix.clients, client) * l;
    var trimmed, gone := Trimmed(ix.items, kept, {client}), GoneKeys(ix.items, kept, {client});
    TrimmedPairs(ix.items, kept, {client});
    assert gone <= kept;
    assert Added(trimmed, l - kept, {client}).Keys == trimmed.Keys + (l - kept);
    hide Trimmed, Added, GoneKeys;
  }

  lemma UpdateNames(obj: int, kind: CallKind, ix: Index, l: set<int>, client: int)
    requires NoEmpties(ix)
    ensures Named(obj, kind, DoUpdate(ix, l, client).told) ==
            Named(obj, kind, ix.told) + Caused(obj, kind, ix, Update(l, client), DoUpdate(ix, l, client))
  {
    hide Named, Added, Trimmed, GoneKeys, NoEmpties;
    if l != {} {
      UpdateKeys(ix, l, client);
      var kept := ValSet(ix.clients, client) * l;
      var added, gone := l - kept - Trimmed(ix.items, kept, {client}).Keys, GoneKeys(ix.items, kept, {client});
      NewNamed(obj, kind, ix, added, false);
      GoneNamed(obj, kind, ix.(told := TellNew(ix, added, false)), gone);
    }
  }

  /** Over every run, the items that calls of one kind have named to an object are exactly
      those that the steps gave cause to name to it by that kind. */
  lemma {:induction false} CallsAreCaused(obj: int, kind: CallKind, states: seq<Index>, ops: seq<Op>, i: nat)
    requires IsRun(states, ops) && i < |states|
    ensures Named(obj, kind, states[i].told) == AllCaused(obj, kind, states, ops, i)
  {
    if i > 0 {
      CallsAreCaused(obj, kind, states, ops, i - 1);
      EveryRunHasNoEmpties(states, ops, i - 1);
      assert states[i - 1 + 1] == Do(states[i - 1], ops[i - 1]);
      StepNames(obj, kind, states[i - 1], ops[i - 1]);
    }
  }
}
