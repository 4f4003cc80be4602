/** The OS observer: clients subscribe to data items, the framework is asked for what any
    client wants, and changed items are delivered to those who want them. The messages
    that its calls post are run at once, in order. */
module SystemStatusOsObserver {
  import opened Wrappers
  import opened LocUnorderedSetMap
  import opened ObserverIndex
  import opened SystemStatus
  import opened ObserverCache

  /** A notify() call on a client. */
  datatype Delivery = Delivery(client: int, data: map<int, Content>)

  function ToSet(l: seq<int>): set<int> {
    set i | i in l
  }

  function Cached(cache: map<int, Content>, s: set<int>): map<int, Content> {
    map i | i in s && i in cache :: cache[i]
  }

  /** A client is notified only if there is something to tell. */
  function Deliveries(client: int, data: map<int, Content>): seq<Delivery> {
    if data.Keys == {} then [] else [Delivery(client, data)]
  }

  /** What a client is sent at once: one call with what the cache has of the items, and none
      if it has nothing. */
  lemma SentAtOnce(client: int, cache: map<int, Content>, s: set<int>)
    ensures var ds := Deliveries(client, Cached(cache, s));
            if s * cache.Keys == {} then ds == []
            else |ds| == 1 && ds[0].client == client && ds[0].data.Keys == s * cache.Keys
                 && forall i :: i in ds[0].data ==> ds[0].data[i] == cache[i]
  {
    assert Cached(cache, s).Keys == s * cache.Keys;
  }

  predicate Reaches(ds: seq<Delivery>, c: int) {
    exists d :: d in ds && d.client == c
  }

  lemma ReachesMore(ds: seq<Delivery>, d: Delivery, c: int)
    ensures Reaches(ds + [d], c) <==> Reaches(ds, c) || d.client == c
  {
    assert d in ds + [d];
    forall x | x in ds ensures x in ds + [d] { }
  }

  /** Each client that wants a changed item gets one call, with exactly the changed items
      it wants; no other client is called. */
  ghost predicate DeliversExactly(ds: seq<Delivery>, clients: map<int, set<int>>, cache: map<int, Content>, ids: set<int>) {
    && (forall j :: 0 <= j < |ds| ==>
          && ds[j].client in clients && ds[j].data.Keys == clients[ds[j].client] * ids && ds[j].data.Keys != {}
          && forall i :: i in ds[j].data ==> i in cache && ds[j].data[i] == cache[i])
    && (forall j, k :: 0 <= j < k < |ds| ==> ds[j].client != ds[k].client)
    && (forall c, i :: Has(clients, c, i) && i in ids ==> Reaches(ds, c))
  }

  /** The index lists the client for a changed item. */
  ghost predicate Concerned(items: map<int, set<int>>, ids: set<int>, c: int) {
    exists i :: i in ids && Has(items, i, c)
  }

  /** The changed items that the index lists for a client. */
  function Share(clients: map<int, set<int>>, cache: map<int, Content>, ids: set<int>, c: int): map<int, Content> {
    Cached(cache, ValSet(clients, c) * ids)
  }

  /** Each client that the index lists for a changed item gets one call, with the changed
      items that the index lists for it, unless there are none; no other client is called. */
  ghost predicate DeliversIndexed(ds: seq<Delivery>, ix: Index, cache: map<int, Content>, ids: set<int>) {
    && (forall j :: 0 <= j < |ds| ==>
          && Concerned(ix.items, ids, ds[j].client)
          && ds[j].data == Share(ix.clients, cache, ids, ds[j].client) && ds[j].data.Keys != {})
    && (forall j, k :: 0 <= j < k < |ds| ==> ds[j].client != ds[k].client)
    && (forall c :: Concerned(ix.items, ids, c) && Share(ix.clients, cache, ids, c).Keys != {} ==> Reaches(ds, c))
  }

  /** The same for a set of clients. */
  ghost predicate Serves(ds: seq<Delivery>, clients: map<int, set<int>>, cache: map<int, Content>, ids: set<int>, served: set<int>) {
    && (forall j :: 0 <= j < |ds| ==>
          ds[j].client in served && ds[j].data == Share(clients, cache, ids, ds[j].client) && ds[j].data.Keys != {})
    && (forall j, k :: 0 <= j < k < |ds| ==> ds[j].client != ds[k].client)
    && (forall c :: c in served && Share(clients, cache, ids, c).Keys != {} ==> Reaches(ds, c))
  }

  lemma NobodyServed(ix: Index, cache: map<int, Content>, ids: set<int>)
    ensures Serves([], ix.clients, cache, ids, {})
  {
  }

  lemma ServesMore(ds: seq<Delivery>, clients: map<int, set<int>>, cache: map<int, Content>, ids: set<int>, served: set<int>, client: int)
    requires Serves(ds, clients, cache, ids, served) && client !in served
    ensures Serves(ds + Deliveries(client, Share(clients, cache, ids, client)), clients, cache, ids, served + {client})
  {
    hide Share, Reaches;
    var data := Share(clients, cache, ids, client);
    if data.Keys == {} {
      assert ds + [] == ds;
    } else {
      var d := Delivery(client, data);
      forall c ensures Reaches(ds + [d], c) <==> Reaches(ds, c) || d.client == c { ReachesMore(ds, d, c); }
      var ds', served' := ds + [d], served + {client};
      assert forall j :: 0 <= j < |ds| ==> ds'[j] == ds[j];
      assert ds'[|ds|] == d && Deliveries(client, data) == [d];
      assert Serves(ds', clients, cache, ids, served');
    }
  }

  lemma AllServed(ds: seq<Delivery>, ix: Index, cache: map<int, Content>, ids: set<int>, clientSet: set<int>)
    requires Serves(ds, ix.clients, cache, ids, clientSet)
    requires forall c :: c in clientSet <==> Concerned(ix.items, ids, c)
    ensures DeliversIndexed(ds, ix, cache, ids)
  {
    hide Share, Reaches, Concerned;
  }

  lemma ShareOfNobody(clients: map<int, set<int>>, cache: map<int, Content>, ids: set<int>, c: int)
    ensures c !in clients ==> Share(clients, cache, ids, c).Keys == {}
  {
  }

  /** With an exact index these are the clients and the items that they want. */
  lemma IndexedIsExact(ds: seq<Delivery>, ix: Index, cache: map<int, Content>, ids: set<int>)
    requires IndexOk(ix) && ids <= cache.Keys && DeliversIndexed(ds, ix, cache, ids)
    ensures DeliversExactly(ds, ix.clients, cache, ids)
  {
    forall j | 0 <= j < |ds|
      ensures ds[j].client in ix.clients && ds[j].data.Keys == ix.clients[ds[j].client] * ids
    {
      ShareOfNobody(ix.clients, cache, ids, ds[j].client);
    }
    forall c, i | Has(ix.clients, c, i) && i in ids ensures Reaches(ds, c) {
      assert Has(ix.items, i, c) && i in Share(ix.clients, cache, ids, c);
    }
  }

  class SystemStatusOsObserver {
    const lib: Library
    const mSystemStatus: SystemStatus
    const mClientToDataItems: LocUnorderedSetMap<int, int>
    const mDataItemToClients: LocUnorderedSetMap<int, int>
    var mDataItemCache: map<int, Content>
    var mSubscriptionObj: Option<int>
    var told: seq<FrameworkCall>
    var sent: seq<Delivery>
    /** All items that have arrived so far. */
    ghost var noted: seq<Option<DataItem>>

    ghost function Abs(): Index
      reads this, mClientToDataItems, mDataItemToClients
    {
      Index(mClientToDataItems.mMap, mDataItemToClients.mMap, mSubscriptionObj, told)
    }

    ghost function Stored(): Store
      reads this, mSystemStatus
    {
      Store(mSystemStatus.mCache, mDataItemCache)
    }

    /** Reports and cache are what has become of the items that have arrived. */
    ghost predicate Valid()
      reads this, mSystemStatus, mClientToDataItems, mDataItemToClients
    {
      && mClientToDataItems != mDataItemToClients && mSystemStatus.own == lib.own
      && HANDLED <= mSystemStatus.mCache.Keys && Stored() == After(lib, noted)
    }

    constructor (lib: Library)
      ensures Valid() && Abs() == ObserverIndex.EMPTY && noted == [] && sent == [] && this.lib == lib
      ensures fresh(mSystemStatus) && fresh(mClientToDataItems) && fresh(mDataItemToClients)
    {
      this.lib := lib;
      mSystemStatus := new SystemStatus(lib.own);
      mClientToDataItems := new LocUnorderedSetMap<int, int>();
      mDataItemToClients := new LocUnorderedSetMap<int, int>();
      mDataItemCache, mSubscriptionObj, told, sent, noted := map[], None, [], [], [];
    }

    method TellFramework(call: FrameworkCall)
      modifies this`told
      ensures told == old(told) + [call]
    {
      told := told + [call];
    }

    method SetSubscriptionObj(subscriptionObj: Option<int>)
      requires Valid()
      modifies this`mSubscriptionObj, this`told
      ensures Valid() && Abs() == if subscriptionObj.None? then old(Abs()) else DoInstall(old(Abs()), subscriptionObj.value)
    {
      if subscriptionObj.Some? {
        mSubscriptionObj := subscriptionObj;
        var none := mDataItemToClients.Empty();
        if !none {
          var dis := mDataItemToClients.GetKeys();
          TellFramework(FwSubscribe(subscriptionObj.value, dis));
          TellFramework(FwRequestData(subscriptionObj.value, dis));
        }
      }
    }

    /** Sends the client what the cache has of these items. */
    method SendCachedDataItems(s: set<int>, to: int)
      modifies this`sent
      ensures sent == old(sent) + Deliveries(to, Cached(mDataItemCache, s))
    {
      var dataItems: map<int, Content> := map[];
      var rest := s;
      while rest != {}
        invariant sent == old(sent) && rest <= s && dataItems == Cached(mDataItemCache, s - rest)
      {
        var each := Pick(rest);
        if each in mDataItemCache {
          dataItems := dataItems[each := mDataItemCache[each]];
        }
        rest := rest - {each};
      }
      assert s - rest == s;
      assert dataItems == Cached(mDataItemCache, s);
      if dataItems.Keys != {} {
        sent := sent + [Delivery(to, dataItems)];
      }
    }

    /** subscribe() and, with toRequestData, requestData(). */
    method Subscribe(l: seq<int>, client: Option<int>, toRequestData: bool)
      requires Valid()
      modifies this`told, this`sent, mClientToDataItems, mDataItemToClients
      ensures Valid()
      ensures if l == [] || client.None? then Abs() == old(Abs()) && sent == old(sent)
              else Abs() == DoSubscribe(old(Abs()), ToSet(l), client.value, toRequestData)
                   && sent == old(sent) + Deliveries(client.value, Cached(mDataItemCache, ToSet(l)))
    {
      if l != [] && client.Some? {
        var mClient, mDataItemSet := client.value, ToSet(l);
        var dataItemsToSubscribe := mDataItemToClients.Add(mDataItemSet, {mClient});
        var _ := mClientToDataItems.AddEntry(mClient, mDataItemSet);
        SendCachedDataItems(mDataItemSet, mClient);
        if mSubscriptionObj.Some? && dataItemsToSubscribe != {} {
          if toRequestData {
            TellFramework(FwRequestData(mSubscriptionObj.value, dataItemsToSubscribe));
          } else {
            TellFramework(FwSubscribe(mSubscriptionObj.value, dataItemsToSubscribe));
          }
        }
      }
    }

    /** updateSubscription(). What the client is sent and the framework is asked for leaves
        out the items that the client had already. */
    method UpdateSubscription(l: seq<int>, client: Option<int>)
      requires Valid()
      modifies this`told, this`sent, mClientToDataItems, mDataItemToClients
      ensures Valid()
      ensures if l == [] || client.None? then Abs() == old(Abs()) && sent == old(sent)
              else Abs() == DoUpdate(old(Abs()), ToSet(l), client.value)
                   && sent == old(sent) + Deliveries(client.value, Cached(mDataItemCache, ToSet(l) - ValSet(old(Abs()).clients, client.value)))
    {
      if l != [] && client.Some? {
        var mClient := client.value;
        assert l[0] in ToSet(l);
        var kept, mDataItemSet := mClientToDataItems.Update(mClient, ToSet(l));
        var dataItemsToUnsubscribe, _ := mDataItemToClients.TrimOrRemove(kept, {mClient});
        var dataItemsToSubscribe := mDataItemToClients.Add(mDataItemSet, {mClient});
        assert mDataItemSet == ToSet(l) - ValSet(old(Abs()).clients, mClient);
        SendCachedDataItems(mDataItemSet, mClient);
        if mSubscriptionObj.Some? {
          if dataItemsToSubscribe != {} {
            TellFramework(FwSubscribe(mSubscriptionObj.value, dataItemsToSubscribe));
          }
          if dataItemsToUnsubscribe != {} {
            TellFramework(FwUnsubscribe(mSubscriptionObj.value, dataItemsToUnsubscribe));
          }
        }
      }
    }

    method Unsubscribe(l: seq<int>, client: Option<int>)
      requires Valid()
      modifies this`told, mClientToDataItems, mDataItemToClients
      ensures Valid()
      ensures Abs() == if l == [] || client.None? then old(Abs()) else DoUnsubscribe(old(Abs()), ToSet(l), client.value)
    {
      if l != [] && client.Some? {
        var mClient := client.value;
        var _, dataItemsUnusedByClient := mClientToDataItems.TrimOrRemove({mClient}, ToSet(l));
        var dataItemsToUnsubscribe, _ := mDataItemToClients.TrimOrRemove(dataItemsUnusedByClient, {mClient});
        if mSubscriptionObj.Some? && dataItemsToUnsubscribe != {} {
          TellFramework(FwUnsubscribe(mSubscriptionObj.value, dataItemsToUnsubscribe));
        }
      }
    }

    method UnsubscribeAll(client: Option<int>)
      requires Valid()
      modifies this`told, mClientToDataItems, mDataItemToClients
      ensures Valid()
      ensures Abs() == if client.None? then old(Abs()) else DoUnsubscribeAll(old(Abs()), client.value)
    {
      if client.Some? {
        var mClient := client.value;
        var diByClient := mClientToDataItems.GetValSet(mClient);
        if diByClient != {} {
          var _ := mClientToDataItems.Remove(mClient);
          var dataItemsToUnsubscribe, _ := mDataItemToClients.TrimOrRemove(diByClient, {mClient});
          if dataItemsToUnsubscribe != {} && mSubscriptionObj.Some? {
            TellFramework(FwUnsubscribe(mSubscriptionObj.value, dataItemsToUnsubscribe));
          }
        }
      }
    }

    method UpdateCache(d: Option<DataItem>) returns (dataItemUpdated: bool)
      requires Valid()
      modifies this`mDataItemCache, this`noted, mSystemStatus
      ensures Valid() && noted == old(noted) + [d]
      ensures dataItemUpdated == Changes(lib, old(Stored()), d)
      ensures Stored() == UpdateOne(lib, Updates(old(Stored()), {}), d).store
    {
      dataItemUpdated := false;
      if d.Some? {
        var id := d.value.id;
        var pass, stored := mSystemStatus.EventDataItemNotify(id, d.value.item);
        if pass {
          if id !in mDataItemCache {
            if id in lib.creatable {
              mDataItemCache := mDataItemCache[id := stored.content];
              dataItemUpdated := true;
            }
          } else {
            dataItemUpdated := mDataItemCache[id] != stored.content;
            mDataItemCache := mDataItemCache[id := stored.content];
          }
        }
      }
      noted := noted + [d];
      assert noted[..|noted| - 1] == old(noted);
      AfterStep(lib, noted);
      hide After;
    }

    /** The clients of any of the items. */
    method ClientsOf(ids: set<int>) returns (clientSet: set<int>)
      ensures forall c :: c in clientSet <==> Concerned(mDataItemToClients.mMap, ids, c)
    {
      clientSet := {};
      var rest := ids;
      while rest != {}
        invariant rest <= ids
        invariant forall c :: c in clientSet <==> Concerned(mDataItemToClients.mMap, ids - rest, c)
      {
        var each := Pick(rest);
        ghost var before := clientSet;
        var clients := mDataItemToClients.GetValSet(each);
        clientSet := clientSet + clients;
        forall c | c in clients ensures Has(mDataItemToClients.mMap, each, c) { }
        rest := rest - {each};
        assert forall i :: i in ids - rest <==> i == each || i in (ids - rest) - {each};
      }
    }

    /** Tells a client what it wants of the changed items. */
    method SendToClient(client: int, ids: set<int>)
      modifies this`sent
      ensures sent == old(sent) + Deliveries(client, Share(mClientToDataItems.mMap, mDataItemCache, ids, client))
    {
      var all := mClientToDataItems.GetValSet(client);
      var wanted := all;
      var itr := all;
      while itr != {}
        invariant sent == old(sent) && itr <= all && wanted == all - ((all - itr) - ids)
      {
        var each := Pick(itr);
        if each !in ids {
          wanted := wanted - {each};
        }
        itr := itr - {each};
      }
      assert wanted == all * ids;
      SendCachedDataItems(wanted, client);
    }

    method SendToClients(clientSet: set<int>, ids: set<int>)
      requires forall c :: c in clientSet <==> Concerned(mDataItemToClients.mMap, ids, c)
      modifies this`sent
      ensures old(sent) <= sent && DeliversIndexed(sent[|old(sent)|..], Abs(), mDataItemCache, ids)
    {
      hide Serves, DeliversIndexed;
      NobodyServed(Abs(), mDataItemCache, ids);
      assert clientSet - clientSet == {};
      ghost var ds: seq<Delivery> := [];
      var rest := clientSet;
      while rest != {}
        invariant rest <= clientSet && sent == old(sent) + ds
        invariant Serves(ds, mClientToDataItems.mMap, mDataItemCache, ids, clientSet - rest)
      {
        var client := Pick(rest);
        SendToClient(client, ids);
        ServesMore(ds, mClientToDataItems.mMap, mDataItemCache, ids, clientSet - rest, client);
        ds := ds + Deliveries(client, Share(mClientToDataItems.mMap, mDataItemCache, ids, client));
        assert clientSet - (rest - {client}) == clientSet - rest + {client};
        rest := rest - {client};
      }
      assert clientSet - rest == clientSet;
      assert sent[|old(sent)|..] == ds;
      AllServed(ds, Abs(), mDataItemCache, ids, clientSet);
    }

    /** The changed items of a batch go to the clients that want them. */
    method ProcNotify(mDiVec: seq<Option<DataItem>>)
      requires Valid()
      modifies this`mDataItemCache, this`sent, this`noted, mSystemStatus
      ensures Valid() && Abs() == old(Abs()) && old(sent) <= sent && noted == old(noted) + mDiVec
      ensures var u := UpdateAll(lib, old(Stored()), mDiVec);
              && Stored() == u.store && DeliversIndexed(sent[|old(sent)|..], Abs(), u.store.cache, u.ids)
              && (IndexOk(Abs()) ==> DeliversExactly(sent[|old(sent)|..], mClientToDataItems.mMap, u.store.cache, u.ids))
    {
      var dataItemIdsToBeSent: set<int> := {};
      for k := 0 to |mDiVec|
        invariant Valid() && Abs() == old(Abs()) && sent == old(sent) && noted == old(noted) + mDiVec[..k]
        invariant Updates(Stored(), dataItemIdsToBeSent) == UpdateAll(lib, old(Stored()), mDiVec[..k])
      {
        assert mDiVec[..k + 1][..k] == mDiVec[..k] && mDiVec[..k + 1] == mDiVec[..k] + [mDiVec[k]];
        var updated := UpdateCache(mDiVec[k]);
        if updated {
          dataItemIdsToBeSent := dataItemIdsToBeSent + {mDiVec[k].value.id};
        }
      }
      assert mDiVec[..|mDiVec|] == mDiVec;
      forall i | i in dataItemIdsToBeSent ensures i in mDataItemCache {
        UnsentIsUnchanged(lib, old(Stored()), mDiVec, i);
      }
      var clientSet := ClientsOf(dataItemIdsToBeSent);
      SendToClients(clientSet, dataItemIdsToBeSent);
      if IndexOk(Abs()) { IndexedIsExact(sent[|old(sent)|..], Abs(), mDataItemCache, dataItemIdsToBeSent); }
    }

    /** The copies are appended to a vector that already has one null for each item. */
    method Notify(dlist: seq<DataItem>)
      requires Valid()
      modifies this`mDataItemCache, this`sent, this`noted, mSystemStatus
      ensures Valid() && Abs() == old(Abs()) && old(sent) <= sent
      ensures var u := UpdateAll(lib, old(Stored()), Copies(lib, dlist));
              && Stored() == u.store && DeliversIndexed(sent[|old(sent)|..], Abs(), u.store.cache, u.ids)
              && (IndexOk(Abs()) ==> DeliversExactly(sent[|old(sent)|..], mClientToDataItems.mMap, u.store.cache, u.ids))
    {
      if dlist == [] {
        return;
      }
      var dataItemVec: seq<Option<DataItem>> := seq(|dlist|, i => None);
      for k := 0 to |dlist|
        invariant dataItemVec == seq(|dlist|, i => None) + Copies(lib, dlist[..k])
      {
        assert dlist[..k + 1][..k] == dlist[..k];
        if dlist[k].id in lib.creatable {
          dataItemVec := dataItemVec + [Some(dlist[k])];
        }
      }
      assert dlist[..|dlist|] == dlist;
      NullsChangeNothing(lib, Stored(), |dlist|, Copies(lib, dlist));
      ProcNotify(dataItemVec);
    }
  }
}
