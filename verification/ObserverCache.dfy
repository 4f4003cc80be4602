/** The cache of the OS observer. An item reaches it only through the report history of the
    system status, which drops repeats and merges network items. What the cache holds after
    any number of items, and which items a batch sends on. */
module ObserverCache {
  import opened Wrappers
  import opened SystemStatus

  datatype DataItem = DataItem(id: int, item: Item)

  /** What is up to the data item library: how the kinds with a comparison of their own
      compare, and which data items can be made. */
  datatype Library = Library(own: int -> Comparison, creatable: set<int>)

  /** The reports of the system status, and the observer's cache. */
  datatype Store = Store(reports: map<int, seq<Item>>, cache: map<int, Content>)

  function NewStore(): Store {
    Store(map i | i in HANDLED :: [], map[])
  }

  function ReportOf(s: Store, i: int): seq<Item> {
    if i in s.reports then s.reports[i] else []
  }

  datatype Updates = Updates(store: Store, ids: set<int>)

  /** The system status lets the item pass: it handles the kind, and this is no repeat. */
  predicate Passes(lib: Library, s: Store, d: DataItem) {
    d.id in HANDLED && !Repeats(Equality(lib.own, d.id), ReportOf(s, d.id), d.item)
  }

  /** The item is new to the cache, or differs from what is in it. */
  predicate Differs(lib: Library, s: Store, d: DataItem) {
    if d.id in s.cache then s.cache[d.id] != Collated(ReportOf(s, d.id), d.item).content else d.id in lib.creatable
  }

  predicate Changes(lib: Library, s: Store, d: Option<DataItem>) {
    d.Some? && Passes(lib, s, d.value) && Differs(lib, s, d.value)
  }

  function Noted(lib: Library, s: Store, d: DataItem): Store {
    if d.id !in HANDLED then s
    else s.(reports := s.reports[d.id := Set(Equality(lib.own, d.id), ReportOf(s, d.id), d.item)])
  }

  function UpdateOne(lib: Library, u: Updates, d: Option<DataItem>): Updates {
    if d.None? then u
    else
      var s := Noted(lib, u.store, d.value);
      if Changes(lib, u.store, d) then
        Updates(s.(cache := s.cache[d.value.id := Collated(ReportOf(u.store, d.value.id), d.value.item).content]), u.ids + {d.value.id})
      else Updates(s, u.ids)
  }

  /** The reports and the cache after a batch, and the ids of the items that changed it. */
  function UpdateAll(lib: Library, s: Store, v: seq<Option<DataItem>>): Updates {
    if v == [] then Updates(s, {}) else UpdateOne(lib, UpdateAll(lib, s, v[..|v| - 1]), v[|v| - 1])
  }

  lemma {:induction false} UpdateMore(lib: Library, s: Store, v: seq<Option<DataItem>>, w: seq<Option<DataItem>>)
    ensures UpdateAll(lib, s, v + w).store == UpdateAll(lib, UpdateAll(lib, s, v).store, w).store
    ensures UpdateAll(lib, s, v + w).ids == UpdateAll(lib, s, v).ids + UpdateAll(lib, UpdateAll(lib, s, v).store, w).ids
  {
    hide Noted, Changes;
    if w == [] {
      assert v + w == v;
    } else {
      assert (v + w)[..|v + w| - 1] == v + w[..|w| - 1];
      UpdateMore(lib, s, v, w[..|w| - 1]);
    }
  }

  // ---------- what the cache holds ----------

  predicate IsOf(d: Option<DataItem>, i: int) {
    d.Some? && d.value.id == i
  }

  /** The items of one kind, in order, as they are reported. */
  function Stream(v: seq<Option<DataItem>>, i: int): seq<Event> {
    if v == [] then []
    else Stream(v[..|v| - 1], i) + if IsOf(v[|v| - 1], i) then [Reported(v[|v| - 1].value.item)] else []
  }

  /** The items that have been noted since the start. */
  function After(lib: Library, v: seq<Option<DataItem>>): Store {
    UpdateAll(lib, NewStore(), v).store
  }

  lemma AfterStep(lib: Library, v: seq<Option<DataItem>>)
    requires v != []
    ensures After(lib, v) == UpdateOne(lib, Updates(After(lib, v[..|v| - 1]), {}), v[|v| - 1]).store
  {
    hide Noted, Changes;
  }

  /** Whatever items arrive: the report of a kind is that of the items of the kind, the
      cache has exactly the kinds that can be made and have been reported, and it says what
      the report says last. */
  lemma {:induction false} CacheIsLatestReport(lib: Library, v: seq<Option<DataItem>>, i: int)
    requires i in HANDLED
    ensures ReportOf(After(lib, v), i) == Report(Equality(lib.own, i), Stream(v, i))
    ensures i in After(lib, v).cache <==> i in lib.creatable && Stream(v, i) != []
    ensures i in After(lib, v).cache ==> After(lib, v).cache[i] == Latest(Equality(lib.own, i), Stream(v, i))
  {
    hide Report, Latest, Noted, Changes;
    if v == [] {
      assert Report(Equality(lib.own, i), []) == [] by { NothingReported(Equality(lib.own, i)); }
    } else {
      var before, d := v[..|v| - 1], v[|v| - 1];
      CacheIsLatestReport(lib, before, i);
      AfterStep(lib, v);
      hide After, UpdateOne;
      if IsOf(d, i) {
        NotedStep(lib, After(lib, before), Stream(before, i), d.value);
      } else {
        OtherStep(lib, After(lib, before), d, i);
        assert Stream(v, i) == Stream(before, i);
      }
    }
  }

  lemma NothingReported(same: Comparison)
    ensures Report(same, []) == []
  {
  }

  /** An item of another kind. */
  lemma OtherStep(lib: Library, s: Store, d: Option<DataItem>, i: int)
    requires !IsOf(d, i)
    ensures var s' := UpdateOne(lib, Updates(s, {}), d).store;
            && ReportOf(s', i) == ReportOf(s, i)
            && (i in s'.cache <==> i in s.cache) && (i in s.cache ==> s'.cache[i] == s.cache[i])
  {
    hide Set, Repeats, Collated, Equality, HANDLED;
  }

  lemma NotedStep(lib: Library, s: Store, es: seq<Event>, d: DataItem)
    requires d.id in HANDLED && ReportOf(s, d.id) == Report(Equality(lib.own, d.id), es)
    requires d.id in s.cache <==> d.id in lib.creatable && es != []
    requires d.id in s.cache ==> s.cache[d.id] == Latest(Equality(lib.own, d.id), es)
    ensures var s', es' := UpdateOne(lib, Updates(s, {}), Some(d)).store, es + [Reported(d.item)];
            && ReportOf(s', d.id) == Report(Equality(lib.own, d.id), es')
            && (d.id in s'.cache <==> d.id in lib.creatable)
            && (d.id in s'.cache ==> s'.cache[d.id] == Latest(Equality(lib.own, d.id), es'))
  {
    var same, es' := Equality(lib.own, d.id), es + [Reported(d.item)];
    assert es'[..|es|] == es;
    SetLast(same, Report(same, es), d.item);
    if es != [] { ReportNotEmpty(same, es); }
    hide Set, Repeats, Collated, Equality, HANDLED;
  }

  // ---------- is the cache up to date ----------

  /** The cache has what arrived last of the kind, if anything did. */
  predicate Current(lib: Library, v: seq<Option<DataItem>>, i: int) {
    var es := Stream(v, i);
    es != [] ==> i in After(lib, v).cache && After(lib, v).cache[i] == es[|es| - 1].item.content
  }

  ghost predicate AlwaysCurrent(lib: Library, v: seq<Option<DataItem>>, i: int) {
    forall n :: 0 <= n <= |v| ==> Current(lib, v[..n], i)
  }

  lemma AlwaysStep(lib: Library, v: seq<Option<DataItem>>, i: int)
    requires v != []
    ensures AlwaysCurrent(lib, v, i) <==> AlwaysCurrent(lib, v[..|v| - 1], i) && Current(lib, v, i)
  {
    hide Current;
    var before := v[..|v| - 1];
    assert v[..|v|] == v;
    forall n | 0 <= n <= |before| ensures Current(lib, before[..n], i) <==> Current(lib, v[..n], i) { assert before[..n] == v[..n]; }
  }

  lemma CurrentMeans(lib: Library, v: seq<Option<DataItem>>, i: int)
    requires i in HANDLED && i in lib.creatable
    ensures Current(lib, v, i) <==>
              var es := Stream(v, i); es != [] ==> Latest(Equality(lib.own, i), es) == es[|es| - 1].item.content
  {
    CacheIsLatestReport(lib, v, i);
    hide After, Latest, Report;
  }

  lemma {:induction false} AlwaysIsUpToDate(lib: Library, v: seq<Option<DataItem>>, i: int)
    requires i in HANDLED && i in lib.creatable
    ensures AlwaysCurrent(lib, v, i) <==> UpToDate(Equality(lib.own, i), Stream(v, i))
  {
    var same := Equality(lib.own, i);
    hide Current, UpToDate, Latest;
    if v == [] {
      NothingYet(same);
      CurrentMeans(lib, [], i);
    } else {
      var before := v[..|v| - 1];
      AlwaysIsUpToDate(lib, before, i);
      AlwaysStep(lib, v, i);
      CurrentMeans(lib, v, i);
      CurrentMeans(lib, before, i);
      hide AlwaysCurrent;
      if IsOf(v[|v| - 1], i) {
        UpToDateStep(same, Stream(v, i));
        assert Stream(v, i)[..|Stream(before, i)|] == Stream(before, i);
      } else {
        assert Stream(v, i) == Stream(before, i);
        if Stream(v, i) != [] { UpToDateStep(same, Stream(v, i)); }
      }
    }
  }

  /** Whatever items arrive: the cache has what arrived last of a kind of plain values, at
      each moment, if and only if no value of the kind was taken for a repeat of a different
      one before it. */
  lemma CacheCurrentIff(lib: Library, v: seq<Option<DataItem>>, i: int)
    requires i in HANDLED && i in lib.creatable && PlainStream(Stream(v, i))
    ensures AlwaysCurrent(lib, v, i) <==> NoFalseRepeat(Equality(lib.own, i), Stream(v, i))
  {
    AlwaysIsUpToDate(lib, v, i);
    UpToDateIff(Equality(lib.own, i), Stream(v, i));
  }

  /** So the cache is always current of a kind if and only if values of it that compare as
      equal are equal. */
  lemma KindCurrentIff(lib: Library, i: int)
    requires i in HANDLED && i in lib.creatable
    ensures (forall v :: PlainStream(Stream(v, i)) ==> AlwaysCurrent(lib, v, i)) <==>
            forall x, y :: Equality(lib.own, i)(x, y) ==> x == y
  {
    var same := Equality(lib.own, i);
    hide AlwaysCurrent, Equality;
    if forall v :: PlainStream(Stream(v, i)) ==> AlwaysCurrent(lib, v, i) {
      forall x, y | same(x, y) ensures x == y {
        var a, b := Item(Plain(x), 0), Item(Plain(y), 0);
        TwoItems(i, a, b);
        CacheCurrentIff(lib, [Some(DataItem(i, a)), Some(DataItem(i, b))], i);
        var es := Stream([Some(DataItem(i, a)), Some(DataItem(i, b))], i);
        assert es[1 - 1].item.content == es[1].item.content;
      }
    } else {
      var v :| PlainStream(Stream(v, i)) && !AlwaysCurrent(lib, v, i);
      CacheCurrentIff(lib, v, i);
    }
  }

  lemma TwoItems(i: int, a: Item, b: Item)
    ensures Stream([Some(DataItem(i, a)), Some(DataItem(i, b))], i) == [Reported(a), Reported(b)]
  {
    var v := [Some(DataItem(i, a)), Some(DataItem(i, b))];
    assert v[..1] == [v[0]] && [v[0]][..0] == [];
    assert Stream([], i) == [] && Stream([v[0]], i) == [Reported(a)];
  }

  /** Of the Bluetooth kinds the cache keeps the first scan for ever. */
  lemma FirstScanIsKept(lib: Library, v: seq<Option<DataItem>>, i: int)
    requires i == BTLE_SCAN_DATA_ITEM_ID || i == BT_SCAN_DATA_ITEM_ID
    requires i in lib.creatable && PlainStream(Stream(v, i)) && Stream(v, i) != []
    ensures i in After(lib, v).cache && After(lib, v).cache[i] == Stream(v, i)[0].item.content
  {
    CacheIsLatestReport(lib, v, i);
    FirstScanStays(lib.own, i, Stream(v, i));
    hide After, Latest, Stream;
  }

  // ---------- the kinds that are compared as a whole ----------

  /** Airplane mode, ENH, GPS state, NLP status, Wi-Fi hardware, service status, model,
      manufacturer, assisted GPS, screen, power, time zone, time, shutdown, TAC, MCC and MNC. */
  const WHOLE: set<int> := {0, 1, 2, 3, 4, 9, 10, 11, 13, 14, 15, 16, 17, 19, 20, 21}

  lemma WholeIsCompared(own: int -> Comparison, i: int, x: int, y: int)
    requires i in WHOLE
    ensures i in HANDLED && (Equality(own, i)(x, y) <==> x == y)
  {
  }

  /** Of these the cache has what arrived last, at each moment of every run. */
  lemma WholeKindIsCurrent(lib: Library, v: seq<Option<DataItem>>, i: int)
    requires i in WHOLE && i in lib.creatable && PlainStream(Stream(v, i))
    ensures AlwaysCurrent(lib, v, i)
  {
    forall x, y ensures i in HANDLED && (Equality(lib.own, i)(x, y) <==> x == y) { WholeIsCompared(lib.own, i, x, y); }
    CacheCurrentIff(lib, v, i);
  }

  /** The item differs from the one of its kind that arrived just before it, if any did. */
  predicate IsNews(v: seq<Option<DataItem>>, d: DataItem) {
    var es := Stream(v, d.id);
    es == [] || es[|es| - 1].item.content != d.item.content
  }

  // ---------- the network types in the cache ----------

  /** The network items that arrived. */
  function Networks(v: seq<Option<DataItem>>): seq<Event> {
    Stream(v, NETWORKINFO_DATA_ITEM_ID)
  }

  /** The cached network item, if there is one, names the types that are connected. */
  predicate MaskRight(lib: Library, v: seq<Option<DataItem>>)
    requires NetworkStream(Networks(v))
  {
    Networks(v) != [] ==>
      && NETWORKINFO_DATA_ITEM_ID in After(lib, v).cache
      && After(lib, v).cache[NETWORKINFO_DATA_ITEM_ID].NetworkInfo?
      && After(lib, v).cache[NETWORKINFO_DATA_ITEM_ID].allTypes == Connected(Networks(v))
  }

  /** The cached mask is the fold of all network events from the second one on. */
  lemma CachedMaskIsFold(lib: Library, v: seq<Option<DataItem>>)
    requires NetworkStream(Networks(v)) && Networks(v) != [] && NETWORKINFO_DATA_ITEM_ID in lib.creatable
    ensures NETWORKINFO_DATA_ITEM_ID in After(lib, v).cache
    ensures var c := After(lib, v).cache[NETWORKINFO_DATA_ITEM_ID];
            c.NetworkInfo? && c.allTypes == ConnectedFrom(Networks(v)[0].item.content.allTypes, Networks(v)[1..])
  {
    var es := Networks(v);
    CacheIsLatestReport(lib, v, NETWORKINFO_DATA_ITEM_ID);
    LastOfReport(Equality(lib.own, NETWORKINFO_DATA_ITEM_ID), es);
    MaskIsFold(Equality(lib.own, NETWORKINFO_DATA_ITEM_ID), es);
    hide After, Stream, Report;
  }

  lemma {:induction false} PrefixStream(v: seq<Option<DataItem>>, n: nat, i: int)
    requires n <= |v|
    ensures Stream(v[..n], i) <= Stream(v, i)
  {
    if n < |v| {
      PrefixStream(v[..|v| - 1], n, i);
      assert v[..|v| - 1][..n] == v[..n];
    } else {
      assert v[..n] == v;
    }
  }

  lemma {:induction false} FirstMoment(v: seq<Option<DataItem>>, i: int) returns (n: nat)
    requires Stream(v, i) != []
    ensures n <= |v| && |Stream(v[..n], i)| == 1
  {
    var before := v[..|v| - 1];
    if Stream(before, i) == [] {
      n := |v|;
      assert v[..n] == v;
    } else {
      n := FirstMoment(before, i);
      assert before[..n] == v[..n];
    }
  }

  lemma MaskRightNow(lib: Library, v: seq<Option<DataItem>>)
    requires NetworkStream(Networks(v)) && Networks(v) != [] && NETWORKINFO_DATA_ITEM_ID in lib.creatable
    requires StartsConnected(Networks(v)) || |Networks(v)| == 1
    ensures MaskRight(lib, v) <==> StartsConnected(Networks(v))
  {
    var same, es := Equality(lib.own, NETWORKINFO_DATA_ITEM_ID), Networks(v);
    CachedMaskIsFold(lib, v);
    MaskIsFold(same, es);
    MaskRightIffStartsConnected(same, es);
    if StartsConnected(es) { MaskIsConnected(same, es); } else { FirstMask(es); }
    hide After, Stream, Mask, ConnectedFrom, Equality;
  }

  /** Whatever arrives: the cached network mask is right at each moment if and only if the
      first network event, if there is one, is not a disconnection that names a type. */
  lemma CachedMaskRightIff(lib: Library, v: seq<Option<DataItem>>)
    requires NetworkStream(Networks(v)) && NETWORKINFO_DATA_ITEM_ID in lib.creatable
    ensures (forall n :: 0 <= n <= |v| ==> NetworkStream(Networks(v[..n])) && MaskRight(lib, v[..n])) <==>
            (Networks(v) != [] ==> StartsConnected(Networks(v)))
  {
    var es := Networks(v);
    forall n | 0 <= n <= |v|
      ensures NetworkStream(Networks(v[..n]))
      ensures es == [] || StartsConnected(es) ==> MaskRight(lib, v[..n])
    {
      PrefixStream(v, n, NETWORKINFO_DATA_ITEM_ID);
      hide After, Stream, ConnectedFrom;
      if Networks(v[..n]) != [] && StartsConnected(es) { MaskRightNow(lib, v[..n]); }
    }
    if es != [] && !StartsConnected(es) {
      var n := FirstMoment(v, NETWORKINFO_DATA_ITEM_ID);
      PrefixStream(v, n, NETWORKINFO_DATA_ITEM_ID);
      MaskRightNow(lib, v[..n]);
    }
  }

  // ---------- what a batch sends on ----------

  lemma {:induction false} ChangedIff(lib: Library, s: Store, v: seq<Option<DataItem>>, i: int)
    ensures i in UpdateAll(lib, s, v).ids <==>
            exists k :: 0 <= k < |v| && IsOf(v[k], i) && Changes(lib, UpdateAll(lib, s, v[..k]).store, v[k])
  {
    if v != [] {
      var before := v[..|v| - 1];
      ChangedIff(lib, s, before, i);
      hide Changes, Noted;
      forall k | 0 <= k < |before| ensures before[..k] == v[..k] { }
      assert v[..|v| - 1] == before;
    }
  }

  /** What is not sent is as it was, and what is sent is in the cache. */
  lemma {:induction false} UnsentIsUnchanged(lib: Library, s: Store, v: seq<Option<DataItem>>, i: int)
    ensures var u := UpdateAll(lib, s, v);
            && (i in u.ids ==> i in u.store.cache)
            && (i !in u.ids ==> (i in u.store.cache <==> i in s.cache) && (i in s.cache ==> u.store.cache[i] == s.cache[i]))
  {
    hide Changes;
    if v != [] { UnsentIsUnchanged(lib, s, v[..|v| - 1], i); }
  }

  lemma PassingChanges(lib: Library, v: seq<Option<DataItem>>, d: DataItem)
    requires d.id in HANDLED && d.id in lib.creatable && forall x :: Equality(lib.own, d.id)(x, x)
    ensures Changes(lib, After(lib, v), Some(d)) <==>
              !Repeats(Equality(lib.own, d.id), Report(Equality(lib.own, d.id), Stream(v, d.id)), d.item)
  {
    CacheIsLatestReport(lib, v, d.id);
    if Stream(v, d.id) != [] { ReportNotEmpty(Equality(lib.own, d.id), Stream(v, d.id)); }
    hide After, Stream, Report, Equality;
  }

  /** Whatever arrived before: a batch sends an item on if and only if an item of the kind
      in it does not repeat, by the comparison of the kind, what the report of all before
      it says last. */
  lemma SentIff(lib: Library, h: seq<Option<DataItem>>, v: seq<Option<DataItem>>, i: int)
    requires i in HANDLED && i in lib.creatable && forall x :: Equality(lib.own, i)(x, x)
    ensures var same := Equality(lib.own, i);
            i in UpdateAll(lib, After(lib, h), v).ids <==>
            exists k :: 0 <= k < |v| && IsOf(v[k], i) && !Repeats(same, Report(same, Stream(h + v[..k], i)), v[k].value.item)
  {
    hide UpdateAll, Changes, Report, Equality, Repeats;
    ChangedIff(lib, After(lib, h), v, i);
    forall k | 0 <= k < |v| && IsOf(v[k], i)
      ensures Changes(lib, UpdateAll(lib, After(lib, h), v[..k]).store, v[k]) <==>
                !Repeats(Equality(lib.own, i), Report(Equality(lib.own, i), Stream(h + v[..k], i)), v[k].value.item)
    {
      UpdateMore(lib, NewStore(), h, v[..k]);
      PassingChanges(lib, h + v[..k], v[k].value);
    }
  }

  /** The mask that a stream of network events makes of the mask of the first. */
  function FoldedMask(es: seq<Event>): BitMask
    requires NetworkStream(es) && es != []
  {
    ConnectedFrom(es[0].item.content.allTypes, es[1..])
  }

  /** The item is the first of its kind, or changes the mask. */
  predicate ChangesMask(v: seq<Option<DataItem>>, s: Item)
    requires NetworkStream(Networks(v)) && s.content.NetworkInfo?
  {
    Networks(v) != [] ==> FoldedMask(Networks(v) + [Reported(s)]) != FoldedMask(Networks(v))
  }

  lemma MaskChangeIsNoRepeat(same: Comparison, v: seq<Option<DataItem>>, s: Item)
    requires NetworkStream(Networks(v)) && s.content.NetworkInfo?
    ensures !Repeats(same, Report(same, Networks(v)), s) <==> ChangesMask(v, s)
  {
    var es := Networks(v);
    hide Stream;
    if es == [] {
      NothingReported(same);
    } else {
      var es' := es + [Reported(s)];
      assert es'[..|es|] == es && es'[0] == es[0];
      MaskIsFold(same, es);
      MaskIsFold(same, es');
      MaskStep(same, es');
      LastOfReport(same, es);
    }
  }

  /** A batch sends the network item on if and only if an item in it is the first of the
      kind or changes the mask that those before it make. */
  lemma NetworkIsSentIff(lib: Library, h: seq<Option<DataItem>>, v: seq<Option<DataItem>>)
    requires NetworkStream(Networks(h + v)) && NETWORKINFO_DATA_ITEM_ID in lib.creatable
    ensures forall k :: 0 <= k < |v| && IsOf(v[k], NETWORKINFO_DATA_ITEM_ID) ==>
              NetworkStream(Networks(h + v[..k])) && v[k].value.item.content.NetworkInfo?
    ensures NETWORKINFO_DATA_ITEM_ID in UpdateAll(lib, After(lib, h), v).ids <==>
            exists k :: 0 <= k < |v| && IsOf(v[k], NETWORKINFO_DATA_ITEM_ID) && ChangesMask(h + v[..k], v[k].value.item)
  {
    var i := NETWORKINFO_DATA_ITEM_ID;
    var same := Equality(lib.own, i);
    hide UpdateAll, Report, Repeats, ChangesMask, After, Stream;
    SentIff(lib, h, v, i);
    forall k | 0 <= k < |v| && IsOf(v[k], i)
      ensures NetworkStream(Networks(h + v[..k])) && v[k].value.item.content.NetworkInfo?
      ensures !Repeats(same, Report(same, Stream(h + v[..k], i)), v[k].value.item) <==> ChangesMask(h + v[..k], v[k].value.item)
    {
      NetworkBefore(h, v, k);
      MaskChangeIsNoRepeat(same, h + v[..k], v[k].value.item);
    }
  }

  lemma NetworkBefore(h: seq<Option<DataItem>>, v: seq<Option<DataItem>>, k: nat)
    requires k < |v| && IsOf(v[k], NETWORKINFO_DATA_ITEM_ID) && NetworkStream(Networks(h + v))
    ensures NetworkStream(Networks(h + v[..k])) && v[k].value.item.content.NetworkInfo?
  {
    var w, before := h + v[..k + 1], h + v[..k];
    assert w == (h + v)[..|h| + k + 1] && w[..|w| - 1] == before;
    PrefixStream(h + v, |h| + k + 1, NETWORKINFO_DATA_ITEM_ID);
    var es, last := Networks(w), Reported(v[k].value.item);
    assert es == Networks(before) + [last];
    hide Stream;
    assert es[|es| - 1] == last && forall n :: 0 <= n < |es| ==> Networks(h + v)[n] == es[n];
    assert forall n :: 0 <= n < |es| - 1 ==> Networks(before)[n] == es[n];
  }

  lemma NewsIsNoRepeat(lib: Library, v: seq<Option<DataItem>>, d: DataItem)
    requires d.id in WHOLE && d.item.content.Plain? && PlainStream(Stream(v, d.id))
    ensures var same := Equality(lib.own, d.id);
            !Repeats(same, Report(same, Stream(v, d.id)), d.item) <==> IsNews(v, d)
  {
    var same, es := Equality(lib.own, d.id), Stream(v, d.id);
    forall x, y ensures same(x, y) <==> x == y { WholeIsCompared(lib.own, d.id, x, y); }
    hide Equality, Stream;
    if es == [] {
      NothingReported(same);
    } else {
      UpToDateIff(same, es);
      assert es[..|es|] == es;
      ReportNotEmpty(same, es);
    }
  }

  /** And a batch sends one of these kinds on if and only if an item of the kind in it differs
      from the one that arrived just before it. */
  lemma WholeKindIsSentIff(lib: Library, h: seq<Option<DataItem>>, v: seq<Option<DataItem>>, i: int)
    requires i in WHOLE && i in lib.creatable && PlainStream(Stream(h + v, i))
    ensures i in UpdateAll(lib, After(lib, h), v).ids <==>
            exists k :: 0 <= k < |v| && IsOf(v[k], i) && IsNews(h + v[..k], v[k].value)
  {
    hide UpdateAll, Report, Equality, Repeats, IsNews, After, Stream;
    forall x, y ensures i in HANDLED && (Equality(lib.own, i)(x, y) <==> x == y) { WholeIsCompared(lib.own, i, x, y); }
    SentIff(lib, h, v, i);
    forall k | 0 <= k < |v| && IsOf(v[k], i)
      ensures !Repeats(Equality(lib.own, i), Report(Equality(lib.own, i), Stream(h + v[..k], i)), v[k].value.item)
         <==> IsNews(h + v[..k], v[k].value)
    {
      PlainBefore(h, v, k, i);
      NewsIsNoRepeat(lib, h + v[..k], v[k].value);
    }
  }

  lemma PlainBefore(h: seq<Option<DataItem>>, v: seq<Option<DataItem>>, k: nat, i: int)
    requires k < |v| && IsOf(v[k], i) && PlainStream(Stream(h + v, i))
    ensures PlainStream(Stream(h + v[..k], i)) && v[k].value.item.content.Plain?
  {
    var w, before := h + v[..k + 1], h + v[..k];
    assert w == (h + v)[..|h| + k + 1] && w[..|w| - 1] == before;
    PrefixStream(h + v, |h| + k + 1, i);
    var es, last := Stream(w, i), Reported(v[k].value.item);
    assert es == Stream(before, i) + [last];
    hide Stream;
    assert es[|es| - 1] == last && forall n :: 0 <= n < |es| ==> Stream(h + v, i)[n] == es[n];
    assert forall n :: 0 <= n < |es| - 1 ==> Stream(before, i)[n] == es[n];
  }

  // ---------- from the list to the batch ----------

  /** The items of a batch that a data item can be made for. */
  function Copies(lib: Library, dlist: seq<DataItem>): seq<Option<DataItem>> {
    if dlist == [] then []
    else Copies(lib, dlist[..|dlist| - 1]) + if dlist[|dlist| - 1].id in lib.creatable then [Some(dlist[|dlist| - 1])] else []
  }

  /** All items of a kind that can be made are copied, in order, and none of the others. */
  lemma {:induction false} CopiesAre(lib: Library, dlist: seq<DataItem>, i: int)
    ensures Stream(Copies(lib, dlist), i) == if i in lib.creatable then Given(dlist, i) else []
  {
    if dlist != [] {
      var before, d := dlist[..|dlist| - 1], dlist[|dlist| - 1];
      CopiesAre(lib, before, i);
      StreamLast(Copies(lib, before), Some(d), i);
      hide Stream;
      assert Copies(lib, dlist) == Copies(lib, before) + if d.id in lib.creatable then [Some(d)] else [];
      if d.id !in lib.creatable { assert Copies(lib, dlist) == Copies(lib, before); }
    }
  }

  lemma StreamLast(v: seq<Option<DataItem>>, d: Option<DataItem>, i: int)
    ensures Stream(v + [d], i) == Stream(v, i) + if IsOf(d, i) then [Reported(d.value.item)] else []
  {
    assert (v + [d])[..|v|] == v;
  }

  /** The items of one kind in a list. */
  function Given(dlist: seq<DataItem>, i: int): seq<Event> {
    if dlist == [] then []
    else Given(dlist[..|dlist| - 1], i) + if dlist[|dlist| - 1].id == i then [Reported(dlist[|dlist| - 1].item)] else []
  }

  lemma {:induction false} NullsChangeNothing(lib: Library, s: Store, n: nat, v: seq<Option<DataItem>>)
    ensures UpdateAll(lib, s, seq(n, i => None) + v) == UpdateAll(lib, s, v)
    decreases |v|, n
  {
    hide Changes, Noted;
    var nulls: seq<Option<DataItem>> := seq(n, i => None);
    if v != [] {
      assert (nulls + v)[..n + |v| - 1] == nulls + v[..|v| - 1];
      NullsChangeNothing(lib, s, n, v[..|v| - 1]);
    } else if n > 0 {
      assert nulls + v == nulls && nulls[..n - 1] == seq(n - 1, i => None) + v;
      NullsChangeNothing(lib, s, n - 1, v);
    }
  }
}
