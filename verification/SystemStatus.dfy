/** The report history of the system status: the last few distinct values of each kind of
    item, where a network report is first merged with the one before it. */
module SystemStatus {
  import opened Wrappers

  const MAX_ITEM := 5

  const NETWORKINFO_DATA_ITEM_ID := 5
  const RILSERVICEINFO_DATA_ITEM_ID := 7
  const RILCELLINFO_DATA_ITEM_ID := 8
  const WIFI_SUPPLICANT_STATUS_DATA_ITEM_ID := 18
  const BTLE_SCAN_DATA_ITEM_ID := 22
  const BT_SCAN_DATA_ITEM_ID := 23

  /** The data items that eventDataItemNotify has a case for. */
  const HANDLED: set<int> := set i: int | 0 <= i <= 23 && i != 6 && i != 12

  /** How two values of a kind compare. */
  type Comparison = (int, int) -> bool

  /** The equals() of each kind. Two Bluetooth scans always compare as equal. Cell and
      service information and the state of the supplicant have comparisons of their own,
      which need not be of the whole value. All other values are compared as a whole. */
  function Equality(own: int -> Comparison, id: int): Comparison {
    if id == BTLE_SCAN_DATA_ITEM_ID || id == BT_SCAN_DATA_ITEM_ID then (x, y) => true
    else if id == RILSERVICEINFO_DATA_ITEM_ID || id == RILCELLINFO_DATA_ITEM_ID || id == WIFI_SUPPLICANT_STATUS_DATA_ITEM_ID then own(id)
    else (x, y) => x == y
  }

  /** What an item says. A network item carries a bit mask of network types; rest stands
      for its other fields. */
  datatype Content = Plain(value: int) | NetworkInfo(allTypes: BitMask, connected: bool, rest: int) {
    predicate Equals(same: Comparison, peer: Content) {
      match this
      case Plain(value) => peer.Plain? && same(value, peer.value)
      case NetworkInfo(allTypes, _, _) => peer.NetworkInfo? && allTypes == peer.allTypes
    }

    /** A network item is merged with the current one. */
    function Collate(cur: Content): Content {
      if NetworkInfo? && cur.NetworkInfo? then this.(allTypes := NextTypes(cur.allTypes, this)) else this
    }
  }

  /** A reported item and when it was reported. */
  datatype Item = Item(content: Content, utcReported: int)

  /** The connected types after a network event, given those before: a connection adds its
      types, a disconnection takes its types away, or all of them if it names none. */
  function NextTypes(before: BitMask, s: Content): BitMask
    requires s.NetworkInfo?
  {
    if s.connected then s.allTypes + before else if s.allTypes != {} then before - s.allTypes else s.allTypes
  }

  function Last(report: seq<Item>): Item
    requires report != []
  {
    report[|report| - 1]
  }

  /** The item as it is compared and stored. */
  function Collated(report: seq<Item>, s: Item): Item {
    if report == [] then s else s.(content := s.content.Collate(Last(report).content))
  }

  predicate Repeats(same: Comparison, report: seq<Item>, s: Item) {
    report != [] && Last(report).content.Equals(same, Collated(report, s).content)
  }

  /** A repeat only renews the time of the latest entry. */
  function Renewed(report: seq<Item>, s: Item): seq<Item>
    requires report != []
  {
    report[..|report| - 1] + [Last(report).(utcReported := s.utcReported)]
  }

  function Newest(items: seq<Item>): seq<Item> {
    if |items| <= MAX_ITEM then items else items[|items| - MAX_ITEM..]
  }

  class SystemStatus {
    /** The comparisons that the kinds with one of their own have. */
    const own: int -> Comparison
    /** The report of each kind. */
    var mCache: map<int, seq<Item>>

    constructor (own: int -> Comparison)
      ensures this.own == own && mCache == map i | i in HANDLED :: []
    {
      this.own := own;
      mCache := map i | i in HANDLED :: [];
    }

    /** The oldest entry of a report that has become too long goes. */
    method Bound(id: int)
      requires id in mCache
      modifies this
      ensures mCache == old(mCache)[id := if |old(mCache)[id]| > MAX_ITEM then old(mCache)[id][1..] else old(mCache)[id]]
    {
      if |mCache[id]| > MAX_ITEM {
        mCache := mCache[id := mCache[id][1..]];
      }
    }

    /** setIteminReport. The collated item is also stored where the item came from. */
    method SetItem(id: int, s: Item) returns (changed: bool, stored: Item)
      requires id in mCache
      modifies this
      ensures mCache == old(mCache)[id := Set(Equality(own, id), old(mCache)[id], s)]
      ensures changed == !Repeats(Equality(own, id), old(mCache)[id], s) && stored == Collated(old(mCache)[id], s)
    {
      stored := s;
      var report := mCache[id];
      if report != [] {
        var back := report[|report| - 1];
        stored := s.(content := s.content.Collate(back.content));
        if back.content.Equals(Equality(own, id), stored.content) {
          assert report[|report| - 1 := back.(utcReported := stored.utcReported)] == Renewed(report, s);
          mCache := mCache[id := report[|report| - 1 := back.(utcReported := stored.utcReported)]];
          return false, stored;
        }
      }
      mCache := mCache[id := report + [stored]];
      Bound(id);
      changed := true;
    }

    /** setDefaultIteminReport */
    method SetDefault(id: int, s: Item)
      requires id in mCache
      modifies this
      ensures mCache == old(mCache)[id := Push(old(mCache)[id], s)]
    {
      mCache := mCache[id := mCache[id] + [s]];
      Bound(id);
    }

    /** getIteminReport */
    method GetItem(id: int) returns (reportOut: seq<Item>)
      requires id in mCache
      ensures reportOut == if mCache[id] == [] then [] else [Last(mCache[id])]
    {
      reportOut := [];
      if |mCache[id]| >= 1 {
        reportOut := reportOut + [mCache[id][|mCache[id]| - 1]];
      }
    }

    /** True if the item is of a kind that is handled and does not repeat the latest of its
        kind. The item itself is then what is stored. */
    method EventDataItemNotify(id: int, dataitem: Item) returns (ret: bool, stored: Item)
      requires HANDLED <= mCache.Keys
      modifies this
      ensures if id !in HANDLED then !ret && stored == dataitem && mCache == old(mCache)
              else
                && mCache == old(mCache)[id := Set(Equality(own, id), old(mCache)[id], dataitem)]
                && ret == !Repeats(Equality(own, id), old(mCache)[id], dataitem) && stored == Collated(old(mCache)[id], dataitem)
    {
      ret, stored := false, dataitem;
      if id in HANDLED {
        ret, stored := SetItem(id, dataitem);
      }
    }
  }

  function Push(report: seq<Item>, s: Item): seq<Item> {
    if |report| + 1 > MAX_ITEM then (report + [s])[1..] else report + [s]
  }

  function Set(same: Comparison, report: seq<Item>, s: Item): seq<Item> {
    if Repeats(same, report, s) then Renewed(report, s) else Push(report, Collated(report, s))
  }

  /** What the report then says. */
  lemma SetLast(same: Comparison, report: seq<Item>, s: Item)
    ensures Set(same, report, s) != []
    ensures Last(Set(same, report, s)).content
         == if Repeats(same, report, s) then Last(report).content else Collated(report, s).content
  {
  }

  // ---------- streams of events ----------

  datatype Event = Reported(item: Item) | Default(item: Item)

  function Report(same: Comparison, es: seq<Event>): seq<Item> {
    if es == [] then []
    else
      var before := Report(same, es[..|es| - 1]);
      match es[|es| - 1]
      case Reported(s) => Set(same, before, s)
      case Default(s) => Push(before, s)
  }

  /** The whole history without a bound: repeats of the latest entry dropped. */
  function History(same: Comparison, es: seq<Event>): seq<Item> {
    if es == [] then []
    else
      var before := History(same, es[..|es| - 1]);
      match es[|es| - 1]
      case Reported(s) => if Repeats(same, before, s) then Renewed(before, s) else before + [Collated(before, s)]
      case Default(s) => before + [s]
  }

  lemma NewestStep(h: seq<Item>, s: Item)
    ensures Newest(h + [s]) == Push(Newest(h), s)
    ensures h != [] ==> Newest(h) != [] && Last(Newest(h)) == Last(h) && Newest(Renewed(h, s)) == Renewed(Newest(h), s)
    ensures h == [] <==> Newest(h) == []
  {
  }

  /** Over every stream of events, the report is the last at most 5 entries of the
      history. */
  lemma {:induction false} ReportIsNewest(same: Comparison, es: seq<Event>)
    ensures Report(same, es) == Newest(History(same, es)) && |Report(same, es)| <= MAX_ITEM
  {
    if es != [] {
      ReportIsNewest(same, es[..|es| - 1]);
      var h, s := History(same, es[..|es| - 1]), es[|es| - 1].item;
      NewestStep(h, s);
      NewestStep(h, Collated(h, s));
      hide Newest, Push, Renewed;
    }
  }

  /** No two neighbours in a history of reports alone are equal. */
  lemma {:induction false} HistoryHasNoRepeats(same: Comparison, es: seq<Event>, i: nat)
    requires forall k :: 0 <= k < |es| ==> es[k].Reported? && (es[k].item.content.Plain? <==> es[0].item.content.Plain?)
    requires i + 1 < |History(same, es)|
    ensures !History(same, es)[i].content.Equals(same, History(same, es)[i + 1].content)
  {
    var h := History(same, es[..|es| - 1]);
    var s := es[|es| - 1].item;
    SameKind(same, es[..|es| - 1]);
    if i + 1 < |h| {
      HistoryHasNoRepeats(same, es[..|es| - 1], i);
    }
  }

  lemma {:induction false} SameKind(same: Comparison, es: seq<Event>)
    requires forall k :: 0 <= k < |es| ==> es[k].Reported? && (es[k].item.content.Plain? <==> es[0].item.content.Plain?)
    ensures es != [] ==> History(same, es) != []
    ensures forall x :: x in History(same, es) ==> es != [] && (x.content.Plain? <==> es[0].item.content.Plain?)
  {
    if es != [] {
      SameKind(same, es[..|es| - 1]);
    }
  }

  // ---------- is the report up to date ----------

  lemma ReportNotEmpty(same: Comparison, es: seq<Event>)
    requires es != []
    ensures Report(same, es) != []
  {
    SetLast(same, Report(same, es[..|es| - 1]), es[|es| - 1].item);
  }

  /** What the latest entry says. */
  function Latest(same: Comparison, es: seq<Event>): Content
    requires es != []
  {
    ReportNotEmpty(same, es);
    Last(Report(same, es)).content
  }

  predicate PlainStream(es: seq<Event>) {
    forall k :: 0 <= k < |es| ==> es[k].Reported? && es[k].item.content.Plain?
  }

  /** The latest entry has the time of the latest event, be it a repeat or not, and there
      are never more than five entries, nor fewer than there were up to that. */
  lemma {:induction false} TimesAndLength(same: Comparison, es: seq<Event>)
    ensures |Report(same, es)| == if |History(same, es)| <= 5 then |History(same, es)| else 5
    ensures es != [] ==> Report(same, es) != [] && Last(Report(same, es)).utcReported == es[|es| - 1].item.utcReported
  {
    ReportIsNewest(same, es);
    if es != [] { SetTime(same, Report(same, es[..|es| - 1]), es[|es| - 1].item); }
  }

  lemma SetTime(same: Comparison, report: seq<Item>, s: Item)
    ensures Set(same, report, s) != [] && Last(Set(same, report, s)).utcReported == s.utcReported
    ensures Push(report, s) != [] && Last(Push(report, s)).utcReported == s.utcReported
  {
  }

  /** At each moment the report says what was reported last. */
  ghost predicate UpToDate(same: Comparison, es: seq<Event>) {
    forall n :: 1 <= n <= |es| ==> Latest(same, es[..n]) == es[n - 1].item.content
  }

  /** No value differs from the one before it and yet compares as equal. */
  predicate NoFalseRepeat(same: Comparison, es: seq<Event>)
    requires PlainStream(es)
  {
    forall n :: 1 <= n < |es| && same(es[n - 1].item.content.value, es[n].item.content.value) ==>
                  es[n - 1].item.content == es[n].item.content
  }

  lemma LatestStep(same: Comparison, es: seq<Event>)
    requires PlainStream(es) && es != []
    ensures Latest(same, es) ==
            if |es| > 1 && Latest(same, es[..|es| - 1]).Equals(same, es[|es| - 1].item.content) then Latest(same, es[..|es| - 1])
            else es[|es| - 1].item.content
  {
    SetLast(same, Report(same, es[..|es| - 1]), es[|es| - 1].item);
    if |es| > 1 { ReportNotEmpty(same, es[..|es| - 1]); } else { assert es[..0] == [] && Report(same, []) == []; }
    hide Set;
  }

  lemma UpToDateStep(same: Comparison, es: seq<Event>)
    requires es != []
    ensures UpToDate(same, es) <==> UpToDate(same, es[..|es| - 1]) && Latest(same, es) == es[|es| - 1].item.content
  {
    hide Latest, Report;
    var before := es[..|es| - 1];
    assert es[..|es|] == es;
    forall n | 1 <= n <= |before|
      ensures Latest(same, before[..n]) == before[n - 1].item.content <==> Latest(same, es[..n]) == es[n - 1].item.content
    {
      assert before[..n] == es[..n];
    }
  }

  lemma NothingYet(same: Comparison)
    ensures UpToDate(same, [])
  {
  }

  lemma FalseRepeatStep(same: Comparison, es: seq<Event>)
    requires PlainStream(es) && |es| > 1
    ensures var n := |es| - 1;
            NoFalseRepeat(same, es) <==>
              && NoFalseRepeat(same, es[..n])
              && (same(es[n - 1].item.content.value, es[n].item.content.value) ==> es[n - 1].item.content == es[n].item.content)
  {
    var before := es[..|es| - 1];
    assert forall n :: 0 <= n < |before| ==> before[n] == es[n];
  }

  /** Over every stream of values of one kind: the report is up to date at each moment if
      and only if no value in it is taken for a repeat of a different one before it. */
  lemma {:induction false} UpToDateIff(same: Comparison, es: seq<Event>)
    requires PlainStream(es)
    ensures UpToDate(same, es) <==> NoFalseRepeat(same, es)
  {
    hide UpToDate, Latest, Report;
    if es == [] {
      NothingYet(same);
    } else {
      var before := es[..|es| - 1];
      UpToDateIff(same, before);
      UpToDateStep(same, es);
      LatestStep(same, es);
      if |es| > 1 {
        UpToDateStep(same, before);
        FalseRepeatStep(same, es);
      } else {
        NothingYet(same);
        assert before == [];
      }
    }
  }

  /** So a kind is always up to date if and only if values that compare as equal are equal. */
  lemma KindUpToDateIff(same: Comparison)
    ensures (forall es :: PlainStream(es) ==> UpToDate(same, es)) <==> forall x, y :: same(x, y) ==> x == y
  {
    if forall es :: PlainStream(es) ==> UpToDate(same, es) {
      forall x, y | same(x, y) ensures x == y {
        var es := [Reported(Item(Plain(x), 0)), Reported(Item(Plain(y), 0))];
        assert PlainStream(es) && UpToDate(same, es);
        UpToDateIff(same, es);
        assert es[1 - 1].item.content == es[1].item.content;
      }
    } else {
      var es :| PlainStream(es) && !UpToDate(same, es);
      UpToDateIff(same, es);
    }
  }

  /** The Bluetooth kinds are not: the report says for ever what the first scan said. */
  lemma {:induction false} FirstScanStays(own: int -> Comparison, id: int, es: seq<Event>)
    requires id == BTLE_SCAN_DATA_ITEM_ID || id == BT_SCAN_DATA_ITEM_ID
    requires PlainStream(es) && es != []
    ensures Latest(Equality(own, id), es) == es[0].item.content
  {
    LatestStep(Equality(own, id), es);
    if |es| > 1 { FirstScanStays(own, id, es[..|es| - 1]); }
    hide Latest;
  }

  // ---------- network types ----------

  predicate NetworkStream(es: seq<Event>) {
    forall k :: 0 <= k < |es| ==> es[k].Reported? && es[k].item.content.NetworkInfo?
  }

  /** The types that are connected after a stream, starting from some. */
  function ConnectedFrom(types: BitMask, es: seq<Event>): BitMask
    requires NetworkStream(es)
  {
    if es == [] then types
    else
      NextTypes(ConnectedFrom(types, es[..|es| - 1]), es[|es| - 1].item.content)
  }

  function Connected(es: seq<Event>): BitMask
    requires NetworkStream(es)
  {
    ConnectedFrom({}, es)
  }

  /** The mask in the latest network report. */
  function Mask(same: Comparison, es: seq<Event>): BitMask
    requires NetworkStream(es) && es != []
  {
    SameKind(same, es);
    ReportIsNewest(same, es);
    Last(Report(same, es)).content.allTypes
  }

  lemma LastOfReport(same: Comparison, es: seq<Event>)
    requires NetworkStream(es) && es != []
    ensures Report(same, es) != [] && Last(Report(same, es)).content.NetworkInfo?
  {
    SameKind(same, es);
    ReportIsNewest(same, es);
  }

  lemma MaskStep(same: Comparison, es: seq<Event>)
    requires NetworkStream(es) && |es| > 1
    ensures Mask(same, es) == NextTypes(Mask(same, es[..|es| - 1]), es[|es| - 1].item.content)
  {
    var before := es[..|es| - 1];
    LastOfReport(same, before);
    LastOfReport(same, es);
    SetLast(same, Report(same, before), es[|es| - 1].item);
    hide NextTypes, NetworkStream, Set;
  }

  /** The mask is the fold of the stream from the second event on, starting with what the
      first event says, whether it connects or not. */
  lemma {:induction false} MaskIsFold(same: Comparison, es: seq<Event>)
    requires NetworkStream(es) && es != []
    ensures Mask(same, es) == ConnectedFrom(es[0].item.content.allTypes, es[1..])
  {
    hide NextTypes;
    if |es| == 1 {
      assert es[..0] == [] && Report(same, []) == [];
    } else {
      hide Mask;
      MaskStep(same, es);
      var before := es[..|es| - 1];
      MaskIsFold(same, before);
      assert es[1..][..|es| - 2] == before[1..];
    }
  }

  lemma {:induction false} ConnectedFromFirst(types: BitMask, es: seq<Event>)
    requires NetworkStream(es) && es != []
    ensures ConnectedFrom(types, es) == ConnectedFrom(ConnectedFrom(types, es[..1]), es[1..])
  {
    hide NextTypes;
    if |es| > 1 {
      ConnectedFromFirst(types, es[..|es| - 1]);
      assert es[..|es| - 1][..1] == es[..1];
      assert es[1..][..|es| - 2] == es[..|es| - 1][1..];
    } else {
      assert es[..1] == es;
    }
  }

  /** The first event is not a disconnection that names a type. */
  predicate StartsConnected(es: seq<Event>)
    requires NetworkStream(es) && es != []
  {
    es[0].item.content.connected || es[0].item.content.allTypes == {}
  }

  lemma MaskIsConnected(same: Comparison, es: seq<Event>)
    requires NetworkStream(es) && es != [] && StartsConnected(es)
    ensures Mask(same, es) == Connected(es)
  {
    MaskIsFold(same, es);
    ConnectedFromFirst({}, es);
    assert es[..1][..0] == [] && ConnectedFrom({}, []) == {};
    assert es[0].item.content.allTypes + {} == es[0].item.content.allTypes;
  }

  /** Over every stream the mask tells at each moment which types are connected, if and
      only if the stream does not start with a disconnection that names a type. */
  lemma MaskRightIffStartsConnected(same: Comparison, es: seq<Event>)
    requires NetworkStream(es) && es != []
    ensures StartsConnected(es) <==> forall n :: 1 <= n <= |es| ==> Mask(same, es[..n]) == Connected(es[..n])
  {
    if StartsConnected(es) {
      forall n | 1 <= n <= |es| ensures Mask(same, es[..n]) == Connected(es[..n]) { MaskIsConnected(same, es[..n]); }
    } else {
      var first := es[..1];
      MaskIsFold(same, first);
      FirstMask(first);
      assert Mask(same, first) != Connected(first);
    }
  }

  /** A first disconnection that names a type is taken for what it says. */
  lemma FirstMask(es: seq<Event>)
    requires NetworkStream(es) && |es| == 1 && !StartsConnected(es)
    ensures ConnectedFrom(es[0].item.content.allTypes, es[1..]) != Connected(es)
  {
    assert es[1..] == [] && es[..0] == [] && ConnectedFrom({}, []) == {};
  }

  // ---------- type by type ----------

  predicate TurnsOn(e: Event, b: nat) {
    e.item.content.NetworkInfo? && e.item.content.connected && b in e.item.content.allTypes
  }

  predicate TurnsOff(e: Event, b: nat) {
    e.item.content.NetworkInfo? && !e.item.content.connected && (e.item.content.allTypes == {} || b in e.item.content.allTypes)
  }

  /** Some event turned the type on and no later one turned it off. */
  ghost predicate OnAfter(es: seq<Event>, b: nat) {
    exists i :: 0 <= i < |es| && TurnsOn(es[i], b) && forall j :: i < j < |es| ==> !TurnsOff(es[j], b)
  }

  lemma OnStep(es: seq<Event>, b: nat)
    requires es != []
    ensures OnAfter(es, b) <==> TurnsOn(es[|es| - 1], b) || (OnAfter(es[..|es| - 1], b) && !TurnsOff(es[|es| - 1], b))
  {
    var before, n := es[..|es| - 1], |es| - 1;
    if OnAfter(es, b) && !TurnsOn(es[n], b) {
      var i :| 0 <= i < |es| && TurnsOn(es[i], b) && forall j :: i < j < |es| ==> !TurnsOff(es[j], b);
      assert TurnsOn(before[i], b) && forall j :: i < j < |before| ==> before[j] == es[j];
    }
    if OnAfter(before, b) && !TurnsOff(es[n], b) {
      var i :| 0 <= i < |before| && TurnsOn(before[i], b) && forall j :: i < j < |before| ==> !TurnsOff(before[j], b);
      assert TurnsOn(es[i], b) && forall j :: i < j < |before| ==> before[j] == es[j];
    }
  }

  /** A type is connected after a stream if and only if some event turned it on and no
      later one turned it off. */
  lemma {:induction false} ConnectedTypeByType(es: seq<Event>, b: nat)
    requires NetworkStream(es)
    ensures b in Connected(es) <==> OnAfter(es, b)
  {
    if es != [] {
      ConnectedTypeByType(es[..|es| - 1], b);
      OnStep(es, b);
    }
  }
}
