/** The doubly linked list that serves as a queue: elements are added at the head and
    removed at the tail. Its pointers are proved to stand for a sequence. */
module LinkedList {
  import opened Wrappers

  datatype Status = Ok | InvalidParameter | InvalidHandle | Unavailable

  /** An object in the list, and whether it came with a function to free it. */
  datatype Item = Item(data: int, dealloc: bool)

  class Element {
    var next: Element?
    var prev: Element?
    const item: Item

    constructor (item: Item)
      ensures this.item == item && next == null && prev == null
    {
      this.item := item;
      next, prev := null, null;
    }
  }

  ghost function Items(nodes: seq<Element>): seq<Item> {
    seq(|nodes|, i requires 0 <= i < |nodes| => nodes[i].item)
  }

  class ListState {
    var pHead: Element?
    var pTail: Element?
    /** The objects that a free function has been called on. */
    var freed: seq<int>
    ghost var nodes: seq<Element>
    ghost var Repr: set<object>

    /** Each next pointer leads to the following element and each prev pointer back. */
    ghost predicate Valid()
      reads this, Repr
      ensures Valid() ==> this in Repr
    {
      && this in Repr && (forall i :: 0 <= i < |nodes| ==> nodes[i] in Repr)
      && (forall i, j :: 0 <= i < j < |nodes| ==> nodes[i] != nodes[j])
      && pHead == (if nodes == [] then null else nodes[0])
      && pTail == (if nodes == [] then null else nodes[|nodes| - 1])
      && (forall i {:trigger nodes[i].next} :: 0 <= i < |nodes| ==> nodes[i].next == if i + 1 < |nodes| then nodes[i + 1] else null)
      && (forall i {:trigger nodes[i].prev} :: 0 <= i < |nodes| ==> nodes[i].prev == if i > 0 then nodes[i - 1] else null)
    }

    ghost function Contents(): seq<Item>
      reads this
    {
      Items(nodes)
    }

    constructor ()
      ensures Valid() && fresh(Repr) && Contents() == [] && freed == []
    {
      pHead, pTail, freed, nodes, Repr := null, null, [], [], {this};
    }
  }

  ghost function Footprint(list: ListState?): set<object>
    reads list
  {
    if list == null then {} else list.Repr
  }

  datatype Op = OpAdd(item: Item) | OpRemove

  /** What an addition or a removal leaves, and what it takes out. */
  function Step(c: seq<Item>, op: Op): (seq<Item>, Option<Item>) {
    match op
    case OpAdd(x) => ([x] + c, None)
    case OpRemove => if c == [] then (c, None) else (c[..|c| - 1], Some(c[|c| - 1]))
  }

  /** Adds an object at the head. */
  method Add(list: ListState?, data: Option<int>, dealloc: bool) returns (err: Status)
    requires list != null ==> list.Valid()
    modifies Footprint(list)
    ensures err == if list == null then InvalidHandle else if data.None? then InvalidParameter else Ok
    ensures list != null ==>
              && list.Valid() && fresh(list.Repr - old(list.Repr)) && list.freed == old(list.freed)
              && list.Contents() == if data.None? then old(list.Contents())
                                    else Step(old(list.Contents()), OpAdd(Item(data.value, dealloc))).0
  {
    if list == null {
      return InvalidHandle;
    }
    if data.None? {
      return InvalidParameter;
    }
    var elem := new Element(Item(data.value, dealloc));
    var tmp := list.pHead;
    list.pHead := elem;
    elem.next := tmp;
    if tmp != null {
      tmp.prev := elem;
    } else {
      list.pTail := elem;
    }
    list.nodes := [elem] + list.nodes;
    list.Repr := list.Repr + {elem};
    assert list.Contents() == [elem.item] + old(list.Contents());
    return Ok;
  }

  /** Removes the object at the tail. */
  method Remove(list: ListState?, wanted: bool) returns (err: Status, data: Option<int>)
    requires list != null ==> list.Valid()
    modifies Footprint(list)
    ensures err == if list == null then InvalidHandle else if !wanted then InvalidParameter
                   else if old(list.Contents()) == [] then Unavailable else Ok
    ensures list != null ==> list.Valid() && list.Repr == old(list.Repr) && list.freed == old(list.freed)
    ensures list != null && wanted ==>
              var (rest, taken) := Step(old(list.Contents()), OpRemove);
              list.Contents() == rest && data == if taken.None? then None else Some(taken.value.data)
    ensures list == null || !wanted ==> data == None && (list != null ==> list.Contents() == old(list.Contents()))
  {
    if list == null {
      return InvalidHandle, None;
    }
    if !wanted {
      return InvalidParameter, None;
    }
    if list.pTail == null {
      return Unavailable, None;
    }
    var tmp := list.pTail;
    list.pTail := tmp.prev;
    if list.pTail != null {
      list.pTail.next := null;
    } else {
      list.pHead := list.pTail;
    }
    list.nodes := list.nodes[..|list.nodes| - 1];
    return Ok, Some(tmp.item.data);
  }

  method Empty(list: ListState?) returns (r: Option<bool>)
    requires list != null ==> list.Valid()
    ensures r == if list == null then None else Some(list.Contents() == [])
  {
    r := if list == null then None else Some(list.pHead == null);
  }

  /** The objects among these that are freed when their elements go, in order. */
  function Freed(items: seq<Item>): seq<int> {
    if items == [] then []
    else (if items[0].dealloc then [items[0].data] else []) + Freed(items[1..])
  }

  /** Of each object it is freed in its turn if it came with a free function. */
  lemma {:induction false} FreedInTurn(a: seq<Item>, x: Item, b: seq<Item>)
    ensures Freed(a + [x] + b) == Freed(a) + (if x.dealloc then [x.data] else []) + Freed(b)
    ensures Freed([]) == []
  {
    var all := a + [x] + b;
    if a == [] {
      assert all == [x] + b && all[1..] == b;
    } else {
      FreedInTurn(a[1..], x, b);
      assert all[0] == a[0] && all[1..] == a[1..] + [x] + b;
    }
  }

  /** Empties the list, freeing the objects that came with a free function. */
  method Flush(list: ListState?) returns (err: Status)
    requires list != null ==> list.Valid()
    modifies Footprint(list)
    ensures err == if list == null then InvalidHandle else Ok
    ensures list != null ==> list.Valid() && list.Repr == old(list.Repr) && list.Contents() == []
    ensures list != null ==> list.freed == old(list.freed) + Freed(old(list.Contents()))
  {
    if list == null {
      return InvalidHandle;
    }
    ghost var all, n := list.nodes, 0;
    while list.pHead != null
      invariant 0 <= n <= |all| && list.pHead == if n < |all| then all[n] else null
      invariant list.Repr == old(list.Repr) && list.nodes == all
      invariant forall i {:trigger all[i].next} :: 0 <= i < |all| ==> all[i].next == if i + 1 < |all| then all[i + 1] else null
      invariant list.freed + Freed(Items(all)[n..]) == old(list.freed) + Freed(Items(all))
      decreases |all| - n
    {
      var tmp := list.pHead.next;
      if list.pHead.item.dealloc {
        list.freed := list.freed + [list.pHead.item.data];
      }
      list.pHead := tmp;
      n := n + 1;
    }
    list.pTail := null;
    list.nodes := [];
    return Ok;
  }

  /** The first position, counted from the head, that holds a match. */
  function FirstMatch(items: seq<Item>, equal: int -> bool): nat {
    if items == [] || equal(items[0].data) then 0 else 1 + FirstMatch(items[1..], equal)
  }

  /** FirstMatch is the position of a match with none before it, or the length. */
  lemma {:induction false} FirstMatchIsFirst(items: seq<Item>, equal: int -> bool)
    ensures var m := FirstMatch(items, equal);
            && m <= |items|
            && (m < |items| ==> equal(items[m].data))
            && (forall i :: 0 <= i < m ==> !equal(items[i].data))
  {
    if items != [] { FirstMatchIsFirst(items[1..], equal); }
  }

  /** Takes an element out from between its neighbours. */
  method Unlink(list: ListState, tmp: Element, ghost n: nat)
    requires list.Valid() && n < |list.nodes| && tmp == list.nodes[n]
    modifies list.Repr
    ensures list.Valid() && list.Repr == old(list.Repr) && list.freed == old(list.freed)
    ensures list.nodes == old(list.nodes)[..n] + old(list.nodes)[n + 1..]
  {
    if tmp.prev == null {
      list.pHead := tmp.next;
    } else {
      tmp.prev.next := tmp.next;
    }
    if tmp.next == null {
      list.pTail := tmp.prev;
    } else {
      tmp.next.prev := tmp.prev;
    }
    tmp.prev, tmp.next := null, null;
    list.nodes := list.nodes[..n] + list.nodes[n + 1..];
  }

  lemma ItemsWithout(nodes: seq<Element>, n: nat)
    requires n < |nodes|
    ensures Items(nodes[..n] + nodes[n + 1..]) == Items(nodes)[..n] + Items(nodes)[n + 1..]
  {
  }

  /** What a search that stops at position m reports, leaves and frees: the match is
      reported if wanted, and if it is taken out but not wanted it is freed. */
  function Searched(c: seq<Item>, m: nat, wanted: bool, rmIfFound: bool): (Option<int>, seq<Item>, seq<int>) {
    if m >= |c| then (None, c, [])
    else
      (if wanted then Some(c[m].data) else None,
       if rmIfFound then c[..m] + c[m + 1..] else c,
       if rmIfFound && !wanted && c[m].dealloc then [c[m].data] else [])
  }

  /** An object is never both handed out and freed; one that is taken out is handed out, or
      freed if it can be; and one that stays in the list is not freed. */
  lemma SearchKeepsOwnership(c: seq<Item>, m: nat, wanted: bool, rmIfFound: bool)
    ensures
      var (data, left, freed) := Searched(c, m, wanted, rmIfFound);
      && (data.Some? ==> freed == [] && wanted && m < |c| && data.value == c[m].data)
      && (|left| == |c| ==> left == c && freed == [])
      && (|left| != |c| ==> m < |c| && |left| == |c| - 1 && left[..m] == c[..m] && left[m..] == c[m + 1..])
      && (|left| != |c| && data == None ==> freed == if m < |c| && c[m].dealloc then [c[m].data] else [])
      && (m < |c| && wanted ==> data.Some?) && (m < |c| && rmIfFound ==> |left| != |c|)
  {
  }

  method TakeMatch(list: ListState, tmp: Element, wanted: bool, rmIfFound: bool, ghost n: nat) returns (data: Option<int>)
    requires list.Valid() && n < |list.nodes| && tmp == list.nodes[n]
    modifies list.Repr
    ensures list.Valid() && list.Repr == old(list.Repr)
    ensures var r := Searched(old(list.Contents()), n, wanted, rmIfFound);
            data == r.0 && list.Contents() == r.1 && list.freed == old(list.freed) + r.2
  {
    data := None;
    if wanted {
      data := Some(tmp.item.data);
    }
    if rmIfFound {
      Unlink(list, tmp, n);
      ItemsWithout(old(list.nodes), n);
      hide Items;
      if !wanted && tmp.item.dealloc {
        list.freed := list.freed + [tmp.item.data];
      }
    }
  }

  /** Looks for the first match from the head. */
  method Search(list: ListState?, equal: Option<int -> bool>, wanted: bool, rmIfFound: bool) returns (err: Status, data: Option<int>)
    requires list != null ==> list.Valid()
    modifies Footprint(list)
    ensures err == if list == null || equal.None? then InvalidHandle
                   else if old(list.Contents()) == [] then Unavailable else Ok
    ensures list != null ==> list.Valid() && list.Repr == old(list.Repr)
    ensures if err != Ok then
              data == None && (list != null ==> list.Contents() == old(list.Contents()) && list.freed == old(list.freed))
            else
              var r := Searched(old(list.Contents()), FirstMatch(old(list.Contents()), equal.value), wanted, rmIfFound);
              data == r.0 && list.Contents() == r.1 && list.freed == old(list.freed) + r.2
  {
    data := None;
    if list == null || equal.None? {
      return InvalidHandle, None;
    }
    if list.pTail == null {
      return Unavailable, None;
    }
    ghost var c := list.Contents();
    ghost var n, m := 0, FirstMatch(c, equal.value);
    FirstMatchIsFirst(c, equal.value);
    hide FirstMatch;
    var tmp := list.pHead;
    while tmp != null
      invariant 0 <= n <= m
      invariant list.Valid() && list.Repr == old(list.Repr) && list.Contents() == c && list.freed == old(list.freed)
      invariant tmp == if n < |list.nodes| then list.nodes[n] else null
      decreases |c| - n
    {
      assert tmp.item == c[n];
      if equal.value(tmp.item.data) {
        data := TakeMatch(list, tmp, wanted, rmIfFound, n);
        return Ok, data;
      }
      n := n + 1;
      tmp := tmp.next;
    }
    return Ok, data;
  }

  // ---------- first in, first out ----------

  /** The contents after a run of additions and removals that started empty. */
  function Contents(ops: seq<Op>): seq<Item> {
    if ops == [] then [] else Step(Contents(ops[..|ops| - 1]), ops[|ops| - 1]).0
  }

  /** What the removals delivered. */
  function Removals(ops: seq<Op>): seq<Item> {
    if ops == [] then []
    else
      var r, taken := Removals(ops[..|ops| - 1]), Step(Contents(ops[..|ops| - 1]), ops[|ops| - 1]).1;
      if taken.Some? then r + [taken.value] else r
  }

  function Additions(ops: seq<Op>): seq<Item> {
    if ops == [] then []
    else Additions(ops[..|ops| - 1]) + if ops[|ops| - 1].OpAdd? then [ops[|ops| - 1].item] else []
  }

  function Reversed(s: seq<Item>): seq<Item> {
    if s == [] then [] else Reversed(s[1..]) + [s[0]]
  }

  lemma {:induction false} ReversedLast(s: seq<Item>)
    requires s != []
    ensures Reversed(s) == [s[|s| - 1]] + Reversed(s[..|s| - 1])
  {
    if |s| > 1 {
      ReversedLast(s[1..]);
      assert s[1..][..|s| - 2] == s[..|s| - 1][1..];
    }
  }

  /** What has been removed, followed by what is still to be removed, is what was added, in
      the order in which it was added. */
  lemma {:induction false} FirstInFirstOut(ops: seq<Op>)
    ensures Additions(ops) == Removals(ops) + Reversed(Contents(ops))
  {
    if ops != [] {
      var before := ops[..|ops| - 1];
      FirstInFirstOut(before);
      var c := Contents(before);
      match ops[|ops| - 1] {
        case OpAdd(x) => assert ([x] + c)[1..] == c;
        case OpRemove => if c != [] { ReversedLast(c); }
      }
    }
  }
}
