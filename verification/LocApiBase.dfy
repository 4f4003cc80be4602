/** The table of adapters of the location API: an array with a fixed number of places that
    is kept without holes. */
module LocApiBase {
  import opened Wrappers

  const MAX_ADAPTERS := 10

  class LocAdapter {
    var mEvtMask: BitMask

    constructor (mask: BitMask)
      ensures mEvtMask == mask
    {
      mEvtMask := mask;
    }

    method GetEvtMask() returns (mask: BitMask)
      ensures mask == mEvtMask
    {
      mask := mEvtMask;
    }
  }

  /** What the API does about a changed table: it posts a message to open with the new mask,
      or closes. */
  datatype Request = PostOpen | Close

  function Requests(before: seq<LocAdapter>, after: seq<LocAdapter>): seq<Request> {
    if after == before then [] else if after == [] then [Close] else [PostOpen]
  }

  /** A new adapter is appended if there is a place left. */
  function Appended(m: seq<LocAdapter>, a: LocAdapter?): seq<LocAdapter> {
    if a == null || a in m || |m| >= MAX_ADAPTERS then m else m + [a]
  }

  /** The last adapter takes the place of the one that goes. */
  ghost predicate IsWithout(m: seq<LocAdapter>, a: LocAdapter?, m': seq<LocAdapter>) {
    if a == null || a !in m then m' == m
    else
      var n := |m| - 1;
      && |m'| == n
      && forall i :: 0 <= i < n ==> m'[i] == if m[i] == a then m[n] else m[i]
  }

  ghost predicate Distinct(m: seq<LocAdapter>) {
    forall i, j :: 0 <= i < j < |m| ==> m[i] != m[j]
  }

  /** The adapters that are left are all the others, each once. */
  lemma WithoutKeepsOthers(m: seq<LocAdapter>, a: LocAdapter?, m': seq<LocAdapter>)
    requires Distinct(m) && IsWithout(m, a, m')
    ensures Distinct(m')
    ensures forall x :: x in m' <==> x in m && x != a
  {
    forall x | x in m && x != a ensures x in m' {
      var i :| 0 <= i < |m| && m[i] == x;
      if a != null && a in m {
        var j :| 0 <= j < |m| && m[j] == a;
        if i == |m| - 1 { assert m'[j] == x; } else { assert m'[i] == x; }
      }
    }
  }

  class LocApiBase {
    const mLocAdapters: array<LocAdapter?>
    const mExcludedMask: BitMask
    var requests: seq<Request>
    /** How many places are taken. */
    ghost var count: nat

    /** The adapters fill the first places; the rest is null. */
    ghost predicate Valid()
      reads this, mLocAdapters
    {
      && mLocAdapters.Length == MAX_ADAPTERS && count <= MAX_ADAPTERS
      && (forall i :: 0 <= i < count ==> mLocAdapters[i] != null)
      && (forall i :: count <= i < MAX_ADAPTERS ==> mLocAdapters[i] == null)
      && (forall i, j :: 0 <= i < j < count ==> mLocAdapters[i] != mLocAdapters[j])
    }

    ghost function Members(): seq<LocAdapter>
      reads this, mLocAdapters
      requires Valid()
    {
      seq(count, i requires 0 <= i < count && Valid() reads this, mLocAdapters => mLocAdapters[i])
    }

    constructor (excludedMask: BitMask)
      ensures Valid() && Members() == [] && requests == [] && mExcludedMask == excludedMask && fresh(mLocAdapters)
    {
      mLocAdapters := new LocAdapter?[MAX_ADAPTERS](i => null);
      mExcludedMask, requests, count := excludedMask, [], 0;
    }

    /** The union of the adapters' masks, without the excluded bits. */
    method GetEvtMask() returns (mask: BitMask)
      requires Valid()
      ensures forall b :: b in mask <==> b !in mExcludedMask && exists a :: a in Members() && b in a.mEvtMask
    {
      mask := {};
      var i := 0;
      ghost var m := Members();
      while i < MAX_ADAPTERS && mLocAdapters[i] != null
        invariant 0 <= i <= count
        invariant forall b :: b in mask <==> exists k :: 0 <= k < i && b in m[k].mEvtMask
      {
        assert mLocAdapters[i] == m[i];
        var one := mLocAdapters[i].GetEvtMask();
        mask := mask + one;
        i := i + 1;
      }
      mask := mask - mExcludedMask;
    }

    method AddAdapter(adapter: LocAdapter?)
      requires Valid()
      modifies this`requests, this`count, mLocAdapters
      ensures Valid() && Members() == Appended(old(Members()), adapter)
      ensures requests == old(requests) + Requests(old(Members()), Members())
      ensures if adapter != null && adapter !in old(Members()) && |old(Members())| < 10 then
                Members() == old(Members()) + [adapter] && requests == old(requests) + [PostOpen]
              else Members() == old(Members()) && requests == old(requests)
    {
      ghost var m := Members();
      var i := 0;
      while i < MAX_ADAPTERS && mLocAdapters[i] != adapter
        invariant 0 <= i <= count && Valid() && Members() == m && requests == old(requests)
        invariant forall k :: 0 <= k < i ==> m[k] != adapter
      {
        assert i < count ==> m[i] == mLocAdapters[i];
        if mLocAdapters[i] == null {
          assert adapter !in m;
          assert forall k :: 0 <= k < count ==> mLocAdapters[k] == m[k];
          mLocAdapters[i] := adapter;
          count := count + 1;
          requests := requests + [PostOpen];
          assert Members() == m + [adapter];
          return;
        }
        i := i + 1;
      }
      assert i < count ==> m[i] == adapter;
    }

    method RemoveAdapter(adapter: LocAdapter?)
      requires Valid()
      modifies this`requests, this`count, mLocAdapters
      ensures Valid() && IsWithout(old(Members()), adapter, Members())
      ensures requests == old(requests) + Requests(old(Members()), Members())
      ensures if adapter == null || adapter !in old(Members()) then Members() == old(Members()) && requests == old(requests)
              else requests == old(requests) + [if |old(Members())| == 1 then Close else PostOpen]
      ensures forall x :: x in Members() <==> x in old(Members()) && x != adapter
    {
      ghost var m := Members();
      var i, removed := 0, false;
      while i < MAX_ADAPTERS && mLocAdapters[i] != null
        invariant 0 <= i <= MAX_ADAPTERS
        invariant !removed ==> i <= count && Valid() && Members() == m && requests == old(requests) && forall k :: 0 <= k < i ==> m[k] != adapter
        invariant removed ==> Valid() && IsWithout(m, adapter, Members()) && adapter != null && adapter in m
                              && requests == old(requests) + Requests(m, Members()) && count <= i
      {
        if mLocAdapters[i] == adapter {
          assert m[i] == adapter;
          i := TakeOut(i);
          removed := true;
        }
        i := i + 1;
      }
      WithoutKeepsOthers(m, adapter, Members());
    }

    /** Takes the adapter at i out, moves the last one into its place, and reports where
        that was. */
    method TakeOut(i: nat) returns (last: nat)
      requires Valid() && i < count
      modifies this`requests, this`count, mLocAdapters
      ensures Valid() && count == old(count) - 1 && last == count
      ensures IsWithout(old(Members()), old(mLocAdapters[i]), Members())
      ensures requests == old(requests) + Requests(old(Members()), Members())
    {
      ghost var m := Members();
      assert m[i] == mLocAdapters[i];
      mLocAdapters[i] := null;
      var k := i + 1;
      while k < MAX_ADAPTERS && mLocAdapters[k] != null
        invariant i < k <= count
      {
        k := k + 1;
      }
      last := k - 1;
      mLocAdapters[i] := mLocAdapters[last];
      mLocAdapters[last] := null;
      count := count - 1;
      if last == 0 {
        requests := requests + [Close];
      } else {
        requests := requests + [PostOpen];
      }
    }
  }
}
