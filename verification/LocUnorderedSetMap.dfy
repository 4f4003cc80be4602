/** A map from keys to non-empty sets of values, mutated in place. */
module LocUnorderedSetMap {

  /** The pair is in the map. */
  predicate Has<K(==), V(==)>(m: map<K, set<V>>, k: K, v: V) {
    k in m && v in m[k]
  }

  predicate NoEmpty<K(==), V(==)>(m: map<K, set<V>>) {
    forall k :: k in m ==> m[k] != {}
  }

  function ValSet<K(==), V(==)>(m: map<K, set<V>>, k: K): set<V> {
    if k in m then m[k] else {}
  }

  /** Every pair of one of the keys and one of the values is added. */
  function Added<K(==), V(==)>(m: map<K, set<V>>, keys: set<K>, vals: set<V>): map<K, set<V>> {
    if vals == {} then m
    else map k | k in m.Keys + keys :: if k in keys then ValSet(m, k) + vals else m[k]
  }

  /** Every such pair is removed, and an entry that is left empty goes. */
  function Trimmed<K(==), V(==)>(m: map<K, set<V>>, keys: set<K>, vals: set<V>): map<K, set<V>> {
    map k | k in m && (k in keys ==> !(m[k] <= vals)) :: if k in keys then m[k] - vals else m[k]
  }

  function GoneKeys<K(==), V(==)>(m: map<K, set<V>>, keys: set<K>, vals: set<V>): set<K> {
    set k | k in keys && k in m && m[k] <= vals
  }

  function GoneVals<K(==), V(==)>(m: map<K, set<V>>, keys: set<K>, vals: set<V>): set<V> {
    set k, v | k in keys && v in vals && Has(m, k, v) :: v
  }

  lemma AddedPairs<K, V>(m: map<K, set<V>>, keys: set<K>, vals: set<V>)
    requires NoEmpty(m)
    ensures NoEmpty(Added(m, keys, vals))
    ensures forall k, v :: Has(Added(m, keys, vals), k, v) <==> Has(m, k, v) || (k in keys && v in vals)
  {
    var m' := Added(m, keys, vals);
    forall k | k in m' ensures m'[k] != {} {
      if k in m { var v :| v in m[k]; assert v in m'[k]; } else { var v :| v in vals; assert v in m'[k]; }
    }
  }

  lemma TrimmedPairs<K, V>(m: map<K, set<V>>, keys: set<K>, vals: set<V>)
    requires NoEmpty(m)
    ensures NoEmpty(Trimmed(m, keys, vals))
    ensures forall k, v :: Has(Trimmed(m, keys, vals), k, v) <==> Has(m, k, v) && !(k in keys && v in vals)
    ensures Trimmed(m, keys, vals).Keys == m.Keys - GoneKeys(m, keys, vals)
  {
    var m' := Trimmed(m, keys, vals);
    forall k | k in m' ensures m'[k] != {} {
      if k in keys { var v :| v in m[k] && v !in vals; assert v in m'[k]; }
    }
  }

  lemma EntryHasValue<K, V>(m: map<K, set<V>>, k: K) returns (v: V)
    requires NoEmpty(m) && k in m
    ensures Has(m, k, v)
  {
    v :| v in m[k];
  }

  /** The element an iteration comes to next; the order is left open. */
  method Pick<T(==)>(s: set<T>) returns (x: T)
    requires s != {}
    ensures x in s
  {
    x :| x in s;
  }

  class LocUnorderedSetMap<K(==), V(==)> {
    var mMap: map<K, set<V>>

    constructor ()
      ensures mMap == map[]
    {
      mMap := map[];
    }

    method Empty() returns (r: bool)
      ensures r <==> mMap == map[]
    {
      r := mMap == map[];
    }

    /** The values of a key, or the empty set. */
    method GetValSet(key: K) returns (vals: set<V>)
      ensures vals == ValSet(mMap, key)
    {
      vals := if key in mMap then mMap[key] else {};
    }

    method GetKeys() returns (keys: set<K>)
      ensures keys == mMap.Keys
    {
      keys := {};
      var rest := mMap.Keys;
      while rest != {}
        invariant rest <= mMap.Keys && keys == mMap.Keys - rest
      {
        var k := Pick(rest);
        keys := keys + {k};
        rest := rest - {k};
      }
    }

    method Remove(key: K) returns (removed: bool)
      modifies this
      ensures mMap == old(mMap) - {key} && (removed <==> key in old(mMap))
    {
      removed := key in mMap;
      mMap := mMap - {key};
    }

    /** Takes the values out of a set and says which were there. */
    static method TrimSet(fromSet: set<V>, rVals: set<V>) returns (trimmed: set<V>, goneVals: set<V>)
      ensures trimmed == fromSet - rVals && goneVals == fromSet * rVals
    {
      trimmed, goneVals := fromSet, {};
      var rest := rVals;
      while rest != {}
        invariant rest <= rVals && trimmed == fromSet - (rVals - rest) && goneVals == fromSet * (rVals - rest)
      {
        var val := Pick(rest);
        if val in trimmed {
          trimmed := trimmed - {val};
          goneVals := goneVals + {val};
        }
        rest := rest - {val};
      }
    }

    /** Trims one entry; if it becomes empty it is removed. */
    method TrimOrRemoveEntry(key: K, rVals: set<V>) returns (removed: bool, goneVals: set<V>)
      requires key in mMap
      modifies this
      ensures mMap == Trimmed(old(mMap), {key}, rVals)
      ensures (removed <==> old(mMap)[key] <= rVals) && goneVals == old(mMap)[key] * rVals
    {
      var trimmed;
      trimmed, goneVals := TrimSet(mMap[key], rVals);
      removed := trimmed == {};
      if removed {
        mMap := mMap - {key};
      } else {
        mMap := mMap[key := trimmed];
      }
      TrimmedEntry(old(mMap), key, rVals);
      assert old(mMap)[key] == goneVals + trimmed;
    }

    /** Trims the entries of several keys. */
    method TrimOrRemove(keys: set<K>, rVals: set<V>) returns (goneKeys: set<K>, goneVals: set<V>)
      modifies this
      ensures mMap == Trimmed(old(mMap), keys, rVals)
      ensures goneKeys == GoneKeys(old(mMap), keys, rVals) && goneVals == GoneVals(old(mMap), keys, rVals)
    {
      goneKeys, goneVals := {}, {};
      ghost var m := mMap;
      var rest := keys;
      assert Trimmed(m, {}, rVals) == m;
      while rest != {}
        invariant rest <= keys && mMap == Trimmed(m, keys - rest, rVals)
        invariant goneKeys == GoneKeys(m, keys - rest, rVals)
        invariant goneVals == GoneVals(m, keys - rest, rVals)
      {
        var key := Pick(rest);
        ghost var done := keys - rest;
        TrimmedMore(m, done, key, rVals);
        if key in mMap {
          var removed, gone := TrimOrRemoveEntry(key, rVals);
          if removed {
            goneKeys := goneKeys + {key};
          }
          goneVals := goneVals + gone;
        }
        rest := rest - {key};
        assert keys - rest == done + {key};
      }
      assert keys - rest == keys;
    }

    /** Adds values to the entry of one key, and says whether the entry is new. */
    method AddEntry(key: K, newVals: set<V>) returns (newEntryAdded: bool)
      modifies this
      ensures mMap == Added(old(mMap), {key}, newVals)
      ensures newEntryAdded <==> newVals != {} && key !in old(mMap)
    {
      newEntryAdded := false;
      if newVals != {} {
        if key in mMap {
          mMap := mMap[key := mMap[key] + newVals];
        } else {
          mMap := mMap[key := newVals];
          newEntryAdded := true;
        }
        AddedEntry(old(mMap), key, newVals);
        assert {} + newVals == newVals;
      }
    }

    /** Adds the values to the entries of several keys, and says which entries are new. */
    method Add(keys: set<K>, newVals: set<V>) returns (newKeys: set<K>)
      modifies this
      ensures mMap == Added(old(mMap), keys, newVals)
      ensures newKeys == if newVals == {} then {} else keys - old(mMap).Keys
    {
      newKeys := {};
      ghost var m := mMap;
      var rest := keys;
      assert Added(m, {}, newVals) == m;
      while rest != {}
        invariant rest <= keys && mMap == Added(m, keys - rest, newVals)
        invariant newKeys == if newVals == {} then {} else (keys - rest) - m.Keys
      {
        var key := Pick(rest);
        ghost var done := keys - rest;
        AddedMore(m, done, key, newVals);
        var isNew := AddEntry(key, newVals);
        if isNew {
          newKeys := newKeys + {key};
        }
        rest := rest - {key};
        assert keys - rest == done + {key};
      }
      assert keys - rest == keys;
    }

    /** Takes what two sets have in common out of both. The iteration goes on after an
        element has been erased, as with a valid iterator. */
    static method RemoveAndReturnInterset(s1: set<V>, s2: set<V>) returns (common: set<V>, left1: set<V>, left2: set<V>)
      ensures common == s1 * s2 && left1 == s1 - s2 && left2 == s2 - s1
    {
      common, left1, left2 := {}, s1, s2;
      var rest := s2;
      while rest != {}
        invariant rest <= s2 && common == s1 * (s2 - rest) && left1 == s1 - (s2 - rest) && left2 == s2 - common
      {
        var b := Pick(rest);
        if b in left1 {
          common := common + {b};
          left1 := left1 - {b};
          left2 := left2 - {b};
        }
        rest := rest - {b};
      }
    }

    /** Replaces the values of a key. What is returned as gone are the values that stay, and
        they are taken out of the new ones. */
    method Update(key: K, newVals: set<V>) returns (goneVals: set<V>, left: set<V>)
      modifies this
      ensures mMap == if newVals == {} then old(mMap) - {key} else old(mMap)[key := newVals]
      ensures goneVals == ValSet(old(mMap), key) * newVals && left == newVals - goneVals
    {
      goneVals, left := {}, newVals;
      if newVals == {} {
        mMap := mMap - {key};
      } else {
        var curVals := if key in mMap then mMap[key] else {};
        mMap := mMap[key := newVals];
        goneVals, curVals, left := RemoveAndReturnInterset(curVals, newVals);
      }
    }
  }

  lemma TrimmedEntry<K, V>(m: map<K, set<V>>, key: K, vals: set<V>)
    requires key in m
    ensures Trimmed(m, {key}, vals) == if m[key] <= vals then m - {key} else m[key := m[key] - vals]
  {
    assert forall k :: k in m && k != key ==> k !in {key};
    assert m[key] == m[key] * vals + (m[key] - vals);
  }

  lemma AddedEntry<K, V>(m: map<K, set<V>>, key: K, vals: set<V>)
    requires vals != {}
    ensures Added(m, {key}, vals) == m[key := ValSet(m, key) + vals]
  {
    assert forall k :: k in m && k != key ==> k !in {key};
  }

  lemma TrimmedMore<K, V>(m: map<K, set<V>>, done: set<K>, key: K, vals: set<V>)
    requires key !in done
    ensures key in Trimmed(m, done, vals) <==> key in m
    ensures key in m ==> Trimmed(m, done, vals)[key] == m[key]
    ensures Trimmed(m, done + {key}, vals) == Trimmed(Trimmed(m, done, vals), {key}, vals)
    ensures key !in m ==> Trimmed(m, done + {key}, vals) == Trimmed(m, done, vals)
    ensures GoneKeys(m, done + {key}, vals) == GoneKeys(m, done, vals) + if key in m && m[key] <= vals then {key} else {}
    ensures GoneVals(m, done + {key}, vals) == GoneVals(m, done, vals) + if key in m then m[key] * vals else {}
  {
    var a, b := GoneVals(m, done + {key}, vals), GoneVals(m, done, vals) + if key in m then m[key] * vals else {};
    forall v | v in b ensures v in a {
      if v !in GoneVals(m, done, vals) { assert Has(m, key, v); }
    }
  }

  lemma AddedMore<K, V>(m: map<K, set<V>>, done: set<K>, key: K, vals: set<V>)
    requires key !in done
    ensures Added(m, done + {key}, vals) == Added(Added(m, done, vals), {key}, vals)
    ensures key in Added(m, done, vals) <==> key in m
  {
  }
}
