/**
 A map from keys to non-empty sets, as `LocUnorderedSetMap` keeps it: adding to an entry may
 create it, and an entry trimmed to the empty set is removed.
 */
module SetMaps {

  function Get<K, V>(m: map<K, set<V>>, k: K): set<V> {
    if k in m then m[k] else {}
  }

  /** The map after `vals` were added to the entries of all `keys`. */
  function Added<K, V>(m: map<K, set<V>>, keys: set<K>, vals: set<V>): map<K, set<V>> {
    map k | k in m.Keys + (if vals == {} then {} else keys) :: Get(m, k) + (if k in keys then vals else {})
  }

  /** The map after `vals` were removed from the entries of all `keys`, and emptied entries dropped. */
  function Trimmed<K, V>(m: map<K, set<V>>, keys: set<K>, vals: set<V>): map<K, set<V>> {
    map k | k in m && !(k in keys && m[k] <= vals) :: if k in keys then m[k] - vals else m[k]
  }

  /** The keys whose entries `Trimmed` drops. */
  function GoneKeys<K, V>(m: map<K, set<V>>, keys: set<K>, vals: set<V>): set<K> {
    set k | k in keys && k in m && m[k] <= vals
  }

  /** The values `Trimmed` takes out of some entry. */
  function GoneVals<K, V>(m: map<K, set<V>>, keys: set<K>, vals: set<V>): set<V> {
    set k, v | k in keys && k in m && v in m[k] && v in vals :: v
  }

  /** Maps that agree on every lookup, and on which entries exist, are equal. */
  lemma SameMap<K, V>(m: map<K, set<V>>, n: map<K, set<V>>)
    requires m.Keys == n.Keys
    requires forall k :: k in m ==> m[k] == n[k]
    ensures m == n
  {
  }

  lemma AddedNone<K, V>(m: map<K, set<V>>, keys: set<K>, vals: set<V>)
    requires keys == {} || vals == {}
    ensures Added(m, keys, vals) == m
  {
    SameMap(m, Added(m, keys, vals));
  }

  lemma AddedOne<K, V>(m: map<K, set<V>>, key: K, vals: set<V>)
    requires vals != {}
    ensures Added(m, {key}, vals) == m[key := Get(m, key) + vals]
  {
    SameMap(Added(m, {key}, vals), m[key := Get(m, key) + vals]);
  }

  lemma AddedMore<K, V>(m: map<K, set<V>>, keys: set<K>, key: K, vals: set<V>)
    ensures Added(Added(m, keys, vals), {key}, vals) == Added(m, keys + {key}, vals)
  {
    SameMap(Added(Added(m, keys, vals), {key}, vals), Added(m, keys + {key}, vals));
  }

  lemma TrimmedMore<K, V>(m: map<K, set<V>>, keys: set<K>, key: K, vals: set<V>)
    requires key !in keys
    ensures key !in m ==> Trimmed(m, keys + {key}, vals) == Trimmed(m, keys, vals)
    ensures key in m ==> key in Trimmed(m, keys, vals) && Trimmed(m, keys, vals)[key] == m[key]
    ensures key in m && m[key] <= vals ==> Trimmed(m, keys + {key}, vals) == Trimmed(m, keys, vals) - {key}
    ensures key in m && !(m[key] <= vals) ==>
              Trimmed(m, keys + {key}, vals) == Trimmed(m, keys, vals)[key := m[key] - vals]
  {
    var n := Trimmed(m, keys, vals);
    if key !in m {
      SameMap(Trimmed(m, keys + {key}, vals), n);
    } else if m[key] <= vals {
      SameMap(Trimmed(m, keys + {key}, vals), n - {key});
    } else {
      SameMap(Trimmed(m, keys + {key}, vals), n[key := m[key] - vals]);
    }
  }

  lemma NothingLeft<V>(s: set<V>, t: set<V>)
    ensures s - t == {} <==> s <= t
  {
    if s - t == {} {
      forall v | v in s ensures v in t {
        assert v !in s - t;
      }
    }
  }

  lemma GoneMore<K, V>(m: map<K, set<V>>, keys: set<K>, key: K, vals: set<V>)
    ensures GoneVals(m, keys + {key}, vals) == GoneVals(m, keys, vals) + Get(m, key) * vals
    ensures key in m && m[key] <= vals ==> GoneKeys(m, keys + {key}, vals) == GoneKeys(m, keys, vals) + {key}
    ensures !(key in m && m[key] <= vals) ==> GoneKeys(m, keys + {key}, vals) == GoneKeys(m, keys, vals)
    ensures key !in m ==> GoneVals(m, keys + {key}, vals) == GoneVals(m, keys, vals)
  {
  }

  class LocUnorderedSetMap<K(==), V(==)> {
    var mMap: map<K, set<V>>

    constructor ()
      ensures mMap == map[]
    {
      mMap := map[];
    }

    method GetValSet(key: K) returns (vals: set<V>)
      ensures vals == Get(mMap, key)
    {
      if key in mMap {
        return mMap[key];
      }
      return {};
    }

    method Remove(key: K) returns (removed: bool)
      modifies this
      ensures mMap == old(mMap) - {key}
      ensures removed <==> key in old(mMap)
    {
      removed := key in mMap;
      mMap := mMap - {key};
    }

    /** Adds `newVals` to one entry; says whether the entry is new. */
    method Add(key: K, newVals: set<V>) returns (newEntryAdded: bool)
      modifies this
      ensures mMap == Added(old(mMap), {key}, newVals)
      ensures newEntryAdded == (newVals != {} && key !in old(mMap))
    {
      newEntryAdded := false;
      if newVals == {} {
        AddedNone(mMap, {key}, newVals);
      } else {
        AddedOne(mMap, key, newVals);
        assert Get(mMap, key) + newVals == newVals + Get(mMap, key);
        assert key !in mMap ==> Get(mMap, key) + newVals == newVals;
        if key in mMap {
          mMap := mMap[key := mMap[key] + newVals];
        } else {
          mMap := mMap[key := newVals];
          newEntryAdded := true;
        }
      }
    }

    method AddToAll(keys: set<K>, newVals: set<V>) returns (newKeys: set<K>)
      modifies this
      ensures mMap == Added(old(mMap), keys, newVals)
      ensures newKeys == if newVals == {} then {} else keys - old(mMap).Keys
    {
      newKeys := {};
      var todo := keys;
      AddedNone(mMap, {}, newVals);
      while todo != {}
        invariant todo <= keys
        invariant mMap == Added(old(mMap), keys - todo, newVals)
        invariant newKeys == if newVals == {} then {} else (keys - todo) - old(mMap).Keys
        decreases todo
      {
        var key :| key in todo;
        AddedMore(old(mMap), keys - todo, key, newVals);
        assert keys - (todo - {key}) == (keys - todo) + {key};
        var added := Add(key, newVals);
        if added {
          newKeys := newKeys + {key};
        }
        todo := todo - {key};
      }
      assert keys - todo == keys;
    }

    /** Takes `rVals` out of the entries of `keys`; reports the dropped entries and the values taken. */
    method TrimOrRemove(keys: set<K>, rVals: set<V>) returns (goneKeys: set<K>, goneVals: set<V>)
      modifies this
      ensures mMap == Trimmed(old(mMap), keys, rVals)
      ensures goneKeys == GoneKeys(old(mMap), keys, rVals)
      ensures goneVals == GoneVals(old(mMap), keys, rVals)
    {
      goneKeys, goneVals := {}, {};
      var todo := keys;
      while todo != {}
        invariant todo <= keys
        invariant mMap == Trimmed(old(mMap), keys - todo, rVals)
        invariant goneKeys == GoneKeys(old(mMap), keys - todo, rVals)
        invariant goneVals == GoneVals(old(mMap), keys - todo, rVals)
        decreases todo
      {
        var key :| key in todo;
        TrimmedMore(old(mMap), keys - todo, key, rVals);
        GoneMore(old(mMap), keys - todo, key, rVals);
        assert keys - (todo - {key}) == (keys - todo) + {key};
        if key in mMap {
          goneVals := goneVals + mMap[key] * rVals;
          var left := mMap[key] - rVals;
          NothingLeft(mMap[key], rVals);
          if left == {} {
            mMap := mMap - {key};
            goneKeys := goneKeys + {key};
          } else {
            mMap := mMap[key := left];
          }
        }
        todo := todo - {key};
      }
      assert keys - todo == keys;
    }

    /**
     Replaces an entry by `newVals`.  `goneVals` is what `removeAndReturnInterset` returns: the
     values the old and the new entry have in common; `rest` is `newVals` without them.
     */
    method Update(key: K, newVals: set<V>) returns (goneVals: set<V>, rest: set<V>)
      modifies this
      ensures mMap == if newVals == {} then old(mMap) - {key} else old(mMap)[key := newVals]
      ensures goneVals == Get(old(mMap), key) * newVals
      ensures rest == newVals - Get(old(mMap), key)
    {
      if newVals == {} {
        mMap := mMap - {key};
        return {}, {};
      }
      var curVals := GetValSet(key);
      mMap := mMap[key := newVals];
      goneVals, curVals, rest := RemoveAndReturnInterset(curVals, newVals);
    }
  }

  /** Walks the second set and moves what the first one also has out of both into the result. */
  method RemoveAndReturnInterset<T(==)>(s1: set<T>, s2: set<T>) returns (common: set<T>, rest1: set<T>, rest2: set<T>)
    ensures common == s1 * s2
    ensures rest1 == s1 - s2 && rest2 == s2 - s1
  {
    common, rest1, rest2 := {}, s1, s2;
    var todo := s2;
    while todo != {}
      invariant todo <= s2
      invariant common == s1 * (s2 - todo)
      invariant rest1 == s1 - common && rest2 == s2 - common
      decreases todo
    {
      var b :| b in todo;
      if b in rest1 {
        common := common + {b};
        rest1 := rest1 - {b};
        rest2 := rest2 - {b};
      }
      todo := todo - {b};
    }
  }
}
