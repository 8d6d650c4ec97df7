/**
 A value model of a hash-backed set multimap (Guava's `HashMultimap`): a
 finite relation from keys to values. It is stored as a map from each key to
 the non-empty set of values it holds; a key whose last value is removed
 disappears from the map, as it disappears from `Multimap.keySet()`.
 */
module Multimap {

  /** Every stored key holds at least one value. */
  predicate WellFormed<K, V>(m: map<K, set<V>>) {
    forall k :: k in m ==> m[k] != {}
  }

  /** `Multimap.get`: the values held under `k`, empty when there are none. */
  function Get<K, V>(m: map<K, set<V>>, k: K): set<V> {
    if k in m then m[k] else {}
  }

  /** `Multimap.put`: relates `k` to `v`; a pair already present is kept once. */
  function Put<K(!new), V>(m: map<K, set<V>>, k: K, v: V): (r: map<K, set<V>>)
    ensures Get(r, k) == Get(m, k) + {v}
    ensures forall k' :: k' != k ==> Get(r, k') == Get(m, k')
    ensures r.Keys == m.Keys + {k}
    ensures WellFormed(m) ==> WellFormed(r)
  {
    m[k := Get(m, k) + {v}]
  }

  /** Removes the single pair (`k`, `v`), if present. */
  function Remove<K(!new), V>(m: map<K, set<V>>, k: K, v: V): (r: map<K, set<V>>)
    ensures Get(r, k) == Get(m, k) - {v}
    ensures forall k' :: k' != k ==> Get(r, k') == Get(m, k')
    ensures r.Keys <= m.Keys
    ensures WellFormed(m) ==> WellFormed(r)
  {
    RemoveAll(m, k, {v})
  }

  /** Removes every pair (`k`, `v`) with `v` in `vs`; other keys are untouched. */
  function RemoveAll<K(!new), V>(m: map<K, set<V>>, k: K, vs: set<V>): (r: map<K, set<V>>)
    ensures Get(r, k) == Get(m, k) - vs
    ensures forall k' :: k' != k ==> Get(r, k') == Get(m, k')
    ensures r.Keys <= m.Keys
    ensures WellFormed(m) ==> WellFormed(r)
  {
    if k !in m then m
    else if m[k] - vs == {} then m - {k}
    else m[k := m[k] - vs]
  }

  /** Two well-formed multimaps holding the same pairs are the same map. */
  lemma Extensionality<K, V>(m: map<K, set<V>>, m': map<K, set<V>>)
    requires WellFormed(m) && WellFormed(m')
    requires forall k :: Get(m, k) == Get(m', k)
    ensures m == m'
  {
    forall k | k in m
      ensures k in m' && m'[k] == m[k]
    {
      assert Get(m, k) == m[k];
    }
    forall k | k in m'
      ensures k in m
    {
      assert Get(m', k) == m'[k];
    }
  }

  /** Removing no values leaves a well-formed multimap as it was. */
  lemma RemoveNothing<K(!new), V>(m: map<K, set<V>>, k: K)
    requires WellFormed(m)
    ensures RemoveAll(m, k, {}) == m
  {
    Extensionality(RemoveAll(m, k, {}), m);
  }

  /** Removing values one at a time, in any order, removes the whole batch. */
  lemma RemoveStep<K(!new), V>(m: map<K, set<V>>, k: K, done: set<V>, v: V)
    requires WellFormed(m)
    ensures Remove(RemoveAll(m, k, done), k, v) == RemoveAll(m, k, done + {v})
  {
    var lhs := Remove(RemoveAll(m, k, done), k, v);
    var rhs := RemoveAll(m, k, done + {v});
    Extensionality(lhs, rhs);
  }
}
