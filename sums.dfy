/**
 * Sums over the values of a dictionary, in no particular order.
 *
 * Python iterates a dict in an order it does not promise; the report code
 * sums counters that way. `SumOver` fixes one order by choice, and
 * `SumOverRemove` shows that the sum does not depend on it, which is what
 * lets a loop that visits the keys in any order be proved against it.
 */
module Sums {

  ghost function Pick<K>(keys: set<K>): K
    requires keys != {}
  {
    var k :| k in keys; k
  }

  /** The sum of `m[k]` for every `k` in `keys`. */
  ghost function SumOver<K>(m: map<K, int>, keys: set<K>): int
    requires keys <= m.Keys
    decreases keys
  {
    if keys == {} then 0
    else
      var k := Pick(keys);
      m[k] + SumOver(m, keys - {k})
  }

  /** Any key can be taken out first. */
  lemma {:induction false} SumOverRemove<K>(m: map<K, int>, keys: set<K>, k: K)
    requires keys <= m.Keys && k in keys
    ensures SumOver(m, keys) == m[k] + SumOver(m, keys - {k})
    decreases keys
  {
    var j := Pick(keys);
    if j != k {
      SumOverRemove(m, keys - {j}, k);
      SumOverRemove(m, keys - {k}, j);
      assert keys - {j} - {k} == keys - {k} - {j};
    }
  }

  /** Adding one more key adds its value: the step of a loop over the keys. */
  lemma SumOverAdd<K>(m: map<K, int>, keys: set<K>, k: K)
    requires keys <= m.Keys && k in m && k !in keys
    ensures SumOver(m, keys + {k}) == SumOver(m, keys) + m[k]
  {
    SumOverRemove(m, keys + {k}, k);
    assert keys + {k} - {k} == keys;
  }

  /** The sum depends only on the values at the keys summed over. */
  lemma {:induction false} SumOverCongruent<K>(m1: map<K, int>, m2: map<K, int>, keys: set<K>)
    requires keys <= m1.Keys && keys <= m2.Keys
    requires forall k :: k in keys ==> m1[k] == m2[k]
    ensures SumOver(m1, keys) == SumOver(m2, keys)
    decreases keys
  {
    if keys != {} {
      SumOverCongruent(m1, m2, keys - {Pick(keys)});
    }
  }
}
