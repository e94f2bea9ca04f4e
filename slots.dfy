/**
 * Result dicts filled one slot per unit: the key of unit `i` is `keys[i]`
 * and its result `values[i]`; assigning a key again overwrites it.
 */
module Slots {

  function Fill<V>(keys: seq<string>, values: seq<V>): map<string, V>
    requires |keys| == |values|
  {
    if keys == [] then map[]
    else
      var n := |keys| - 1;
      Fill(keys[..n], values[..n])[keys[n] := values[n]]
  }

  /** Unit `i` is the last one with key `k`. */
  ghost predicate LastWith(keys: seq<string>, k: string, i: int) {
    0 <= i < |keys| && keys[i] == k && forall j :: i < j < |keys| ==> keys[j] != k
  }

  lemma SlotsExtend<V>(keys: seq<string>, values: seq<V>, i: nat)
    requires |keys| == |values| && i < |keys|
    ensures Fill(keys[..i + 1], values[..i + 1]) == Fill(keys[..i], values[..i])[keys[i] := values[i]]
  {
    assert keys[..i + 1][..i] == keys[..i];
    assert values[..i + 1][..i] == values[..i];
  }

  /** There is a slot for every key and no other. */
  lemma {:induction false} SlotsKeys<V>(keys: seq<string>, values: seq<V>)
    requires |keys| == |values|
    ensures forall k :: k in Fill(keys, values) <==> exists i :: 0 <= i < |keys| && keys[i] == k
  {
    if keys != [] {
      var n := |keys| - 1;
      SlotsKeys(keys[..n], values[..n]);
      assert forall i :: 0 <= i < n ==> keys[..n][i] == keys[i];
    }
  }

  /** A slot holds the result of the last unit with its key. */
  lemma {:induction false} SlotsValues<V>(keys: seq<string>, values: seq<V>)
    requires |keys| == |values|
    ensures forall k, i :: LastWith(keys, k, i) ==> k in Fill(keys, values) && Fill(keys, values)[k] == values[i]
  {
    if keys != [] {
      var n := |keys| - 1;
      SlotsValues(keys[..n], values[..n]);
      forall k, i | LastWith(keys, k, i) && i < n ensures LastWith(keys[..n], k, i) {
        assert keys[..n][i] == keys[i];
      }
      forall k, i | LastWith(keys, k, i) && i < n ensures values[..n][i] == values[i] { }
    }
  }
}
