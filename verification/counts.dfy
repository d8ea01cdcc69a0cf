/**
 Count maps: the dictionaries that pandas' group-by sums, group-by counts and value counts
 become once turned into Python dictionaries. Each of them is the same fold over a sequence of
 (key, weight) pairs, defined here once together with its per-key reference definition and the
 fact that a map's values add up to the total weight.
 */
module Counts {

  /** Python's `d.get(k, 0)` on a count map. */
  function GetOrZero<K>(m: map<K, nat>, k: K): nat
  {
    if k in m then m[k] else 0
  }

  /** The keys occurring in a sequence of (key, weight) pairs. */
  function KeysOf<K>(kvs: seq<(K, nat)>): set<K>
  {
    set i | 0 <= i < |kvs| :: kvs[i].0
  }

  /** Reference definition: total weight of the pairs whose key is `k`. */
  function SumFor<K(==)>(kvs: seq<(K, nat)>, k: K): nat
  {
    if |kvs| == 0 then 0
    else SumFor(kvs[..|kvs| - 1], k) + (if kvs[|kvs| - 1].0 == k then kvs[|kvs| - 1].1 else 0)
  }

  /** Total weight of all pairs. */
  function Total<K>(kvs: seq<(K, nat)>): nat
  {
    if |kvs| == 0 then 0 else Total(kvs[..|kvs| - 1]) + kvs[|kvs| - 1].1
  }

  /**
   Group the pairs by key and add up their weights, visiting them in order as pandas does.
   Every key that occurs gets an entry, even when its weights add up to 0.
   */
  function GroupSum<K(==, !new)>(kvs: seq<(K, nat)>): (m: map<K, nat>)
    ensures m.Keys == KeysOf(kvs)
    ensures forall k :: GetOrZero(m, k) == SumFor(kvs, k)
  {
    if |kvs| == 0 then map[]
    else
      var prev := GroupSum(kvs[..|kvs| - 1]);
      var last := kvs[|kvs| - 1];
      KeysOfSnoc(kvs[..|kvs| - 1], last);
      assert kvs == kvs[..|kvs| - 1] + [last];
      prev[last.0 := GetOrZero(prev, last.0) + last.1]
  }

  /** Appending a pair adds its key to the keys seen. */
  lemma KeysOfSnoc<K>(kvs: seq<(K, nat)>, kv: (K, nat))
    ensures KeysOf(kvs + [kv]) == KeysOf(kvs) + {kv.0}
  {
    var a := kvs + [kv];
    forall k | k in KeysOf(a) ensures k in KeysOf(kvs) + {kv.0} {
      var i :| 0 <= i < |a| && a[i].0 == k;
      if i < |kvs| {
        assert a[i] == kvs[i];
      }
    }
    forall k | k in KeysOf(kvs) ensures k in KeysOf(a) {
      var i :| 0 <= i < |kvs| && kvs[i].0 == k;
      assert a[i] == kvs[i];
    }
    assert a[|kvs|] == kv;
  }

  /** Some key of a non-empty map; a map has no order, so which one is left open. */
  ghost function AnyKey<K>(m: map<K, nat>): (k: K)
    requires m != map[]
    ensures k in m
  {
    var k :| k in m; k
  }

  /** Sum of every value of a map. */
  ghost function SumValues<K>(m: map<K, nat>): nat
    decreases |m|
  {
    if m == map[] then 0
    else
      var k := AnyKey(m);
      assert (m - {k}).Keys == m.Keys - {k};
      m[k] + SumValues(m - {k})
  }

  /** Whichever key is taken out first, the sum is the same. */
  lemma {:induction false} SumValuesRemove<K>(m: map<K, nat>, k: K)
    requires k in m
    ensures SumValues(m) == m[k] + SumValues(m - {k})
    decreases |m|
  {
    var j := AnyKey(m);
    if j != k {
      var mj, mk := m - {j}, m - {k};
      assert mj.Keys == m.Keys - {j};
      assert mk.Keys == m.Keys - {k};
      SumValuesRemove(mj, k);
      SumValuesRemove(mk, j);
      assert mj - {k} == mk - {j};
    }
  }

  /** Updating one key changes the sum by the difference between the new and the old value. */
  lemma SumValuesUpdate<K>(m: map<K, nat>, k: K, v: nat)
    ensures SumValues(m[k := v]) + GetOrZero(m, k) == SumValues(m) + v
  {
    SumValuesRemove(m[k := v], k);
    assert m[k := v] - {k} == m - {k};
    if k in m {
      SumValuesRemove(m, k);
    } else {
      assert m - {k} == m;
    }
  }

  /** The values of a grouped map add up to the total weight of the pairs. */
  lemma {:induction false} GroupSumTotal<K(!new)>(kvs: seq<(K, nat)>)
    ensures SumValues(GroupSum(kvs)) == Total(kvs)
  {
    if |kvs| == 0 {
      assert GroupSum(kvs) == map[];
    } else {
      var init := kvs[..|kvs| - 1];
      var prev := GroupSum(init);
      var last := kvs[|kvs| - 1];
      assert GroupSum(kvs) == prev[last.0 := GetOrZero(prev, last.0) + last.1];
      assert Total(kvs) == Total(init) + last.1;
      GroupSumTotal(init);
      SumValuesUpdate(prev, last.0, GetOrZero(prev, last.0) + last.1);
    }
  }
}
