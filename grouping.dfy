/** Keys in order of first appearance: the iteration order of a JavaScript
    `Map` filled by `forEach` (`Map.entries()` lists keys as first inserted). */
module Grouping {
  import opened Lottery

  /** The distinct keys of `ks`, each at the position where it first occurs.
      Defined on the prefix so that one more `forEach` step is one more unfolding. */
  function DistinctKeys<K(==)>(ks: seq<K>): seq<K>
  {
    if ks == [] then []
    else
      var r := DistinctKeys(ks[..|ks| - 1]);
      if ks[|ks| - 1] in r then r else r + [ks[|ks| - 1]]
  }

  lemma {:induction false} DistinctKeysMembers<K>(ks: seq<K>)
    ensures forall k :: k in DistinctKeys(ks) <==> k in ks
  {
    if ks != [] {
      var init := ks[..|ks| - 1];
      DistinctKeysMembers(init);
      assert ks == init + [ks[|ks| - 1]];
    }
  }

  lemma {:induction false} DistinctKeysNoDup<K>(ks: seq<K>)
    ensures NoDup(DistinctKeys(ks))
  {
    if ks != [] {
      DistinctKeysNoDup(ks[..|ks| - 1]);
    }
  }

  /** One entry per distinct key: as many entries as the set of keys has members. */
  lemma DistinctKeysCount<K>(ks: seq<K>)
    ensures |DistinctKeys(ks)| == |Elems(ks)|
  {
    DistinctKeysMembers(ks);
    DistinctKeysNoDup(ks);
    NoDupCard(DistinctKeys(ks));
    assert Elems(DistinctKeys(ks)) == Elems(ks);
  }

  /** One more key never reorders or drops the keys already seen. */
  lemma DistinctKeysSnoc<K>(ks: seq<K>, k: K)
    ensures DistinctKeys(ks + [k])
         == if k in DistinctKeys(ks) then DistinctKeys(ks) else DistinctKeys(ks) + [k]
  {
    assert (ks + [k])[..|ks + [k]| - 1] == ks;
  }

  /** Sum of the occurrence counts of the keys in `keys`, counted in `ks`. */
  function SumCounts<K(==)>(keys: seq<K>, ks: seq<K>): nat
  {
    if keys == [] then 0 else multiset(ks)[keys[0]] + SumCounts(keys[1..], ks)
  }

  lemma {:induction false} SumCountsSnocKey<K>(keys: seq<K>, k: K, ks: seq<K>)
    ensures SumCounts(keys + [k], ks) == SumCounts(keys, ks) + multiset(ks)[k]
  {
    if keys != [] {
      SumCountsSnocKey(keys[1..], k, ks);
      assert (keys + [k])[1..] == keys[1..] + [k];
    }
  }

  lemma {:induction false} SumCountsSnocData<K>(keys: seq<K>, ks: seq<K>, k: K)
    ensures SumCounts(keys, ks + [k]) == SumCounts(keys, ks) + multiset(keys)[k]
  {
    if keys != [] {
      SumCountsSnocData(keys[1..], ks, k);
      assert keys == [keys[0]] + keys[1..];
    }
  }

  /** Counting every distinct key's occurrences accounts for every element once. */
  lemma {:induction false} SumCountsDistinct<K>(ks: seq<K>)
    ensures SumCounts(DistinctKeys(ks), ks) == |ks|
  {
    if ks != [] {
      var init, k := ks[..|ks| - 1], ks[|ks| - 1];
      assert ks == init + [k];
      var d := DistinctKeys(init);
      SumCountsDistinct(init);
      SumCountsSnocData(d, init, k);
      DistinctKeysNoDup(init);
      DistinctKeysMembers(init);
      if k in d {
        CountOfNoDup(d, k);
      } else {
        assert multiset(d)[k] == 0;
        SumCountsSnocKey(d, k, ks);
        assert multiset(init)[k] == 0;
      }
    }
  }

  lemma {:induction false} CountOfNoDup<K>(s: seq<K>, x: K)
    requires NoDup(s) && x in s
    ensures multiset(s)[x] == 1
  {
    assert s == [s[0]] + s[1..];
    if s[0] == x {
      forall k | 0 <= k < |s[1..]|
        ensures s[1..][k] != x
      {
        assert s[1..][k] == s[k + 1];
      }
      assert x !in s[1..];
    } else {
      CountOfNoDup(s[1..], x);
    }
  }
}
