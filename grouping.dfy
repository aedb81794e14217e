/**
 * The `if (!map.has(k)) map.set(k, []); map.get(k)!.push(x)` idiom: grouping
 * a sequence by a key into an insertion-ordered dictionary of buckets.
 */
module Grouping {
  import opened Wrappers
  import opened Sorting
  import opened Assoc

  /** Add `x` to the bucket of `k`, opening the bucket if needed. */
  function Push<K(==), T>(groups: Dict<K, seq<T>>, k: K, x: T): Dict<K, seq<T>> {
    Put(groups, k, Get(groups, k).GetOr([]) + [x])
  }

  /** Pushing onto one bucket leaves every other bucket as it was. */
  lemma PushGet<K, T>(groups: Dict<K, seq<T>>, k: K, x: T, k': K)
    ensures Get(Push(groups, k, x), k').GetOr([]) == Get(groups, k').GetOr([]) + if k == k' then [x] else []
  {
    PutGet(groups, k, Get(groups, k).GetOr([]) + [x], k');
  }

  /** The buckets after pushing every element of `data` in order. */
  function GroupBy<K(==), T>(data: seq<T>, key: T -> K): Dict<K, seq<T>> {
    if |data| == 0 then []
    else Push(GroupBy(data[..|data| - 1], key), key(data[|data| - 1]), data[|data| - 1])
  }

  /** The keys of `ks` without repeats, each at its first appearance. */
  function Distinct<K(==)>(ks: seq<K>): seq<K> {
    if |ks| == 0 then []
    else
      var d := Distinct(ks[..|ks| - 1]);
      if ks[|ks| - 1] in d then d else d + [ks[|ks| - 1]]
  }

  function MapSeq<T, K>(data: seq<T>, key: T -> K): (ks: seq<K>)
    ensures |ks| == |data|
    ensures forall i :: 0 <= i < |data| ==> ks[i] == key(data[i])
  {
    if |data| == 0 then [] else MapSeq(data[..|data| - 1], key) + [key(data[|data| - 1])]
  }

  /** A value is among the keys exactly when some element has it as its key. */
  lemma MapSeqMembers<T, K>(data: seq<T>, key: T -> K, v: K)
    ensures v in MapSeq(data, key) <==> exists k :: 0 <= k < |data| && key(data[k]) == v
  {
    var ks := MapSeq(data, key);
    if v in ks {
      var k :| 0 <= k < |ks| && ks[k] == v;
      assert key(data[k]) == v;
    }
  }

  lemma {:induction false} DistinctHasAll<K>(ks: seq<K>, k: K)
    ensures k in Distinct(ks) <==> k in ks
  {
    if |ks| > 0 {
      DistinctHasAll(ks[..|ks| - 1], k);
      assert ks == ks[..|ks| - 1] + [ks[|ks| - 1]];
    }
  }

  /** One more element is one more push. */
  lemma GroupByPrefix<K, T>(data: seq<T>, key: T -> K, i: nat)
    requires i < |data|
    ensures GroupBy(data[..i + 1], key) == Push(GroupBy(data[..i], key), key(data[i]), data[i])
  {
    assert data[..i + 1][..i] == data[..i];
  }

  /** Each bucket holds exactly the elements with its key, in input order. */
  lemma {:induction false} GroupByIsFilter<K, T>(data: seq<T>, key: T -> K, k: K)
    ensures Get(GroupBy(data, key), k).GetOr([]) == Filter(data, x => key(x) == k)
  {
    if |data| > 0 {
      var pre := data[..|data| - 1];
      var last := data[|data| - 1];
      GroupByIsFilter(pre, key, k);
      PushGet(GroupBy(pre, key), key(last), last, k);
      assert data == pre + [last];
      FilterAppend(pre, [last], x => key(x) == k);
      FilterSingleton(last, x => key(x) == k);
    }
  }

  /** The buckets appear in order of their key's first appearance. */
  lemma {:induction false} GroupByKeys<K, T>(data: seq<T>, key: T -> K)
    ensures Keys(GroupBy(data, key)) == Distinct(MapSeq(data, key))
  {
    if |data| > 0 {
      var pre := data[..|data| - 1];
      var last := data[|data| - 1];
      GroupByKeys(pre, key);
      PutKeys(GroupBy(pre, key), key(last), Get(GroupBy(pre, key), key(last)).GetOr([]) + [last]);
      assert MapSeq(data, key)[..|data| - 1] == MapSeq(pre, key);
    }
  }

  lemma {:induction false} GroupByUnique<K, T>(data: seq<T>, key: T -> K)
    ensures UniqueKeys(GroupBy(data, key))
  {
    if |data| > 0 {
      var pre := data[..|data| - 1];
      var last := data[|data| - 1];
      GroupByUnique(pre, key);
      PutUnique(GroupBy(pre, key), key(last), Get(GroupBy(pre, key), key(last)).GetOr([]) + [last]);
    }
  }

  lemma {:induction false} DistinctNoDuplicates<K>(ks: seq<K>)
    ensures NoDuplicates(Distinct(ks))
  {
    if |ks| > 0 {
      DistinctNoDuplicates(ks[..|ks| - 1]);
    }
  }
}
