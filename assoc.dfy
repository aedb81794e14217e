/**
 * An insertion-ordered dictionary: the behaviour of a JavaScript `Map`, and
 * of a plain object whose keys are not integer-like, as a sequence of
 * (key, value) entries. Setting an existing key replaces its value in
 * place; setting a new key appends it, so iteration follows first
 * insertion.
 */
module Assoc {
  import opened Wrappers

  type Dict<K, V> = seq<(K, V)>

  function Keys<K, V>(m: Dict<K, V>): (ks: seq<K>)
    ensures |ks| == |m|
    ensures forall i :: 0 <= i < |m| ==> ks[i] == m[i].0
  {
    if |m| == 0 then [] else [m[0].0] + Keys(m[1..])
  }

  function Values<K, V>(m: Dict<K, V>): (vs: seq<V>)
    ensures |vs| == |m|
    ensures forall i :: 0 <= i < |m| ==> vs[i] == m[i].1
  {
    if |m| == 0 then [] else [m[0].1] + Values(m[1..])
  }

  /** No key occurs twice. */
  predicate UniqueKeys<K(==), V>(m: Dict<K, V>) {
    forall i, j :: 0 <= i < j < |m| ==> m[i].0 != m[j].0
  }

  function Get<K(==), V>(m: Dict<K, V>, k: K): (r: Option<V>)
    ensures r.Some? ==> (k, r.value) in m
  {
    if |m| == 0 then None
    else if m[0].0 == k then Some(m[0].1)
    else Get(m[1..], k)
  }

  /** A lookup succeeds exactly for the keys of the dictionary. */
  lemma {:induction false} GetKeys<K, V>(m: Dict<K, V>, k: K)
    ensures Get(m, k).Some? <==> k in Keys(m)
  {
    if |m| > 0 && m[0].0 != k {
      GetKeys(m[1..], k);
      assert Keys(m) == [m[0].0] + Keys(m[1..]);
    }
  }

  /** With unique keys, looking up the key of an entry finds that entry's value. */
  lemma {:induction false} GetAtUnique<K, V>(m: Dict<K, V>, j: nat)
    requires UniqueKeys(m) && j < |m|
    ensures Get(m, m[j].0) == Some(m[j].1)
  {
    if j > 0 {
      assert m[0].0 != m[j].0;
      GetAtUnique(m[1..], j - 1);
    }
  }

  /** `m.set(k, v)` / `obj[k] = v`. */
  function Put<K(==), V>(m: Dict<K, V>, k: K, v: V): (r: Dict<K, V>)
    ensures |r| == if k in Keys(m) then |m| else |m| + 1
  {
    if |m| == 0 then [(k, v)]
    else if m[0].0 == k then [(k, v)] + m[1..]
    else [m[0]] + Put(m[1..], k, v)
  }

  lemma {:induction false} PutGet<K, V>(m: Dict<K, V>, k: K, v: V, k': K)
    ensures Get(Put(m, k, v), k') == if k' == k then Some(v) else Get(m, k')
  {
    if |m| > 0 && m[0].0 != k {
      PutGet(m[1..], k, v, k');
    }
  }

  /** A `set` key reads back the value just set. */
  lemma PutGetSame<K, V>(m: Dict<K, V>, k: K, v: V)
    ensures Get(Put(m, k, v), k) == Some(v)
  {
    PutGet(m, k, v, k);
  }

  /** The key order after a `set`: unchanged for a known key, appended otherwise. */
  lemma {:induction false} PutKeys<K, V>(m: Dict<K, V>, k: K, v: V)
    ensures Keys(Put(m, k, v)) == if k in Keys(m) then Keys(m) else Keys(m) + [k]
  {
    if |m| > 0 && m[0].0 != k {
      PutKeys(m[1..], k, v);
      assert Keys(m) == [m[0].0] + Keys(m[1..]);
    }
  }

  lemma {:induction false} PutUnique<K, V>(m: Dict<K, V>, k: K, v: V)
    requires UniqueKeys(m)
    ensures UniqueKeys(Put(m, k, v))
  {
    if |m| > 0 && m[0].0 != k {
      var rest := m[1..];
      assert UniqueKeys(rest) by {
        forall i, j | 0 <= i < j < |rest| ensures rest[i].0 != rest[j].0 {
          assert rest[i] == m[i + 1] && rest[j] == m[j + 1];
        }
      }
      PutUnique(rest, k, v);
      PutKeys(rest, k, v);
      var r := Put(m, k, v);
      var pr := Put(rest, k, v);
      assert r == [m[0]] + pr;
      forall j | 0 <= j < |pr| ensures pr[j].0 != m[0].0 {
        assert Keys(pr)[j] == pr[j].0;
        if j < |rest| {
          assert Keys(rest)[j] == m[j + 1].0;
        }
      }
    }
  }

  /** The sum of all values. */
  function Sum<K>(m: Dict<K, real>): real {
    if |m| == 0 then 0.0 else m[0].1 + Sum(m[1..])
  }

  /** `acc[k] = (acc[k] || 0) + x`: add `x` to the running total of `k`. */
  function Accumulate<K(==)>(m: Dict<K, real>, k: K, x: real): (r: Dict<K, real>)
    ensures Get(r, k) == Some(Get(m, k).GetOr(0.0) + x)
  {
    var v := Get(m, k).GetOr(0.0) + x;
    PutGetSame(m, k, v);
    Put(m, k, v)
  }

  /** Accumulating `x` raises the grand total by exactly `x`. */
  lemma {:induction false} AccumulateSum<K>(m: Dict<K, real>, k: K, x: real)
    ensures Sum(Accumulate(m, k, x)) == Sum(m) + x
  {
    PutSum(m, k, Get(m, k).GetOr(0.0) + x);
  }

  lemma {:induction false} PutSum<K>(m: Dict<K, real>, k: K, v: real)
    ensures Sum(Put(m, k, v)) == Sum(m) - Get(m, k).GetOr(0.0) + v
  {
    if |m| > 0 && m[0].0 != k {
      PutSum(m[1..], k, v);
    }
  }

  /** A `set` leaves every other entry as it was. */
  lemma {:induction false} PutElements<K, V>(m: Dict<K, V>, k: K, v: V)
    ensures forall p :: p in Put(m, k, v) ==> p in m || p == (k, v)
  {
    if |m| > 0 && m[0].0 != k {
      PutElements(m[1..], k, v);
      assert forall p :: p in m[1..] ==> p in m;
    }
  }

  /** Looking up in a dictionary extended at the end. */
  lemma {:induction false} GetAppend<K, V>(m: Dict<K, V>, k: K, v: V, k': K)
    ensures Get(m + [(k, v)], k') == if k' in Keys(m) then Get(m, k') else if k' == k then Some(v) else None
  {
    if |m| > 0 {
      assert (m + [(k, v)])[1..] == m[1..] + [(k, v)];
      GetAppend(m[1..], k, v, k');
      assert Keys(m) == [m[0].0] + Keys(m[1..]);
    } else {
      assert m + [(k, v)] == [(k, v)];
    }
  }
}
