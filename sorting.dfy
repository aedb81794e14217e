/**
 * `Array.prototype.filter` and the stable `Array.prototype.sort` the
 * repository relies on, as functions on sequences. A comparator
 * `(a, b) => number` is modelled by the relation `le(a, b)`, "a may come
 * before b", which is a total preorder for every comparator used here.
 */
module Sorting {

  // ---------------------------------------------------------------
  // filter
  // ---------------------------------------------------------------

  function Filter<T(==)>(s: seq<T>, keep: T -> bool): (r: seq<T>)
    ensures |r| <= |s|
    ensures forall i :: 0 <= i < |r| ==> r[i] in s && keep(r[i])
    ensures forall i :: 0 <= i < |s| && keep(s[i]) ==> s[i] in r
  {
    if |s| == 0 then []
    else (if keep(s[0]) then [s[0]] else []) + Filter(s[1..], keep)
  }

  /** `a` is obtained from `b` by deleting elements (order kept). */
  predicate IsSubsequence<T(==)>(a: seq<T>, b: seq<T>)
    decreases |b|
  {
    if |a| == 0 then true
    else if |b| == 0 then false
    else if a[0] == b[0] then IsSubsequence(a[1..], b[1..])
    else IsSubsequence(a, b[1..])
  }

  lemma {:induction false} FilterIsSubsequence<T>(s: seq<T>, keep: T -> bool)
    ensures IsSubsequence(Filter(s, keep), s)
  {
    if |s| > 0 {
      FilterIsSubsequence(s[1..], keep);
      var r := Filter(s, keep);
      if keep(s[0]) {
        assert r[0] == s[0] && r[1..] == Filter(s[1..], keep);
      } else {
        assert r == Filter(s[1..], keep);
        assert |r| > 0 ==> keep(r[0]) && r[0] != s[0];
      }
    }
  }

  lemma {:induction false} FilterIdempotent<T>(s: seq<T>, keep: T -> bool)
    ensures Filter(Filter(s, keep), keep) == Filter(s, keep)
  {
    if |s| > 0 {
      FilterIdempotent(s[1..], keep);
      var r := Filter(s, keep);
      if keep(s[0]) {
        assert r == [s[0]] + Filter(s[1..], keep);
        assert r[1..] == Filter(s[1..], keep);
        assert Filter(r, keep) == [s[0]] + Filter(r[1..], keep);
      } else {
        assert r == Filter(s[1..], keep);
      }
    }
  }

  lemma {:induction false} FilterAll<T>(s: seq<T>, keep: T -> bool)
    requires forall i :: 0 <= i < |s| ==> keep(s[i])
    ensures Filter(s, keep) == s
  {
    if |s| > 0 {
      FilterAll(s[1..], keep);
    }
  }

  /** One element is kept or dropped. */
  lemma FilterSingleton<T>(x: T, keep: T -> bool)
    ensures Filter([x], keep) == if keep(x) then [x] else []
  {
    assert [x][1..] == [];
  }

  lemma {:induction false} FilterAppend<T>(s: seq<T>, t: seq<T>, keep: T -> bool)
    ensures Filter(s + t, keep) == Filter(s, keep) + Filter(t, keep)
  {
    if |s| > 0 {
      assert (s + t)[1..] == s[1..] + t;
      FilterAppend(s[1..], t, keep);
    } else {
      assert s + t == t;
    }
  }

  // ---------------------------------------------------------------
  // stable sort
  // ---------------------------------------------------------------

  ghost predicate IsTotalPreorder<T(!new)>(le: (T, T) -> bool) {
    && (forall a, b :: le(a, b) || le(b, a))
    && (forall a, b, c :: le(a, b) && le(b, c) ==> le(a, c))
  }

  predicate SortedBy<T>(s: seq<T>, le: (T, T) -> bool) {
    forall i, j :: 0 <= i < j < |s| ==> le(s[i], s[j])
  }

  /** Place `x` after every element of `s` that may come before it. */
  function Insert<T>(s: seq<T>, x: T, le: (T, T) -> bool): (r: seq<T>)
    ensures |r| == |s| + 1
    ensures multiset(r) == multiset(s) + multiset{x}
  {
    if |s| == 0 then [x]
    else if le(s[|s| - 1], x) then s + [x]
    else
      assert s == s[..|s| - 1] + [s[|s| - 1]];
      Insert(s[..|s| - 1], x, le) + [s[|s| - 1]]
  }

  /** Insertion sort: a stable sort by `le`. */
  function SortBy<T>(s: seq<T>, le: (T, T) -> bool): (r: seq<T>)
    ensures |r| == |s|
    ensures multiset(r) == multiset(s)
  {
    if |s| == 0 then []
    else
      assert s == s[..|s| - 1] + [s[|s| - 1]];
      Insert(SortBy(s[..|s| - 1], le), s[|s| - 1], le)
  }

  lemma InAppend<T>(a: seq<T>, b: seq<T>, x: T)
    ensures x in a + b <==> x in a || x in b
  {
  }

  lemma InMultiset<T>(s: seq<T>, x: T)
    ensures x in s <==> x in multiset(s)
  {
  }

  lemma {:induction false} InsertSorted<T(!new)>(s: seq<T>, x: T, le: (T, T) -> bool)
    requires IsTotalPreorder(le)
    requires SortedBy(s, le)
    ensures SortedBy(Insert(s, x, le), le)
  {
    if |s| == 0 {
    } else if le(s[|s| - 1], x) {
      var r := s + [x];
      forall i, j | 0 <= i < j < |r| ensures le(r[i], r[j]) {
        if j == |s| && i < |s| - 1 {
          assert le(s[i], s[|s| - 1]);
        }
      }
    } else {
      var last := s[|s| - 1];
      var pre := s[..|s| - 1];
      assert le(x, last);
      InsertSorted(pre, x, le);
      var q := Insert(pre, x, le);
      forall e | e in q ensures le(e, last) {
        InMultiset(q, e);
        assert e in multiset(pre) + multiset{x};
        if e != x {
          InMultiset(pre, e);
          var k :| 0 <= k < |pre| && pre[k] == e;
          assert s[k] == e;
        }
      }
      var r := q + [last];
      forall i, j | 0 <= i < j < |r| ensures le(r[i], r[j]) {
        if j == |q| {
          assert r[i] in q;
        } else {
          assert r[i] == q[i] && r[j] == q[j];
        }
      }
    }
  }

  /** The first and the last of the sorted sequence come from the input. */
  lemma SortByEndsIn<T>(s: seq<T>, le: (T, T) -> bool)
    requires |s| > 0
    ensures SortBy(s, le)[0] in s && SortBy(s, le)[|s| - 1] in s
  {
    var r := SortBy(s, le);
    assert r[0] in multiset(r);
    assert r[|r| - 1] in multiset(r);
  }

  lemma {:induction false} SortBySorted<T(!new)>(s: seq<T>, le: (T, T) -> bool)
    requires IsTotalPreorder(le)
    ensures SortedBy(SortBy(s, le), le)
  {
    if |s| > 0 {
      SortBySorted(s[..|s| - 1], le);
      InsertSorted(SortBy(s[..|s| - 1], le), s[|s| - 1], le);
    }
  }

  /** Dropping the last element keeps a sequence in order. */
  lemma SortedDropLast<T>(s: seq<T>, le: (T, T) -> bool)
    requires |s| > 0 && SortedBy(s, le)
    ensures SortedBy(s[..|s| - 1], le)
  {
    var pre := s[..|s| - 1];
    forall i, j | 0 <= i < j < |pre| ensures le(pre[i], pre[j]) {
      assert pre[i] == s[i] && pre[j] == s[j];
    }
  }

  /** The last step of the insertion sort. */
  lemma SortByStep<T>(s: seq<T>, le: (T, T) -> bool)
    requires |s| > 0
    ensures SortBy(s, le) == Insert(SortBy(s[..|s| - 1], le), s[|s| - 1], le)
  {
  }

  /** An element that may follow the last one is appended. */
  lemma InsertAfterLast<T>(s: seq<T>, x: T, le: (T, T) -> bool)
    requires |s| == 0 || le(s[|s| - 1], x)
    ensures Insert(s, x, le) == s + [x]
  {
  }

  lemma DropLastAppend<T>(s: seq<T>)
    requires |s| > 0
    ensures s[..|s| - 1] + [s[|s| - 1]] == s
  {
  }

  /** A sequence that is already in order is left exactly as it is. */
  lemma {:induction false} SortBySortedIdentity<T>(s: seq<T>, le: (T, T) -> bool)
    requires SortedBy(s, le)
    ensures SortBy(s, le) == s
  {
    if |s| > 0 {
      var pre := s[..|s| - 1];
      var last := s[|s| - 1];
      SortedDropLast(s, le);
      SortBySortedIdentity(pre, le);
      if |pre| > 0 {
        assert pre[|pre| - 1] == s[|s| - 2];
        assert le(s[|s| - 2], last);
      }
      SortByStep(s, le);
      InsertAfterLast(pre, last, le);
      DropLastAppend(s);
    }
  }

  /** The elements `le` cannot tell apart from `y`. */
  function EquivalentTo<T>(le: (T, T) -> bool, y: T): T -> bool {
    e => le(e, y) && le(y, e)
  }

  /** Inserting `x` puts it after every element equivalent to it. */
  lemma {:induction false} InsertKeepsClass<T(!new)>(s: seq<T>, x: T, le: (T, T) -> bool, y: T)
    requires IsTotalPreorder(le)
    ensures Filter(Insert(s, x, le), EquivalentTo(le, y)) == Filter(s, EquivalentTo(le, y)) + Filter([x], EquivalentTo(le, y))
  {
    var same := EquivalentTo(le, y);
    if |s| == 0 {
      assert Insert(s, x, le) == [x];
      assert s + [x] == [x];
      FilterAppend(s, [x], same);
    } else if le(s[|s| - 1], x) {
      FilterAppend(s, [x], same);
    } else {
      var pre := s[..|s| - 1];
      var last := s[|s| - 1];
      InsertKeepsClass(pre, x, le, y);
      FilterAppend(Insert(pre, x, le), [last], same);
      DropLastAppend(s);
      FilterAppend(pre, [last], same);
      NotBothEquivalent(le, y, last, x);
      SwapApart(Filter(pre, same), Filter([x], same), Filter([last], same));
    }
  }

  /** An element that may not come before `x` is not in `x`'s class together with it. */
  lemma NotBothEquivalent<T(!new)>(le: (T, T) -> bool, y: T, a: T, x: T)
    requires IsTotalPreorder(le) && !le(a, x)
    ensures Filter([a], EquivalentTo(le, y)) == [] || Filter([x], EquivalentTo(le, y)) == []
  {
    FilterSingleton(a, EquivalentTo(le, y));
    FilterSingleton(x, EquivalentTo(le, y));
  }

  lemma SwapApart<T>(p: seq<T>, u: seq<T>, v: seq<T>)
    requires u == [] || v == []
    ensures p + u + v == p + v + u
  {
    if u == [] {
      assert p + u == p;
    } else {
      assert p + v == p;
    }
  }

  /**
   * Stability: the elements equivalent to any `y` keep their input order,
   * which is what a stable `Array.prototype.sort` promises.
   */
  lemma {:induction false} SortByStable<T(!new)>(s: seq<T>, le: (T, T) -> bool, y: T)
    requires IsTotalPreorder(le)
    ensures Filter(SortBy(s, le), EquivalentTo(le, y)) == Filter(s, EquivalentTo(le, y))
  {
    if |s| > 0 {
      var pre := s[..|s| - 1];
      var last := s[|s| - 1];
      SortByStable(pre, le, y);
      SortByStep(s, le);
      InsertKeepsClass(SortBy(pre, le), last, le, y);
      DropLastAppend(s);
      FilterAppend(pre, [last], EquivalentTo(le, y));
    }
  }

  // ---------------------------------------------------------------
  // duplicates
  // ---------------------------------------------------------------

  predicate NoDuplicates<T(==)>(s: seq<T>) {
    forall i, j :: 0 <= i < j < |s| ==> s[i] != s[j]
  }

  lemma {:induction false} NoDuplicatesCount<T>(s: seq<T>, x: T)
    requires NoDuplicates(s)
    ensures multiset(s)[x] <= 1
  {
    if |s| > 0 {
      var pre := s[..|s| - 1];
      assert NoDuplicates(pre) by {
        forall i, j | 0 <= i < j < |pre| ensures pre[i] != pre[j] {
          assert pre[i] == s[i] && pre[j] == s[j];
        }
      }
      NoDuplicatesCount(pre, x);
      assert s == pre + [s[|s| - 1]];
      if x == s[|s| - 1] {
        assert x !in pre by {
          forall i | 0 <= i < |pre| ensures pre[i] != x {
            assert pre[i] == s[i];
          }
        }
        assert multiset(pre)[x] == 0;
      }
    }
  }

  lemma RepeatedCount<T>(t: seq<T>, i: nat, j: nat)
    requires i < j < |t| && t[i] == t[j]
    ensures multiset(t)[t[i]] >= 2
  {
    var x := t[i];
    assert t == t[..j] + [t[j]] + t[j + 1..];
    assert x in t[..j];
    assert multiset(t) == multiset(t[..j]) + multiset{x} + multiset(t[j + 1..]);
  }

  /** A rearrangement of a sequence without repeats has none either. */
  lemma NoDuplicatesPermutation<T>(s: seq<T>, t: seq<T>)
    requires NoDuplicates(s) && multiset(s) == multiset(t)
    ensures NoDuplicates(t)
  {
    forall i, j | 0 <= i < j < |t| ensures t[i] != t[j] {
      if t[i] == t[j] {
        RepeatedCount(t, i, j);
        NoDuplicatesCount(s, t[i]);
        assert false;
      }
    }
  }
}
