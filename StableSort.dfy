/** Python's `list.sort` / `sorted` as the reports use them: a stable sort by a
    key. `sort(key=k, reverse=True)` and `sorted(key=lambda x: -k(x))` both put
    larger keys first and keep equal keys in input order, which is what
    `SortDesc` does; an ascending sort by `k` is `SortDesc` by `-k`. Keys are
    exact reals, so ratios such as an availability rate compare exactly. */
module StableSort {
  import opened Seqs

  /** Larger keys never come after smaller ones. */
  predicate SortedDesc<T>(s: seq<T>, key: T -> real) {
    forall i, j :: 0 <= i < j < |s| ==> key(s[i]) >= key(s[j])
  }

  function KeyIs<T>(key: T -> real, k: real): T -> bool {
    x => key(x) == k
  }

  /** The elements of `s` whose key is `k`, in their order in `s`. */
  function WithKey<T>(s: seq<T>, key: T -> real, k: real): seq<T> {
    Filter(s, KeyIs(key, k))
  }

  /** Puts `x` after every element whose key is at least its own. */
  function Insert<T>(t: seq<T>, x: T, key: T -> real): (r: seq<T>)
    ensures |r| == |t| + 1
  {
    if t == [] then [x]
    else if key(t[0]) >= key(x) then [t[0]] + Insert(t[1..], x, key)
    else [x] + t
  }

  /** Stable insertion sort, largest key first. */
  function SortDesc<T>(s: seq<T>, key: T -> real): (r: seq<T>)
    ensures |r| == |s|
  {
    if s == [] then [] else Insert(SortDesc(s[..|s| - 1], key), s[|s| - 1], key)
  }

  lemma {:induction false} InsertSorted<T>(t: seq<T>, x: T, key: T -> real)
    requires SortedDesc(t, key)
    ensures SortedDesc(Insert(t, x, key), key)
    ensures t != [] && key(t[0]) >= key(x) ==> Insert(t, x, key)[0] == t[0]
    ensures t == [] || key(t[0]) < key(x) ==> Insert(t, x, key)[0] == x
  {
    if t != [] && key(t[0]) >= key(x) {
      InsertSorted(t[1..], x, key);
    }
  }

  lemma {:induction false} InsertMultiset<T>(t: seq<T>, x: T, key: T -> real)
    ensures multiset(Insert(t, x, key)) == multiset(t) + multiset{x}
  {
    if t != [] && key(t[0]) >= key(x) {
      InsertMultiset(t[1..], x, key);
      assert t == [t[0]] + t[1..];
    }
  }

  lemma {:induction false} InsertWithKey<T>(t: seq<T>, x: T, key: T -> real, k: real)
    requires SortedDesc(t, key)
    ensures WithKey(Insert(t, x, key), key, k)
         == WithKey(t, key, k) + (if key(x) == k then [x] else [])
    decreases |t|, 1
  {
    var p := KeyIs(key, k);
    if t == [] {
      assert Insert(t, x, key) == [] + [x];
      FilterConcat([], [x], p);
    } else if key(t[0]) >= key(x) {
      InsertWithKeyFront(t, x, key, k);
    } else {
      FilterCons(x, t, p);
      if key(x) == k {
        forall i | 0 <= i < |t| ensures !p(t[i]) {
          assert key(t[i]) <= key(t[0]);
        }
        FilterNone(t, p);
      }
    }
  }

  lemma {:induction false} InsertWithKeyFront<T>(t: seq<T>, x: T, key: T -> real, k: real)
    requires SortedDesc(t, key)
    requires t != [] && key(t[0]) >= key(x)
    ensures WithKey(Insert(t, x, key), key, k)
         == WithKey(t, key, k) + (if key(x) == k then [x] else [])
    decreases |t|, 0
  {
    var p := KeyIs(key, k);
    var rest := t[1..];
    assert SortedDesc(rest, key);
    InsertWithKey(rest, x, key, k);
    assert Insert(t, x, key) == [t[0]] + Insert(rest, x, key);
    FilterCons(t[0], Insert(rest, x, key), p);
    assert t == [t[0]] + rest;
    FilterCons(t[0], rest, p);
  }

  lemma {:induction false} InsertSum<T>(t: seq<T>, x: T, key: T -> real, f: T -> int)
    ensures SumOf(Insert(t, x, key), f) == SumOf(t, f) + f(x)
  {
    if t == [] {
      SumCons(x, [], f);
    } else if key(t[0]) >= key(x) {
      InsertSum(t[1..], x, key, f);
      SumCons(t[0], Insert(t[1..], x, key), f);
      SumCons(t[0], t[1..], f);
      assert t == [t[0]] + t[1..];
    } else {
      SumCons(x, t, f);
    }
  }

  /** The result is ordered: larger keys first. */
  lemma {:induction false} SortDescSorted<T>(s: seq<T>, key: T -> real)
    ensures SortedDesc(SortDesc(s, key), key)
  {
    if s != [] {
      SortDescSorted(s[..|s| - 1], key);
      InsertSorted(SortDesc(s[..|s| - 1], key), s[|s| - 1], key);
    }
  }

  /** The result is a permutation of the input. */
  lemma {:induction false} SortDescPermutes<T>(s: seq<T>, key: T -> real)
    ensures multiset(SortDesc(s, key)) == multiset(s)
  {
    if s != [] {
      SortDescPermutes(s[..|s| - 1], key);
      InsertMultiset(SortDesc(s[..|s| - 1], key), s[|s| - 1], key);
      assert s == s[..|s| - 1] + [s[|s| - 1]];
    }
  }

  /** Stability: elements with equal keys keep their input order. */
  lemma {:induction false} SortDescStable<T>(s: seq<T>, key: T -> real, k: real)
    ensures WithKey(SortDesc(s, key), key, k) == WithKey(s, key, k)
  {
    if s != [] {
      var init, last := s[..|s| - 1], s[|s| - 1];
      SortDescStable(init, key, k);
      SortDescSorted(init, key);
      InsertWithKey(SortDesc(init, key), last, key, k);
      assert s == init + [last];
      FilterConcat(init, [last], KeyIs(key, k));
      assert [last][..0] == [];
    }
  }

  /** Sorting does not change a sum over the elements. */
  lemma {:induction false} SortDescSum<T>(s: seq<T>, key: T -> real, f: T -> int)
    ensures SumOf(SortDesc(s, key), f) == SumOf(s, f)
  {
    if s != [] {
      SortDescSum(s[..|s| - 1], key, f);
      InsertSum(SortDesc(s[..|s| - 1], key), s[|s| - 1], key, f);
    }
  }

  /** The first `n` of a sorted list: each of them has a key at least that of
      every element left out, and among equal keys they are the earliest ones. */
  lemma TopOfSorted<T>(s: seq<T>, key: T -> real, n: nat, k: real)
    requires SortedDesc(s, key)
    ensures forall i, j :: 0 <= i < |Take(s, n)| <= j < |s| ==> key(Take(s, n)[i]) >= key(s[j])
    ensures |WithKey(Take(s, n), key, k)| <= |WithKey(s, key, k)|
    ensures WithKey(Take(s, n), key, k) == WithKey(s, key, k)[..|WithKey(Take(s, n), key, k)|]
  {
    var t := Take(s, n);
    assert s == t + s[|t|..];
    FilterConcat(t, s[|t|..], KeyIs(key, k));
  }

  /** The first `n` of the sorted list are drawn from the input, each at most
      as often as it occurs there. */
  lemma TopIsSubMultiset<T>(s: seq<T>, key: T -> real, n: nat)
    ensures multiset(Take(SortDesc(s, key), n)) <= multiset(s)
    ensures forall x :: x in Take(SortDesc(s, key), n) ==> x in s
  {
    var sorted := SortDesc(s, key);
    var t := Take(sorted, n);
    SortDescPermutes(s, key);
    assert sorted == t + sorted[|t|..];
    assert multiset(sorted) == multiset(t) + multiset(sorted[|t|..]);
    forall x | x in t ensures x in s {
      assert x in multiset(t);
    }
  }
}
