/** Generic sequence helpers shared by the three report scripts: the optional
    value that stands for a missing JSON field, order-preserving filtering (a
    list comprehension with an `if`), sums, Python's prefix slice and `max`. */
module Seqs {

  datatype Option<+T> = None | Some(value: T) {
    /** `d.get(key, default)` once the lookup has been done. */
    function GetOr(default: T): T {
      match this
      case Some(v) => v
      case None => default
    }
  }

  function Min(a: int, b: int): int { if a <= b then a else b }

  /** `[x for x in s if p(x)]`: keeps the elements satisfying `p`, in order. */
  function Filter<T>(s: seq<T>, p: T -> bool): (r: seq<T>)
    ensures |r| <= |s|
    ensures forall i :: 0 <= i < |r| ==> p(r[i]) && r[i] in s
  {
    if s == [] then []
    else Filter(s[..|s| - 1], p) + (if p(s[|s| - 1]) then [s[|s| - 1]] else [])
  }

  lemma {:induction false} FilterMember<T>(s: seq<T>, p: T -> bool, x: T)
    ensures x in Filter(s, p) <==> x in s && p(x)
  {
    if s != [] {
      FilterMember(s[..|s| - 1], p, x);
      assert s == s[..|s| - 1] + [s[|s| - 1]];
    }
  }

  lemma {:induction false} FilterConcat<T>(s: seq<T>, t: seq<T>, p: T -> bool)
    ensures Filter(s + t, p) == Filter(s, p) + Filter(t, p)
  {
    if t == [] {
      assert s + t == s;
    } else {
      FilterConcat(s, t[..|t| - 1], p);
      assert (s + t)[..|s + t| - 1] == s + t[..|t| - 1];
    }
  }

  lemma {:induction false} FilterCons<T>(x: T, s: seq<T>, p: T -> bool)
    ensures Filter([x] + s, p) == (if p(x) then [x] else []) + Filter(s, p)
  {
    var xs := [x] + s;
    if s == [] {
      assert xs[..|xs| - 1] == [];
    } else {
      FilterCons(x, s[..|s| - 1], p);
      assert xs[..|xs| - 1] == [x] + s[..|s| - 1];
      assert xs[|xs| - 1] == s[|s| - 1];
    }
  }

  /** A filter whose predicate holds nowhere on `s` keeps nothing. */
  lemma {:induction false} FilterNone<T>(s: seq<T>, p: T -> bool)
    requires forall i :: 0 <= i < |s| ==> !p(s[i])
    ensures Filter(s, p) == []
  {
    if s != [] {
      FilterNone(s[..|s| - 1], p);
    }
  }

  /** `sum(f(x) for x in s)` */
  function SumOf<T>(s: seq<T>, f: T -> int): int {
    if s == [] then 0 else SumOf(s[..|s| - 1], f) + f(s[|s| - 1])
  }

  lemma {:induction false} SumConcat<T>(s: seq<T>, t: seq<T>, f: T -> int)
    ensures SumOf(s + t, f) == SumOf(s, f) + SumOf(t, f)
  {
    if t == [] {
      assert s + t == s;
    } else {
      SumConcat(s, t[..|t| - 1], f);
      assert (s + t)[..|s + t| - 1] == s + t[..|t| - 1];
    }
  }

  lemma SumCons<T>(x: T, s: seq<T>, f: T -> int)
    ensures SumOf([x] + s, f) == f(x) + SumOf(s, f)
  {
    SumConcat([x], s, f);
    assert [x][..0] == [];
  }

  /** `s[:n]` for a non-negative `n`. */
  function Take<T>(s: seq<T>, n: nat): (r: seq<T>)
    ensures |r| == Min(n, |s|)
    ensures r == s[..|r|]
  {
    if n <= |s| then s[..n] else s
  }

  /** Python's `s[:n]` for any integer `n`: a negative `n` counts from the end. */
  function PrefixTo<T>(s: seq<T>, n: int): (r: seq<T>)
    ensures n >= 0 ==> |r| == Min(n, |s|)
    ensures n < 0 ==> |r| == (if |s| + n >= 0 then |s| + n else 0)
    ensures r == s[..|r|]
  {
    if n >= 0 then Take(s, n)
    else if |s| + n >= 0 then s[..|s| + n]
    else []
  }

  /** Python's `max(s)` on a non-empty list of integers (it raises on an empty one). */
  function MaxOf(s: seq<int>): (m: int)
    requires |s| > 0
    ensures m in s
    ensures forall i :: 0 <= i < |s| ==> s[i] <= m
  {
    if |s| == 1 then s[0]
    else
      var rest := MaxOf(s[..|s| - 1]);
      assert s[..|s| - 1][0] == s[0];
      if s[|s| - 1] > rest then s[|s| - 1] else rest
  }
}
