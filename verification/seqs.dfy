/**
 Generic sequence operations standing in for the JavaScript array methods the
 store uses: `filter`, `reduce`, and de-duplication through a `Set`.
 */
module Seqs {

  /** `a` is obtained from `b` by deleting elements, keeping the order of the rest. */
  predicate IsSubseq<T(==)>(a: seq<T>, b: seq<T>)
    decreases |b|
  {
    if a == [] then true
    else if b == [] then false
    else (a[0] == b[0] && IsSubseq(a[1..], b[1..])) || IsSubseq(a, b[1..])
  }

  /** No element occurs twice. */
  predicate NoDup<T(==)>(s: seq<T>) {
    forall i, j :: 0 <= i < j < |s| ==> s[i] != s[j]
  }

  /** `Array.prototype.filter`: keeps, in order, the elements satisfying `keep`. */
  function Filter<T(==,!new)>(s: seq<T>, keep: T -> bool): (r: seq<T>)
    ensures |r| <= |s|
    ensures forall x :: x in r <==> x in s && keep(x)
    ensures IsSubseq(r, s)
  {
    if s == [] then []
    else
      var rest := Filter(s[1..], keep);
      if keep(s[0]) then
        assert ([s[0]] + rest)[1..] == rest;
        [s[0]] + rest
      else rest
  }

  /** Filtering keeps every occurrence of a kept value and none of a dropped one. */
  lemma {:induction false} FilterMultiset<T(!new)>(s: seq<T>, keep: T -> bool)
    ensures forall x :: multiset(Filter(s, keep))[x] == if keep(x) then multiset(s)[x] else 0
  {
    if s != [] {
      FilterMultiset(s[1..], keep);
      assert s == [s[0]] + s[1..];
    }
  }

  lemma {:induction false} FilterConcat<T(!new)>(a: seq<T>, b: seq<T>, keep: T -> bool)
    ensures Filter(a + b, keep) == Filter(a, keep) + Filter(b, keep)
  {
    if a != [] {
      assert (a + b)[0] == a[0];
      assert (a + b)[1..] == a[1..] + b;
      FilterConcat(a[1..], b, keep);
      if keep(a[0]) {
        assert Filter(a, keep) == [a[0]] + Filter(a[1..], keep);
      }
    } else {
      assert a + b == b;
    }
  }

  /** A filter whose predicate holds everywhere is the identity. */
  lemma {:induction false} FilterKeepsAll<T(!new)>(s: seq<T>, keep: T -> bool)
    requires forall i :: 0 <= i < |s| ==> keep(s[i])
    ensures Filter(s, keep) == s
  {
    if s != [] {
      FilterKeepsAll(s[1..], keep);
      assert s == [s[0]] + s[1..];
    }
  }

  /** Two predicates that agree on the elements of `s` select the same sequence. */
  lemma {:induction false} FilterExt<T(!new)>(s: seq<T>, f: T -> bool, g: T -> bool)
    requires forall i :: 0 <= i < |s| ==> f(s[i]) == g(s[i])
    ensures Filter(s, f) == Filter(s, g)
  {
    if s != [] {
      FilterExt(s[1..], f, g);
    }
  }

  /** Filtering twice is filtering once by the conjunction. */
  lemma {:induction false} FilterCompose<T(!new)>(s: seq<T>, f: T -> bool, g: T -> bool, both: T -> bool)
    requires forall x :: both(x) == (f(x) && g(x))
    ensures Filter(Filter(s, f), g) == Filter(s, both)
  {
    if s != [] {
      FilterCompose(s[1..], f, g, both);
      if f(s[0]) {
        assert Filter(s, f) == [s[0]] + Filter(s[1..], f);
        assert Filter(s, f)[1..] == Filter(s[1..], f);
      }
    }
  }

  /** Sum of the weights `w` of the elements. */
  function Sum<T>(s: seq<T>, w: T -> int): int {
    if s == [] then 0 else w(s[0]) + Sum(s[1..], w)
  }

  lemma {:induction false} SumConcat<T>(a: seq<T>, b: seq<T>, w: T -> int)
    ensures Sum(a + b, w) == Sum(a, w) + Sum(b, w)
  {
    if a != [] {
      assert (a + b)[0] == a[0];
      assert (a + b)[1..] == a[1..] + b;
      SumConcat(a[1..], b, w);
    } else {
      assert a + b == b;
    }
  }

  /** Replacing one element changes the sum by exactly the difference of the weights. */
  lemma SumUpdate<T>(s: seq<T>, k: int, y: T, w: T -> int)
    requires 0 <= k < |s|
    ensures Sum(s[k := y], w) == Sum(s, w) - w(s[k]) + w(y)
  {
    var pre, post := s[..k], s[k + 1..];
    var before, after := [s[k]] + post, [y] + post;
    assert s == pre + before && s[k := y] == pre + after;
    assert before[0] == s[k] && before[1..] == post;
    assert after[0] == y && after[1..] == post;
    SumConcat(pre, before, w);
    SumConcat(pre, after, w);
  }

  /** Deleting one element lowers the sum by its weight. */
  lemma SumRemoveAt<T>(s: seq<T>, k: int, w: T -> int)
    requires 0 <= k < |s|
    ensures Sum(s[..k] + s[k + 1..], w) == Sum(s, w) - w(s[k])
  {
    var pre, post := s[..k], s[k + 1..];
    var tail := [s[k]] + post;
    assert s == pre + tail;
    assert tail[0] == s[k] && tail[1..] == post;
    assert Sum(tail, w) == w(s[k]) + Sum(post, w);
    SumConcat(pre, tail, w);
    SumConcat(pre, post, w);
  }

  /** `Array.prototype.reduce(f, init)`: a left fold. */
  function FoldLeft<A, T>(f: (A, T) -> A, init: A, s: seq<T>): A {
    if s == [] then init else FoldLeft(f, f(init, s[0]), s[1..])
  }

  /** A fold whose step adds a weight computes the sum of the weights. */
  lemma {:induction false} FoldLeftIsSum<T>(f: (int, T) -> int, w: T -> int, init: int, s: seq<T>)
    requires forall acc, x :: f(acc, x) == acc + w(x)
    ensures FoldLeft(f, init, s) == init + Sum(s, w)
    decreases s
  {
    if s != [] {
      FoldLeftIsSum(f, w, f(init, s[0]), s[1..]);
    }
  }

  /**
   The elements of `s` not in `seen`, each once, in the order of their first
   occurrence: what spreading a JavaScript `Set` built from `s` yields when
   `seen` is empty.
   */
  function DistinctFrom<T(==,!new)>(s: seq<T>, seen: set<T>): (r: seq<T>)
    ensures NoDup(r)
    ensures forall x :: x in r <==> x in s && x !in seen
    ensures IsSubseq(r, s)
  {
    if s == [] then []
    else if s[0] in seen then DistinctFrom(s[1..], seen)
    else
      var rest := DistinctFrom(s[1..], seen + {s[0]});
      assert ([s[0]] + rest)[1..] == rest;
      [s[0]] + rest
  }

  function Distinct<T(==,!new)>(s: seq<T>): (r: seq<T>)
    ensures NoDup(r)
    ensures forall x :: x in r <==> x in s
    ensures IsSubseq(r, s)
  {
    DistinctFrom(s, {})
  }

  /** The position of the first occurrence of `x`, as `indexOf`. */
  function IndexOf<T(==)>(s: seq<T>, x: T): (r: nat)
    requires x in s
    ensures r < |s| && s[r] == x
    ensures forall j :: 0 <= j < r ==> s[j] != x
  {
    if s[0] == x then 0 else 1 + IndexOf(s[1..], x)
  }

  lemma IndexOfTail<T>(s: seq<T>, x: T)
    requires x in s && x != s[0]
    ensures x in s[1..] && IndexOf(s, x) == 1 + IndexOf(s[1..], x)
  {
  }

  /** The elements of `r` are listed in the order of their first occurrence in `s`. */
  predicate InFirstSeenOrder<T(==)>(r: seq<T>, s: seq<T>)
    requires forall x :: x in r ==> x in s
  {
    forall i, j :: 0 <= i < j < |r| ==> IndexOf(s, r[i]) < IndexOf(s, r[j])
  }

  /** Prepending an element that occurs in neither keeps the order of the first occurrences. */
  lemma InFirstSeenOrderCons<T>(r: seq<T>, s: seq<T>, y: T)
    requires forall x :: x in r ==> x in s && x != y
    requires InFirstSeenOrder(r, s)
    ensures InFirstSeenOrder(r, [y] + s)
  {
    var t := [y] + s;
    assert t[1..] == s;
    forall i, j | 0 <= i < j < |r|
      ensures IndexOf(t, r[i]) < IndexOf(t, r[j])
    {
      assert r[i] in r && r[j] in r;
      IndexOfTail(t, r[i]);
      IndexOfTail(t, r[j]);
    }
  }

  /** The distinct elements come out in the order in which they first occur. */
  lemma {:induction false} DistinctFromOrder<T(!new)>(s: seq<T>, seen: set<T>)
    ensures InFirstSeenOrder(DistinctFrom(s, seen), s)
  {
    if s != [] {
      var r := DistinctFrom(s, seen);
      assert s == [s[0]] + s[1..];
      if s[0] in seen {
        DistinctFromOrder(s[1..], seen);
        InFirstSeenOrderCons(r, s[1..], s[0]);
      } else {
        var rest := DistinctFrom(s[1..], seen + {s[0]});
        DistinctFromOrder(s[1..], seen + {s[0]});
        InFirstSeenOrderCons(rest, s[1..], s[0]);
        assert r == [s[0]] + rest;
        forall i, j | 0 <= i < j < |r|
          ensures IndexOf(s, r[i]) < IndexOf(s, r[j])
        {
          assert r[j] == rest[j - 1];
          if i > 0 {
            assert r[i] == rest[i - 1];
          }
        }
      }
    }
  }
}
