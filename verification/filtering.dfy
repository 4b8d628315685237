/** Order-preserving filtering and offset/limit slicing of sequences: the list
    comprehensions `[x for x in xs if p(x)]` and the slice `xs[skip:skip+limit]`. */
module Filtering {

  /** The elements of `s` satisfying `p`, in their original order. */
  function Where<T(!new)>(s: seq<T>, p: T -> bool): (r: seq<T>)
    ensures |r| <= |s|
    ensures forall x :: x in r <==> x in s && p(x)
    decreases |s|
  {
    if |s| == 0 then []
    else
      assert s == [s[0]] + s[1..];
      if p(s[0]) then [s[0]] + Where(s[1..], p) else Where(s[1..], p)
  }

  /** `a` is obtained from `b` by deleting elements, without reordering the rest. */
  predicate IsSubsequence<T(==)>(a: seq<T>, b: seq<T>)
    decreases |b|
  {
    if |a| == 0 then true
    else if |b| == 0 then false
    else (a[0] == b[0] && IsSubsequence(a[1..], b[1..])) || IsSubsequence(a, b[1..])
  }

  /** Filtering only deletes elements: what is kept stays in insertion order. */
  lemma {:induction false} WhereIsSubsequence<T(!new)>(s: seq<T>, p: T -> bool)
    ensures IsSubsequence(Where(s, p), s)
    decreases |s|
  {
    if |s| > 0 {
      WhereIsSubsequence(s[1..], p);
      var w := Where(s, p);
      if p(s[0]) {
        assert w[0] == s[0] && w[1..] == Where(s[1..], p);
      } else {
        assert w == Where(s[1..], p);
      }
    }
  }

  /** Two filters applied one after the other keep exactly what their conjunction keeps. */
  lemma {:induction false} WhereWhere<T(!new)>(s: seq<T>, p: T -> bool, q: T -> bool, both: T -> bool)
    requires forall x :: both(x) == (p(x) && q(x))
    ensures Where(Where(s, p), q) == Where(s, both)
    decreases |s|
  {
    if |s| > 0 {
      WhereWhere(s[1..], p, q, both);
      if p(s[0]) {
        assert Where(s, p) == [s[0]] + Where(s[1..], p);
        assert Where(s, p)[1..] == Where(s[1..], p);
      }
    }
  }

  /** Filters that agree on every element of `s` keep the same elements of `s`. */
  lemma {:induction false} WhereAgree<T(!new)>(s: seq<T>, p: T -> bool, q: T -> bool)
    requires forall i :: 0 <= i < |s| ==> p(s[i]) == q(s[i])
    ensures Where(s, p) == Where(s, q)
    decreases |s|
  {
    if |s| > 0 {
      WhereAgree(s[1..], p, q);
    }
  }

  /** A filter that every element passes keeps the whole sequence. */
  lemma {:induction false} WhereAll<T(!new)>(s: seq<T>, p: T -> bool)
    requires forall i :: 0 <= i < |s| ==> p(s[i])
    ensures Where(s, p) == s
    decreases |s|
  {
    if |s| > 0 {
      WhereAll(s[1..], p);
      assert s == [s[0]] + s[1..];
    }
  }

  /** A filter and its negation split a sequence: their lengths add up to the whole. */
  lemma {:induction false} WherePartition<T(!new)>(s: seq<T>, p: T -> bool, notP: T -> bool)
    requires forall x :: notP(x) == !p(x)
    ensures |Where(s, p)| + |Where(s, notP)| == |s|
    decreases |s|
  {
    if |s| > 0 {
      WherePartition(s[1..], p, notP);
    }
  }

  /** A stronger filter keeps no more elements than a weaker one. */
  lemma {:induction false} WhereMonotone<T(!new)>(s: seq<T>, p: T -> bool, q: T -> bool)
    requires forall x :: p(x) ==> q(x)
    ensures |Where(s, p)| <= |Where(s, q)|
    decreases |s|
  {
    if |s| > 0 {
      WhereMonotone(s[1..], p, q);
    }
  }

  function Min(a: int, b: int): int { if a <= b then a else b }
  function Max(a: int, b: int): int { if a >= b then a else b }

  /** Python's slice `s[skip:skip+limit]` for a non-negative `skip`: an offset
      past the end yields an empty page rather than an error. */
  function Page<T>(s: seq<T>, skip: nat, limit: nat): (r: seq<T>)
    ensures |r| == Min(limit, Max(0, |s| - skip))
    ensures forall k :: 0 <= k < |r| ==> r[k] == s[skip + k]
    ensures forall x :: x in r ==> x in s
  {
    var lo := Min(skip, |s|);
    var hi := Min(skip + limit, |s|);
    s[lo..hi]
  }
}
