/**
 * Sequence operations used throughout: filtering (`Array.prototype.filter`, list
 * comprehensions), subsequences, de-duplication in first-occurrence order
 * (`[...new Set(xs)]`), truncation (`.limit(n)`), and ordered validation ladders
 * (a chain of early returns, first failing check wins).
 */
module Seqs {
  import opened Wrappers

  /** `xs.filter(p)`: the elements satisfying `p`, in their original order. */
  function Filter<T(!new)>(xs: seq<T>, p: T -> bool): (r: seq<T>)
    ensures |r| <= |xs|
    ensures forall x :: x in r <==> x in xs && p(x)
  {
    if xs == [] then []
    else (if p(xs[0]) then [xs[0]] else []) + Filter(xs[1..], p)
  }

  /** `a` can be obtained from `b` by deleting elements (order kept). */
  predicate IsSubsequence<T(==)>(a: seq<T>, b: seq<T>)
    decreases |b|
  {
    a == [] || (b != [] && ((a[0] == b[0] && IsSubsequence(a[1..], b[1..])) || IsSubsequence(a, b[1..])))
  }

  /** Filtering keeps the surviving elements in their original relative order. */
  lemma {:induction false} FilterIsSubsequence<T(!new)>(xs: seq<T>, p: T -> bool)
    ensures IsSubsequence(Filter(xs, p), xs)
  {
    if xs != [] {
      FilterIsSubsequence(xs[1..], p);
      var r := Filter(xs, p);
      if p(xs[0]) {
        assert r[0] == xs[0] && r[1..] == Filter(xs[1..], p);
      } else {
        assert r == Filter(xs[1..], p);
      }
    }
  }

  /** Elements that all pass `p` survive the filter unchanged. */
  lemma {:induction false} FilterKeepsAll<T(!new)>(xs: seq<T>, p: T -> bool)
    requires forall i :: 0 <= i < |xs| ==> p(xs[i])
    ensures Filter(xs, p) == xs
  {
    if xs != [] {
      FilterKeepsAll(xs[1..], p);
      assert [xs[0]] + xs[1..] == xs;
    }
  }

  /** Filtering twice is filtering once by the conjunction. */
  lemma {:induction false} FilterFilter<T(!new)>(xs: seq<T>, p: T -> bool, q: T -> bool, pq: T -> bool)
    requires forall x :: pq(x) == (p(x) && q(x))
    ensures Filter(Filter(xs, p), q) == Filter(xs, pq)
  {
    if xs != [] {
      FilterFilter(xs[1..], p, q, pq);
      if p(xs[0]) {
        assert Filter(xs, p)[1..] == Filter(xs[1..], p);
        assert Filter(xs, p)[0] == xs[0];
      } else {
        assert Filter(xs, p) == Filter(xs[1..], p);
      }
    }
  }

  /** The order in which two filters are applied does not matter. */
  lemma FilterCommutes<T(!new)>(xs: seq<T>, p: T -> bool, q: T -> bool)
    ensures Filter(Filter(xs, p), q) == Filter(Filter(xs, q), p)
  {
    var pq := x => p(x) && q(x);
    FilterFilter(xs, p, q, pq);
    FilterFilter(xs, q, p, pq);
  }

  /** Filters whose predicates agree on every element give the same result. */
  lemma {:induction false} FilterExtensional<T(!new)>(xs: seq<T>, p: T -> bool, q: T -> bool)
    requires forall i :: 0 <= i < |xs| ==> p(xs[i]) == q(xs[i])
    ensures Filter(xs, p) == Filter(xs, q)
  {
    if xs != [] {
      FilterExtensional(xs[1..], p, q);
    }
  }

  /** A filter with a weaker predicate keeps a superset, still in order. */
  lemma {:induction false} FilterWeaker<T(!new)>(xs: seq<T>, p: T -> bool, q: T -> bool)
    requires forall x :: p(x) ==> q(x)
    ensures IsSubsequence(Filter(xs, p), Filter(xs, q))
  {
    var pq := x => p(x) && q(x);
    FilterFilter(xs, q, p, pq);
    FilterExtensional(xs, pq, p);
    FilterIsSubsequence(Filter(xs, q), p);
  }

  /** A filter and the filter by the opposite predicate split the sequence between them. */
  lemma {:induction false} FilterComplement<T(!new)>(xs: seq<T>, p: T -> bool, q: T -> bool)
    requires forall x :: q(x) == !p(x)
    ensures |Filter(xs, p)| + |Filter(xs, q)| == |xs|
  {
    if xs != [] {
      FilterComplement(xs[1..], p, q);
    }
  }

  /** Every sequence is a subsequence of itself. */
  lemma {:induction false} SubsequenceReflexive<T>(xs: seq<T>)
    ensures IsSubsequence(xs, xs)
  {
    if xs != [] {
      SubsequenceReflexive(xs[1..]);
    }
  }

  predicate NoDuplicates<T(==)>(xs: seq<T>) {
    forall i, j :: 0 <= i < j < |xs| ==> xs[i] != xs[j]
  }

  /** The index of the first occurrence of `x` in `xs`. */
  function FirstIndex<T(==)>(xs: seq<T>, x: T): (k: nat)
    requires x in xs
    ensures k < |xs| && xs[k] == x && x !in xs[..k]
  {
    if xs[0] == x then 0
    else
      assert x in xs[1..];
      var k := FirstIndex(xs[1..], x);
      assert xs[..k + 1] == [xs[0]] + xs[1..][..k];
      k + 1
  }

  lemma FirstIndexUnique<T>(xs: seq<T>, x: T, k: nat)
    requires k < |xs| && xs[k] == x && x !in xs[..k]
    ensures FirstIndex(xs, x) == k
  {
  }

  /**
   * `[...new Set(xs)]`: the distinct elements of `xs` in order of first occurrence.
   * Built left to right, appending an element the first time it is seen.
   */
  function Distinct<T(==,!new)>(xs: seq<T>): (r: seq<T>)
    ensures forall x :: x in r <==> x in xs
    ensures NoDuplicates(r)
  {
    if xs == [] then []
    else
      var r := Distinct(xs[..|xs| - 1]);
      var last := xs[|xs| - 1];
      assert forall x :: x in xs <==> x in xs[..|xs| - 1] || x == last by {
        assert xs == xs[..|xs| - 1] + [last];
      }
      if last in r then r else r + [last]
  }

  lemma FirstIndexPrefix<T>(xs: seq<T>, n: nat, y: T)
    requires n <= |xs| && y in xs[..n]
    ensures FirstIndex(xs, y) == FirstIndex(xs[..n], y) < n
  {
    var k := FirstIndex(xs[..n], y);
    assert xs[..k] == xs[..n][..k];
    FirstIndexUnique(xs, y, k);
  }

  /** Every element of `r` occurs in `xs`, and `r` lists them in order of first occurrence there. */
  predicate InFirstOccurrenceOrder<T(==)>(r: seq<T>, xs: seq<T>) {
    (forall i :: 0 <= i < |r| ==> r[i] in xs) &&
    forall i, j :: 0 <= i < j < |r| ==> FirstIndex(xs, r[i]) < FirstIndex(xs, r[j])
  }

  /** `Distinct` lists the elements in the order of their first occurrence in `xs`. */
  lemma {:induction false} DistinctFirstOccurrenceOrder<T(!new)>(xs: seq<T>)
    ensures InFirstOccurrenceOrder(Distinct(xs), xs)
  {
    if xs != [] {
      var n := |xs| - 1;
      var pre := xs[..n];
      var last := xs[n];
      DistinctFirstOccurrenceOrder(pre);
      var rp := Distinct(pre);
      var r := Distinct(xs);
      assert r == if last in rp then rp else rp + [last];
      forall i, j | 0 <= i < j < |r|
        ensures FirstIndex(xs, r[i]) < FirstIndex(xs, r[j])
      {
        assert r[i] == rp[i] && rp[i] in pre;
        FirstIndexPrefix(xs, n, rp[i]);
        if j < |rp| {
          assert r[j] == rp[j] && rp[j] in pre;
          FirstIndexPrefix(xs, n, rp[j]);
          assert FirstIndex(pre, rp[i]) < FirstIndex(pre, rp[j]);
        } else {
          assert r[j] == last && last !in pre;
          FirstIndexUnique(xs, last, n);
        }
      }
    }
  }

  /** The first `n` elements, or all of them when there are fewer. */
  function Take<T>(xs: seq<T>, n: nat): (r: seq<T>)
    ensures |r| == if n < |xs| then n else |xs|
    ensures r == xs[..|r|]
  {
    if n < |xs| then xs[..n] else xs
  }

  /** One rung of a validation ladder: a condition and the message given when it fails. */
  datatype Check<M> = Check(passes: bool, message: M)

  /** The position of the first failing check (`|checks|` when all pass). */
  function FirstFailing<M>(checks: seq<Check<M>>): (k: nat)
    ensures k <= |checks|
    ensures forall j :: 0 <= j < k ==> checks[j].passes
    ensures k < |checks| ==> !checks[k].passes
  {
    if checks == [] || !checks[0].passes then 0
    else 1 + FirstFailing(checks[1..])
  }

  /** The message of the first failing check, or None when every check passes. */
  function FirstFailure<M>(checks: seq<Check<M>>): (r: Option<M>)
    ensures r.None? <==> forall i :: 0 <= i < |checks| ==> checks[i].passes
  {
    var k := FirstFailing(checks);
    if k < |checks| then Some(checks[k].message) else None
  }

  /** When the checks before `k` pass and check `k` fails, its message is the one reported. */
  lemma FirstFailureAt<M>(checks: seq<Check<M>>, k: nat)
    requires k < |checks| && !checks[k].passes
    requires forall j :: 0 <= j < k ==> checks[j].passes
    ensures FirstFailure(checks) == Some(checks[k].message)
  {
    var f := FirstFailing(checks);
    assert f <= k;
  }
}
