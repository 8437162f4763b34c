/**
 * Sequence vocabulary shared by the loader and the analytics: filtering
 * (pandas boolean indexing), occurrence counts (`value_counts`), the distinct
 * values of a column (`unique`) and sums of counts.
 */
module Seqs {

  /** The elements of `xs` that satisfy `p`, in their original order. */
  function Filter<T>(xs: seq<T>, p: T -> bool): (r: seq<T>)
    ensures |r| <= |xs|
    ensures forall x :: x in r ==> x in xs && p(x)
  {
    if xs == [] then [] else (if p(xs[0]) then [xs[0]] else []) + Filter(xs[1..], p)
  }

  /** `a` can be obtained from `b` by deleting elements (greedy matching). */
  predicate IsSubseq<T(==)>(a: seq<T>, b: seq<T>)
    decreases |b|
  {
    if a == [] then true
    else if b == [] then false
    else if a[0] == b[0] then IsSubseq(a[1..], b[1..])
    else IsSubseq(a, b[1..])
  }

  lemma {:induction false} SubseqCons<T>(a: seq<T>, b: seq<T>)
    requires b != [] && IsSubseq(a, b[1..])
    ensures IsSubseq(a, b)
    decreases |b|, 0
  {
    if a != [] && a[0] == b[0] {
      SubseqTail(a, b[1..]);
    }
  }

  lemma {:induction false} SubseqTail<T>(a: seq<T>, b: seq<T>)
    requires a != [] && IsSubseq(a, b)
    ensures IsSubseq(a[1..], b)
    decreases |b|, 1
  {
    if a[0] == b[0] {
      SubseqCons(a[1..], b);
    } else {
      SubseqTail(a, b[1..]);
      SubseqCons(a[1..], b);
    }
  }

  /** Filtering keeps the order of what it keeps. */
  lemma {:induction false} FilterIsSubseq<T>(xs: seq<T>, p: T -> bool)
    ensures IsSubseq(Filter(xs, p), xs)
  {
    if xs != [] {
      FilterIsSubseq(xs[1..], p);
      if !p(xs[0]) {
        assert Filter(xs, p) == Filter(xs[1..], p);
        SubseqCons(Filter(xs[1..], p), xs);
      }
    }
  }

  /** Filtering keeps every copy of a satisfying element and no copy of another. */
  lemma {:induction false} FilterMultiplicity<T>(xs: seq<T>, p: T -> bool, x: T)
    ensures multiset(Filter(xs, p))[x] == if p(x) then multiset(xs)[x] else 0
  {
    if xs != [] {
      FilterMultiplicity(xs[1..], p, x);
      assert xs == [xs[0]] + xs[1..];
      assert multiset(xs) == multiset([xs[0]]) + multiset(xs[1..]);
      var head := if p(xs[0]) then [xs[0]] else [];
      assert multiset(Filter(xs, p)) == multiset(head) + multiset(Filter(xs[1..], p));
    }
  }

  /** Filtering by `p` and then by `q` is filtering once by their conjunction `pq`. */
  lemma {:induction false} FilterFilter<T>(xs: seq<T>, p: T -> bool, q: T -> bool, pq: T -> bool)
    requires forall x :: x in xs ==> (pq(x) <==> p(x) && q(x))
    ensures Filter(Filter(xs, p), q) == Filter(xs, pq)
  {
    if xs != [] {
      var x, rest := xs[0], xs[1..];
      assert x in xs && forall y :: y in rest ==> y in xs;
      FilterFilter(rest, p, q, pq);
      if p(x) {
        assert Filter(xs, p) == [x] + Filter(rest, p);
        FilterCons(x, Filter(rest, p), q);
      } else {
        assert Filter(xs, p) == Filter(rest, p);
      }
    }
  }

  /** Filtering a list that starts with `x` keeps `x` in front exactly when it satisfies `p`. */
  lemma FilterCons<T>(x: T, rest: seq<T>, p: T -> bool)
    ensures Filter([x] + rest, p) == (if p(x) then [x] else []) + Filter(rest, p)
  {
    assert ([x] + rest)[1..] == rest;
  }

  /** Filtering by a predicate every element satisfies changes nothing. */
  lemma {:induction false} FilterKeepsAll<T>(xs: seq<T>, p: T -> bool)
    requires forall x :: x in xs ==> p(x)
    ensures Filter(xs, p) == xs
  {
    if xs != [] {
      FilterKeepsAll(xs[1..], p);
    }
  }

  /** `f` applied to every element of `xs`, in order. */
  function Map<A, B>(f: A -> B, xs: seq<A>): (r: seq<B>)
    ensures |r| == |xs|
    ensures forall i :: 0 <= i < |xs| ==> r[i] == f(xs[i])
  {
    if xs == [] then [] else Map(f, xs[..|xs| - 1]) + [f(xs[|xs| - 1])]
  }

  /** Sequences with the same elements, counted with multiplicity, have the same members. */
  lemma SameMembers<T>(a: seq<T>, b: seq<T>)
    requires multiset(a) == multiset(b)
    ensures forall x :: x in a ==> x in b
  {
    forall x | x in a ensures x in b {
      assert x in multiset(a);
    }
  }

  /** Number of occurrences of `v` in `xs`. */
  function Count<T(==)>(xs: seq<T>, v: T): (r: nat)
    ensures r == multiset(xs)[v]
  {
    if xs == [] then 0
    else
      assert xs == [xs[0]] + xs[1..];
      (if xs[0] == v then 1 else 0) + Count(xs[1..], v)
  }

  predicate NoDuplicates<T(==)>(s: seq<T>) {
    forall i, j :: 0 <= i < j < |s| ==> s[i] != s[j]
  }

  /** The distinct elements of `xs`, in order of first appearance (pandas `unique`). */
  function Unique<T(==)>(xs: seq<T>): (r: seq<T>)
    ensures |r| <= |xs|
  {
    if xs == [] then []
    else
      var u := Unique(xs[..|xs| - 1]);
      var x := xs[|xs| - 1];
      if x in u then u else u + [x]
  }

  /** `Unique` keeps one copy of every element and nothing else. */
  lemma {:induction false} UniqueSpec<T>(xs: seq<T>)
    ensures NoDuplicates(Unique(xs))
    ensures forall x :: x in Unique(xs) <==> x in xs
  {
    if xs != [] {
      var init := xs[..|xs| - 1];
      UniqueSpec(init);
      assert xs == init + [xs[|xs| - 1]];
    }
  }

  /** The count of each key of `ks` in `xs`. */
  function Counts<T(==)>(ks: seq<T>, xs: seq<T>): (r: seq<nat>)
    ensures |r| == |ks|
    ensures forall i :: 0 <= i < |ks| ==> r[i] == Count(xs, ks[i])
  {
    if ks == [] then [] else [Count(xs, ks[0])] + Counts(ks[1..], xs)
  }

  function Sum(cs: seq<nat>): nat {
    if cs == [] then 0 else cs[0] + Sum(cs[1..])
  }

  function SumOfSquares(cs: seq<nat>): nat {
    if cs == [] then 0 else cs[0] * cs[0] + SumOfSquares(cs[1..])
  }

  lemma {:induction false} SumCountsCons<T>(ks: seq<T>, x: T, rest: seq<T>)
    ensures Sum(Counts(ks, [x] + rest)) == Count(ks, x) + Sum(Counts(ks, rest))
  {
    if ks != [] {
      SumCountsCons(ks[1..], x, rest);
      assert ([x] + rest)[1..] == rest;
    }
  }

  lemma {:induction false} CountInDistinct<T>(ks: seq<T>, x: T)
    requires NoDuplicates(ks) && x in ks
    ensures Count(ks, x) == 1
  {
    if ks[0] == x {
      assert x !in ks[1..] by {
        forall j | 0 <= j < |ks[1..]| ensures ks[1..][j] != x {
          assert ks[1..][j] == ks[j + 1];
        }
      }
    } else {
      CountInDistinct(ks[1..], x);
    }
  }

  /** Counting every element of `xs` under a duplicate-free key list that covers it accounts for all of `xs`. */
  lemma {:induction false} SumCountsCover<T>(ks: seq<T>, xs: seq<T>)
    requires NoDuplicates(ks)
    requires forall x :: x in xs ==> x in ks
    ensures Sum(Counts(ks, xs)) == |xs|
  {
    if xs == [] {
      SumCountsEmpty(ks);
    } else {
      assert xs == [xs[0]] + xs[1..];
      SumCountsCons(ks, xs[0], xs[1..]);
      CountInDistinct(ks, xs[0]);
      SumCountsCover(ks, xs[1..]);
    }
  }

  /** Counting each distinct value of `xs` in `xs`: every count is positive and they add up to `|xs|`. */
  lemma CountsOfUnique<T>(xs: seq<T>)
    ensures Sum(Counts(Unique(xs), xs)) == |xs|
    ensures forall i :: 0 <= i < |Unique(xs)| ==> Counts(Unique(xs), xs)[i] > 0
  {
    var ks := Unique(xs);
    UniqueSpec(xs);
    assert forall x :: x in Unique(xs) ==> x in xs;
    assert forall x :: x in ks ==> x in xs;
    SumCountsCover(ks, xs);
    forall i | 0 <= i < |ks| ensures Count(xs, ks[i]) > 0 {
      assert ks[i] in xs;
      assert ks[i] in multiset(xs);
    }
  }

  lemma {:induction false} SumCountsEmpty<T>(ks: seq<T>)
    ensures Sum(Counts(ks, [])) == 0
  {
    if ks != [] {
      SumCountsEmpty(ks[1..]);
    }
  }

  /** A sum of squares never exceeds the square of the sum. */
  lemma {:induction false} SquaresAtMostSquare(cs: seq<nat>)
    ensures SumOfSquares(cs) <= Sum(cs) * Sum(cs)
  {
    if cs != [] {
      SquaresAtMostSquare(cs[1..]);
      var c, s := cs[0], Sum(cs[1..]);
      assert (c + s) * (c + s) == c * c + 2 * c * s + s * s;
    }
  }

  /** With two or more positive terms the inequality is strict. */
  lemma {:induction false} SquaresBelowSquare(cs: seq<nat>)
    requires |cs| >= 2
    requires forall i :: 0 <= i < |cs| ==> cs[i] > 0
    ensures SumOfSquares(cs) < Sum(cs) * Sum(cs)
  {
    SquaresAtMostSquare(cs[1..]);
    var c, s := cs[0], Sum(cs[1..]);
    assert s >= cs[1..][0] > 0;
    assert (c + s) * (c + s) == c * c + 2 * c * s + s * s;
    assert c * s > 0;
  }

  /** Positive terms give a positive sum of squares. */
  lemma {:induction false} SquaresPositive(cs: seq<nat>)
    requires |cs| >= 1 && cs[0] > 0
    ensures SumOfSquares(cs) > 0 && Sum(cs) > 0
  {
  }
}
