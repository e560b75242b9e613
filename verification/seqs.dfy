/**
 * Sequence helpers that mirror the JavaScript array methods the dashboard uses:
 * `Array.prototype.filter` and `Array.prototype.indexOf`.
 */
module Seqs {

  /** `xs.filter(p)`: the elements of `xs` that satisfy `p`, in their original order. */
  function Filter<T(!new)>(xs: seq<T>, p: T -> bool): (r: seq<T>)
    ensures |r| <= |xs|
    ensures forall i :: 0 <= i < |r| ==> r[i] in xs && p(r[i])
    ensures forall i :: 0 <= i < |xs| && p(xs[i]) ==> xs[i] in r
    ensures IsSubsequence(r, xs)
    ensures forall x :: multiset(r)[x] == if p(x) then multiset(xs)[x] else 0
  {
    if xs == [] then []
    else
      var rest := Filter(xs[1..], p);
      var r := if p(xs[0]) then [xs[0]] + rest else rest;
      assert r == [xs[0]] + rest ==> r[1..] == rest;
      FilterCountsStep(xs, p, rest, r);
      CountsGiveMembership(xs, p, r);
      r
  }

  /** Multiplicities that follow `p` say which elements are kept. */
  lemma CountsGiveMembership<T(!new)>(xs: seq<T>, p: T -> bool, r: seq<T>)
    requires forall x :: multiset(r)[x] == if p(x) then multiset(xs)[x] else 0
    ensures forall i :: 0 <= i < |r| ==> r[i] in xs && p(r[i])
    ensures forall i :: 0 <= i < |xs| && p(xs[i]) ==> xs[i] in r
  {
    forall i | 0 <= i < |r|
      ensures r[i] in xs && p(r[i])
    {
      assert r[i] in multiset(r);
    }
    forall i | 0 <= i < |xs| && p(xs[i])
      ensures xs[i] in r
    {
      assert xs[i] in multiset(xs);
    }
  }

  /** The multiplicity step of `Filter`: one more element, counted exactly when it passes. */
  lemma FilterCountsStep<T(!new)>(xs: seq<T>, p: T -> bool, rest: seq<T>, r: seq<T>)
    requires xs != []
    requires forall x :: multiset(rest)[x] == if p(x) then multiset(xs[1..])[x] else 0
    requires r == if p(xs[0]) then [xs[0]] + rest else rest
    ensures forall x :: multiset(r)[x] == if p(x) then multiset(xs)[x] else 0
  {
    assert xs == [xs[0]] + xs[1..];
    assert multiset(xs) == multiset{xs[0]} + multiset(xs[1..]);
  }

  /** `a` can be obtained from `b` by deleting elements, without reordering the rest. */
  ghost predicate IsSubsequence<T>(a: seq<T>, b: seq<T>)
    decreases |b|
  {
    if b == [] then a == []
    else (a != [] && a[0] == b[0] && IsSubsequence(a[1..], b[1..])) || IsSubsequence(a, b[1..])
  }

  /** Two predicates that agree on every element filter alike. */
  lemma {:induction false} FilterSameChoice<T(!new)>(xs: seq<T>, p: T -> bool, q: T -> bool)
    requires forall i :: 0 <= i < |xs| ==> p(xs[i]) == q(xs[i])
    ensures Filter(xs, p) == Filter(xs, q)
  {
    if xs != [] {
      FilterSameChoice(xs[1..], p, q);
    }
  }

  /** Filtering twice with the same predicate is the same as filtering once. */
  lemma {:induction false} FilterIdempotent<T(!new)>(xs: seq<T>, p: T -> bool)
    ensures Filter(Filter(xs, p), p) == Filter(xs, p)
  {
    if xs != [] {
      var rest := Filter(xs[1..], p);
      FilterIdempotent(xs[1..], p);
      if p(xs[0]) {
        assert Filter(xs, p) == [xs[0]] + rest;
        assert ([xs[0]] + rest)[1..] == rest;
      } else {
        assert Filter(xs, p) == rest;
      }
    }
  }

  /** A predicate that every element satisfies filters nothing out. */
  lemma {:induction false} FilterAllKept<T(!new)>(xs: seq<T>, p: T -> bool)
    requires forall i :: 0 <= i < |xs| ==> p(xs[i])
    ensures Filter(xs, p) == xs
  {
    if xs != [] {
      FilterAllKept(xs[1..], p);
      assert [xs[0]] + xs[1..] == xs;
    }
  }

  /** When exactly one position passes, the filter gives back that element alone. */
  lemma {:induction false} FilterSingle<T(!new)>(xs: seq<T>, p: T -> bool, k: nat)
    requires k < |xs| && p(xs[k])
    requires forall i :: 0 <= i < |xs| && i != k ==> !p(xs[i])
    ensures Filter(xs, p) == [xs[k]]
  {
    if k == 0 {
      FilterNone(xs[1..], p);
    } else {
      FilterSingle(xs[1..], p, k - 1);
    }
  }

  /** A predicate that no element satisfies filters everything out. */
  lemma {:induction false} FilterNone<T(!new)>(xs: seq<T>, p: T -> bool)
    requires forall i :: 0 <= i < |xs| ==> !p(xs[i])
    ensures Filter(xs, p) == []
  {
    if xs != [] {
      FilterNone(xs[1..], p);
    }
  }

  /**
   * `xs.indexOf(x)`: the first position of `x` in `xs`, or -1 when `x` does not occur.
   */
  function IndexOf<T(==)>(xs: seq<T>, x: T): (i: int)
    ensures -1 <= i < |xs|
    ensures i == -1 <==> x !in xs
    ensures 0 <= i ==> xs[i] == x && x !in xs[..i]
  {
    if xs == [] then -1
    else if xs[0] == x then 0
    else
      var j := IndexOf(xs[1..], x);
      if j == -1 then -1
      else
        assert xs[..j + 1] == [xs[0]] + xs[1..][..j];
        j + 1
  }
}
