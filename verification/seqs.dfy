/** `Array.prototype.filter` and the counters the pages build from it (`xs.filter(p).length`). */
module Seqs {

  /** `a` is `b` with some elements dropped and the rest kept in order. */
  predicate IsSubsequence<T(==)>(a: seq<T>, b: seq<T>)
    decreases |b|
  {
    |a| == 0 || (|b| > 0 && ((a[0] == b[0] && IsSubsequence(a[1..], b[1..])) || IsSubsequence(a, b[1..])))
  }

  lemma {:induction false} SubsequenceRefl<T>(a: seq<T>)
    ensures IsSubsequence(a, a)
    decreases |a|
  {
    if |a| > 0 {
      SubsequenceRefl(a[1..]);
    }
  }

  /** Elements put in front of a sequence keep any subsequence of it a subsequence. */
  lemma {:induction false} SubsequenceExtendLeft<T>(a: seq<T>, b: seq<T>, c: seq<T>)
    requires IsSubsequence(a, c)
    ensures IsSubsequence(a, b + c)
    decreases |b|
  {
    if |b| > 0 {
      SubsequenceExtendLeft(a, b[1..], c);
      assert (b + c)[1..] == b[1..] + c;
    } else {
      assert b + c == c;
    }
  }

  /** Subsequences of two sequences concatenate to a subsequence of their concatenation. */
  lemma {:induction false} SubsequenceAppend<T>(a: seq<T>, b: seq<T>, c: seq<T>, d: seq<T>)
    requires IsSubsequence(a, b) && IsSubsequence(c, d)
    ensures IsSubsequence(a + c, b + d)
    decreases |b|
  {
    if |a| == 0 {
      assert a + c == c;
      SubsequenceExtendLeft(c, b, d);
    } else if a[0] == b[0] && IsSubsequence(a[1..], b[1..]) {
      SubsequenceAppend(a[1..], b[1..], c, d);
      assert (a + c)[1..] == a[1..] + c;
      assert (b + d)[1..] == b[1..] + d;
    } else {
      SubsequenceAppend(a, b[1..], c, d);
      assert (b + d)[1..] == b[1..] + d;
    }
  }

  /** `xs.filter(p)`. */
  function Filter<T>(xs: seq<T>, p: T -> bool): (r: seq<T>)
    ensures |r| <= |xs|
    ensures forall i :: 0 <= i < |r| ==> p(r[i])
    ensures forall i :: 0 <= i < |r| ==> r[i] in xs
    ensures forall i :: 0 <= i < |xs| && p(xs[i]) ==> xs[i] in r
    ensures forall i :: 0 <= i < |xs| && p(xs[i]) ==> multiset(r)[xs[i]] == multiset(xs)[xs[i]]
    ensures IsSubsequence(r, xs)
  {
    if |xs| == 0 then []
    else
      assert xs == [xs[0]] + xs[1..];
      if p(xs[0]) then [xs[0]] + Filter(xs[1..], p)
      else Filter(xs[1..], p)
  }

  /** Filtering with a predicate every element satisfies keeps the whole sequence. */
  lemma {:induction false} FilterKeepsAll<T>(xs: seq<T>, p: T -> bool)
    requires forall i :: 0 <= i < |xs| ==> p(xs[i])
    ensures Filter(xs, p) == xs
  {
    if |xs| > 0 {
      FilterKeepsAll(xs[1..], p);
    }
  }

  /** `xs.filter(p).length`. */
  function Count<T>(xs: seq<T>, p: T -> bool): nat {
    |Filter(xs, p)|
  }

  lemma CountStep<T>(xs: seq<T>, p: T -> bool)
    requires |xs| > 0
    ensures Count(xs, p) == (if p(xs[0]) then 1 else 0) + Count(xs[1..], p)
  {
  }

  /** A predicate implied by another holds at least as often. */
  lemma {:induction false} CountMonotonic<T>(xs: seq<T>, p: T -> bool, q: T -> bool)
    requires forall i :: 0 <= i < |xs| ==> p(xs[i]) ==> q(xs[i])
    ensures Count(xs, p) <= Count(xs, q)
  {
    if |xs| > 0 {
      CountMonotonic(xs[1..], p, q);
    }
  }

  /** Counting a disjoint union is adding the counts of its parts. */
  lemma {:induction false} CountDisjointUnion<T>(xs: seq<T>, p: T -> bool, q: T -> bool, u: T -> bool)
    requires forall i :: 0 <= i < |xs| ==> (u(xs[i]) <==> p(xs[i]) || q(xs[i]))
    requires forall i :: 0 <= i < |xs| ==> !(p(xs[i]) && q(xs[i]))
    ensures Count(xs, u) == Count(xs, p) + Count(xs, q)
  {
    if |xs| > 0 {
      CountDisjointUnion(xs[1..], p, q, u);
    }
  }

  /** No element satisfies two of the predicates. */
  predicate Exclusive<T>(xs: seq<T>, ps: seq<T -> bool>) {
    forall k, i, j :: 0 <= k < |xs| && 0 <= i < j < |ps| ==> !(ps[i](xs[k]) && ps[j](xs[k]))
  }

  /** The sum of the counts of each predicate. */
  function SumCounts<T>(xs: seq<T>, ps: seq<T -> bool>): nat {
    if |ps| == 0 then 0 else Count(xs, ps[0]) + SumCounts(xs, ps[1..])
  }

  /** How many of the predicates `x` satisfies. */
  function Hits<T>(x: T, ps: seq<T -> bool>): nat {
    if |ps| == 0 then 0 else (if ps[0](x) then 1 else 0) + Hits(x, ps[1..])
  }

  lemma {:induction false} HitsAtMostOne<T>(x: T, ps: seq<T -> bool>)
    requires forall i, j :: 0 <= i < j < |ps| ==> !(ps[i](x) && ps[j](x))
    ensures Hits(x, ps) <= 1
  {
    if |ps| > 0 {
      HitsAtMostOne(x, ps[1..]);
      if ps[0](x) {
        HitsNone(x, ps[1..]);
      }
    }
  }

  lemma {:induction false} HitsNone<T>(x: T, ps: seq<T -> bool>)
    requires forall i :: 0 <= i < |ps| ==> !ps[i](x)
    ensures Hits(x, ps) == 0
  {
    if |ps| > 0 {
      HitsNone(x, ps[1..]);
    }
  }

  lemma {:induction false} SumCountsStep<T>(xs: seq<T>, ps: seq<T -> bool>)
    requires |xs| > 0
    ensures SumCounts(xs, ps) == Hits(xs[0], ps) + SumCounts(xs[1..], ps)
  {
    if |ps| > 0 {
      SumCountsStep(xs, ps[1..]);
      CountStep(xs, ps[0]);
    }
  }

  lemma {:induction false} SumCountsEmpty<T>(xs: seq<T>, ps: seq<T -> bool>)
    requires |xs| == 0
    ensures SumCounts(xs, ps) == 0
  {
    if |ps| > 0 {
      SumCountsEmpty(xs, ps[1..]);
    }
  }

  /** Counts of mutually exclusive predicates add up to at most the length. */
  lemma {:induction false} ExclusiveCountsBound<T>(xs: seq<T>, ps: seq<T -> bool>)
    requires Exclusive(xs, ps)
    ensures SumCounts(xs, ps) <= |xs|
  {
    if |xs| == 0 {
      SumCountsEmpty(xs, ps);
    } else {
      assert Exclusive(xs[1..], ps) by {
        forall k, i, j | 0 <= k < |xs| - 1 && 0 <= i < j < |ps|
          ensures !(ps[i](xs[1..][k]) && ps[j](xs[1..][k]))
        {
          assert xs[1..][k] == xs[k + 1];
        }
      }
      ExclusiveCountsBound(xs[1..], ps);
      SumCountsStep(xs, ps);
      HitsAtMostOne(xs[0], ps);
    }
  }

  /** Three mutually exclusive counters never exceed the total. */
  lemma ThreeCountsBound<T>(xs: seq<T>, p: T -> bool, q: T -> bool, r: T -> bool)
    requires forall i :: 0 <= i < |xs| ==> !(p(xs[i]) && q(xs[i])) && !(p(xs[i]) && r(xs[i])) && !(q(xs[i]) && r(xs[i]))
    ensures Count(xs, p) + Count(xs, q) + Count(xs, r) <= |xs|
  {
    var ps := [p, q, r];
    assert Exclusive(xs, ps) by {
      forall k, i, j | 0 <= k < |xs| && 0 <= i < j < |ps|
        ensures !(ps[i](xs[k]) && ps[j](xs[k]))
      {
        assert i == 0 || i == 1;
      }
    }
    ExclusiveCountsBound(xs, ps);
    assert SumCounts(xs, ps) == Count(xs, p) + Count(xs, q) + Count(xs, r) by {
      assert ps[1..] == [q, r] && [q, r][1..] == [r] && [r][1..] == [];
      assert SumCounts(xs, [r]) == Count(xs, r);
      assert SumCounts(xs, [q, r]) == Count(xs, q) + Count(xs, r);
    }
  }

  /** Four mutually exclusive counters never exceed the total. */
  lemma FourCountsBound<T>(xs: seq<T>, p: T -> bool, q: T -> bool, r: T -> bool, s: T -> bool)
    requires forall i :: 0 <= i < |xs| ==>
      && !(p(xs[i]) && q(xs[i])) && !(p(xs[i]) && r(xs[i])) && !(p(xs[i]) && s(xs[i]))
      && !(q(xs[i]) && r(xs[i])) && !(q(xs[i]) && s(xs[i])) && !(r(xs[i]) && s(xs[i]))
    ensures Count(xs, p) + Count(xs, q) + Count(xs, r) + Count(xs, s) <= |xs|
  {
    var ps := [p, q, r, s];
    assert Exclusive(xs, ps) by {
      forall k, i, j | 0 <= k < |xs| && 0 <= i < j < |ps|
        ensures !(ps[i](xs[k]) && ps[j](xs[k]))
      {
        assert i == 0 || i == 1 || i == 2;
      }
    }
    ExclusiveCountsBound(xs, ps);
    assert SumCounts(xs, ps) == Count(xs, p) + Count(xs, q) + Count(xs, r) + Count(xs, s) by {
      assert ps[1..] == [q, r, s] && [q, r, s][1..] == [r, s] && [r, s][1..] == [s] && [s][1..] == [];
      assert SumCounts(xs, [s]) == Count(xs, s);
      assert SumCounts(xs, [r, s]) == Count(xs, r) + Count(xs, s);
      assert SumCounts(xs, [q, r, s]) == Count(xs, q) + Count(xs, r) + Count(xs, s);
    }
  }
}
