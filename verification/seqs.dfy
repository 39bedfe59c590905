/**
 `Array.prototype.filter` over immutable sequences, and the subsequence
 relation that states what it keeps.
 */
module Seqs {
  import opened Base

  /** `a` can be obtained from `b` by deleting elements, keeping the order. */
  predicate IsSubsequence<T(==,!new)>(a: seq<T>, b: seq<T>)
    decreases |b|
  {
    if |a| == 0 then true
    else if |b| == 0 then false
    else if a[0] == b[0] then IsSubsequence(a[1..], b[1..])
    else IsSubsequence(a, b[1..])
  }

  /**
   The elements of `s` satisfying `p`, in their original order. The result is
   a subsequence of `s` holding every occurrence of every element that
   satisfies `p` and nothing else, which determines it uniquely.
   */
  function Filter<T(==,!new)>(p: T -> bool, s: seq<T>): (r: seq<T>)
    ensures |r| <= |s|
    ensures IsSubsequence(r, s)
    ensures forall x :: x in r <==> x in s && p(x)
  {
    if |s| == 0 then []
    else if p(s[0]) then [s[0]] + Filter(p, s[1..]) else Filter(p, s[1..])
  }

  /**
   The filter keeps every occurrence of every element satisfying `p`: with
   the subsequence property this determines its result uniquely.
   */
  lemma {:induction false} FilterMultiplicity<T(!new)>(p: T -> bool, s: seq<T>)
    ensures forall x :: multiset(Filter(p, s))[x] == if p(x) then multiset(s)[x] else 0
  {
    if |s| > 0 {
      FilterMultiplicity(p, s[1..]);
      assert s == [s[0]] + s[1..];
    }
  }

  /** Filtering distributes over concatenation. */
  lemma {:induction false} FilterAppend<T(!new)>(p: T -> bool, a: seq<T>, b: seq<T>)
    ensures Filter(p, a + b) == Filter(p, a) + Filter(p, b)
  {
    if |a| == 0 {
      assert a + b == b;
    } else {
      assert (a + b)[1..] == a[1..] + b;
      FilterAppend(p, a[1..], b);
    }
  }

  /** Filtering a second time with the same predicate removes nothing more. */
  lemma {:induction false} FilterIdempotent<T(!new)>(p: T -> bool, s: seq<T>)
    ensures Filter(p, Filter(p, s)) == Filter(p, s)
  {
    if |s| > 0 {
      FilterIdempotent(p, s[1..]);
      if p(s[0]) {
        assert ([s[0]] + Filter(p, s[1..]))[1..] == Filter(p, s[1..]);
      }
    }
  }

  /** Two predicates that agree on the elements of `s` filter it alike. */
  lemma {:induction false} FilterCongruent<T(!new)>(p: T -> bool, q: T -> bool, s: seq<T>)
    requires forall x :: x in s ==> p(x) == q(x)
    ensures Filter(p, s) == Filter(q, s)
  {
    if |s| > 0 {
      assert forall x :: x in s[1..] ==> x in s;
      FilterCongruent(p, q, s[1..]);
    }
  }

  /**
   A `forEach` whose body converts each element and pushes the result, where
   a conversion may throw (`None`): the elements converted before the first
   throw, in order. The exception ends the loop; what was pushed stays.
   */
  function MapUntilThrow<A, B>(f: A -> Option<B>, s: seq<A>): (r: seq<B>)
    ensures |r| <= |s|
    ensures forall i :: 0 <= i < |r| ==> f(s[i]) == Some(r[i])
    ensures |r| < |s| ==> f(s[|r|]).None?
  {
    if |s| == 0 then []
    else match f(s[0])
      case None => []
      case Some(b) => [b] + MapUntilThrow(f, s[1..])
  }
}
