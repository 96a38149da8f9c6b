/** Order-preserving filtering and the subsequence relation, used by every list the core builds with `push`. */
module Seqs {

  function Last<T>(s: seq<T>): T
    requires s != []
  {
    s[|s| - 1]
  }

  function Init<T>(s: seq<T>): seq<T>
    requires s != []
  {
    s[..|s| - 1]
  }

  /** The elements of `s` that satisfy `p`, in their order in `s` (Array.prototype.filter). */
  function Filter<T>(s: seq<T>, p: T -> bool): (r: seq<T>)
    ensures |r| <= |s|
    decreases |s|
  {
    if s == [] then []
    else Filter(Init(s), p) + (if p(Last(s)) then [Last(s)] else [])
  }

  /** `a` can be obtained from `b` by deleting elements (order kept, duplicates counted). */
  predicate IsSubsequence<T(==)>(a: seq<T>, b: seq<T>)
    decreases |b|
  {
    if a == [] then true
    else if b == [] then false
    else (Last(a) == Last(b) && IsSubsequence(Init(a), Init(b))) || IsSubsequence(a, Init(b))
  }

  /** One more element at the end of the input adds at most that element at the end of the output. */
  lemma FilterSnoc<T>(s: seq<T>, x: T, p: T -> bool)
    ensures Filter(s + [x], p) == Filter(s, p) + (if p(x) then [x] else [])
  {
    assert Init(s + [x]) == s;
  }

  lemma {:induction false} FilterSubsequence<T>(s: seq<T>, p: T -> bool)
    ensures IsSubsequence(Filter(s, p), s)
    decreases |s|
  {
    if s != [] {
      FilterSubsequence(Init(s), p);
      if p(Last(s)) {
        assert Init(Filter(s, p)) == Filter(Init(s), p);
      } else {
        assert Filter(s, p) == Filter(Init(s), p);
        SubsequenceOfInit(Filter(s, p), s);
      }
    }
  }

  /** A subsequence of the prefix is a subsequence of the whole. */
  lemma SubsequenceOfInit<T>(a: seq<T>, b: seq<T>)
    requires b != [] && IsSubsequence(a, Init(b))
    ensures IsSubsequence(a, b)
  {
  }

  /** Filtering keeps every occurrence of a kept element: duplicates survive. */
  lemma {:induction false} FilterMultiplicity<T>(s: seq<T>, p: T -> bool, x: T)
    ensures multiset(Filter(s, p))[x] == if p(x) then multiset(s)[x] else 0
    decreases |s|
  {
    if s != [] {
      FilterMultiplicity(Init(s), p, x);
      assert s == Init(s) + [Last(s)];
    }
  }

  /** Membership in a filtered sequence is membership in the input plus the predicate. */
  lemma FilterMember<T>(s: seq<T>, p: T -> bool, x: T)
    ensures x in Filter(s, p) <==> x in s && p(x)
  {
    FilterMultiplicity(s, p, x);
    assert x in s <==> multiset(s)[x] > 0;
  }

  /** A filtered sequence is non-empty exactly when some element satisfies the predicate. */
  lemma FilterNonEmpty<T>(s: seq<T>, p: T -> bool)
    ensures |Filter(s, p)| > 0 <==> exists k :: 0 <= k < |s| && p(s[k])
  {
    if exists k :: 0 <= k < |s| && p(s[k]) {
      var k :| 0 <= k < |s| && p(s[k]);
      FilterMember(s, p, s[k]);
    } else if |Filter(s, p)| > 0 {
      assert Filter(s, p)[0] in Filter(s, p);
    }
  }

  /** Filtering by a predicate and by its negation splits the input: the lengths add up. */
  lemma {:induction false} FilterPartition<T>(s: seq<T>, p: T -> bool, q: T -> bool)
    requires forall x :: x in s ==> (q(x) <==> !p(x))
    ensures |Filter(s, p)| + |Filter(s, q)| == |s|
    decreases |s|
  {
    if s != [] {
      FilterPartition(Init(s), p, q);
    }
  }

  /** Filtering by a stronger predicate gives a subsequence of filtering by a weaker one. */
  lemma {:induction false} FilterStronger<T>(s: seq<T>, p: T -> bool, q: T -> bool)
    requires forall x :: p(x) ==> q(x)
    ensures IsSubsequence(Filter(s, p), Filter(s, q))
    decreases |s|
  {
    if s != [] {
      FilterStronger(Init(s), p, q);
      var x := Last(s);
      var fp0, fq0 := Filter(Init(s), p), Filter(Init(s), q);
      assert Filter(s, p) == fp0 + (if p(x) then [x] else []);
      assert Filter(s, q) == fq0 + (if q(x) then [x] else []);
      if p(x) {
        assert Filter(s, p) == fp0 + [x] && Filter(s, q) == fq0 + [x];
        assert Last(fp0 + [x]) == x && Init(fp0 + [x]) == fp0;
        assert Last(fq0 + [x]) == x && Init(fq0 + [x]) == fq0;
      } else if q(x) {
        assert Filter(s, p) == fp0 && Filter(s, q) == fq0 + [x];
        assert Init(fq0 + [x]) == fq0;
        SubsequenceOfInit(fp0, fq0 + [x]);
      } else {
        assert Filter(s, p) == fp0 && Filter(s, q) == fq0;
      }
    }
  }

  /** Filtering twice by nested predicates is filtering once by the stronger one. */
  lemma {:induction false} FilterOfFilter<T>(s: seq<T>, p: T -> bool, q: T -> bool)
    requires forall x :: p(x) ==> q(x)
    ensures Filter(Filter(s, q), p) == Filter(s, p)
    decreases |s|
  {
    if s != [] {
      FilterOfFilter(Init(s), p, q);
      if q(Last(s)) {
        assert Filter(s, q) == Filter(Init(s), q) + [Last(s)];
        FilterSnoc(Filter(Init(s), q), Last(s), p);
      } else {
        assert Filter(s, q) == Filter(Init(s), q) && Filter(s, p) == Filter(Init(s), p);
      }
    }
  }

  /** Mapping both sides keeps the subsequence relation. */
  lemma {:induction false} SubsequenceMap<T, U>(a: seq<T>, b: seq<T>, f: T -> U)
    requires IsSubsequence(a, b)
    ensures IsSubsequence(Map(a, f), Map(b, f))
    decreases |b|
  {
    if a != [] {
      assert Init(Map(a, f)) == Map(Init(a), f);
      assert Init(Map(b, f)) == Map(Init(b), f);
      if Last(a) == Last(b) && IsSubsequence(Init(a), Init(b)) {
        SubsequenceMap(Init(a), Init(b), f);
      } else {
        SubsequenceMap(a, Init(b), f);
      }
    }
  }

  lemma MapSnoc<T, U>(s: seq<T>, x: T, f: T -> U)
    ensures Map(s + [x], f) == Map(s, f) + [f(x)]
  {
  }

  /** Element-wise image of a sequence (Array.prototype.map). */
  function Map<T, U>(s: seq<T>, f: T -> U): seq<U>
  {
    seq(|s|, i requires 0 <= i < |s| => f(s[i]))
  }
}
