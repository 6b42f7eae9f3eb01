/** Generic sequence vocabulary for the array helpers the data layer uses:
    `Array.prototype.filter`, `[...new Set(xs)]`, sums, `Math.min(...xs)`,
    `Math.max(...xs)` and numeric `sort`. */
module Seqs {

  /** `a` can be obtained from `b` by deleting elements: order is kept. */
  ghost predicate IsSubseq<T>(a: seq<T>, b: seq<T>)
    decreases |b|
  {
    || |a| == 0
    || (&& |b| > 0
        && (|| (a[|a| - 1] == b[|b| - 1] && IsSubseq(a[..|a| - 1], b[..|b| - 1]))
            || IsSubseq(a, b[..|b| - 1])))
  }

  lemma {:induction false} SubseqRefl<T>(s: seq<T>)
    ensures IsSubseq(s, s)
  {
    if |s| > 0 {
      SubseqRefl(s[..|s| - 1]);
    }
  }

  /** How many elements of `s` satisfy `p`. */
  function Count<T>(s: seq<T>, p: T -> bool): nat
  {
    if |s| == 0 then 0
    else Count(s[..|s| - 1], p) + (if p(s[|s| - 1]) then 1 else 0)
  }

  /** `s.filter(p)`: the elements satisfying `p`, in their original order. */
  function Filter<T>(s: seq<T>, p: T -> bool): (r: seq<T>)
    ensures IsSubseq(r, s)
    ensures |r| <= |s|
    ensures forall i :: 0 <= i < |r| ==> p(r[i])
    ensures forall i :: 0 <= i < |r| ==> r[i] in s
    ensures forall i :: 0 <= i < |s| && p(s[i]) ==> s[i] in r
    ensures |r| == Count(s, p)
  {
    if |s| == 0 then []
    else
      var s' := s[..|s| - 1];
      var x := s[|s| - 1];
      var r' := Filter(s', p);
      assert s == s' + [x];
      if p(x) then
        assert (r' + [x])[..|r'|] == r';
        r' + [x]
      else
        r'
  }

  /** What the filter holds: elements of `s` that pass `p`. */
  lemma FilterWitness<T>(s: seq<T>, p: T -> bool, x: T)
    requires x in Filter(s, p)
    ensures p(x) && x in s
  {
  }

  lemma FilterKeeps<T>(s: seq<T>, p: T -> bool, i: nat)
    requires i < |s| && p(s[i])
    ensures s[i] in Filter(s, p)
  {
  }

  /** A subsequence whose elements all satisfy `p` is no longer than the
      number of elements satisfying `p`. */
  lemma {:induction false} SubseqCountBound<T>(a: seq<T>, s: seq<T>, p: T -> bool)
    requires IsSubseq(a, s)
    requires forall i :: 0 <= i < |a| ==> p(a[i])
    ensures |a| <= Count(s, p)
    decreases |s|
  {
    if |a| > 0 {
      var s' := s[..|s| - 1];
      if a[|a| - 1] == s[|s| - 1] && IsSubseq(a[..|a| - 1], s') {
        SubseqCountBound(a[..|a| - 1], s', p);
      } else {
        SubseqCountBound(a, s', p);
      }
    }
  }

  /** The contract of `Filter` determines it: the only subsequence of `s`
      whose elements all satisfy `p` and that has `Count(s, p)` elements is
      `Filter(s, p)`. */
  lemma {:induction false} FilterUnique<T>(a: seq<T>, s: seq<T>, p: T -> bool)
    requires IsSubseq(a, s)
    requires forall i :: 0 <= i < |a| ==> p(a[i])
    requires |a| == Count(s, p)
    ensures a == Filter(s, p)
    decreases |s|
  {
    if |s| > 0 {
      var s' := s[..|s| - 1];
      var x := s[|s| - 1];
      if |a| > 0 && a[|a| - 1] == x && IsSubseq(a[..|a| - 1], s') {
        FilterUnique(a[..|a| - 1], s', p);
        assert a == a[..|a| - 1] + [x];
      } else {
        if |a| > 0 {
          SubseqCountBound(a, s', p);
        }
        assert !p(x);
        FilterUnique(a, s', p);
      }
    }
  }

  /** Filtering with a predicate every element already satisfies changes
      nothing. */
  lemma {:induction false} FilterAll<T>(s: seq<T>, p: T -> bool)
    requires forall i :: 0 <= i < |s| ==> p(s[i])
    ensures Filter(s, p) == s
  {
    if |s| > 0 {
      FilterAll(s[..|s| - 1], p);
      assert s == s[..|s| - 1] + [s[|s| - 1]];
    }
  }

  /** Filtering is idempotent. */
  lemma FilterIdempotent<T>(s: seq<T>, p: T -> bool)
    ensures Filter(Filter(s, p), p) == Filter(s, p)
  {
    FilterAll(Filter(s, p), p);
  }

  /** Filters with the same verdict on every element give the same result. */
  lemma {:induction false} FilterExt<T>(s: seq<T>, p: T -> bool, q: T -> bool)
    requires forall x :: p(x) == q(x)
    ensures Filter(s, p) == Filter(s, q)
  {
    if |s| > 0 {
      FilterExt(s[..|s| - 1], p, q);
    }
  }

  /** Filtering twice is filtering once by the conjunction. */
  lemma {:induction false} FilterFilter<T>(s: seq<T>, p: T -> bool, q: T -> bool, pq: T -> bool)
    requires forall x :: pq(x) == (p(x) && q(x))
    ensures Filter(Filter(s, p), q) == Filter(s, pq)
  {
    if |s| > 0 {
      var s' := s[..|s| - 1];
      var x := s[|s| - 1];
      FilterFilter(s', p, q, pq);
      var r' := Filter(s', p);
      if p(x) {
        assert (r' + [x])[..|r'|] == r';
      }
    }
  }

  /** Filtering a prefix-extended sequence: the filter of the new element is
      appended. */
  lemma FilterSnoc<T>(s: seq<T>, x: T, p: T -> bool)
    ensures Filter(s + [x], p) == Filter(s, p) + (if p(x) then [x] else [])
  {
    assert (s + [x])[..|s|] == s;
  }

  lemma CountSnoc<T>(s: seq<T>, x: T, p: T -> bool)
    ensures Count(s + [x], p) == Count(s, p) + (if p(x) then 1 else 0)
  {
    assert (s + [x])[..|s|] == s;
  }

  /** `s.map(f)`. */
  function Map<T, U>(s: seq<T>, f: T -> U): (r: seq<U>)
    ensures |r| == |s|
    ensures forall i :: 0 <= i < |s| ==> r[i] == f(s[i])
  {
    seq(|s|, i requires 0 <= i < |s| => f(s[i]))
  }

  lemma MapSnoc<T, U>(s: seq<T>, x: T, f: T -> U)
    ensures Map(s + [x], f) == Map(s, f) + [f(x)]
  {
  }

  // ----- first-occurrence distinct values -----

  /** No value occurs twice. */
  ghost predicate NoDup<T>(s: seq<T>)
  {
    forall i, j :: 0 <= i < j < |s| ==> s[i] != s[j]
  }

  /** Filtering keeps elements distinct. */
  lemma {:induction false} FilterNoDup<T>(s: seq<T>, p: T -> bool)
    requires NoDup(s)
    ensures NoDup(Filter(s, p))
  {
    if |s| > 0 {
      var s' := s[..|s| - 1];
      var x := s[|s| - 1];
      assert s == s' + [x];
      FilterNoDup(s', p);
      FilterSnoc(s', x, p);
      assert x !in s';
    }
  }

  /** The position of the first occurrence of `x` in `s`, or `|s|`. */
  ghost function FirstIndex<T>(s: seq<T>, x: T): (i: nat)
    ensures i <= |s|
    ensures i < |s| <==> x in s
    ensures i < |s| ==> s[i] == x && x !in s[..i]
  {
    if |s| == 0 then 0
    else
      var s' := s[..|s| - 1];
      if x in s' then
        var i := FirstIndex(s', x);
        assert s[..i] == s'[..i];
        i
      else if s[|s| - 1] == x then |s| - 1
      else
        assert s == s' + [s[|s| - 1]];
        |s|
  }

  lemma FirstIndexSnoc<T>(s: seq<T>, x: T, y: T)
    requires y in s
    ensures FirstIndex(s + [x], y) == FirstIndex(s, y)
  {
    assert (s + [x])[..|s|] == s;
  }

  /** `r` lists every value of `s` exactly once, in the order in which the
      values first occur in `s`. */
  ghost predicate FirstOccurrences<T>(r: seq<T>, s: seq<T>)
  {
    && NoDup(r)
    && (forall i :: 0 <= i < |r| ==> r[i] in s)
    && (forall i :: 0 <= i < |s| ==> s[i] in r)
    && IsSubseq(r, s)
    && (forall i, j :: 0 <= i < j < |r| ==> FirstIndex(s, r[i]) < FirstIndex(s, r[j]))
  }

  /** `[...new Set(s)]`: every value of `s` once, in the order of its first
      occurrence. */
  function Distinct<T(==)>(s: seq<T>): (r: seq<T>)
    ensures FirstOccurrences(r, s)
  {
    if |s| == 0 then []
    else
      var s' := s[..|s| - 1];
      var x := s[|s| - 1];
      var r' := Distinct(s');
      assert s == s' + [x];
      if x in r' then
        DistinctKeep(s', x, r');
        r'
      else
        DistinctAdd(s', x, r');
        r' + [x]
  }

  lemma DistinctKeep<T>(s: seq<T>, x: T, r: seq<T>)
    requires FirstOccurrences(r, s)
    requires x in r
    ensures FirstOccurrences(r, s + [x])
  {
    var t := s + [x];
    assert t[..|s|] == s;
    forall i | 0 <= i < |r|
      ensures FirstIndex(t, r[i]) == FirstIndex(s, r[i])
    {
      FirstIndexSnoc(s, x, r[i]);
    }
    assert forall i :: 0 <= i < |t| ==> t[i] in r by {
      forall i | 0 <= i < |t|
        ensures t[i] in r
      {
        if i < |s| {
          assert t[i] == s[i];
        }
      }
    }
  }

  lemma DistinctAdd<T>(s: seq<T>, x: T, r: seq<T>)
    requires FirstOccurrences(r, s)
    requires x !in r
    ensures FirstOccurrences(r + [x], s + [x])
  {
    var t := s + [x];
    var r2 := r + [x];
    assert t[..|s|] == s;
    assert r2[..|r|] == r;
    assert x !in s;
    assert FirstIndex(t, x) == |s|;
    forall i | 0 <= i < |r|
      ensures FirstIndex(t, r2[i]) == FirstIndex(s, r[i]) < |s|
    {
      FirstIndexSnoc(s, x, r[i]);
    }
    assert forall i :: 0 <= i < |t| ==> t[i] in r2 by {
      forall i | 0 <= i < |t|
        ensures t[i] in r2
      {
        if i < |s| {
          assert t[i] == s[i];
        }
      }
    }
    assert IsSubseq(r2, t);
  }

  // ----- sums, minima, maxima -----

  /** `s.reduce((acc, x) => acc + f(x), 0)` over exact reals. */
  function Sum<T>(s: seq<T>, f: T -> real): real
  {
    if |s| == 0 then 0.0 else Sum(s[..|s| - 1], f) + f(s[|s| - 1])
  }

  lemma SumSnoc<T>(s: seq<T>, x: T, f: T -> real)
    ensures Sum(s + [x], f) == Sum(s, f) + f(x)
  {
    assert (s + [x])[..|s|] == s;
  }

  /** Summing over a filter is summing over everything with the rejected
      elements counted as zero. */
  lemma {:induction false} SumFilter<T>(s: seq<T>, p: T -> bool, f: T -> real, g: T -> real)
    requires forall x :: g(x) == (if p(x) then f(x) else 0.0)
    ensures Sum(Filter(s, p), f) == Sum(s, g)
  {
    if |s| > 0 {
      var s' := s[..|s| - 1];
      var x := s[|s| - 1];
      SumFilter(s', p, f, g);
      if p(x) {
        SumSnoc(Filter(s', p), x, f);
      }
    }
  }

  /** A sum of zero terms is zero. */
  lemma {:induction false} SumZero<T>(s: seq<T>, f: T -> real)
    requires forall i :: 0 <= i < |s| ==> f(s[i]) == 0.0
    ensures Sum(s, f) == 0.0
  {
    if |s| > 0 {
      SumZero(s[..|s| - 1], f);
    }
  }

  /** Summing a mapped sequence is summing the composed function. */
  lemma {:induction false} SumMap<T>(s: seq<T>, f: T -> real)
    ensures Sum(Map(s, f), (x: real) => x) == Sum(s, f)
  {
    if |s| > 0 {
      var s' := s[..|s| - 1];
      SumMap(s', f);
      assert Map(s, f)[..|s| - 1] == Map(s', f);
    }
  }

  /** `Math.min(...xs)` for a non-empty list of exact reals. */
  function MinOf(xs: seq<real>): (m: real)
    requires |xs| > 0
    ensures m in xs
    ensures forall i :: 0 <= i < |xs| ==> m <= xs[i]
  {
    if |xs| == 1 then xs[0]
    else
      var m' := MinOf(xs[..|xs| - 1]);
      assert xs == xs[..|xs| - 1] + [xs[|xs| - 1]];
      if xs[|xs| - 1] < m' then xs[|xs| - 1] else m'
  }

  /** `Math.max(...xs)` for a non-empty list of exact reals. */
  function MaxOf(xs: seq<real>): (m: real)
    requires |xs| > 0
    ensures m in xs
    ensures forall i :: 0 <= i < |xs| ==> xs[i] <= m
  {
    if |xs| == 1 then xs[0]
    else
      var m' := MaxOf(xs[..|xs| - 1]);
      assert xs == xs[..|xs| - 1] + [xs[|xs| - 1]];
      if xs[|xs| - 1] > m' then xs[|xs| - 1] else m'
  }

  // ----- numeric sort -----

  ghost predicate Sorted(xs: seq<real>)
  {
    forall i, j :: 0 <= i < j < |xs| ==> xs[i] <= xs[j]
  }

  function Insert(x: real, xs: seq<real>): (r: seq<real>)
    requires Sorted(xs)
    ensures Sorted(r)
    ensures multiset(r) == multiset(xs) + multiset{x}
  {
    if |xs| == 0 then [x]
    else if x <= xs[0] then [x] + xs
    else
      var t := Insert(x, xs[1..]);
      InsertStep(x, xs, t);
      [xs[0]] + t
  }

  /** Putting the head back in front of the insertion into the tail keeps
      the order. */
  lemma InsertStep(x: real, xs: seq<real>, t: seq<real>)
    requires Sorted(xs) && |xs| > 0 && xs[0] < x
    requires Sorted(t) && multiset(t) == multiset(xs[1..]) + multiset{x}
    ensures Sorted([xs[0]] + t)
    ensures multiset([xs[0]] + t) == multiset(xs) + multiset{x}
  {
    assert xs == [xs[0]] + xs[1..];
    forall k | 0 <= k < |t|
      ensures xs[0] <= t[k]
    {
      assert t[k] in multiset(t);
      if t[k] != x {
        assert t[k] in multiset(xs[1..]);
        assert t[k] in xs[1..];
      }
    }
  }

  /** `values.sort((a, b) => a - b)` on exact reals: an ascending
      permutation. */
  function SortAscending(xs: seq<real>): (r: seq<real>)
    ensures Sorted(r)
    ensures multiset(r) == multiset(xs)
    ensures |r| == |xs|
  {
    if |xs| == 0 then []
    else
      var r := Insert(xs[|xs| - 1], SortAscending(xs[..|xs| - 1]));
      assert xs == xs[..|xs| - 1] + [xs[|xs| - 1]];
      assert |r| == |multiset(r)|;
      r
  }

  lemma {:induction false} SumConcat<T>(a: seq<T>, b: seq<T>, f: T -> real)
    ensures Sum(a + b, f) == Sum(a, f) + Sum(b, f)
    decreases |b|
  {
    if |b| == 0 {
      assert a + b == a;
    } else {
      var b' := b[..|b| - 1];
      assert b == b' + [b[|b| - 1]];
      assert a + b == (a + b') + [b[|b| - 1]];
      SumConcat(a, b', f);
      SumSnoc(a + b', b[|b| - 1], f);
      SumSnoc(b', b[|b| - 1], f);
    }
  }

  // ----- Ranks -----

  lemma {:induction false} CountConcat<T>(a: seq<T>, b: seq<T>, p: T -> bool)
    ensures Count(a + b, p) == Count(a, p) + Count(b, p)
    decreases |b|
  {
    if |b| == 0 {
      assert a + b == a;
    } else {
      var b' := b[..|b| - 1];
      assert a + b == (a + b') + [b[|b| - 1]];
      assert b == b' + [b[|b| - 1]];
      CountSnoc(a + b', b[|b| - 1], p);
      CountSnoc(b', b[|b| - 1], p);
      CountConcat(a, b', p);
    }
  }

  /** A count depends only on the multiset of the elements. */
  lemma {:induction false} CountPermutation<T>(a: seq<T>, b: seq<T>, p: T -> bool)
    requires multiset(a) == multiset(b)
    ensures Count(a, p) == Count(b, p)
    decreases |a|
  {
    if |a| == 0 {
      assert |b| == |multiset(b)| == 0;
    } else {
      var x := a[|a| - 1];
      var a' := a[..|a| - 1];
      assert a == a' + [x];
      assert x in multiset(b);
      var j :| 0 <= j < |b| && b[j] == x;
      var b' := b[..j] + b[j + 1..];
      assert b == b[..j] + [x] + b[j + 1..];
      assert multiset(b) == multiset(b') + multiset{x};
      assert multiset(a) == multiset(a') + multiset{x};
      assert multiset(a') == multiset(a) - multiset{x};
      assert multiset(b') == multiset(b) - multiset{x};
      CountPermutation(a', b', p);
      CountSnoc(a', x, p);
      CountConcat(b[..j] + [x], b[j + 1..], p);
      CountSnoc(b[..j], x, p);
      CountConcat(b[..j], b[j + 1..], p);
    }
  }

  lemma {:induction false} CountNone<T>(s: seq<T>, p: T -> bool)
    requires forall i :: 0 <= i < |s| ==> !p(s[i])
    ensures Count(s, p) == 0
  {
    if |s| > 0 {
      CountNone(s[..|s| - 1], p);
    }
  }

  lemma {:induction false} CountEvery<T>(s: seq<T>, p: T -> bool)
    requires forall i :: 0 <= i < |s| ==> p(s[i])
    ensures Count(s, p) == |s|
  {
    if |s| > 0 {
      CountEvery(s[..|s| - 1], p);
    }
  }

  function Below(v: real): real -> bool
  {
    (x: real) => x < v
  }

  function AtMost(v: real): real -> bool
  {
    (x: real) => x <= v
  }

  lemma {:induction false} CountBound<T>(s: seq<T>, p: T -> bool)
    ensures Count(s, p) <= |s|
  {
    if |s| > 0 {
      CountBound(s[..|s| - 1], p);
    }
  }

  /** Index `k` of a sorted sequence holds a `k`-th smallest element: at
      most `k` elements lie below it and more than `k` lie at or below it. */
  lemma SortedRank(s: seq<real>, k: nat)
    requires Sorted(s) && k < |s|
    ensures Count(s, Below(s[k])) <= k < Count(s, AtMost(s[k]))
  {
    SortedRankBelow(s, k);
    SortedRankAtMost(s, k);
  }

  lemma SortedRankBelow(s: seq<real>, k: nat)
    requires Sorted(s) && k < |s|
    ensures Count(s, Below(s[k])) <= k
  {
    var v := s[k];
    var lo, hi := s[..k], s[k..];
    assert s == lo + hi;
    assert forall i :: 0 <= i < |hi| ==> v <= hi[i] by {
      forall i | 0 <= i < |hi|
        ensures v <= hi[i]
      {
        assert hi[i] == s[k + i];
      }
    }
    CountConcat(lo, hi, Below(v));
    CountNone(hi, Below(v));
    CountBound(lo, Below(v));
  }

  lemma SortedRankAtMost(s: seq<real>, k: nat)
    requires Sorted(s) && k < |s|
    ensures k < Count(s, AtMost(s[k]))
  {
    var v := s[k];
    var lo, hi := s[..k + 1], s[k + 1..];
    assert s == lo + hi;
    assert forall i :: 0 <= i < |lo| ==> lo[i] <= v by {
      forall i | 0 <= i < |lo|
        ensures lo[i] <= v
      {
        assert lo[i] == s[i];
      }
    }
    CountConcat(lo, hi, AtMost(v));
    CountEvery(lo, AtMost(v));
  }

  /** The element at index `k` of the ascending sort of `xs` is an order
      statistic of `xs` itself. */
  lemma SortRank(xs: seq<real>, k: nat)
    requires k < |xs|
    ensures var v := SortAscending(xs)[k];
            Count(xs, Below(v)) <= k < Count(xs, AtMost(v))
  {
    var s := SortAscending(xs);
    SortedRank(s, k);
    CountPermutation(s, xs, Below(s[k]));
    CountPermutation(s, xs, AtMost(s[k]));
  }

  // ----- Extremes of a finite set -----

  /** A non-empty set has an element. */
  lemma NonEmptyHasElement(s: set<int>)
    requires s != {}
    ensures exists x :: x in s
  {
    if forall x :: x !in s {
      assert false;
    }
  }

  lemma SetMinExists(s: set<int>)
    requires s != {}
    ensures exists lo :: lo in s && forall v :: v in s ==> lo <= v
  {
    NonEmptyHasElement(s);
    var x :| x in s;
    if s != {x} {
      SetMinExists(s - {x});
      var lo :| lo in s - {x} && forall v :: v in s - {x} ==> lo <= v;
      var m := if x < lo then x else lo;
      forall v | v in s
        ensures m <= v
      {
        if v != x {
          assert v in s - {x};
        }
      }
    } else {
      assert forall v :: v in s ==> x <= v;
    }
  }

  lemma SetMaxExists(s: set<int>)
    requires s != {}
    ensures exists hi :: hi in s && forall v :: v in s ==> v <= hi
  {
    NonEmptyHasElement(s);
    var x :| x in s;
    if s != {x} {
      SetMaxExists(s - {x});
      var hi :| hi in s - {x} && forall v :: v in s - {x} ==> v <= hi;
      var m := if x > hi then x else hi;
      forall v | v in s
        ensures v <= m
      {
        if v != x {
          assert v in s - {x};
        }
      }
    } else {
      assert forall v :: v in s ==> v <= x;
    }
  }
}
