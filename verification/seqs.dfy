/** Sequence helpers shared by the modules: `find`, `filter`, `flatMap`,
    order-preserving subsequences and counting. */
module Seqs {
  import opened Wrappers

  /** `xs.findIndex(p)` starting at `from`. */
  function FirstIndex<T>(xs: seq<T>, p: T -> bool, from: nat): (r: Option<nat>)
    requires from <= |xs|
    ensures r.Some? ==> from <= r.value < |xs| && p(xs[r.value])
    ensures r.Some? ==> forall j :: from <= j < r.value ==> !p(xs[j])
    ensures r.None? ==> forall j :: from <= j < |xs| ==> !p(xs[j])
    decreases |xs| - from
  {
    if from == |xs| then None
    else if p(xs[from]) then Some(from)
    else FirstIndex(xs, p, from + 1)
  }

  /** Appending elements after a hit does not move the first hit. */
  lemma {:induction false} FirstIndexPrefix<T>(xs: seq<T>, more: seq<T>, p: T -> bool, from: nat, i: nat)
    requires from <= i < |xs| && p(xs[i])
    requires forall j :: from <= j < i ==> !p(xs[j])
    ensures FirstIndex(xs + more, p, from) == Some(i)
    decreases i - from
  {
    assert (xs + more)[from] == xs[from];
    if from < i {
      FirstIndexPrefix(xs, more, p, from + 1, i);
    }
  }

  /** `xs.filter(p)`. */
  function Filter<T>(xs: seq<T>, p: T -> bool): (r: seq<T>)
    ensures |r| <= |xs|
    ensures forall k :: 0 <= k < |r| ==> p(r[k])
  {
    if |xs| == 0 then []
    else (if p(xs[0]) then [xs[0]] else []) + Filter(xs[1..], p)
  }

  /** `a` is an order-preserving subsequence of `b`. */
  predicate IsSubseq<T(==)>(a: seq<T>, b: seq<T>)
    decreases |b|
  {
    |a| == 0 || (|b| > 0 && (if a[0] == b[0] then IsSubseq(a[1..], b[1..]) else IsSubseq(a, b[1..])))
  }

  /** A filter keeps exactly the elements that satisfy the predicate, in
      their original order. */
  lemma {:induction false} FilterSpec<T>(xs: seq<T>, p: T -> bool)
    ensures IsSubseq(Filter(xs, p), xs)
    ensures forall x :: x in Filter(xs, p) <==> x in xs && p(x)
  {
    if |xs| > 0 {
      FilterSpec(xs[1..], p);
      var rest := Filter(xs[1..], p);
      if p(xs[0]) {
        assert Filter(xs, p) == [xs[0]] + rest;
        assert Filter(xs, p)[1..] == rest;
      } else {
        assert Filter(xs, p) == rest;
        SubseqOfTail(rest, xs);
      }
      assert xs == [xs[0]] + xs[1..];
    }
  }

  /** Filtering a sequence extended by one element. */
  lemma {:induction false} FilterSnoc<T>(xs: seq<T>, x: T, p: T -> bool)
    ensures Filter(xs + [x], p) == Filter(xs, p) + (if p(x) then [x] else [])
  {
    var last := if p(x) then [x] else [];
    if |xs| == 0 {
      assert xs + [x] == [x];
      assert [x][1..] == [];
      assert Filter([x], p) == last + Filter([], p);
    } else {
      FilterSnoc(xs[1..], x, p);
      var first := if p(xs[0]) then [xs[0]] else [];
      assert (xs + [x])[0] == xs[0];
      assert (xs + [x])[1..] == xs[1..] + [x];
      calc {
        Filter(xs + [x], p);
        first + Filter(xs[1..] + [x], p);
        first + (Filter(xs[1..], p) + last);
        (first + Filter(xs[1..], p)) + last;
        Filter(xs, p) + last;
      }
    }
  }

  /** Every element of a subsequence is an element of the whole. */
  lemma {:induction false} SubseqMembers<T>(a: seq<T>, b: seq<T>)
    requires IsSubseq(a, b)
    ensures forall x :: x in a ==> x in b
    decreases |b|
  {
    if |a| > 0 {
      if a[0] == b[0] {
        SubseqMembers(a[1..], b[1..]);
        assert a == [a[0]] + a[1..];
      } else {
        SubseqMembers(a, b[1..]);
      }
      assert b == [b[0]] + b[1..];
    }
  }

  lemma {:induction false} SubseqOfTail<T>(a: seq<T>, b: seq<T>)
    requires |b| > 0 && IsSubseq(a, b[1..])
    ensures IsSubseq(a, b)
    decreases |b|, 1
  {
    if |a| > 0 && a[0] == b[0] {
      assert IsSubseq(a[1..], b[1..]) by {
        SubseqDropHead(a, b[1..]);
      }
    }
  }

  lemma {:induction false} SubseqDropHead<T>(a: seq<T>, b: seq<T>)
    requires |a| > 0 && IsSubseq(a, b)
    ensures IsSubseq(a[1..], b)
    decreases |b|, 2
  {
    if a[0] == b[0] {
      SubseqOfTail(a[1..], b);
    } else {
      SubseqDropHead(a, b[1..]);
      SubseqOfTail(a[1..], b);
    }
  }

  /** A predicate that holds everywhere makes the filter the identity. */
  lemma {:induction false} FilterAll<T>(xs: seq<T>, p: T -> bool)
    requires forall k :: 0 <= k < |xs| ==> p(xs[k])
    ensures Filter(xs, p) == xs
  {
    if |xs| > 0 {
      FilterAll(xs[1..], p);
    }
  }

  /** A predicate that holds nowhere empties the filter. */
  lemma {:induction false} FilterNone<T>(xs: seq<T>, p: T -> bool)
    requires forall k :: 0 <= k < |xs| ==> !p(xs[k])
    ensures Filter(xs, p) == []
  {
    if |xs| > 0 {
      FilterNone(xs[1..], p);
    }
  }

  /** A filter keeps every occurrence of an element that satisfies the
      predicate and none of one that does not. */
  lemma {:induction false} FilterMultiset<T>(xs: seq<T>, p: T -> bool)
    ensures forall x :: multiset(Filter(xs, p))[x] == if p(x) then multiset(xs)[x] else 0
  {
    if |xs| > 0 {
      FilterMultiset(xs[1..], p);
      assert xs == [xs[0]] + xs[1..];
      assert multiset(xs) == multiset([xs[0]]) + multiset(xs[1..]);
      var head := if p(xs[0]) then [xs[0]] else [];
      assert multiset(Filter(xs, p)) == multiset(head) + multiset(Filter(xs[1..], p));
    }
  }

  /** Number of elements satisfying `p`. */
  function Count<T>(xs: seq<T>, p: T -> bool): nat {
    if |xs| == 0 then 0 else (if p(xs[0]) then 1 else 0) + Count(xs[1..], p)
  }

  lemma {:induction false} CountFilter<T>(xs: seq<T>, p: T -> bool)
    ensures |Filter(xs, p)| == Count(xs, p)
  {
    if |xs| > 0 {
      CountFilter(xs[1..], p);
    }
  }

  /** `xs.flatMap(f)`: the results of `f` on every element, concatenated in
      order. */
  function FlatMap<T, U>(xs: seq<T>, f: T -> seq<U>): seq<U> {
    if |xs| == 0 then [] else f(xs[0]) + FlatMap(xs[1..], f)
  }

  lemma {:induction false} FlatMapAppend<T, U>(xs: seq<T>, ys: seq<T>, f: T -> seq<U>)
    ensures FlatMap(xs + ys, f) == FlatMap(xs, f) + FlatMap(ys, f)
  {
    if |xs| == 0 {
      assert xs + ys == ys;
    } else {
      FlatMapAppend(xs[1..], ys, f);
      assert (xs + ys)[1..] == xs[1..] + ys;
    }
  }

  /** Every element of a flat map comes from the image of some element. */
  lemma {:induction false} FlatMapMember<T, U>(xs: seq<T>, f: T -> seq<U>, u: U)
    requires u in FlatMap(xs, f)
    ensures exists k :: 0 <= k < |xs| && u in f(xs[k])
  {
    if u !in f(xs[0]) {
      FlatMapMember(xs[1..], f, u);
      var k :| 0 <= k < |xs[1..]| && u in f(xs[1..][k]);
      assert xs[k + 1] == xs[1..][k];
    }
  }

  /** Elements that contribute nothing leave the flat map empty. */
  lemma {:induction false} FlatMapEmpty<T, U>(xs: seq<T>, f: T -> seq<U>)
    requires forall k :: 0 <= k < |xs| ==> f(xs[k]) == []
    ensures FlatMap(xs, f) == []
  {
    if |xs| > 0 {
      FlatMapEmpty(xs[1..], f);
    }
  }

  /** When every element contributes one result or none, the flat map has
      one result per contributing element. */
  lemma {:induction false} FlatMapCount<T, U>(xs: seq<T>, f: T -> seq<U>, p: T -> bool)
    requires forall k :: 0 <= k < |xs| ==> |f(xs[k])| == (if p(xs[k]) then 1 else 0)
    ensures |FlatMap(xs, f)| == Count(xs, p)
  {
    if |xs| > 0 {
      FlatMapCount(xs[1..], f, p);
    }
  }

  /** A property every image enjoys holds of the whole flat map. */
  lemma {:induction false} FlatMapAll<T, U>(xs: seq<T>, f: T -> seq<U>, q: U -> bool)
    requires forall k, m :: 0 <= k < |xs| && 0 <= m < |f(xs[k])| ==> q(f(xs[k])[m])
    ensures forall m :: 0 <= m < |FlatMap(xs, f)| ==> q(FlatMap(xs, f)[m])
  {
    if |xs| > 0 {
      FlatMapAll(xs[1..], f, q);
      var head := f(xs[0]);
      var rest := FlatMap(xs[1..], f);
      forall m | 0 <= m < |FlatMap(xs, f)|
        ensures q(FlatMap(xs, f)[m])
      {
        if m >= |head| {
          assert FlatMap(xs, f)[m] == rest[m - |head|];
        }
      }
    }
  }
}
