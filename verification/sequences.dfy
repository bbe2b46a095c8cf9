/** Sequence helpers shared by the engines. Every fold here runs from the left,
    the order in which the engines' `for … of` loops and `reduce` calls visit
    their elements. */
module Sequences {

  /** Sum of a sequence of reals, `xs.reduce((s, x) => s + x, 0)`. */
  function Sum(xs: seq<real>): real
  {
    if |xs| == 0 then 0.0 else Sum(xs[..|xs| - 1]) + xs[|xs| - 1]
  }

  lemma {:induction false} SumConcat(a: seq<real>, b: seq<real>)
    ensures Sum(a + b) == Sum(a) + Sum(b)
    decreases |b|
  {
    if |b| == 0 {
      assert a + b == a;
    } else {
      var b' := b[..|b| - 1];
      assert (a + b)[..|a + b| - 1] == a + b';
      SumConcat(a, b');
    }
  }

  /** The elements of `s` satisfying `p`, in their order in `s`
      (`Array.prototype.filter`). */
  function Filter<T>(s: seq<T>, p: T -> bool): (r: seq<T>)
    ensures |r| <= |s|
    ensures forall i :: 0 <= i < |r| ==> r[i] in s && p(r[i])
    ensures forall i :: 0 <= i < |s| && p(s[i]) ==> s[i] in r
  {
    if |s| == 0 then []
    else
      var r' := Filter(s[..|s| - 1], p);
      assert s == s[..|s| - 1] + [s[|s| - 1]];
      if p(s[|s| - 1]) then r' + [s[|s| - 1]] else r'
  }

  /** Filtering keeps every copy of an element that satisfies `p` and no copy
      of one that does not. */
  lemma {:induction false} FilterMultiset<T>(s: seq<T>, p: T -> bool)
    ensures forall x :: multiset(Filter(s, p))[x] == if p(x) then multiset(s)[x] else 0
    decreases |s|
  {
    if |s| > 0 {
      var init, last := s[..|s| - 1], s[|s| - 1];
      FilterMultiset(init, p);
      SplitLast(s);
      assert multiset(s) == multiset(init) + multiset{last};
    }
  }

  lemma FilterSnoc<T>(s: seq<T>, x: T, p: T -> bool)
    ensures Filter(s + [x], p) == Filter(s, p) + if p(x) then [x] else []
  {
    assert (s + [x])[..|s|] == s;
  }

  lemma {:induction false} FilterConcat<T>(a: seq<T>, b: seq<T>, p: T -> bool)
    ensures Filter(a + b, p) == Filter(a, p) + Filter(b, p)
    decreases |b|
  {
    if |b| == 0 {
      assert a + b == a;
    } else {
      var b' := b[..|b| - 1];
      assert (a + b)[..|a + b| - 1] == a + b';
      FilterConcat(a, b', p);
    }
  }

  lemma FilterAll<T>(s: seq<T>, p: T -> bool)
    requires forall x :: x in s ==> p(x)
    ensures Filter(s, p) == s
  {
    if |s| > 0 {
      assert s == s[..|s| - 1] + [s[|s| - 1]];
      FilterAll(s[..|s| - 1], p);
    }
  }

  lemma FilterNone<T>(s: seq<T>, p: T -> bool)
    requires forall x :: x in s ==> !p(x)
    ensures Filter(s, p) == []
  {
  }

  /** Filtering depends only on the predicate's values on the elements. */
  lemma {:induction false} FilterSame<T>(s: seq<T>, p: T -> bool, q: T -> bool)
    requires forall i :: 0 <= i < |s| ==> p(s[i]) == q(s[i])
    ensures Filter(s, p) == Filter(s, q)
    decreases |s|
  {
    if |s| > 0 {
      FilterSame(s[..|s| - 1], p, q);
    }
  }

  /** The last `min(k, |s|)` elements of `s`, JavaScript's `s.slice(-k)` for k > 0. */
  function LastN<T>(s: seq<T>, k: nat): (r: seq<T>)
    ensures |r| == if |s| < k then |s| else k
    ensures forall i :: 0 <= i < |r| ==> r[i] == s[|s| - |r| + i]
  {
    if |s| <= k then s else s[|s| - k..]
  }

  /** A non-empty sequence is its prefix followed by its last element. */
  lemma SplitLast<T>(s: seq<T>)
    requires |s| > 0
    ensures s == s[..|s| - 1] + [s[|s| - 1]]
  {
  }

  /** A non-empty sequence is its first element followed by the rest. */
  lemma SplitFirst<T>(s: seq<T>)
    requires |s| > 0
    ensures s == [s[0]] + s[1..]
  {
  }

  /** A sequence is what lies before position j, the element at j, and what
      lies after it. */
  lemma SplitAt<T>(s: seq<T>, j: nat)
    requires j < |s|
    ensures s == s[..j] + [s[j]] + s[j + 1..]
  {
  }

  /** Taking out the element at j takes one copy of it out of the multiset. */
  lemma RemoveAt<T>(s: seq<T>, j: nat)
    requires j < |s|
    ensures multiset(s[..j] + s[j + 1..]) == multiset(s) - multiset{s[j]}
  {
    SplitAt(s, j);
  }

  /** The lists f gives for the elements of s, one after another. */
  function ConcatMap<A, B>(s: seq<A>, f: A -> seq<B>): seq<B>
  {
    if |s| == 0 then [] else ConcatMap(s[..|s| - 1], f) + f(s[|s| - 1])
  }

  lemma ConcatMapOne<A, B>(x: A, f: A -> seq<B>)
    ensures ConcatMap([x], f) == f(x)
  {
    assert [x][..0] == [];
    assert ConcatMap([x], f) == [] + f(x);
  }

  lemma {:induction false} ConcatMapConcat<A, B>(a: seq<A>, b: seq<A>, f: A -> seq<B>)
    ensures ConcatMap(a + b, f) == ConcatMap(a, f) + ConcatMap(b, f)
    decreases |b|
  {
    if |b| == 0 {
      assert a + b == a;
    } else {
      var b' := b[..|b| - 1];
      assert (a + b)[..|a + b| - 1] == a + b';
      ConcatMapConcat(a, b', f);
    }
  }

  /** When every list f gives has at most m elements, the whole has at most
      m per element of s. */
  lemma {:induction false} ConcatMapLength<A, B>(s: seq<A>, f: A -> seq<B>, m: nat)
    requires forall x :: x in s ==> |f(x)| <= m
    ensures |ConcatMap(s, f)| <= m * |s|
    decreases |s|
  {
    if |s| > 0 {
      ConcatMapLength(s[..|s| - 1], f, m);
      assert s[|s| - 1] in s;
      assert m * |s| == m * (|s| - 1) + m;
    }
  }

  /** Every element of the whole comes from the list of some element of s. */
  lemma {:induction false} ConcatMapOrigin<A, B>(s: seq<A>, f: A -> seq<B>, k: nat)
    requires k < |ConcatMap(s, f)|
    ensures exists i :: 0 <= i < |s| && ConcatMap(s, f)[k] in f(s[i])
    decreases |s|
  {
    var init := s[..|s| - 1];
    var before := ConcatMap(init, f);
    if k < |before| {
      ConcatMapOrigin(init, f, k);
      var i :| 0 <= i < |init| && before[k] in f(init[i]);
      assert init[i] == s[i];
    } else {
      assert ConcatMap(s, f)[k] == f(s[|s| - 1])[k - |before|];
    }
  }
}
