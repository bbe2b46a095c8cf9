/** The spending predictor: expenses are grouped into week, month or year
    buckets, the bucket totals are listed in the order JavaScript lists the
    keys of the grouping object, and the prediction, trend and confidence are
    computed from that list of totals. */
module Prediction {
  import opened Sequences
  import opened Records
  import opened Results
  import opened Statistics
  import opened PeriodKeys
  import Calendar

  // ----- grouping -----

  /** One property of the object `groupByPeriod` builds: a key and the
      expenses pushed under it, in push order. */
  datatype Group = Group(key: string, items: seq<Expense>)

  function Keys(gs: seq<Group>): (ks: seq<string>)
    ensures |ks| == |gs|
    ensures forall i :: 0 <= i < |gs| ==> ks[i] == gs[i].key
  {
    seq(|gs|, i requires 0 <= i < |gs| => gs[i].key)
  }

  predicate DistinctKeys(gs: seq<Group>)
  {
    forall i, j :: 0 <= i < j < |gs| ==> gs[i].key != gs[j].key
  }

  /** The position of the property named key, or |gs| when there is none. */
  function Find(gs: seq<Group>, key: string): (i: nat)
    ensures i <= |gs|
    ensures i < |gs| ==> gs[i].key == key
    ensures forall j :: 0 <= j < i ==> gs[j].key != key
  {
    if |gs| == 0 || gs[0].key == key then 0 else 1 + Find(gs[1..], key)
  }

  /** `if (!grouped[key]) grouped[key] = []; grouped[key].push(e)`: the
      expense joins the group of its key, and a new key becomes the last
      property. */
  function Push(gs: seq<Group>, key: string, e: Expense): (r: seq<Group>)
    requires DistinctKeys(gs)
    ensures DistinctKeys(r)
    ensures |r| == if Find(gs, key) < |gs| then |gs| else |gs| + 1
    ensures forall i :: 0 <= i < |gs| ==> r[i].key == gs[i].key
    ensures forall i :: 0 <= i < |gs| ==>
              r[i].items == if gs[i].key == key then gs[i].items + [e] else gs[i].items
    ensures Find(gs, key) == |gs| ==> r[|gs|] == Group(key, [e])
  {
    var i := Find(gs, key);
    if i < |gs| then gs[i := Group(key, gs[i].items + [e])] else gs + [Group(key, [e])]
  }

  lemma FindIffKey(gs: seq<Group>, key: string)
    ensures Find(gs, key) < |gs| <==> key in Keys(gs)
  {
    if key in Keys(gs) {
      var j :| 0 <= j < |gs| && Keys(gs)[j] == key;
      assert gs[j].key == key;
    }
  }

  /** The key of every expense, in order. */
  function ExpenseKeys(es: seq<Expense>, keyOf: Expense -> string): (ks: seq<string>)
    ensures |ks| == |es|
    ensures forall i :: 0 <= i < |es| ==> ks[i] == keyOf(es[i])
  {
    seq(|es|, i requires 0 <= i < |es| => keyOf(es[i]))
  }

  /** The loop of `groupByPeriod`, with the properties in insertion order;
      keyOf gives an expense's key. */
  function GroupInOrder(es: seq<Expense>, keyOf: Expense -> string): (gs: seq<Group>)
    ensures DistinctKeys(gs)
    ensures |es| > 0 ==> |gs| > 0
  {
    if |es| == 0 then []
    else Push(GroupInOrder(es[..|es| - 1], keyOf), keyOf(es[|es| - 1]), es[|es| - 1])
  }

  /** The key function of a period. */
  function KeyOf(period: Period): Expense -> string
  {
    (e: Expense) => ExpenseKey(period, e)
  }

  /** The distinct values of ks, each where it first appears. */
  function FirstOccurrences(ks: seq<string>): (r: seq<string>)
    ensures forall k :: k in r <==> k in ks
  {
    if |ks| == 0 then []
    else
      var init := FirstOccurrences(ks[..|ks| - 1]);
      assert ks == ks[..|ks| - 1] + [ks[|ks| - 1]];
      if ks[|ks| - 1] in init then init else init + [ks[|ks| - 1]]
  }

  function WithKey(keyOf: Expense -> string, key: string): Expense -> bool
  {
    (e: Expense) => keyOf(e) == key
  }

  /** One push extends the keys as the first occurrences grow. */
  lemma KeysStep(ks: seq<string>, key: string, e: Expense, before: seq<Group>, after: seq<Group>)
    requires DistinctKeys(before) && after == Push(before, key, e)
    requires Keys(before) == FirstOccurrences(ks)
    ensures Keys(after) == FirstOccurrences(ks + [key])
  {
    FindIffKey(before, key);
    assert (ks + [key])[..|ks|] == ks;
  }

  lemma ExpenseKeysSnoc(es: seq<Expense>, keyOf: Expense -> string)
    requires |es| > 0
    ensures ExpenseKeys(es, keyOf) == ExpenseKeys(es[..|es| - 1], keyOf) + [keyOf(es[|es| - 1])]
  {
  }

  /** The groups' keys are the distinct keys of the expenses, in order of
      first appearance. */
  lemma {:induction false} GroupKeys(es: seq<Expense>, keyOf: Expense -> string)
    ensures Keys(GroupInOrder(es, keyOf)) == FirstOccurrences(ExpenseKeys(es, keyOf))
    decreases |es|
  {
    if |es| > 0 {
      var init, last := es[..|es| - 1], es[|es| - 1];
      GroupKeys(init, keyOf);
      ExpenseKeysSnoc(es, keyOf);
      KeysStep(ExpenseKeys(init, keyOf), keyOf(last), last, GroupInOrder(init, keyOf), GroupInOrder(es, keyOf));
    }
  }

  lemma KeysCovered(es: seq<Expense>, keyOf: Expense -> string)
    ensures forall j :: 0 <= j < |es| ==> keyOf(es[j]) in Keys(GroupInOrder(es, keyOf))
  {
    GroupKeys(es, keyOf);
    forall j | 0 <= j < |es|
      ensures keyOf(es[j]) in Keys(GroupInOrder(es, keyOf))
    {
      assert ExpenseKeys(es, keyOf)[j] == keyOf(es[j]);
    }
  }

  /** A group that existed before a push still holds exactly the expenses
      with its key. */
  lemma ItemsStepOld(init: seq<Expense>, last: Expense, keyOf: Expense -> string,
                     g: Group, g': Group)
    requires g.items == Filter(init, WithKey(keyOf, g.key))
    requires g'.key == g.key
    requires g'.items == if g.key == keyOf(last) then g.items + [last] else g.items
    ensures g'.items == Filter(init + [last], WithKey(keyOf, g'.key))
  {
    FilterSnoc(init, last, WithKey(keyOf, g.key));
  }

  /** The group a push opens holds exactly the expenses with its key. */
  lemma ItemsStepNew(init: seq<Expense>, last: Expense, keyOf: Expense -> string, g: Group)
    requires forall j :: 0 <= j < |init| ==> keyOf(init[j]) != g.key
    requires g == Group(keyOf(last), [last])
    ensures g.items == Filter(init + [last], WithKey(keyOf, g.key))
  {
    FilterSnoc(init, last, WithKey(keyOf, g.key));
    forall j | 0 <= j < |init|
      ensures !WithKey(keyOf, g.key)(init[j])
    {
    }
    FilterNoneAt(init, WithKey(keyOf, g.key));
  }

  /** One push keeps every group equal to the expenses with its key. */
  lemma ItemsStep(init: seq<Expense>, last: Expense, keyOf: Expense -> string,
                  before: seq<Group>, after: seq<Group>)
    requires DistinctKeys(before)
    requires after == Push(before, keyOf(last), last)
    requires forall i :: 0 <= i < |before| ==> before[i].items == Filter(init, WithKey(keyOf, before[i].key))
    requires forall j :: 0 <= j < |init| ==> keyOf(init[j]) in Keys(before)
    ensures forall i :: 0 <= i < |after| ==> after[i].items == Filter(init + [last], WithKey(keyOf, after[i].key))
  {
    forall i | 0 <= i < |after|
      ensures after[i].items == Filter(init + [last], WithKey(keyOf, after[i].key))
    {
      if i < |before| {
        ItemsStepOld(init, last, keyOf, before[i], after[i]);
      } else {
        var k := keyOf(last);
        FindIffKey(before, k);
        forall j | 0 <= j < |init|
          ensures keyOf(init[j]) != k
        {
          assert keyOf(init[j]) in Keys(before);
        }
        ItemsStepNew(init, last, keyOf, after[i]);
      }
    }
  }

  /** Each group holds exactly the expenses with its key, in their order. */
  lemma {:induction false} GroupsAreFilters(es: seq<Expense>, keyOf: Expense -> string)
    ensures forall i :: 0 <= i < |GroupInOrder(es, keyOf)| ==>
              GroupInOrder(es, keyOf)[i].items == Filter(es, WithKey(keyOf, GroupInOrder(es, keyOf)[i].key))
    decreases |es|
  {
    if |es| > 0 {
      var init, last := es[..|es| - 1], es[|es| - 1];
      GroupsAreFilters(init, keyOf);
      KeysCovered(init, keyOf);
      SplitLast(es);
      ItemsStep(init, last, keyOf, GroupInOrder(init, keyOf), GroupInOrder(es, keyOf));
    }
  }

  lemma FilterNoneAt<T>(s: seq<T>, p: T -> bool)
    requires forall j :: 0 <= j < |s| ==> !p(s[j])
    ensures Filter(s, p) == []
  {
  }

  // ----- bucket totals -----

  /** The total of every group (`items.reduce((sum, item) => sum + item.amount, 0)`). */
  function Totals(gs: seq<Group>): (ts: seq<real>)
    ensures |ts| == |gs|
  {
    if |gs| == 0 then [] else Totals(gs[..|gs| - 1]) + [Total(gs[|gs| - 1].items)]
  }

  lemma {:induction false} TotalsAt(gs: seq<Group>, i: nat)
    requires i < |gs|
    ensures Totals(gs)[i] == Total(gs[i].items)
    decreases |gs|
  {
    if i < |gs| - 1 {
      TotalsAt(gs[..|gs| - 1], i);
    }
  }

  lemma {:induction false} TotalsConcat(a: seq<Group>, b: seq<Group>)
    ensures Totals(a + b) == Totals(a) + Totals(b)
    decreases |b|
  {
    if |b| > 0 {
      var b' := b[..|b| - 1];
      assert (a + b)[..|a + b| - 1] == a + b';
      TotalsConcat(a, b');
    } else {
      assert a + b == a;
    }
  }

  lemma TotalsOne(g: Group)
    ensures Totals([g]) == [Total(g.items)]
  {
    assert [g][..0] == [];
  }

  lemma SumSnoc(xs: seq<real>, x: real)
    ensures Sum(xs + [x]) == Sum(xs) + x
  {
    assert (xs + [x])[..|xs|] == xs;
  }

  lemma SumCons(x: real, xs: seq<real>)
    ensures Sum([x] + xs) == x + Sum(xs)
  {
    SumConcat([x], xs);
    SumSnoc([], x);
  }

  /** Replacing one group changes the sum of the totals by the difference. */
  lemma TotalsUpdate(gs: seq<Group>, i: nat, g: Group)
    requires i < |gs|
    ensures Sum(Totals(gs[i := g])) == Sum(Totals(gs)) - Total(gs[i].items) + Total(g.items)
  {
    var pre, post := gs[..i], gs[i + 1..];
    SplitAt(gs, i);
    assert gs[i := g] == pre + [g] + post;
    TotalsConcat(pre + [gs[i]], post);
    TotalsConcat(pre + [g], post);
    TotalsConcat(pre, [gs[i]]);
    TotalsConcat(pre, [g]);
    TotalsOne(gs[i]);
    TotalsOne(g);
    SumConcat(Totals(pre) + [Total(gs[i].items)], Totals(post));
    SumConcat(Totals(pre) + [Total(g.items)], Totals(post));
    SumSnoc(Totals(pre), Total(gs[i].items));
    SumSnoc(Totals(pre), Total(g.items));
  }

  lemma PushTotalExisting(gs: seq<Group>, key: string, e: Expense, i: nat)
    requires DistinctKeys(gs) && i == Find(gs, key) && i < |gs|
    ensures Sum(Totals(Push(gs, key, e))) == Sum(Totals(gs)) + e.amount
  {
    TotalSnoc(gs[i].items, e);
    TotalsUpdate(gs, i, Group(key, gs[i].items + [e]));
  }

  lemma PushTotalNew(gs: seq<Group>, key: string, e: Expense)
    requires DistinctKeys(gs) && Find(gs, key) == |gs|
    ensures Sum(Totals(Push(gs, key, e))) == Sum(Totals(gs)) + e.amount
  {
    var g := Group(key, [e]);
    assert Push(gs, key, e) == gs + [g];
    TotalsConcat(gs, [g]);
    TotalsOne(g);
    assert Total([e]) == e.amount by {
      TotalSnoc([], e);
      TotalEmpty();
    }
    SumSnoc(Totals(gs), e.amount);
  }

  /** A push adds the expense's amount to the sum of the group totals. */
  lemma PushTotal(gs: seq<Group>, key: string, e: Expense)
    requires DistinctKeys(gs)
    ensures Sum(Totals(Push(gs, key, e))) == Sum(Totals(gs)) + e.amount
  {
    var i := Find(gs, key);
    if i < |gs| {
      PushTotalExisting(gs, key, e, i);
    } else {
      PushTotalNew(gs, key, e);
    }
  }

  lemma GroupTotalsStep(es: seq<Expense>, key: string, before: seq<Group>, after: seq<Group>)
    requires |es| > 0
    requires DistinctKeys(before) && after == Push(before, key, es[|es| - 1])
    requires Sum(Totals(before)) == Total(es[..|es| - 1])
    ensures Sum(Totals(after)) == Total(es)
  {
    var init, last := es[..|es| - 1], es[|es| - 1];
    PushTotal(before, key, last);
    TotalSnoc(init, last);
    SplitLast(es);
  }

  /** The group totals add up to the total of all expenses. */
  lemma {:induction false} GroupTotalsSum(es: seq<Expense>, keyOf: Expense -> string)
    ensures Sum(Totals(GroupInOrder(es, keyOf))) == Total(es)
    decreases |es|
  {
    if |es| > 0 {
      var init, last := es[..|es| - 1], es[|es| - 1];
      GroupTotalsSum(init, keyOf);
      GroupTotalsStep(es, keyOf(last), GroupInOrder(init, keyOf), GroupInOrder(es, keyOf));
    } else {
      TotalEmpty();
    }
  }

  // ----- the order of an object's keys -----

  /** The key is an array index, as `index` tells. */
  predicate Indexed(g: Group, index: string -> Option<nat>)
  {
    index(g.key).Some?
  }

  function IndexedIn(index: string -> Option<nat>): Group -> bool
  {
    (g: Group) => Indexed(g, index)
  }

  function NamedIn(index: string -> Option<nat>): Group -> bool
  {
    (g: Group) => !Indexed(g, index)
  }

  predicate AllIndexed(s: seq<Group>, index: string -> Option<nat>)
  {
    forall i :: 0 <= i < |s| ==> Indexed(s[i], index)
  }

  predicate Ascending(s: seq<Group>, index: string -> Option<nat>)
    requires AllIndexed(s, index)
  {
    forall i, j :: 0 <= i < j < |s| ==> index(s[i].key).value <= index(s[j].key).value
  }

  function InsertByIndex(g: Group, s: seq<Group>, index: string -> Option<nat>): (r: seq<Group>)
    requires Indexed(g, index) && AllIndexed(s, index) && Ascending(s, index)
    ensures |r| == |s| + 1
    ensures r[0] == if |s| == 0 || index(g.key).value <= index(s[0].key).value then g else s[0]
    ensures AllIndexed(r, index) && Ascending(r, index)
    ensures multiset(r) == multiset(s) + multiset{g}
  {
    if |s| == 0 then [g]
    else if index(g.key).value <= index(s[0].key).value then [g] + s
    else
      SplitFirst(s);
      [s[0]] + InsertByIndex(g, s[1..], index)
  }

  function SortByIndex(s: seq<Group>, index: string -> Option<nat>): (r: seq<Group>)
    requires AllIndexed(s, index)
    ensures |r| == |s|
    ensures AllIndexed(r, index) && Ascending(r, index)
    ensures multiset(r) == multiset(s)
  {
    if |s| == 0 then []
    else
      SplitLast(s);
      InsertByIndex(s[|s| - 1], SortByIndex(s[..|s| - 1], index), index)
  }

  lemma {:induction false} FilterPartition(gs: seq<Group>, index: string -> Option<nat>)
    ensures multiset(Filter(gs, IndexedIn(index))) + multiset(Filter(gs, NamedIn(index))) == multiset(gs)
    decreases |gs|
  {
    if |gs| > 0 {
      var init, last := gs[..|gs| - 1], gs[|gs| - 1];
      FilterPartition(init, index);
      SplitLast(gs);
    }
  }

  /** The order `Object.values` and `Object.entries` list the properties in:
      the array-index keys in ascending numeric order, then the other keys in
      insertion order. `index` tells which keys are array indices. */
  function PropertyOrder(gs: seq<Group>, index: string -> Option<nat>): (r: seq<Group>)
    ensures |r| == |gs|
    ensures multiset(r) == multiset(gs)
    ensures var k := |Filter(gs, IndexedIn(index))|;
            k <= |r| && AllIndexed(r[..k], index) && Ascending(r[..k], index)
            && r[k..] == Filter(gs, NamedIn(index))
  {
    var indexed := Filter(gs, IndexedIn(index));
    FilterPartition(gs, index);
    var r := SortByIndex(indexed, index) + Filter(gs, NamedIn(index));
    assert r[..|indexed|] == SortByIndex(indexed, index);
    assert |multiset(r)| == |multiset(gs)|;
    r
  }

  lemma TotalsAround(pre: seq<Group>, g: Group, post: seq<Group>)
    ensures Totals(pre + [g] + post) == Totals(pre) + [Total(g.items)] + Totals(post)
    ensures Totals(pre + post) == Totals(pre) + Totals(post)
  {
    TotalsConcat(pre + [g], post);
    TotalsConcat(pre, [g]);
    TotalsConcat(pre, post);
    TotalsOne(g);
  }

  lemma SumAround(pre: seq<real>, x: real, post: seq<real>)
    ensures Sum(pre + [x] + post) == Sum(pre + post) + x
  {
    SumConcat(pre + [x], post);
    SumConcat(pre, post);
    SumSnoc(pre, x);
  }

  lemma TotalsRemoveAt(b: seq<Group>, pre: seq<Group>, g: Group, post: seq<Group>)
    requires b == pre + [g] + post
    ensures Sum(Totals(b)) == Sum(Totals(pre + post)) + Total(g.items)
  {
    TotalsAround(pre, g, post);
    SumAround(Totals(pre), Total(g.items), Totals(post));
  }

  /** Taking out one group takes its total out of the sum. */
  lemma TotalsRemove(b: seq<Group>, j: nat)
    requires j < |b|
    ensures Sum(Totals(b)) == Sum(Totals(b[..j] + b[j + 1..])) + Total(b[j].items)
  {
    var pre, post := b[..j], b[j + 1..];
    SplitAt(b, j);
    TotalsRemoveAt(b, pre, b[j], post);
  }

  /** Reordering the groups keeps the sum of their totals. */
  lemma {:induction false} TotalsPermutation(a: seq<Group>, b: seq<Group>)
    requires multiset(a) == multiset(b)
    ensures Sum(Totals(a)) == Sum(Totals(b))
    decreases |a|
  {
    if |a| == 0 {
      assert |multiset(b)| == 0;
    } else {
      var init, x := a[..|a| - 1], a[|a| - 1];
      SplitLast(a);
      assert x in multiset(b);
      var j :| 0 <= j < |b| && b[j] == x;
      var rest := b[..j] + b[j + 1..];
      RemoveAt(b, j);
      TotalsPermutation(init, rest);
      TotalsRemove(b, j);
      SumSnoc(Totals(init), Total(x.items));
    }
  }

  /** Listing the properties in object order keeps the sum of the totals. */
  lemma PropertyOrderTotal(gs: seq<Group>, index: string -> Option<nat>)
    ensures Sum(Totals(PropertyOrder(gs, index))) == Sum(Totals(gs))
  {
    TotalsPermutation(PropertyOrder(gs, index), gs);
  }

  /** Without array-index keys the object order is the insertion order. */
  lemma NamedKeysKeepInsertionOrder(gs: seq<Group>, index: string -> Option<nat>)
    requires forall i :: 0 <= i < |gs| ==> !Indexed(gs[i], index)
    ensures PropertyOrder(gs, index) == gs
  {
    FilterNoneAt(gs, IndexedIn(index));
    FilterAll(gs, NamedIn(index));
  }

  // ----- trend and confidence -----

  /** `calculateTrend`: the least-squares slope of the totals against their
      positions, with a dead band of ±0.05. */
  function TrendOf(data: seq<real>): (t: Trend)
    ensures |data| < 2 ==> t == Stable
  {
    if |data| < 2 then Stable
    else
      var slope := Slope(data);
      if slope > 0.05 then Increasing
      else if slope < -0.05 then Decreasing
      else Stable
  }

  /** Totals on a line move with the line's slope. */
  lemma TrendOfLine(data: seq<real>, a: real, b: real)
    requires |data| >= 2 && OnLine(data, a, b)
    ensures TrendOf(data) == Increasing <==> b > 0.05
    ensures TrendOf(data) == Decreasing <==> b < -0.05
    ensures TrendOf(data) == Stable <==> -0.05 <= b <= 0.05
  {
    SlopeOfLine(data, a, b);
  }

  /** Equal totals are stable. */
  lemma TrendOfConstant(data: seq<real>)
    requires forall i :: 0 <= i < |data| ==> data[i] == data[0]
    ensures TrendOf(data) == Stable
  {
    if |data| >= 2 {
      SlopeOfConstant(data);
    }
  }

  /** With two buckets the trend compares the second total with the first. */
  lemma TrendOfTwo(first: real, second: real)
    ensures TrendOf([first, second]) == Increasing <==> second - first > 0.05
    ensures TrendOf([first, second]) == Decreasing <==> second - first < -0.05
  {
    SlopeOfTwo(first, second);
  }

  function MinOf(a: real, b: real): (m: real)
    ensures m <= a && m <= b && (m == a || m == b)
  {
    if a <= b then a else b
  }

  function MaxOf(a: real, b: real): (m: real)
    ensures a <= m && b <= m && (m == a || m == b)
  {
    if a >= b then a else b
  }

  /** `calculateConfidence`: one minus the coefficient of variation (capped
      at 1), blended 70/30 with the number of buckets out of 12, and clamped
      to [0.1, 0.95]; 0.3 for fewer than two buckets. */
  function ConfidenceOf(amounts: seq<real>, stdDev: real, mean: real): (c: real)
    ensures |amounts| < 2 ==> c == 0.3
    ensures 0.1 <= c <= 0.95
  {
    if |amounts| < 2 then 0.3
    else
      var cv := if mean > 0.0 then stdDev / mean else 1.0;
      var consistency := 1.0 - MinOf(cv, 1.0);
      var sampleSizeFactor := MinOf((|amounts| as real) / 12.0, 1.0);
      MaxOf(0.1, MinOf(0.95, consistency * 0.7 + sampleSizeFactor * 0.3))
  }

  lemma DivMonotone(x: real, y: real, d: real)
    requires d > 0.0 && x <= y
    ensures x / d <= y / d
  {
  }

  /** A wider spread never raises the confidence. */
  lemma ConfidenceFallsWithSpread(amounts: seq<real>, s1: real, s2: real, mean: real)
    requires s1 <= s2
    ensures ConfidenceOf(amounts, s2, mean) <= ConfidenceOf(amounts, s1, mean)
  {
    if mean > 0.0 {
      DivMonotone(s1, s2, mean);
    }
  }

  /** More buckets never lower the confidence. */
  lemma ConfidenceGrowsWithBuckets(xs: seq<real>, ys: seq<real>, stdDev: real, mean: real)
    requires 2 <= |xs| <= |ys|
    ensures ConfidenceOf(xs, stdDev, mean) <= ConfidenceOf(ys, stdDev, mean)
  {
    DivMonotone(|xs| as real, |ys| as real, 12.0);
  }

  /** Without spread and with a positive mean, two buckets already give 0.75,
      and ten or more give the cap of 0.95. */
  lemma ConfidenceWithoutSpread(amounts: seq<real>, mean: real)
    requires |amounts| >= 2 && mean > 0.0
    ensures ConfidenceOf(amounts, 0.0, mean) >= 0.75
    ensures |amounts| >= 10 ==> ConfidenceOf(amounts, 0.0, mean) == 0.95
  {
    DivMonotone(2.0, |amounts| as real, 12.0);
    if |amounts| >= 10 {
      DivMonotone(10.0, |amounts| as real, 12.0);
    }
  }

  /** A mean that is not positive counts as a coefficient of variation of 1:
      only the number of buckets is left, and the result is at most 0.3. */
  lemma ConfidenceWithoutPositiveMean(amounts: seq<real>, stdDev: real, mean: real)
    requires |amounts| >= 2 && mean <= 0.0
    ensures ConfidenceOf(amounts, stdDev, mean)
            == MaxOf(0.1, MinOf((|amounts| as real) / 12.0, 1.0) * 0.3)
    ensures ConfidenceOf(amounts, stdDev, mean) <= 0.3
  {
  }

  // ----- the prediction -----

  /** The expenses with exactly this category (`e.category === category`). */
  function InCategory(category: string): Expense -> bool
  {
    (e: Expense) => e.category == Some(category)
  }

  /** The expenses the prediction looks at: all of them, or those of the
      category when a non-empty one is given. */
  function Considered(es: seq<Expense>, category: Option<string>): (r: seq<Expense>)
    ensures !IsTruthy(category) ==> r == es
    ensures IsTruthy(category) ==> forall e :: e in r <==> e in es && e.category == category
    ensures IsTruthy(category) ==>
              forall e :: multiset(r)[e] == if e.category == category then multiset(es)[e] else 0
  {
    if IsTruthy(category) then
      FilterMultiset(es, InCategory(category.value));
      Filter(es, InCategory(category.value))
    else es
  }

  /** Narrowing to a category a second time removes nothing more. */
  lemma ConsideredIdempotent(es: seq<Expense>, category: Option<string>)
    ensures Considered(Considered(es, category), category) == Considered(es, category)
  {
    if IsTruthy(category) {
      var r := Considered(es, category);
      FilterAll(r, InCategory(category.value));
    }
  }

  /** `groupByPeriod` as `Object.values` and `Object.entries` list it. */
  function Grouped(es: seq<Expense>, period: Period): seq<Group>
  {
    PropertyOrder(GroupInOrder(es, KeyOf(period)), ArrayIndex)
  }

  function Breakdown(gs: seq<Group>): (b: seq<PeriodTotal>)
    ensures |b| == |gs|
    ensures forall i :: 0 <= i < |gs| ==> b[i].period == gs[i].key
  {
    seq(|gs|, i requires 0 <= i < |gs| => PeriodTotal(gs[i].key, Total(gs[i].items)))
  }

  const NoPrediction := PredictionResult(0, Stable, 0.0, [])

  /** The statistics of `predictSpending` over the listed groups: the
      prediction blends mean and median 70/30 and is rounded, and the
      breakdown keeps the last six buckets. `sqrt` is the square root
      `standardDeviation` takes of the population variance. */
  function Forecast(groups: seq<Group>, sqrt: real -> real): (r: PredictionResult)
    ensures |groups| == 0 ==> r == NoPrediction
    ensures |groups| > 0 ==> 1 <= |r.breakdown| <= 6 && 0.1 <= r.confidence <= 0.95
  {
    var amounts := Totals(groups);
    if |amounts| == 0 then NoPrediction
    else
      var mean := Mean(amounts);
      var median := Median(amounts);
      var stdDev := if |amounts| > 1 then sqrt(Variance(amounts)) else 0.0;
      var prediction := mean * 0.7 + median * 0.3;
      PredictionResult(Round(prediction), TrendOf(amounts), ConfidenceOf(amounts, stdDev, mean),
                       LastN(Breakdown(groups), 6))
  }

  /** `predictSpending`: no expenses to look at give the empty prediction. */
  function PredictSpending(es: seq<Expense>, period: Period, category: Option<string>,
                           sqrt: real -> real): (r: PredictionResult)
    ensures Considered(es, category) == [] ==> r == NoPrediction
    ensures Considered(es, category) != [] ==> 1 <= |r.breakdown| <= 6 && 0.1 <= r.confidence <= 0.95
  {
    var filtered := Considered(es, category);
    if |filtered| == 0 then NoPrediction else Forecast(Grouped(filtered, period), sqrt)
  }

  // ----- properties of the prediction -----

  /** The blend of mean and median lies between the smallest and the largest
      bucket total, so the prediction lies between their roundings. */
  lemma PredictionWithinTotals(groups: seq<Group>, sqrt: real -> real)
    requires |groups| > 0
    ensures Round(Min(Totals(groups))) <= Forecast(groups, sqrt).prediction <= Round(Max(Totals(groups)))
  {
    var amounts := Totals(groups);
    var lo, hi := Min(amounts), Max(amounts);
    var p := Mean(amounts) * 0.7 + Median(amounts) * 0.3;
    assert lo <= p <= hi;
    RoundMonotone(lo, p);
    RoundMonotone(p, hi);
  }

  /** Buckets with equal totals c predict Round(c) and are stable. */
  lemma SteadySpending(groups: seq<Group>, sqrt: real -> real, c: real)
    requires |groups| > 0
    requires forall i :: 0 <= i < |groups| ==> Totals(groups)[i] == c
    ensures Forecast(groups, sqrt).prediction == Round(c)
    ensures Forecast(groups, sqrt).trend == Stable
  {
    var amounts := Totals(groups);
    VarianceOfConstant(amounts);
    assert Min(amounts) == c && Max(amounts) == c;
    TrendOfConstant(amounts);
  }

  /** Equal bucket totals leave no spread: with a square root that maps 0
      to 0, a positive total gives a confidence of at least 0.75, and a total
      that is not positive leaves the variation at 1 and the confidence at
      most 0.3. */
  lemma SteadyConfidence(groups: seq<Group>, sqrt: real -> real, c: real)
    requires |groups| >= 2 && sqrt(0.0) == 0.0
    requires forall i :: 0 <= i < |groups| ==> Totals(groups)[i] == c
    ensures c > 0.0 ==> Forecast(groups, sqrt).confidence >= 0.75
    ensures c <= 0.0 ==> Forecast(groups, sqrt).confidence <= 0.3
  {
    var amounts := Totals(groups);
    VarianceOfConstant(amounts);
    if c > 0.0 {
      ConfidenceWithoutSpread(amounts, Mean(amounts));
    } else {
      ConfidenceWithoutPositiveMean(amounts, 0.0, Mean(amounts));
    }
  }

  lemma ForecastBreakdown(groups: seq<Group>, sqrt: real -> real)
    requires |groups| > 0
    ensures Forecast(groups, sqrt).breakdown == LastN(Breakdown(groups), 6)
  {
  }

  lemma LastEntry(groups: seq<Group>, b: seq<PeriodTotal>, i: nat)
    requires b == LastN(Breakdown(groups), 6) && i < |b|
    ensures b[i] == PeriodTotal(groups[|groups| - |b| + i].key, Total(groups[|groups| - |b| + i].items))
  {
    var all := Breakdown(groups);
    assert b[i] == all[|groups| - |b| + i];
  }

  /** The last six entries of a breakdown, each with its bucket's key and
      total. */
  lemma LastEntries(groups: seq<Group>, b: seq<PeriodTotal>)
    requires b == LastN(Breakdown(groups), 6)
    ensures |b| == (if |groups| < 6 then |groups| else 6)
    ensures forall i :: 0 <= i < |b| ==>
              b[i] == PeriodTotal(groups[|groups| - |b| + i].key, Total(groups[|groups| - |b| + i].items))
  {
    forall i | 0 <= i < |b|
      ensures b[i] == PeriodTotal(groups[|groups| - |b| + i].key, Total(groups[|groups| - |b| + i].items))
    {
      LastEntry(groups, b, i);
    }
  }

  /** In object order the array-index keys come first, in ascending order:
      a key after an index key is an index key no smaller. */
  lemma IndexKeysFirst(gs: seq<Group>, index: string -> Option<nat>)
    ensures var r := PropertyOrder(gs, index);
            forall i, j :: 0 <= i < j < |r| && index(r[j].key).Some? ==>
              index(r[i].key).Some? && index(r[i].key).value <= index(r[j].key).value
  {
    var r := PropertyOrder(gs, index);
    var k := |Filter(gs, IndexedIn(index))|;
    forall j | k <= j < |r|
      ensures index(r[j].key).None?
    {
      assert r[j] == r[k..][j - k];
    }
    forall i, j | 0 <= i < j < |r| && index(r[j].key).Some?
      ensures index(r[i].key).Some? && index(r[i].key).value <= index(r[j].key).value
    {
      assert r[..k][i] == r[i] && r[..k][j] == r[j];
    }
  }

  /** Week and month keys are never array indices, so those buckets keep
      the order in which their first expense appears. */
  lemma WeeksAndMonthsInInsertionOrder(es: seq<Expense>, period: Period)
    requires period != Year
    ensures Grouped(es, period) == GroupInOrder(es, KeyOf(period))
  {
    var gs := GroupInOrder(es, KeyOf(period));
    GroupKeys(es, KeyOf(period));
    forall i | 0 <= i < |gs|
      ensures !Indexed(gs[i], ArrayIndex)
    {
      assert Keys(gs)[i] in ExpenseKeys(es, KeyOf(period));
      ExpenseKeyNotIndex(es, period, gs[i].key);
    }
    NamedKeysKeepInsertionOrder(gs, ArrayIndex);
  }

  /** No expense's week or month key is an array index. */
  lemma ExpenseKeyNotIndex(es: seq<Expense>, period: Period, key: string)
    requires period != Year && key in ExpenseKeys(es, KeyOf(period))
    ensures ArrayIndex(key).None?
  {
    var j :| 0 <= j < |es| && ExpenseKeys(es, KeyOf(period))[j] == key;
    PeriodKeyIndex(period, Calendar.DayNumber(es[j].spentAt));
  }

  /** Year buckets: the years from 0 on come first, in ascending order, and
      a bucket follows a year bucket 0 ≤ y < 2³² − 1 only if it is an earlier
      such year. */
  lemma YearsAscending(es: seq<Expense>)
    ensures var gs := Grouped(es, Year);
            forall i, j :: 0 <= i < j < |gs| && ArrayIndex(gs[j].key).Some? ==>
              ArrayIndex(gs[i].key).Some? && ArrayIndex(gs[i].key).value <= ArrayIndex(gs[j].key).value
  {
    IndexKeysFirst(GroupInOrder(es, KeyOf(Year)), ArrayIndex);
  }

  /** The bucket totals add up to the total of the expenses looked at. */
  lemma BucketTotalsSum(es: seq<Expense>, period: Period)
    ensures Sum(Totals(Grouped(es, period))) == Total(es)
  {
    PropertyOrderTotal(GroupInOrder(es, KeyOf(period)), ArrayIndex);
    GroupTotalsSum(es, KeyOf(period));
  }

  /** Every bucket of the object order holds exactly the expenses with its
      key. */
  lemma BucketsAreFilters(es: seq<Expense>, period: Period)
    ensures var gs := Grouped(es, period);
            forall i :: 0 <= i < |gs| ==> gs[i].items == Filter(es, WithKey(KeyOf(period), gs[i].key))
  {
    var before := GroupInOrder(es, KeyOf(period));
    var gs := Grouped(es, period);
    GroupsAreFilters(es, KeyOf(period));
    forall i | 0 <= i < |gs|
      ensures gs[i].items == Filter(es, WithKey(KeyOf(period), gs[i].key))
    {
      assert gs[i] in multiset(before);
    }
  }

  lemma EntriesAreFilterTotals(es: seq<Expense>, keyOf: Expense -> string,
                                groups: seq<Group>, b: seq<PeriodTotal>)
    requires |b| <= |groups|
    requires forall i :: 0 <= i < |groups| ==> groups[i].items == Filter(es, WithKey(keyOf, groups[i].key))
    requires forall i :: 0 <= i < |b| ==>
               b[i] == PeriodTotal(groups[|groups| - |b| + i].key, Total(groups[|groups| - |b| + i].items))
    ensures forall i :: 0 <= i < |b| ==> b[i].amount == Total(Filter(es, WithKey(keyOf, b[i].period)))
  {
    forall i | 0 <= i < |b|
      ensures b[i].amount == Total(Filter(es, WithKey(keyOf, b[i].period)))
    {
      var j := |groups| - |b| + i;
      assert b[i] == PeriodTotal(groups[j].key, Total(groups[j].items));
    }
  }

  lemma LastEntriesAreFilterTotals(es: seq<Expense>, keyOf: Expense -> string,
                                   groups: seq<Group>, b: seq<PeriodTotal>)
    requires forall i :: 0 <= i < |groups| ==> groups[i].items == Filter(es, WithKey(keyOf, groups[i].key))
    requires b == LastN(Breakdown(groups), 6)
    ensures forall i :: 0 <= i < |b| ==> b[i].amount == Total(Filter(es, WithKey(keyOf, b[i].period)))
  {
    LastEntries(groups, b);
    EntriesAreFilterTotals(es, keyOf, groups, b);
  }

  lemma ForecastEntriesAreTotals(es: seq<Expense>, keyOf: Expense -> string,
                                 groups: seq<Group>, sqrt: real -> real)
    requires forall i :: 0 <= i < |groups| ==> groups[i].items == Filter(es, WithKey(keyOf, groups[i].key))
    ensures var b := Forecast(groups, sqrt).breakdown;
            forall i :: 0 <= i < |b| ==> b[i].amount == Total(Filter(es, WithKey(keyOf, b[i].period)))
  {
    if |groups| > 0 {
      ForecastBreakdown(groups, sqrt);
      LastEntriesAreFilterTotals(es, keyOf, groups, Forecast(groups, sqrt).breakdown);
    }
  }

  /** Each breakdown entry is a period key with the total of the considered
      expenses that fall in it. */
  lemma BreakdownTotals(es: seq<Expense>, period: Period, category: Option<string>,
                        sqrt: real -> real)
    ensures var filtered := Considered(es, category);
            var b := PredictSpending(es, period, category, sqrt).breakdown;
            forall i :: 0 <= i < |b| ==>
              b[i].amount == Total(Filter(filtered, WithKey(KeyOf(period), b[i].period)))
  {
    var filtered := Considered(es, category);
    if |filtered| > 0 {
      BucketsAreFilters(filtered, period);
      ForecastEntriesAreTotals(filtered, KeyOf(period), Grouped(filtered, period), sqrt);
    }
  }
}
