/** The input records the engines receive, already fetched by the service
    layer: expenses (the union of the fields the four engines read) and
    budgets. Amounts are exact reals and instants are integer milliseconds
    since 1970-01-01T00:00:00Z. */
module Records {
  import opened Sequences

  datatype Option<+T> = None | Some(value: T)

  datatype Expense = Expense(
    id: string,
    amount: real,
    description: string,
    category: Option<string>,
    spentAt: int)

  datatype Budget = Budget(
    id: string,
    name: string,
    limitAmount: real,
    category: string,
    startDate: int,
    endDate: int)

  /** JavaScript truthiness of an optional string field: `undefined` and `""`
      are falsy. */
  predicate IsTruthy(s: Option<string>)
  {
    s.Some? && s.value != ""
  }

  function Amounts(es: seq<Expense>): (r: seq<real>)
    ensures |r| == |es|
    ensures forall i :: 0 <= i < |es| ==> r[i] == es[i].amount
  {
    seq(|es|, i requires 0 <= i < |es| => es[i].amount)
  }

  /** `es.reduce((sum, e) => sum + e.amount, 0)`. */
  function Total(es: seq<Expense>): real
  {
    Sum(Amounts(es))
  }

  lemma TotalSnoc(es: seq<Expense>, e: Expense)
    ensures Total(es + [e]) == Total(es) + e.amount
  {
    assert Amounts(es + [e])[..|es|] == Amounts(es);
  }

  lemma TotalEmpty()
    ensures Total([]) == 0.0
  {
  }

  /** Splitting a list by a predicate splits its total. */
  lemma {:induction false} TotalSplit(es: seq<Expense>, p: Expense -> bool)
    ensures Total(Filter(es, p)) + Total(Filter(es, e => !p(e))) == Total(es)
    decreases |es|
  {
    if |es| > 0 {
      var init := es[..|es| - 1];
      var last := es[|es| - 1];
      assert es == init + [last];
      TotalSplit(init, p);
      TotalSnoc(init, last);
      if p(last) {
        TotalSnoc(Filter(init, p), last);
      } else {
        TotalSnoc(Filter(init, e => !p(e)), last);
      }
    }
  }
}
