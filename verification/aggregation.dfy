/**
  The monthly aggregation of the expense list (`calculateMonthlyTotals`): one
  pass over the records, in list order, into a map from month key to a
  bucket holding the month's display name, its running total and its records.

  The pass is written over a key function `keyOf` and instantiated with
  `MonthKey` by `CalculateMonthlyTotals`; `monthName` stands for the locale
  formatter that names a month after one of its dates.
*/
module Aggregation {

  import opened MonthKeys

  /** One expense row as the list endpoint returns it, amount already parsed. */
  datatype Expense = Expense(id: int, userId: int, date: Date, amount: int, description: string)

  /** The per-month entry of the aggregation. */
  datatype Bucket = Bucket(monthName: string, total: int, expenses: seq<Expense>)

  type MonthlyTotals = map<string, Bucket>

  /**
    One step of the pass: the bucket for the record's month is created empty,
    named after this record's date, the first time that month is seen; the
    record's amount is then added to it and the record appended.
  */
  function AddExpense(m: MonthlyTotals, e: Expense, keyOf: Date -> string, monthName: Date -> string)
    : (r: MonthlyTotals)
    ensures r.Keys == m.Keys + {keyOf(e.date)}
    ensures forall k :: k in m && k != keyOf(e.date) ==> r[k] == m[k]
    ensures var k := keyOf(e.date);
      && r[k].expenses == (if k in m then m[k].expenses else []) + [e]
      && (k in m ==> r[k].monthName == m[k].monthName && r[k].total - m[k].total == e.amount)
      && (k !in m ==> r[k].monthName == monthName(e.date) && r[k].total == e.amount)
  {
    var k := keyOf(e.date);
    var b := if k in m then m[k] else Bucket(monthName(e.date), 0, []);
    m[k := b.(total := b.total + e.amount, expenses := b.expenses + [e])]
  }

  /** The whole pass, started from an empty map. */
  function Aggregate(es: seq<Expense>, keyOf: Date -> string, monthName: Date -> string)
    : (r: MonthlyTotals)
    ensures |r| == 0 <==> es == []
    ensures forall k :: k in r ==> r[k].expenses != []
    decreases |es|
  {
    if es == [] then
      map[]
    else
      AddExpense(Aggregate(es[..|es| - 1], keyOf, monthName), es[|es| - 1], keyOf, monthName)
  }

  /** `calculateMonthlyTotals`: the pass keyed by `"YYYY-MM"`. */
  function CalculateMonthlyTotals(es: seq<Expense>, monthName: Date -> string): (r: MonthlyTotals)
    ensures |r| == 0 <==> es == []
  {
    Aggregate(es, MonthKey, monthName)
  }

  /** The records of `es` whose key is `k`, in list order. */
  function Members(es: seq<Expense>, keyOf: Date -> string, k: string): (r: seq<Expense>)
    ensures |r| <= |es|
    ensures forall i :: 0 <= i < |r| ==> keyOf(r[i].date) == k && r[i] in es
    ensures forall e :: e in es && keyOf(e.date) == k ==> e in r
    decreases |es|
  {
    if es == [] then
      []
    else
      var last := es[|es| - 1];
      assert es == es[..|es| - 1] + [last];
      Members(es[..|es| - 1], keyOf, k) + (if keyOf(last.date) == k then [last] else [])
  }

  function SumAmounts(es: seq<Expense>): int
    decreases |es|
  {
    if es == [] then 0 else SumAmounts(es[..|es| - 1]) + es[|es| - 1].amount
  }

  function KeysOf(es: seq<Expense>, keyOf: Date -> string): set<string> {
    set e | e in es :: keyOf(e.date)
  }

  /**
    The bucket a month gets when the aggregation is stated without a loop:
    that month's records in list order, their sum, and the name of the
    month's first record.
  */
  function BucketOf(es: seq<Expense>, keyOf: Date -> string, monthName: Date -> string, k: string): Bucket
    requires k in KeysOf(es, keyOf)
  {
    var ms := Members(es, keyOf, k);
    Bucket(monthName(ms[0].date), SumAmounts(ms), ms)
  }

  /** The fold yields one bucket per key that occurs, and that bucket is `BucketOf`. */
  lemma {:induction false} AggregateCharacterised(es: seq<Expense>, keyOf: Date -> string, monthName: Date -> string)
    ensures var m := Aggregate(es, keyOf, monthName);
      && m.Keys == KeysOf(es, keyOf)
      && forall k :: k in m ==> m[k] == BucketOf(es, keyOf, monthName, k)
    decreases |es|
  {
    if es != [] {
      var p, e := es[..|es| - 1], es[|es| - 1];
      assert es == p + [e];
      AggregateCharacterised(p, keyOf, monthName);
      StepKeepsCharacterisation(Aggregate(p, keyOf, monthName), p, e, keyOf, monthName);
    }
  }

  /** One fold step turns the characterised map of `p` into that of `p + [e]`. */
  lemma StepKeepsCharacterisation(mp: MonthlyTotals, p: seq<Expense>, e: Expense,
                                  keyOf: Date -> string, monthName: Date -> string)
    requires mp.Keys == KeysOf(p, keyOf)
    requires forall k :: k in mp ==> mp[k] == BucketOf(p, keyOf, monthName, k)
    ensures var m := AddExpense(mp, e, keyOf, monthName);
      && m.Keys == KeysOf(p + [e], keyOf)
      && forall k :: k in m ==> m[k] == BucketOf(p + [e], keyOf, monthName, k)
  {
    KeysOfSnoc(p, e, keyOf);
    var m := AddExpense(mp, e, keyOf, monthName);
    forall k | k in m
      ensures m[k] == BucketOf(p + [e], keyOf, monthName, k)
    {
      EntryKept(mp, p, e, keyOf, monthName, k);
    }
  }

  lemma EntryKept(mp: MonthlyTotals, p: seq<Expense>, e: Expense,
                  keyOf: Date -> string, monthName: Date -> string, k: string)
    requires mp.Keys == KeysOf(p, keyOf)
    requires k in mp ==> mp[k] == BucketOf(p, keyOf, monthName, k)
    requires k in mp || k == keyOf(e.date)
    ensures k in KeysOf(p + [e], keyOf)
    ensures AddExpense(mp, e, keyOf, monthName)[k] == BucketOf(p + [e], keyOf, monthName, k)
  {
    if k != keyOf(e.date) {
      BucketStepOther(p, e, keyOf, monthName, k);
    } else if k in KeysOf(p, keyOf) {
      BucketStepSame(p, e, keyOf, monthName, k);
    } else {
      BucketStepNew(p, e, keyOf, monthName, k);
    }
  }

  lemma BucketStepOther(p: seq<Expense>, e: Expense, keyOf: Date -> string, monthName: Date -> string, k: string)
    requires k in KeysOf(p, keyOf) && keyOf(e.date) != k
    ensures k in KeysOf(p + [e], keyOf)
    ensures BucketOf(p + [e], keyOf, monthName, k) == BucketOf(p, keyOf, monthName, k)
  {
    var es := p + [e];
    KeysOfSnoc(p, e, keyOf);
    assert es[..|es| - 1] == p;
    assert Members(es, keyOf, k) == Members(p, keyOf, k);
  }

  lemma BucketStepSame(p: seq<Expense>, e: Expense, keyOf: Date -> string, monthName: Date -> string, k: string)
    requires k in KeysOf(p, keyOf) && keyOf(e.date) == k
    ensures k in KeysOf(p + [e], keyOf)
    ensures var b := BucketOf(p, keyOf, monthName, k);
      BucketOf(p + [e], keyOf, monthName, k) == b.(total := b.total + e.amount, expenses := b.expenses + [e])
  {
    var es, mp := p + [e], Members(p, keyOf, k);
    KeysOfSnoc(p, e, keyOf);
    assert es[..|es| - 1] == p;
    assert Members(es, keyOf, k) == mp + [e];
    assert (mp + [e])[..|mp|] == mp;
  }

  lemma BucketStepNew(p: seq<Expense>, e: Expense, keyOf: Date -> string, monthName: Date -> string, k: string)
    requires k !in KeysOf(p, keyOf) && keyOf(e.date) == k
    ensures k in KeysOf(p + [e], keyOf)
    ensures BucketOf(p + [e], keyOf, monthName, k) == Bucket(monthName(e.date), e.amount, [e])
  {
    var es, mp := p + [e], Members(p, keyOf, k);
    KeysOfSnoc(p, e, keyOf);
    assert es[..|es| - 1] == p;
    MembersAbsent(p, keyOf, k);
    assert Members(es, keyOf, k) == [e];
    assert SumAmounts([e]) == e.amount;
  }

  lemma KeysOfSnoc(p: seq<Expense>, e: Expense, keyOf: Date -> string)
    ensures KeysOf(p + [e], keyOf) == KeysOf(p, keyOf) + {keyOf(e.date)}
  {
    var es := p + [e];
    forall k | k in KeysOf(es, keyOf)
      ensures k in KeysOf(p, keyOf) + {keyOf(e.date)}
    {
      var x :| x in es && keyOf(x.date) == k;
      if x != e {
        assert x in p;
      }
    }
  }

  lemma MembersAbsent(es: seq<Expense>, keyOf: Date -> string, k: string)
    requires k !in KeysOf(es, keyOf)
    ensures Members(es, keyOf, k) == []
  {
    var ms := Members(es, keyOf, k);
    assert forall i :: 0 <= i < |ms| ==> keyOf(ms[i].date) in KeysOf(es, keyOf);
  }

  function BucketTotal(b: Bucket): int {
    b.total
  }

  function BucketSize(b: Bucket): int {
    |b.expenses|
  }

  /** The sum of `f` over every bucket of the map. */
  ghost function SumOver(m: MonthlyTotals, f: Bucket -> int): int
    decreases |m|
  {
    if m == map[] then 0 else var k :| k in m; f(m[k]) + SumOver(m - {k}, f)
  }

  /** `SumOver` does not depend on which bucket is taken first. */
  lemma {:induction false} SumOverRemove(m: MonthlyTotals, f: Bucket -> int, k: string)
    requires k in m
    ensures SumOver(m, f) == f(m[k]) + SumOver(m - {k}, f)
    decreases |m|
  {
    var j :| j in m && SumOver(m, f) == f(m[j]) + SumOver(m - {j}, f);
    if j != k {
      SumOverRemove(m - {j}, f, k);
      SumOverRemove(m - {k}, f, j);
      assert m - {j} - {k} == m - {k} - {j};
    }
  }

  /** Replacing or adding one bucket shifts the sum by the difference. */
  lemma SumOverUpdate(m: MonthlyTotals, f: Bucket -> int, k: string, b: Bucket)
    ensures SumOver(m[k := b], f) == SumOver(m, f) + f(b) - (if k in m then f(m[k]) else 0)
  {
    SumOverRemove(m[k := b], f, k);
    assert m[k := b] - {k} == m - {k};
    if k in m {
      SumOverRemove(m, f, k);
    } else {
      assert m - {k} == m;
    }
  }

  /** Over the whole pass, bucket totals add up to the amounts and bucket sizes to the count. */
  lemma {:induction false} AggregateConserves(es: seq<Expense>, keyOf: Date -> string, monthName: Date -> string)
    ensures SumOver(Aggregate(es, keyOf, monthName), BucketTotal) == SumAmounts(es)
    ensures SumOver(Aggregate(es, keyOf, monthName), BucketSize) == |es|
    decreases |es|
  {
    if es != [] {
      var p, e := es[..|es| - 1], es[|es| - 1];
      AggregateConserves(p, keyOf, monthName);
      AddExpenseShifts(Aggregate(p, keyOf, monthName), e, keyOf, monthName);
    }
  }

  /** One step adds the record's amount to the sum of totals and one to the sum of sizes. */
  lemma AddExpenseShifts(m: MonthlyTotals, e: Expense, keyOf: Date -> string, monthName: Date -> string)
    ensures SumOver(AddExpense(m, e, keyOf, monthName), BucketTotal) == SumOver(m, BucketTotal) + e.amount
    ensures SumOver(AddExpense(m, e, keyOf, monthName), BucketSize) == SumOver(m, BucketSize) + 1
  {
    var k := keyOf(e.date);
    var b := if k in m then m[k] else Bucket(monthName(e.date), 0, []);
    var b' := b.(total := b.total + e.amount, expenses := b.expenses + [e]);
    assert AddExpense(m, e, keyOf, monthName) == m[k := b'];
    SumOverUpdate(m, BucketTotal, k, b');
    SumOverUpdate(m, BucketSize, k, b');
  }

  /**
    What `calculateMonthlyTotals` returns: a bucket for exactly the months
    that occur; each holds that month's records in list order, its total is
    their sum, and its name comes from the month's first record.
  */
  lemma MonthlyTotalsContents(es: seq<Expense>, monthName: Date -> string)
    ensures var m := CalculateMonthlyTotals(es, monthName);
      && (forall k :: k in m <==> exists e :: e in es && MonthKey(e.date) == k)
      && (forall k :: k in m ==> m[k].expenses == Members(es, MonthKey, k))
      && (forall k :: k in m ==> m[k].total == SumAmounts(m[k].expenses))
      && (forall k :: k in m ==> m[k].expenses != [] && m[k].monthName == monthName(m[k].expenses[0].date))
  {
    AggregateCharacterised(es, MonthKey, monthName);
  }

  /** Every record lands in the bucket of its own month and in no other. */
  lemma ExpenseInExactlyOneBucket(es: seq<Expense>, monthName: Date -> string, e: Expense)
    requires e in es
    ensures var m := CalculateMonthlyTotals(es, monthName);
      && MonthKey(e.date) in m && e in m[MonthKey(e.date)].expenses
      && forall k :: k in m && e in m[k].expenses ==> k == MonthKey(e.date)
  {
    AggregateCharacterised(es, MonthKey, monthName);
  }

  /** Conservation: the month totals add up to all amounts, the bucket sizes to the record count. */
  lemma MonthlyTotalsConservation(es: seq<Expense>, monthName: Date -> string)
    ensures SumOver(CalculateMonthlyTotals(es, monthName), BucketTotal) == SumAmounts(es)
    ensures SumOver(CalculateMonthlyTotals(es, monthName), BucketSize) == |es|
  {
    AggregateConserves(es, MonthKey, monthName);
  }
}
