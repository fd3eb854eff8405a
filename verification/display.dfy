/**
  The order in which the expense list shows the aggregation: month sections
  newest first by their `"YYYY-MM"` key, and within a month the records by
  date, newest first. JavaScript's sort is modelled by `Sorting.SortBy`.
*/
module Display {

  import opened LexOrder
  import opened MonthKeys
  import opened Sorting
  import opened Aggregation

  /** The month comparator `b.localeCompare(a)`: `a` may come first when it is not smaller. */
  predicate NewerKeyFirst(a: string, b: string) {
    !LexLess(a, b)
  }

  /** The record comparator `new Date(b.date) - new Date(a.date)`. */
  predicate NewerDateFirst(x: Expense, y: Expense) {
    !DateBefore(x.date, y.date)
  }

  lemma NewerKeyFirstIsPreorder()
    ensures TotalPreorder(NewerKeyFirst)
  {
    forall x: string, y: string
      ensures NewerKeyFirst(x, y) || NewerKeyFirst(y, x)
    {
      LexLessTrichotomy(x, y);
    }
    forall x: string, y: string, z: string | NewerKeyFirst(x, y) && NewerKeyFirst(y, z)
      ensures NewerKeyFirst(x, z)
    {
      LexLessTrichotomy(z, y);
      if LexLess(x, z) && LexLess(z, y) {
        LexLessTransitive(x, z, y);
      }
    }
  }

  lemma NewerDateFirstIsPreorder()
    ensures TotalPreorder(NewerDateFirst)
  {
  }

  /**
    A month's records as listed: the bucket's records, newest date first;
    records of the same day keep their order in the bucket.
  */
  function RecordsNewestFirst(expenses: seq<Expense>): (r: seq<Expense>)
    ensures multiset(r) == multiset(expenses)
    ensures forall i, j :: 0 <= i < j < |r| ==> !DateBefore(r[i].date, r[j].date)
    ensures forall c :: Tied(NewerDateFirst, c, r) == Tied(NewerDateFirst, c, expenses)
  {
    NewerDateFirstIsPreorder();
    SortBy(NewerDateFirst, expenses)
  }

  /** The month keys in display order: every key once, strictly descending. */
  method MonthKeysNewestFirst(m: MonthlyTotals) returns (keys: seq<string>)
    ensures |keys| == |m|
    ensures forall k :: k in keys <==> k in m
    ensures forall i, j :: 0 <= i < j < |keys| ==> LexLess(keys[j], keys[i])
  {
    var rest := m.Keys;
    var listed: seq<string> := [];
    while rest != {}
      invariant multiset(listed) + multiset(rest) == multiset(m.Keys)
      decreases |rest|
    {
      var k :| k in rest;
      assert multiset(rest) == multiset(rest - {k}) + multiset{k};
      listed := listed + [k];
      rest := rest - {k};
    }
    NewerKeyFirstIsPreorder();
    keys := SortBy(NewerKeyFirst, listed);
    assert |multiset(keys)| == |multiset(m.Keys)|;
    forall k
      ensures k in keys <==> k in m
    {
      assert k in keys <==> k in multiset(keys);
      assert k in m <==> k in multiset(m.Keys);
    }
    NoRepeats(keys, m.Keys);
    forall i, j | 0 <= i < j < |keys|
      ensures LexLess(keys[j], keys[i])
    {
      LexLessTrichotomy(keys[i], keys[j]);
    }
  }

  /** A sequence with the multiset of a set holds each element once. */
  lemma NoRepeats<T>(s: seq<T>, u: set<T>)
    requires multiset(s) == multiset(u)
    ensures forall i, j :: 0 <= i < j < |s| ==> s[i] != s[j]
  {
    forall i, j | 0 <= i < j < |s|
      ensures s[i] != s[j]
    {
      assert s == s[..j] + s[j..];
      assert s[i] in multiset(s[..j]) && s[j] in multiset(s[j..]);
      assert multiset(s)[s[j]] == multiset(s[..j])[s[j]] + multiset(s[j..])[s[j]];
    }
  }

  /** One month section of the list. */
  datatype MonthSection = MonthSection(key: string, monthName: string, total: int, records: seq<Expense>)

  /**
    The section shows the bucket of its key: its name, its total, its records
    newest first, records of the same day in bucket order.
  */
  ghost predicate ShowsBucket(s: MonthSection, m: MonthlyTotals) {
    && s.key in m
    && s.monthName == m[s.key].monthName
    && s.total == m[s.key].total
    && multiset(s.records) == multiset(m[s.key].expenses)
    && (forall i, j :: 0 <= i < j < |s.records| ==> !DateBefore(s.records[i].date, s.records[j].date))
    && forall c :: Tied(NewerDateFirst, c, s.records) == Tied(NewerDateFirst, c, m[s.key].expenses)
  }

  ghost predicate KeysDescending(sections: seq<MonthSection>) {
    forall i, j :: 0 <= i < j < |sections| ==> LexLess(sections[j].key, sections[i].key)
  }

  /**
    The rendered list: one section per bucket, newest month first; no section
    at all (the empty-state message) exactly when the map is empty.
  */
  method Render(m: MonthlyTotals) returns (sections: seq<MonthSection>)
    ensures |sections| == |m|
    ensures sections == [] <==> m == map[]
    ensures forall i :: 0 <= i < |sections| ==> ShowsBucket(sections[i], m)
    ensures forall k :: k in m ==> exists i :: 0 <= i < |sections| && sections[i].key == k
    ensures KeysDescending(sections)
  {
    var keys := MonthKeysNewestFirst(m);
    sections := [];
    var i := 0;
    while i < |keys|
      invariant 0 <= i <= |keys|
      invariant |sections| == i
      invariant forall j :: 0 <= j < i ==> sections[j].key == keys[j]
      invariant forall j :: 0 <= j < i ==> ShowsBucket(sections[j], m)
    {
      var b := m[keys[i]];
      sections := sections + [MonthSection(keys[i], b.monthName, b.total, RecordsNewestFirst(b.expenses))];
      i := i + 1;
    }
    forall k | k in m
      ensures exists i :: 0 <= i < |sections| && sections[i].key == k
    {
      var j :| 0 <= j < |keys| && keys[j] == k;
      assert sections[j].key == k;
    }
  }

  /**
    With 4-digit years, the sections run backwards in time: every record of a
    later section lies in an earlier calendar month than every record of an
    earlier one.
  */
  lemma RenderIsChronological(es: seq<Expense>, monthName: Date -> string, sections: seq<MonthSection>)
    requires forall e :: e in es ==> ValidMonth(e.date) && FourDigitYear(e.date)
    requires forall i :: 0 <= i < |sections| ==> ShowsBucket(sections[i], CalculateMonthlyTotals(es, monthName))
    requires KeysDescending(sections)
    ensures forall i, j, x, y ::
              0 <= i < j < |sections| && x in sections[j].records && y in sections[i].records ==>
                MonthBefore(x.date, y.date)
  {
    var m := CalculateMonthlyTotals(es, monthName);
    MonthlyTotalsContents(es, monthName);
    forall i, j, x, y | 0 <= i < j < |sections| && x in sections[j].records && y in sections[i].records
      ensures MonthBefore(x.date, y.date)
    {
      assert x in multiset(sections[j].records) && y in multiset(sections[i].records);
      assert x in m[sections[j].key].expenses && y in m[sections[i].key].expenses;
      assert MonthKey(x.date) == sections[j].key && x in es;
      assert MonthKey(y.date) == sections[i].key && y in es;
      KeyOrderIsChronological(x.date, y.date);
    }
  }
}
