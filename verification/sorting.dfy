/**
  Ordering a sequence by a comparator, as `Array.prototype.sort` does with a
  consistent comparator: the result is a permutation of the input in which
  every element may precede every later one, and elements the comparator
  ranks equal keep their input order (the sort is stable).
*/
module Sorting {

  /** `le(x, y)`: `x` may be placed before `y`. Total and transitive. */
  ghost predicate TotalPreorder<T(!new)>(le: (T, T) -> bool) {
    && (forall x, y :: le(x, y) || le(y, x))
    && (forall x, y, z :: le(x, y) && le(y, z) ==> le(x, z))
  }

  ghost predicate SortedBy<T>(le: (T, T) -> bool, s: seq<T>) {
    forall i, j :: 0 <= i < j < |s| ==> le(s[i], s[j])
  }

  /** The elements of `s` that `le` ranks equal with `c`, in their order in `s`. */
  function Tied<T>(le: (T, T) -> bool, c: T, s: seq<T>): seq<T> {
    if s == [] then []
    else (if le(s[0], c) && le(c, s[0]) then [s[0]] else []) + Tied(le, c, s[1..])
  }

  /** Places `x` into the already ordered `s`, before the first element it may precede. */
  function InsertBy<T(!new)>(le: (T, T) -> bool, x: T, s: seq<T>): (r: seq<T>)
    requires TotalPreorder(le) && SortedBy(le, s)
    ensures multiset(r) == multiset(s) + multiset{x}
    ensures SortedBy(le, r)
    ensures forall c :: Tied(le, c, r) == Tied(le, c, [x] + s)
  {
    if s == [] || le(x, s[0]) then
      InsertFront(le, x, s);
      [x] + s
    else
      var rest := InsertBy(le, x, s[1..]);
      InsertBehind(le, x, s, rest);
      TiesBehind(le, x, s, rest);
      [s[0]] + rest
  }

  lemma InsertFront<T(!new)>(le: (T, T) -> bool, x: T, s: seq<T>)
    requires TotalPreorder(le) && SortedBy(le, s)
    requires s == [] || le(x, s[0])
    ensures SortedBy(le, [x] + s)
  {
    var r := [x] + s;
    forall i, j | 0 <= i < j < |r|
      ensures le(r[i], r[j])
    {
      if i == 0 && j > 1 {
        assert le(x, s[0]) && le(s[0], s[j - 1]);
      }
    }
  }

  lemma InsertBehind<T(!new)>(le: (T, T) -> bool, x: T, s: seq<T>, rest: seq<T>)
    requires TotalPreorder(le) && SortedBy(le, s)
    requires s != [] && !le(x, s[0])
    requires multiset(rest) == multiset(s[1..]) + multiset{x} && SortedBy(le, rest)
    ensures multiset([s[0]] + rest) == multiset(s) + multiset{x}
    ensures SortedBy(le, [s[0]] + rest)
  {
    assert s == [s[0]] + s[1..];
    var r := [s[0]] + rest;
    forall i, j | 0 <= i < j < |r|
      ensures le(r[i], r[j])
    {
      if i == 0 {
        var y := rest[j - 1];
        assert y in multiset(rest);
        if y == x {
          assert le(s[0], x);
        } else {
          assert y in multiset(s[1..]);
          var m :| 0 <= m < |s[1..]| && s[1..][m] == y;
          assert le(s[0], s[m + 1]);
        }
      } else {
        assert r[i] == rest[i - 1] && r[j] == rest[j - 1];
      }
    }
  }

  /**
    `x` goes behind `s[0]` only when it may not precede it, so the two are
    never both tied with the same element and may swap.
  */
  lemma TiesBehind<T(!new)>(le: (T, T) -> bool, x: T, s: seq<T>, rest: seq<T>)
    requires TotalPreorder(le)
    requires s != [] && !le(x, s[0])
    requires forall c :: Tied(le, c, rest) == Tied(le, c, [x] + s[1..])
    ensures forall c :: Tied(le, c, [s[0]] + rest) == Tied(le, c, [x] + s)
  {
    forall c
      ensures Tied(le, c, [s[0]] + rest) == Tied(le, c, [x] + s)
    {
      var y, t := s[0], s[1..];
      assert s == [y] + t;
      assert Tied(le, c, rest) == Tied(le, c, [x] + t);
      TiedCons(le, c, y, rest);
      TiedCons(le, c, x, t);
      TiedCons(le, c, x, s);
      TiedCons(le, c, y, t);
      if le(x, c) && le(c, x) {
        assert !(le(y, c) && le(c, y));
        assert Tied(le, c, [y] + rest) == [x] + Tied(le, c, t);
        assert Tied(le, c, [x] + s) == [x] + Tied(le, c, t);
      } else {
        assert Tied(le, c, [x] + s) == Tied(le, c, s);
        assert Tied(le, c, rest) == Tied(le, c, t);
      }
    }
  }

  lemma TiedCons<T>(le: (T, T) -> bool, c: T, a: T, t: seq<T>)
    ensures Tied(le, c, [a] + t) == (if le(a, c) && le(c, a) then [a] else []) + Tied(le, c, t)
  {
    assert ([a] + t)[1..] == t;
  }

  /** Insertion sort: a permutation of `s` ordered by `le`, stable on ties. */
  function SortBy<T(!new)>(le: (T, T) -> bool, s: seq<T>): (r: seq<T>)
    requires TotalPreorder(le)
    ensures multiset(r) == multiset(s)
    ensures SortedBy(le, r)
    ensures forall c :: Tied(le, c, r) == Tied(le, c, s)
  {
    if s == [] then
      []
    else
      assert s == [s[0]] + s[1..];
      var rest := SortBy(le, s[1..]);
      assert forall c :: Tied(le, c, [s[0]] + rest) == Tied(le, c, s) by {
        forall c
          ensures Tied(le, c, [s[0]] + rest) == Tied(le, c, s)
        {
          assert ([s[0]] + rest)[1..] == rest;
        }
      }
      InsertBy(le, s[0], rest)
  }
}
