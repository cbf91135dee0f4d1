/** Python's `sorted` and `list.sort`: stable, by an order given as a total preorder
    (`ordered(a, b)`: a may come before b). */
module Sorting {
  ghost predicate TotalPreorder<T(!new)>(ordered: (T, T) -> bool) {
    && (forall a, b :: ordered(a, b) || ordered(b, a))
    && (forall a, b, c :: ordered(a, b) && ordered(b, c) ==> ordered(a, c))
  }

  ghost predicate SortedBy<T>(s: seq<T>, ordered: (T, T) -> bool) {
    forall i, j :: 0 <= i < j < |s| ==> ordered(s[i], s[j])
  }

  function Insert<T>(x: T, s: seq<T>, ordered: (T, T) -> bool): (r: seq<T>)
    ensures multiset(r) == multiset(s) + multiset{x}
    ensures |r| == |s| + 1
  {
    if s == [] then [x]
    else if ordered(x, s[0]) then [x] + s
    else
      assert s == [s[0]] + s[1..];
      [s[0]] + Insert(x, s[1..], ordered)
  }

  /** Inserting from the right, before the first element not strictly smaller, keeps ties in
      their original order. */
  function Sort<T>(s: seq<T>, ordered: (T, T) -> bool): (r: seq<T>)
    ensures multiset(r) == multiset(s)
    ensures |r| == |s|
  {
    if s == [] then []
    else
      assert s == [s[0]] + s[1..];
      Insert(s[0], Sort(s[1..], ordered), ordered)
  }

  lemma {:induction false} InsertSorted<T(!new)>(x: T, s: seq<T>, ordered: (T, T) -> bool)
    requires TotalPreorder(ordered) && SortedBy(s, ordered)
    ensures SortedBy(Insert(x, s, ordered), ordered)
  {
    if s != [] && !ordered(x, s[0]) {
      var t := Insert(x, s[1..], ordered);
      InsertSorted(x, s[1..], ordered);
      forall y | y in t ensures ordered(s[0], y) {
        assert y in multiset(t);
        assert y == x || y in multiset(s[1..]);
      }
    }
  }

  lemma {:induction false} SortSorts<T(!new)>(s: seq<T>, ordered: (T, T) -> bool)
    requires TotalPreorder(ordered)
    ensures SortedBy(Sort(s, ordered), ordered)
  {
    if s != [] {
      SortSorts(s[1..], ordered);
      InsertSorted(s[0], Sort(s[1..], ordered), ordered);
    }
  }

  /** A sorted list is left alone: sorting twice, or sorting what a store returned best first. */
  lemma {:induction false} SortOfSorted<T>(s: seq<T>, ordered: (T, T) -> bool)
    requires SortedBy(s, ordered)
    ensures Sort(s, ordered) == s
  {
    if s != [] {
      SortOfSorted(s[1..], ordered);
      assert s == [s[0]] + s[1..];
      if |s| > 1 { assert ordered(s[0], s[1]); }
    }
  }

  /** The elements tied with `x`, in list order. */
  ghost function Ties<T>(s: seq<T>, x: T, ordered: (T, T) -> bool): seq<T> {
    if s == [] then []
    else Tie(s[0], x, ordered) + Ties(s[1..], x, ordered)
  }

  ghost function Tie<T>(y: T, x: T, ordered: (T, T) -> bool): seq<T> {
    if ordered(y, x) && ordered(x, y) then [y] else []
  }

  /** An element that goes after `z` is not tied with what `z` is tied with. */
  lemma TiesCommute<T(!new)>(y: T, z: T, x: T, rest: seq<T>, ordered: (T, T) -> bool)
    requires TotalPreorder(ordered) && !ordered(y, z)
    ensures Tie(z, x, ordered) + (Tie(y, x, ordered) + rest) == Tie(y, x, ordered) + (Tie(z, x, ordered) + rest)
  {
    assert Tie(y, x, ordered) == [] || Tie(z, x, ordered) == [];
  }

  lemma {:induction false} InsertStable<T(!new)>(y: T, s: seq<T>, x: T, ordered: (T, T) -> bool)
    requires TotalPreorder(ordered) && SortedBy(s, ordered)
    ensures Ties(Insert(y, s, ordered), x, ordered) == Tie(y, x, ordered) + Ties(s, x, ordered)
  {
    if s == [] || ordered(y, s[0]) {
      assert s == [] ==> [y] + s == [y];
    } else {
      InsertStable(y, s[1..], x, ordered);
      TiesCommute(y, s[0], x, Ties(s[1..], x, ordered), ordered);
    }
  }

  /** Stability: elements tied with any `x` keep the order they came in. */
  lemma {:induction false} SortStable<T(!new)>(s: seq<T>, x: T, ordered: (T, T) -> bool)
    requires TotalPreorder(ordered)
    ensures Ties(Sort(s, ordered), x, ordered) == Ties(s, x, ordered)
  {
    if s != [] {
      SortStable(s[1..], x, ordered);
      SortSorts(s[1..], ordered);
      InsertStable(s[0], Sort(s[1..], ordered), x, ordered);
    }
  }

  /** There is only one sorted arrangement when no two different elements tie. */
  lemma {:induction false} SortedUnique<T(!new)>(a: seq<T>, b: seq<T>, ordered: (T, T) -> bool)
    requires SortedBy(a, ordered) && SortedBy(b, ordered) && multiset(a) == multiset(b)
    requires forall x, y :: x in a && y in a && ordered(x, y) && ordered(y, x) ==> x == y
    ensures a == b
  {
    if a == [] {
      assert |multiset(a)| == 0 == |multiset(b)|;
    } else {
      SameHead(a, b, ordered);
      SameTail(a, b);
      SortedUnique(a[1..], b[1..], ordered);
    }
  }

  lemma SameHead<T>(a: seq<T>, b: seq<T>, ordered: (T, T) -> bool)
    requires SortedBy(a, ordered) && SortedBy(b, ordered) && multiset(a) == multiset(b) && a != []
    requires forall x, y :: x in a && y in a && ordered(x, y) && ordered(y, x) ==> x == y
    ensures b != [] && a[0] == b[0]
  {
    assert a[0] in multiset(b);
    var j :| 0 <= j < |b| && b[j] == a[0];
    assert b[0] in multiset(a);
    var i :| 0 <= i < |a| && a[i] == b[0];
    assert i > 0 ==> ordered(a[0], a[i]);
    assert j > 0 ==> ordered(b[0], b[j]);
  }

  lemma SameTail<T>(a: seq<T>, b: seq<T>)
    requires a != [] && b != [] && a[0] == b[0] && multiset(a) == multiset(b)
    ensures multiset(a[1..]) == multiset(b[1..])
  {
    assert a == [a[0]] + a[1..] && b == [b[0]] + b[1..];
    forall x ensures multiset(a[1..])[x] == multiset(b[1..])[x] {
      assert multiset(a)[x] == multiset{a[0]}[x] + multiset(a[1..])[x];
      assert multiset(b)[x] == multiset{b[0]}[x] + multiset(b[1..])[x];
    }
  }
}
