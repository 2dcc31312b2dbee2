/**
 Stable sorting by a strict order, once for every list the system sorts: entries of a document by key,
 events by sequence number, planners by distance, vertices and scopes by when they appeared.
 */
module Sorting {

  /** `x` goes before the first element that need not stand before it, so elements that tie keep their order. */
  function Insert<T>(x: T, s: seq<T>, less: (T, T) -> bool): (r: seq<T>) {
    if s == [] || !less(s[0], x) then [x] + s else [s[0]] + Insert(x, s[1..], less)
  }

  function Sort<T>(s: seq<T>, less: (T, T) -> bool): (r: seq<T>) {
    if s == [] then [] else Insert(s[0], Sort(s[1..], less), less)
  }

  /** A strict order in which not being comparable is transitive. */
  ghost predicate IsOrder<T(!new)>(less: (T, T) -> bool) {
    && (forall a, b :: less(a, b) ==> !less(b, a))
    && (forall a, b, c :: less(a, c) ==> less(a, b) || less(b, c))
  }

  /** Nothing stands before what should precede it. */
  ghost predicate InOrder<T>(s: seq<T>, less: (T, T) -> bool) { forall i, j :: 0 <= i < j < |s| ==> !less(s[j], s[i]) }

  /** Each element should precede every later one. */
  ghost predicate Ascending<T>(s: seq<T>, less: (T, T) -> bool) { forall i, j :: 0 <= i < j < |s| ==> less(s[i], s[j]) }

  /** Any two elements are comparable. */
  ghost predicate Apart<T>(s: seq<T>, less: (T, T) -> bool) {
    forall i, j :: 0 <= i < j < |s| ==> less(s[i], s[j]) || less(s[j], s[i])
  }

  /* ---------------------------------------------------------------- the same elements */

  lemma {:induction false} InsertAdds<T>(x: T, s: seq<T>, less: (T, T) -> bool)
    ensures multiset(Insert(x, s, less)) == multiset(s) + multiset{x}
  {
    if s != [] {
      assert s == [s[0]] + s[1..];
      InsertAdds(x, s[1..], less);
    }
  }

  lemma {:induction false} SortPermutes<T>(s: seq<T>, less: (T, T) -> bool)
    ensures multiset(Sort(s, less)) == multiset(s)
  {
    if s != [] {
      assert s == [s[0]] + s[1..];
      SortPermutes(s[1..], less);
      InsertAdds(s[0], Sort(s[1..], less), less);
    }
  }

  lemma {:induction false} InsertMembers<T(!new)>(x: T, s: seq<T>, less: (T, T) -> bool)
    ensures forall y :: y in Insert(x, s, less) <==> y == x || y in s
  {
    InsertAdds(x, s, less);
    var r := Insert(x, s, less);
    forall y ensures y in r <==> y == x || y in s {
      assert (y in r <==> y in multiset(r)) && (y in s <==> y in multiset(s));
    }
  }

  lemma {:induction false} SortMembers<T(!new)>(s: seq<T>, less: (T, T) -> bool)
    ensures forall y :: y in Sort(s, less) <==> y in s
    ensures |Sort(s, less)| == |s|
  {
    SortPermutes(s, less);
    var r := Sort(s, less);
    forall y ensures y in r <==> y in s { assert (y in r <==> y in multiset(r)) && (y in s <==> y in multiset(s)); }
    assert |r| == |multiset(r)| && |s| == |multiset(s)|;
  }

  /* ---------------------------------------------------------------- in order */

  lemma Incomparable<T(!new)>(a: T, b: T, c: T, less: (T, T) -> bool)
    requires IsOrder(less) && !less(b, a) && !less(c, b)
    ensures !less(c, a)
  {
  }

  lemma {:induction false} InsertInOrder<T(!new)>(x: T, s: seq<T>, less: (T, T) -> bool)
    requires IsOrder(less) && InOrder(s, less)
    ensures InOrder(Insert(x, s, less), less)
  {
    hide IsOrder;
    if s == [] {
    } else if !less(s[0], x) {
      forall j | 0 <= j < |s| ensures !less(s[j], x) { if j > 0 { Incomparable(x, s[0], s[j], less); } }
    } else {
      InsertInOrder(x, s[1..], less);
      InsertMembers(x, s[1..], less);
      var r := Insert(x, s[1..], less);
      forall j | 0 <= j < |r| ensures !less(r[j], s[0]) {
        assert r[j] in r;
        if r[j] == x { Asymmetric(s[0], x, less); } else {
          var k :| 0 <= k < |s[1..]| && s[1..][k] == r[j];
          assert s[k + 1] == r[j];
        }
      }
    }
  }

  lemma Asymmetric<T(!new)>(a: T, b: T, less: (T, T) -> bool)
    requires IsOrder(less) && less(a, b)
    ensures !less(b, a)
  {
  }

  lemma {:induction false} SortInOrder<T(!new)>(s: seq<T>, less: (T, T) -> bool)
    requires IsOrder(less)
    ensures InOrder(Sort(s, less), less)
  {
    hide IsOrder, InOrder;
    if s == [] {
      EmptyInOrder(less);
    } else {
      SortInOrder(s[1..], less);
      InsertInOrder(s[0], Sort(s[1..], less), less);
    }
  }

  lemma EmptyInOrder<T>(less: (T, T) -> bool)
    ensures InOrder([], less)
  {
  }

  /** What is in order is left alone. */
  lemma {:induction false} SortFixes<T>(s: seq<T>, less: (T, T) -> bool)
    requires InOrder(s, less)
    ensures Sort(s, less) == s
  {
    if s != [] {
      SortFixes(s[1..], less);
      assert s == [s[0]] + s[1..];
      assert |s| > 1 ==> !less(s[1], s[0]);
    }
  }

  /* ---------------------------------------------------------------- one order only */

  lemma {:induction false} AscendingUnique<T(!new)>(a: seq<T>, b: seq<T>, less: (T, T) -> bool)
    requires IsOrder(less) && Ascending(a, less) && Ascending(b, less) && forall x :: x in a <==> x in b
    ensures a == b
  {
    hide IsOrder;
    assert a != [] ==> a[0] in a && a[0] in b;
    assert b != [] ==> b[0] in b && b[0] in a;
    if a != [] {
      SameFirst(a, b, less);
      assert a == [a[0]] + a[1..] && b == [b[0]] + b[1..];
      RestMembers(a, less);
      RestMembers(b, less);
      AscendingUnique(a[1..], b[1..], less);
    }
  }

  lemma SameFirst<T(!new)>(a: seq<T>, b: seq<T>, less: (T, T) -> bool)
    requires IsOrder(less) && Ascending(a, less) && Ascending(b, less) && a != [] && b != [] && a[0] in b && b[0] in a
    ensures a[0] == b[0]
  {
    hide IsOrder;
    var i :| 0 <= i < |b| && b[i] == a[0];
    var j :| 0 <= j < |a| && a[j] == b[0];
    if less(a[0], b[0]) { Asymmetric(a[0], b[0], less); }
  }

  lemma RestMembers<T(!new)>(a: seq<T>, less: (T, T) -> bool)
    requires IsOrder(less) && Ascending(a, less) && a != []
    ensures forall x :: x in a[1..] <==> x in a && x != a[0]
  {
    forall x ensures x in a[1..] <==> x in a && x != a[0] {
      if x in a[1..] {
        var k :| 0 <= k < |a[1..]| && a[1..][k] == x;
        assert a[k + 1] == x;
      }
      if x in a && x != a[0] {
        var k :| 0 <= k < |a| && a[k] == x;
        assert a[1..][k - 1] == x;
      }
    }
  }

  lemma {:induction false} InsertAscends<T(!new)>(x: T, s: seq<T>, less: (T, T) -> bool)
    requires IsOrder(less) && Ascending(s, less) && forall y :: y in s ==> less(x, y) || less(y, x)
    ensures Ascending(Insert(x, s, less), less)
  {
    hide IsOrder;
    if s == [] {
    } else if !less(s[0], x) {
      assert s[0] in s;
      forall j | 0 <= j < |s| ensures less(x, s[j]) { if j > 0 { Transitive(x, s[0], s[j], less); } }
    } else {
      InsertAscends(x, s[1..], less);
      InsertMembers(x, s[1..], less);
      var r := Insert(x, s[1..], less);
      forall j | 0 <= j < |r| ensures less(s[0], r[j]) {
        assert r[j] in r;
        if r[j] != x {
          var k :| 0 <= k < |s[1..]| && s[1..][k] == r[j];
          assert s[k + 1] == r[j];
        }
      }
    }
  }

  lemma Transitive<T(!new)>(a: T, b: T, c: T, less: (T, T) -> bool)
    requires IsOrder(less) && less(a, b) && less(b, c)
    ensures less(a, c)
  {
  }

  /** Comparable elements sort into the one ascending list. */
  lemma {:induction false} SortAscends<T(!new)>(s: seq<T>, less: (T, T) -> bool)
    requires IsOrder(less) && Apart(s, less)
    ensures Ascending(Sort(s, less), less)
  {
    hide IsOrder, Insert;
    if s != [] {
      SortAscends(s[1..], less);
      SortMembers(s[1..], less);
      forall y | y in s[1..] ensures less(s[0], y) || less(y, s[0]) {
        var k :| 0 <= k < |s[1..]| && s[1..][k] == y;
        assert s[k + 1] == y;
      }
      InsertAscends(s[0], Sort(s[1..], less), less);
    }
  }

  /** The sorted list depends on the elements, not on the order they came in. */
  lemma {:induction false} SortOfPermutation<T(!new)>(a: seq<T>, b: seq<T>, less: (T, T) -> bool)
    requires IsOrder(less) && Apart(a, less) && Apart(b, less) && forall x :: x in a <==> x in b
    ensures Sort(a, less) == Sort(b, less)
  {
    hide IsOrder, Sort, Apart, Ascending;
    SortAscends(a, less);
    SortAscends(b, less);
    SortMembers(a, less);
    SortMembers(b, less);
    AscendingUnique(Sort(a, less), Sort(b, less), less);
  }

  /* ---------------------------------------------------------------- one more at the end */

  /** `x` goes after everything that need not stand after it. */
  function InsertAfter<T>(x: T, s: seq<T>, less: (T, T) -> bool): (r: seq<T>) {
    if s == [] || less(x, s[0]) then [x] + s else [s[0]] + InsertAfter(x, s[1..], less)
  }

  /** A first and a last element can be put in place in either order. */
  lemma {:induction false} InsertsCommute<T(!new)>(a: T, c: T, s: seq<T>, less: (T, T) -> bool)
    requires IsOrder(less)
    ensures Insert(a, InsertAfter(c, s, less), less) == InsertAfter(c, Insert(a, s, less), less)
  {
    if s != [] && less(s[0], a) && !less(c, s[0]) {
      InsertsCommute(a, c, s[1..], less);
      assert Insert(a, InsertAfter(c, s, less), less) == [s[0]] + Insert(a, InsertAfter(c, s[1..], less), less);
    }
  }

  lemma {:induction false} SortAppend<T(!new)>(s: seq<T>, c: T, less: (T, T) -> bool)
    requires IsOrder(less)
    ensures Sort(s + [c], less) == InsertAfter(c, Sort(s, less), less)
  {
    hide IsOrder, Insert, InsertAfter;
    if s == [] {
      assert s + [c] == [c] && [c][1..] == [];
      InsertIntoNothing(c, less);
    } else {
      assert (s + [c])[1..] == s[1..] + [c];
      SortAppend(s[1..], c, less);
      InsertsCommute(s[0], c, Sort(s[1..], less), less);
    }
  }

  lemma InsertIntoNothing<T>(c: T, less: (T, T) -> bool)
    ensures Insert(c, [], less) == [c] == InsertAfter(c, [], less)
  {
  }
}
