/** What an SQL `ORDER BY` over a strict total order returns: the rows of a finite set, once each, in order. */
module Ordering {

  datatype Option<+T> = None | Some(value: T)

  ghost predicate TotalOn<T>(s: set<T>, less: (T, T) -> bool) {
    && (forall x | x in s :: !less(x, x))
    && (forall x, y | x in s && y in s && x != y :: less(x, y) || less(y, x))
    && (forall x, y, z | x in s && y in s && z in s && less(x, y) && less(y, z) :: less(x, z))
  }

  ghost predicate Ordered<T>(r: seq<T>, less: (T, T) -> bool) {
    forall i, j | 0 <= i < j < |r| :: less(r[i], r[j])
  }

  ghost predicate IsFirst<T(!new)>(m: T, s: set<T>, less: (T, T) -> bool) {
    m in s && forall y | y in s && y != m :: less(m, y)
  }

  lemma {:induction false} FirstExists<T(!new)>(s: set<T>, less: (T, T) -> bool)
    requires s != {} && TotalOn(s, less)
    ensures exists m :: IsFirst(m, s, less)
  {
    var x :| x in s;
    var t := s - {x};
    if t == {} {
      assert s == {x} + t;
      assert IsFirst(x, s, less);
    } else {
      FirstExists(t, less);
      var m :| IsFirst(m, t, less);
      if less(x, m) {
        forall y | y in s && y != x ensures less(x, y) {
          assert y == m || less(m, y);
        }
        assert IsFirst(x, s, less);
      } else {
        assert IsFirst(m, s, less);
      }
    }
  }

  function First<T(==, !new)>(s: set<T>, less: (T, T) -> bool): (m: T)
    requires s != {} && TotalOn(s, less)
    ensures IsFirst(m, s, less)
  {
    FirstExists(s, less);
    assert forall a, b | IsFirst(a, s, less) && IsFirst(b, s, less) :: a == b;
    assert exists m | m in s :: IsFirst(m, s, less);
    var m :| m in s && forall y | y in s && y != m :: less(m, y);
    m
  }

  function Selected<T(==, !new)>(s: set<T>, less: (T, T) -> bool): seq<T>
    requires TotalOn(s, less)
  {
    if s == {} then [] else [First(s, less)] + Selected(s - {First(s, less)}, less)
  }

  /** `r` lists `s` in ascending order of `less`, each element exactly once. */
  ghost predicate Lists<T(!new)>(r: seq<T>, s: set<T>, less: (T, T) -> bool) {
    |r| == |s| && (forall x :: x in r <==> x in s) && Ordered(r, less)
  }

  lemma {:induction false} SelectedLists<T(!new)>(s: set<T>, less: (T, T) -> bool)
    requires TotalOn(s, less)
    ensures Lists(Selected(s, less), s, less)
  {
    if s != {} {
      var m := First(s, less);
      var rest := Selected(s - {m}, less);
      SelectedLists(s - {m}, less);
      assert forall x | x in rest :: less(m, x);
      assert forall x :: x in [m] + rest <==> x == m || x in rest;
      assert s == {m} + (s - {m});
    }
  }

  /** The rows of `s` in ascending order of `less`, each exactly once. */
  function SortBy<T(==, !new)>(s: set<T>, less: (T, T) -> bool): (r: seq<T>)
    requires TotalOn(s, less)
    ensures Lists(r, s, less)
  {
    SelectedLists(s, less);
    Selected(s, less)
  }

  lemma {:induction false} ListsRest<T(!new)>(r: seq<T>, s: set<T>, less: (T, T) -> bool)
    requires TotalOn(s, less) && s != {} && Ordered(r, less) && forall x :: x in r <==> x in s
    ensures r != [] && r[0] == First(s, less)
    ensures Ordered(r[1..], less) && forall x :: x in r[1..] <==> x in s - {First(s, less)}
  {
    var m := First(s, less);
    assert m in r;
    assert r[0] in s;
    assert r[0] == m;
    forall x ensures x in r[1..] <==> x in s - {m} {
      if x in r[1..] {
        var i :| 0 <= i < |r[1..]| && r[1..][i] == x;
        assert less(r[0], r[i + 1]);
        assert r[i + 1] in s;
      }
    }
  }

  lemma {:induction false} IsSelected<T(!new)>(r: seq<T>, s: set<T>, less: (T, T) -> bool)
    requires TotalOn(s, less)
    requires Ordered(r, less) && forall x :: x in r <==> x in s
    ensures r == Selected(s, less)
  {
    assert |r| > 0 ==> r[0] in s;
    if s != {} {
      ListsRest(r, s, less);
      IsSelected(r[1..], s - {First(s, less)}, less);
      assert r == [r[0]] + r[1..];
    }
  }

  /** Any ordered enumeration of a set is the one `SortBy` returns. */
  lemma {:induction false} SortByUnique<T(!new)>(r: seq<T>, s: set<T>, less: (T, T) -> bool)
    requires TotalOn(s, less)
    requires Ordered(r, less) && forall x :: x in r <==> x in s
    ensures r == SortBy(s, less)
  {
    IsSelected(r, s, less);
  }

  lemma {:induction false} OccursOnce<T>(a: seq<T>, x: T)
    requires forall i, j | 0 <= i < j < |a| :: a[i] != a[j]
    ensures multiset(a)[x] == if x in a then 1 else 0
  {
    if |a| > 0 {
      assert a == [a[0]] + a[1..];
      OccursOnce(a[1..], x);
    }
  }

  /** Two enumerations without repetition of one set hold the same multiset of elements. */
  lemma {:induction false} SameElements<T(!new)>(a: seq<T>, b: seq<T>)
    requires forall i, j | 0 <= i < j < |a| :: a[i] != a[j]
    requires forall i, j | 0 <= i < j < |b| :: b[i] != b[j]
    requires forall x :: x in a <==> x in b
    ensures multiset(a) == multiset(b)
  {
    forall x ensures multiset(a)[x] == multiset(b)[x] {
      OccursOnce(a, x);
      OccursOnce(b, x);
    }
  }

  predicate NatLess(x: nat, y: nat) { x < y }

  lemma NatsTotal(s: set<nat>)
    ensures TotalOn(s, NatLess)
  {
  }
}
