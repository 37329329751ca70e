/** Array.prototype.sort with a comparator, as insertion sort. The result is
  * a permutation of the input; when the comparator is consistent (a total
  * preorder on the elements) it is sorted (SortBySorted) and, as the
  * language requires, stable (SortByStable). */
module Sorting {
  /** A list view's sort direction. */
  datatype Direction = Asc | Desc

  /** The direction a second click on the same column gives. */
  function Flip(d: Direction): (r: Direction)
    ensures r != d
  {
    if d == Asc then Desc else Asc
  }

  /** Insert `x` after every element of `s` that does not compare greater. */
  function Insert<T(!new)>(x: T, s: seq<T>, cmp: (T, T) -> int): (r: seq<T>)
    ensures multiset(r) == multiset(s) + multiset{x}
    ensures forall y :: y in r <==> y == x || y in s
  {
    if s == [] then [x]
    else if cmp(s[0], x) > 0 then [x] + s
    else
      assert s == [s[0]] + s[1..];
      [s[0]] + Insert(x, s[1..], cmp)
  }

  function SortBy<T(!new)>(s: seq<T>, cmp: (T, T) -> int): (r: seq<T>)
    ensures |r| == |s| && multiset(r) == multiset(s)
  {
    if s == [] then []
    else
      var init, last := s[..|s| - 1], s[|s| - 1];
      assert s == init + [last];
      assert multiset(s) == multiset(init) + multiset{last};
      Insert(last, SortBy(init, cmp), cmp)
  }

  /** The comparator behaves like a total preorder on the values of `s`. */
  ghost predicate Consistent<T(!new)>(cmp: (T, T) -> int, s: seq<T>) {
    (forall a, b :: a in s && b in s ==> (cmp(a, b) > 0 <==> cmp(b, a) < 0)) &&
    (forall a, b, c :: a in s && b in s && c in s && cmp(a, b) <= 0 && cmp(b, c) <= 0 ==> cmp(a, c) <= 0)
  }

  ghost predicate Sorted<T(!new)>(s: seq<T>, cmp: (T, T) -> int) {
    forall i, j :: 0 <= i < j < |s| ==> cmp(s[i], s[j]) <= 0
  }

  lemma ConsistentSub<T(!new)>(cmp: (T, T) -> int, s: seq<T>, t: seq<T>)
    requires Consistent(cmp, s)
    requires forall y :: y in t ==> y in s
    ensures Consistent(cmp, t)
  {}

  lemma {:induction false} InsertSorted<T(!new)>(x: T, s: seq<T>, cmp: (T, T) -> int, all: seq<T>)
    requires Sorted(s, cmp) && Consistent(cmp, all)
    requires x in all && forall y :: y in s ==> y in all
    ensures Sorted(Insert(x, s, cmp), cmp)
    decreases |s|
  {
    if s != [] {
      if cmp(s[0], x) > 0 {
        var r := [x] + s;
        forall i, j | 0 <= i < j < |r| ensures cmp(r[i], r[j]) <= 0 {
          if i == 0 {
            assert s[0] in all && s[j - 1] in all;
            assert cmp(x, s[0]) < 0;
            if j > 1 { assert cmp(s[0], s[j - 1]) <= 0; }
          }
        }
      } else {
        InsertSorted(x, s[1..], cmp, all);
        var t := Insert(x, s[1..], cmp);
        var r := [s[0]] + t;
        forall i, j | 0 <= i < j < |r| ensures cmp(r[i], r[j]) <= 0 {
          if i == 0 {
            assert r[j] in t;
            if r[j] != x {
              var k :| 0 <= k < |s[1..]| && s[1..][k] == r[j];
              assert cmp(s[0], s[k + 1]) <= 0;
            }
          }
        }
      }
    }
  }

  lemma {:induction false} SortBySorted<T(!new)>(s: seq<T>, cmp: (T, T) -> int)
    requires Consistent(cmp, s)
    ensures Sorted(SortBy(s, cmp), cmp)
  {
    if s != [] {
      var init := s[..|s| - 1];
      ConsistentSub(cmp, s, init);
      SortBySorted(init, cmp);
      var sorted := SortBy(init, cmp);
      forall y | y in sorted ensures y in s {
        assert y in multiset(sorted);
      }
      InsertSorted(s[|s| - 1], sorted, cmp, s);
    }
  }

  /** `a` and `b` compare equal both ways. */
  predicate Tie<T>(a: T, b: T, cmp: (T, T) -> int) {
    cmp(a, b) == 0 && cmp(b, a) == 0
  }

  /** The elements of `s` tied with `x`, in their order in `s`. */
  function TiesOf<T(!new)>(s: seq<T>, x: T, cmp: (T, T) -> int): (r: seq<T>)
    ensures forall y :: y in r <==> y in s && Tie(y, x, cmp)
    decreases |s|
  {
    if s == [] then []
    else
      assert forall y :: y in s <==> y == s[0] || y in s[1..];
      (if Tie(s[0], x, cmp) then [s[0]] else []) + TiesOf(s[1..], x, cmp)
  }

  lemma {:induction false} TiesOfConcat<T(!new)>(a: seq<T>, b: seq<T>, x: T, cmp: (T, T) -> int)
    ensures TiesOf(a + b, x, cmp) == TiesOf(a, x, cmp) + TiesOf(b, x, cmp)
    decreases |a|
  {
    if a == [] {
      assert a + b == b;
    } else {
      var ab := a + b;
      assert ab[0] == a[0] && ab[1..] == a[1..] + b;
      TiesOfConcat(a[1..], b, x, cmp);
    }
  }

  /** The contrapositives of transitivity: what lies above `c` pulls up
    * whatever it is below, and what `c` lies below is pulled up too. */
  lemma AboveLeft<T(!new)>(cmp: (T, T) -> int, all: seq<T>, a: T, b: T, c: T)
    requires Consistent(cmp, all) && a in all && b in all && c in all
    requires cmp(a, b) <= 0 && cmp(a, c) > 0
    ensures cmp(b, c) > 0
  {}

  lemma AboveRight<T(!new)>(cmp: (T, T) -> int, all: seq<T>, a: T, b: T, c: T)
    requires Consistent(cmp, all) && a in all && b in all && c in all
    requires cmp(b, c) <= 0 && cmp(a, c) > 0
    ensures cmp(a, b) > 0
  {}

  lemma {:induction false} NoTies<T(!new)>(s: seq<T>, x: T, cmp: (T, T) -> int)
    requires forall j :: 0 <= j < |s| ==> !Tie(s[j], x, cmp)
    ensures TiesOf(s, x, cmp) == []
    decreases |s|
  {
    if s != [] {
      NoTies(s[1..], x, cmp);
    }
  }

  /** In a sorted list whose head compares greater than `y`, no element is
    * tied with anything tied with `y`. */
  lemma NoTiesAfter<T(!new)>(y: T, s: seq<T>, cmp: (T, T) -> int, x: T, all: seq<T>)
    requires Sorted(s, cmp) && Consistent(cmp, all) && s != [] && cmp(s[0], y) > 0
    requires y in all && x in all && forall z :: z in s ==> z in all
    requires Tie(y, x, cmp)
    ensures TiesOf(s, x, cmp) == []
  {
    forall j | 0 <= j < |s| ensures !Tie(s[j], x, cmp) {
      if j > 0 {
        assert cmp(s[0], s[j]) <= 0;
        AboveLeft(cmp, all, s[0], s[j], y);
      }
      AboveRight(cmp, all, s[j], x, y);
    }
    NoTies(s, x, cmp);
  }

  /** Inserting `y` into a sorted list puts it after every element tied
    * with it, so among the elements tied with `x` it comes last. */
  lemma {:induction false} InsertTies<T(!new)>(y: T, s: seq<T>, cmp: (T, T) -> int, x: T, all: seq<T>)
    requires Sorted(s, cmp) && Consistent(cmp, all)
    requires y in all && x in all && forall z :: z in s ==> z in all
    ensures TiesOf(Insert(y, s, cmp), x, cmp) == TiesOf(s, x, cmp) + (if Tie(y, x, cmp) then [y] else [])
    decreases |s|
  {
    if s == [] {
    } else if cmp(s[0], y) > 0 {
      assert Insert(y, s, cmp) == [y] + s;
      assert ([y] + s)[1..] == s;
      if Tie(y, x, cmp) {
        NoTiesAfter(y, s, cmp, x, all);
      }
    } else {
      assert Sorted(s[1..], cmp);
      InsertTies(y, s[1..], cmp, x, all);
      var t := Insert(y, s[1..], cmp);
      assert Insert(y, s, cmp) == [s[0]] + t;
      assert ([s[0]] + t)[1..] == t;
    }
  }

  lemma SortByWithin<T(!new)>(s: seq<T>, cmp: (T, T) -> int, all: seq<T>)
    requires forall z :: z in s ==> z in all
    ensures forall z :: z in SortBy(s, cmp) ==> z in all
  {
    var sorted := SortBy(s, cmp);
    forall z | z in sorted ensures z in all {
      assert z in multiset(sorted);
    }
  }

  /** One step of the sort: inserting the last element keeps the ties'
    * order when sorting the rest did. */
  lemma SortStepTies<T(!new)>(init: seq<T>, last: T, cmp: (T, T) -> int, x: T, all: seq<T>)
    requires Consistent(cmp, all) && x in all && last in all && forall z :: z in init ==> z in all
    requires TiesOf(SortBy(init, cmp), x, cmp) == TiesOf(init, x, cmp)
    ensures TiesOf(Insert(last, SortBy(init, cmp), cmp), x, cmp) == TiesOf(init + [last], x, cmp)
  {
    ConsistentSub(cmp, all, init);
    SortBySorted(init, cmp);
    SortByWithin(init, cmp, all);
    InsertTies(last, SortBy(init, cmp), cmp, x, all);
    TiesOfConcat(init, [last], x, cmp);
    assert [last][1..] == [];
  }

  /** The sort is stable: the elements tied with `x` come out in their
    * input order, when the comparator is consistent. */
  lemma {:induction false} SortByTies<T(!new)>(s: seq<T>, cmp: (T, T) -> int, x: T, all: seq<T>)
    requires Consistent(cmp, all) && x in all && forall z :: z in s ==> z in all
    ensures TiesOf(SortBy(s, cmp), x, cmp) == TiesOf(s, x, cmp)
    decreases |s|
  {
    if s != [] {
      var init, last := s[..|s| - 1], s[|s| - 1];
      assert s == init + [last];
      assert forall z :: z in init ==> z in all;
      SortByTies(init, cmp, x, all);
      SortStepTies(init, last, cmp, x, all);
    }
  }

  /** Array.prototype.sort is stable: with a consistent comparator the sort
    * keeps the input order of elements that compare equal. */
  lemma SortByStable<T(!new)>(s: seq<T>, cmp: (T, T) -> int, x: T)
    requires Consistent(cmp, s) && x in s
    ensures TiesOf(SortBy(s, cmp), x, cmp) == TiesOf(s, x, cmp)
  {
    SortByTies(s, cmp, x, s);
  }

  /** A comparator that subtracts integer keys is consistent on every sequence. */
  lemma KeyComparatorConsistent<T(!new)>(key: T -> int, s: seq<T>)
    ensures Consistent((a: T, b: T) => key(a) - key(b), s)
  {}
}
