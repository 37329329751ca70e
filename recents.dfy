/** RecentsService: a most-recent-first list holding at most ten items. */
module Recents {
  import opened Basics

  const Capacity: nat := 10

  class RecentsService<T> {
    var items: seq<T>

    ghost predicate Valid()
      reads this
    {
      |items| <= Capacity
    }

    constructor()
      ensures items == [] && Valid()
    {
      items := [];
    }

    /** addItem: unshift, then pop when over capacity. */
    method AddItem(item: T)
      requires Valid()
      modifies this
      ensures Valid()
      ensures items == AfterAdd(old(items), item)
    {
      items := [item] + items;
      if |items| > Capacity {
        items := items[..|items| - 1];
      }
    }

    /** getItems. */
    method GetItems() returns (r: seq<T>)
      ensures r == items
    {
      r := items;
    }

    /** clearItems. */
    method ClearItems()
      modifies this
      ensures items == [] && Valid()
    {
      items := [];
    }
  }

  /** The list after adding `item` to `items`. */
  function AfterAdd<T>(items: seq<T>, item: T): seq<T> {
    var pushed := [item] + items;
    if |pushed| > Capacity then pushed[..|pushed| - 1] else pushed
  }

  /** The new item is first, followed by the previous items, newest first,
    * with the oldest dropped once the list is full. */
  lemma AfterAddShape<T>(items: seq<T>, item: T)
    requires |items| <= Capacity
    ensures |AfterAdd(items, item)| == if |items| == Capacity then Capacity else |items| + 1
    ensures AfterAdd(items, item)[0] == item
    ensures |items| < Capacity ==> AfterAdd(items, item)[1..] == items
    ensures |items| == Capacity ==> AfterAdd(items, item)[1..] == items[..Capacity - 1]
  {}

  /** Adding n items to an empty list leaves the last min(n, 10) of them,
    * latest first. */
  function AddAll<T>(items: seq<T>, added: seq<T>): seq<T>
    decreases |added|
  {
    if added == [] then items else AddAll(AfterAdd(items, added[0]), added[1..])
  }

  function Reverse<T>(s: seq<T>): (r: seq<T>)
    ensures |r| == |s|
    ensures forall k :: 0 <= k < |s| ==> r[k] == s[|s| - 1 - k]
  {
    if s == [] then [] else Reverse(s[1..]) + [s[0]]
  }

  /** A prefix of `a` followed by a prefix of `b` is, cut short enough, a
    * prefix of `a + b`. */
  lemma PrefixWithin<T>(a: seq<T>, b: seq<T>, n: nat, j: nat)
    requires n <= |b| && j <= |a| + n
    ensures (a + b[..n])[..j] == (a + b)[..j]
  {
    assert a + b[..n] == (a + b)[..|a| + n];
  }

  lemma {:induction false} AddAllKeepsLatest<T>(items: seq<T>, added: seq<T>)
    requires |items| <= Capacity
    ensures |AddAll(items, added)| <= Capacity
    ensures var r := AddAll(items, added);
      |r| == Min(|added| + |items|, Capacity) &&
      r == (Reverse(added) + items)[..|r|]
    decreases |added|
  {
    if added != [] {
      var next := AfterAdd(items, added[0]);
      AfterAddShape(items, added[0]);
      AddAllKeepsLatest(next, added[1..]);
      var r := AddAll(next, added[1..]);
      var later := Reverse(added[1..]);
      var pushed := [added[0]] + items;
      assert Reverse(added) == later + [added[0]];
      assert Reverse(added) + items == later + pushed;
      assert next == pushed[..|next|];
      PrefixWithin(later, pushed, |next|, |r|);
    }
  }
}
