/** PinnedService: pinned items, at most one per id, in pinning order. */
module Pinned {
  import opened JsValues
  import opened Identified

  /** No two items share an id. */
  predicate UniqueIds(items: seq<JsValue>) {
    forall i, j :: 0 <= i < j < |items| ==> !StrictEquals(IdOf(items[i]), IdOf(items[j]))
  }

  class PinnedService {
    var items: seq<JsValue>

    ghost predicate Valid()
      reads this
    {
      UniqueIds(items)
    }

    constructor()
      ensures items == [] && Valid()
    {
      items := [];
    }

    /** pinItem: appended unless an item with the same id is pinned. */
    method PinItem(item: JsValue)
      requires Valid()
      modifies this
      ensures Valid()
      ensures HasId(old(items), IdOf(item)) ==> items == old(items)
      ensures !HasId(old(items), IdOf(item)) ==> items == old(items) + [item]
    {
      if !HasId(items, IdOf(item)) {
        items := items + [item];
      }
    }

    /** unpinItem: every item with the id goes, the rest keep their order. */
    method UnpinItem(itemId: JsValue)
      requires Valid()
      modifies this
      ensures Valid()
      ensures items == WithoutId(old(items), itemId)
      ensures !HasId(items, itemId)
    {
      WithoutIdUnique(items, itemId);
      items := WithoutId(items, itemId);
    }

    /** isPinned. */
    method IsPinned(itemId: JsValue) returns (b: bool)
      ensures b <==> exists k :: 0 <= k < |items| && StrictEquals(IdOf(items[k]), itemId)
    {
      b := false;
      var i := 0;
      while i < |items|
        invariant 0 <= i <= |items|
        invariant !b ==> forall k :: 0 <= k < i ==> !StrictEquals(IdOf(items[k]), itemId)
        invariant b ==> exists k :: 0 <= k < i && StrictEquals(IdOf(items[k]), itemId)
      {
        if StrictEquals(IdOf(items[i]), itemId) {
          b := true;
        }
        i := i + 1;
      }
    }
  }

  /** Filtering keeps the ids unique. */
  lemma {:induction false} WithoutIdUnique(items: seq<JsValue>, id: JsValue)
    requires UniqueIds(items)
    ensures UniqueIds(WithoutId(items, id))
    decreases |items|
  {
    if items != [] {
      WithoutIdUnique(items[1..], id);
      var rest := WithoutId(items[1..], id);
      if !StrictEquals(IdOf(items[0]), id) {
        var r := [items[0]] + rest;
        forall i, j | 0 <= i < j < |r| ensures !StrictEquals(IdOf(r[i]), IdOf(r[j])) {
          if i == 0 {
            assert r[j] in items[1..];
            var m :| 0 <= m < |items[1..]| && items[1..][m] == r[j];
            assert items[m + 1] == r[j];
          }
        }
      }
    }
  }
}
