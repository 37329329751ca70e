/** Lists of objects keyed by their `id` property, as the registries, the
  * pinned list and the data views keep them. Ids are compared with `===`;
  * objects used as ids are never equal (reference identity is not modelled). */
module Identified {
  import opened Basics
  import opened JsValues

  /** `item.id`. */
  function IdOf(item: JsValue): JsValue { Prop(item, "id") }

  /** `items.some(i => i.id === id)`. */
  predicate HasId(items: seq<JsValue>, id: JsValue) {
    exists k :: 0 <= k < |items| && StrictEquals(IdOf(items[k]), id)
  }

  /** `items.filter(i => i.id !== id)`. */
  function WithoutId(items: seq<JsValue>, id: JsValue): (r: seq<JsValue>)
    ensures |r| <= |items|
    ensures forall k :: 0 <= k < |r| ==> !StrictEquals(IdOf(r[k]), id) && r[k] in items
  {
    if items == [] then []
    else if StrictEquals(IdOf(items[0]), id) then WithoutId(items[1..], id)
    else [items[0]] + WithoutId(items[1..], id)
  }

  /** Filtering keeps every item with another id, and keeps relative order:
    * it distributes over concatenation. */
  lemma {:induction false} WithoutIdConcat(a: seq<JsValue>, b: seq<JsValue>, id: JsValue)
    ensures WithoutId(a + b, id) == WithoutId(a, id) + WithoutId(b, id)
    decreases |a|
  {
    if a == [] {
      assert a + b == b;
    } else {
      assert (a + b)[1..] == a[1..] + b;
      WithoutIdConcat(a[1..], b, id);
    }
  }

  /** An item whose id differs is kept. */
  lemma {:induction false} WithoutIdKeeps(items: seq<JsValue>, id: JsValue, x: JsValue)
    requires x in items && !StrictEquals(IdOf(x), id)
    ensures x in WithoutId(items, id)
    decreases |items|
  {
    if items[0] != x {
      WithoutIdKeeps(items[1..], id, x);
    }
  }

  /** Filtering out an id nobody has changes nothing. */
  lemma {:induction false} WithoutAbsentId(items: seq<JsValue>, id: JsValue)
    requires !HasId(items, id)
    ensures WithoutId(items, id) == items
    decreases |items|
  {
    if items != [] {
      assert !HasId(items[1..], id) by {
        forall k | 0 <= k < |items[1..]| ensures !StrictEquals(IdOf(items[1..][k]), id) {
          assert items[1..][k] == items[k + 1];
        }
      }
      WithoutAbsentId(items[1..], id);
      assert !StrictEquals(IdOf(items[0]), id);
      assert items == [items[0]] + items[1..];
    }
  }

  /** `items.findIndex(i => i.id === id)`. */
  function FindIndex(items: seq<JsValue>, id: JsValue): (r: Option<nat>)
    ensures r.Some? ==> r.value < |items| && StrictEquals(IdOf(items[r.value]), id)
    ensures r.Some? ==> forall k :: 0 <= k < r.value ==> !StrictEquals(IdOf(items[k]), id)
    ensures r.None? <==> !HasId(items, id)
  {
    if items == [] then None
    else if StrictEquals(IdOf(items[0]), id) then Some(0)
    else
      match FindIndex(items[1..], id)
      case None =>
        assert forall k :: 1 <= k < |items| ==> items[k] == items[1..][k - 1];
        None
      case Some(i) => Some(i + 1)
  }

  /** `===` is reflexive on the primitive values used as ids. */
  lemma StrictEqualsReflexive(v: JsValue)
    requires !v.Arr? && !v.Obj?
    ensures StrictEquals(v, v)
  {}
}
