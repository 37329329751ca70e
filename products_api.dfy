/** ProductsApi: the products client's five-minute cache, its fallbacks
  * when the server cannot be reached, and the searches it runs over the
  * product list. The clock and what each `fetch` comes to are inputs:
  * `None` stands for a request that threw or answered with a status that
  * is not ok. */
module ProductsApi {
  import opened Basics
  import opened Text
  import opened JsValues

  /** How long a cache entry stays usable, in milliseconds. */
  const CacheTimeout := 5 * 60 * 1000

  const AllKey := "products_all"

  /** The key a single product is cached under. */
  function ProductKey(productId: JsValue): string { "product_" + ToStr(productId) }

  /** A single product's key never collides with the list's. */
  lemma ProductKeyNotAll(productId: JsValue)
    ensures ProductKey(productId) != AllKey
  {
    assert ProductKey(productId)[7] == '_' && AllKey[7] == 's';
  }

  /** A cached response and the time it was stored. */
  datatype CacheEntry = CacheEntry(data: JsValue, timestamp: int)

  /** The cached data for `key`, when there is an entry younger than the
    * timeout at time `now`. */
  function Cached(cache: map<string, CacheEntry>, key: string, now: int): (r: Option<JsValue>)
    ensures r.Some? <==> key in cache && now - cache[key].timestamp < CacheTimeout
    ensures r.Some? ==> r.value == cache[key].data
  {
    if key in cache && now - cache[key].timestamp < CacheTimeout then Some(cache[key].data) else None
  }

  /** An entry stored at `at` is served at `now` exactly while fewer than
    * five minutes have passed, and storing it leaves every other key's
    * answer as it was. */
  lemma CachedAfterStore(cache: map<string, CacheEntry>, key: string, data: JsValue, at: int, now: int, other: string)
    ensures Cached(cache[key := CacheEntry(data, at)], key, now) == (if now - at < CacheTimeout then Some(data) else None)
    ensures other != key ==> Cached(cache[key := CacheEntry(data, at)], other, now) == Cached(cache, other, now)
  {}

  /** An entry served at some time is served at every earlier time after
    * it was stored, and one that has expired stays expired. */
  lemma CachedExpiry(cache: map<string, CacheEntry>, key: string, t: int, u: int)
    requires t <= u
    ensures Cached(cache, key, u).Some? ==> Cached(cache, key, t).Some?
    ensures Cached(cache, key, t).None? ==> Cached(cache, key, u).None?
  {}

  /** An empty cache serves nothing. */
  lemma ClearedServesNothing(key: string, now: int)
    ensures Cached(map[], key, now).None?
  {}

  /** The sample products getAll answers with when the server cannot be
    * reached. */
  const FallbackProducts: seq<JsValue> := [
    Obj([("id", Num(1.0, "1")), ("name", Str("Steel Roofing Sheet")), ("sku", Str("SRS-001")),
         ("price", Num(250.0, "250")), ("description", Str("High-quality corrugated steel roofing sheet")),
         ("category", Str("Roofing Materials")), ("unitOfMeasure", Str("Each")), ("active", Bool(true)),
         ("createdDate", Str("2024-01-15T10:30:00Z")), ("modifiedDate", Str("2024-08-10T14:20:00Z"))]),
    Obj([("id", Num(2.0, "2")), ("name", Str("Cedar Shingles")), ("sku", Str("CS-002")),
         ("price", Num(180.5, "180.5")), ("description", Str("Premium cedar wood shingles for natural roofing")),
         ("category", Str("Roofing Materials")), ("unitOfMeasure", Str("Square Metre")), ("active", Bool(true)),
         ("createdDate", Str("2024-02-10T09:15:00Z")), ("modifiedDate", Str("2024-07-22T11:30:00Z"))]),
    Obj([("id", Num(3.0, "3")), ("name", Str("Aluminum Gutters")), ("sku", Str("AG-003")),
         ("price", Num(75.25, "75.25")), ("description", Str("Durable aluminum guttering system")),
         ("category", Str("Guttering")), ("unitOfMeasure", Str("Metre")), ("active", Bool(true)),
         ("createdDate", Str("2024-03-05T14:45:00Z")), ("modifiedDate", Str("2024-08-01T16:10:00Z"))]),
    Obj([("id", Num(4.0, "4")), ("name", Str("Roof Insulation")), ("sku", Str("RI-004")),
         ("price", Num(45.0, "45")), ("description", Str("Thermal roof insulation material")),
         ("category", Str("Insulation")), ("unitOfMeasure", Str("Square Metre")), ("active", Bool(true)),
         ("createdDate", Str("2024-01-20T08:20:00Z")), ("modifiedDate", Str("2024-06-15T12:45:00Z"))]),
    Obj([("id", Num(5.0, "5")), ("name", Str("Flashing Kit")), ("sku", Str("FK-005")),
         ("price", Num(120.75, "120.75")), ("description", Str("Complete roof flashing kit with fasteners")),
         ("category", Str("Hardware")), ("unitOfMeasure", Str("Kit")), ("active", Bool(true)),
         ("createdDate", Str("2024-04-12T11:30:00Z")), ("modifiedDate", Str("2024-08-05T10:20:00Z"))])
  ]

  /** The first product whose id is loosely equal to `productId`. */
  function FindById(products: seq<JsValue>, productId: JsValue): (r: Option<JsValue>)
    ensures r.Some? ==> r.value in products && LooseEquals(Prop(r.value, "id"), productId)
    ensures r.None? <==> forall k :: 0 <= k < |products| ==> !LooseEquals(Prop(products[k], "id"), productId)
  {
    if products == [] then None
    else if LooseEquals(Prop(products[0], "id"), productId) then Some(products[0])
    else
      var rest := FindById(products[1..], productId);
      assert forall k :: 1 <= k < |products| ==> products[k] == products[1..][k - 1];
      rest
  }

  /** The message getById throws when the product is nowhere to be found. */
  function NotFound(productId: JsValue): string { "Product " + ToStr(productId) + " not found" }

  // ---------------------------------------------------------------------
  // Filters over the product list

  /** `items.filter(test)` where the test may throw: the items the test
    * passes, or the error of the first item it throws on. */
  function KeepOrThrow(items: seq<JsValue>, test: JsValue -> Result<bool, string>): (r: Result<seq<JsValue>, string>)
    ensures r.Err? <==> exists k :: 0 <= k < |items| && test(items[k]).Err?
    ensures r.Ok? ==> |r.value| <= |items| && forall x :: x in r.value <==> x in items && test(x) == Ok(true)
  {
    if items == [] then Ok([])
    else
      var first := test(items[0]);
      var rest := KeepOrThrow(items[1..], test);
      assert forall k :: 1 <= k < |items| ==> items[k] == items[1..][k - 1];
      assert forall x :: x in items <==> x == items[0] || x in items[1..];
      if first.Err? then Err(first.error)
      else if rest.Err? then rest
      else if first.value then Ok([items[0]] + rest.value)
      else rest
  }

  /** When the filter does not throw, it keeps exactly the items a test
    * agreeing with it passes, in order and with their repeats. */
  lemma {:induction false} KeepOrThrowKeeps(items: seq<JsValue>, test: JsValue -> Result<bool, string>, keep: JsValue -> bool)
    requires forall k :: 0 <= k < |items| && test(items[k]).Ok? ==> (test(items[k]).value <==> keep(items[k]))
    ensures KeepOrThrow(items, test).Ok? ==> KeepOrThrow(items, test).value == Keep(items, keep)
    decreases |items|
  {
    if items != [] {
      assert forall k :: 1 <= k < |items| ==> items[k] == items[1..][k - 1];
      KeepOrThrowKeeps(items[1..], test, keep);
    }
  }

  /** Two tests that agree on every item filter alike. */
  lemma {:induction false} KeepOrThrowSame(items: seq<JsValue>, p: JsValue -> Result<bool, string>, q: JsValue -> Result<bool, string>)
    requires forall x :: p(x) == q(x)
    ensures KeepOrThrow(items, p) == KeepOrThrow(items, q)
    decreases |items|
  {
    if items != [] {
      KeepOrThrowSame(items[1..], p, q);
    }
  }

  /** A field the search looks in, after the name: skipped when falsy, and
    * throws when truthy but not text (it has no toLowerCase). */
  predicate TextOrFalsy(v: JsValue) { !Truthy(v) || v.Str? }

  /** A product every search field of which can be lower-cased. */
  predicate Searchable(product: JsValue) {
    Prop(product, "name").Str? && TextOrFalsy(Prop(product, "sku")) &&
    TextOrFalsy(Prop(product, "category")) && TextOrFalsy(Prop(product, "description"))
  }

  /** `v` is text that, lower-cased, holds `term`. */
  predicate Holds(v: JsValue, term: string) { v.Str? && Contains(Lower(v.s), term) }

  /** The search test: the term occurs in the name, sku, category or
    * description. */
  predicate Matches(product: JsValue, term: string) {
    Holds(Prop(product, "name"), term) || Holds(Prop(product, "sku"), term) ||
    Holds(Prop(product, "category"), term) || Holds(Prop(product, "description"), term)
  }

  /** One optional field of the search, tried only when it is truthy. */
  function OptionalHit(v: JsValue, term: string): (r: Result<bool, string>)
    ensures TextOrFalsy(v) <==> r.Ok?
    ensures r.Ok? ==> (r.value <==> Truthy(v) && Holds(v, term))
  {
    if !Truthy(v) then Ok(false)
    else if !v.Str? then Err("TypeError")
    else Ok(Contains(Lower(v.s), term))
  }

  /** The search callback: the four tests joined by `||`, so that a later
    * field is only reached when no earlier one held the term. */
  function SearchHit(product: JsValue, term: string): (r: Result<bool, string>)
    ensures !Prop(product, "name").Str? ==> r.Err?
    ensures Searchable(product) ==> r == Ok(Matches(product, term))
    ensures r == Ok(true) ==> Matches(product, term)
    ensures r.Ok? ==> (r.value <==> Matches(product, term))
  {
    var name := Prop(product, "name");
    if !name.Str? then Err("TypeError")
    else if Contains(Lower(name.s), term) then Ok(true)
    else
      var sku := OptionalHit(Prop(product, "sku"), term);
      if sku.Err? || sku.value then sku
      else
        var category := OptionalHit(Prop(product, "category"), term);
        if category.Err? || category.value then category
        else OptionalHit(Prop(product, "description"), term)
  }

  function SearchTest(term: string): JsValue -> Result<bool, string> { p => SearchHit(p, term) }

  function MatchTest(term: string): JsValue -> bool { p => Matches(p, term) }

  /** search(query), given the product list getAll answered with. */
  function Search(products: seq<JsValue>, query: string): (r: Result<seq<JsValue>, string>)
    ensures (forall k :: 0 <= k < |products| ==> Searchable(products[k])) ==> r.Ok?
    ensures r.Ok? ==> forall x :: x in r.value <==> x in products && Matches(x, Lower(query))
    ensures r.Ok? ==> r.value == Keep(products, MatchTest(Lower(query)))
    ensures (exists k :: 0 <= k < |products| && !Prop(products[k], "name").Str?) ==> r.Err?
  {
    KeepOrThrowKeeps(products, SearchTest(Lower(query)), MatchTest(Lower(query)));
    KeepOrThrow(products, SearchTest(Lower(query)))
  }

  /** A search by any case of the same text finds the same products. */
  lemma SearchIgnoresCase(products: seq<JsValue>, query: string)
    ensures Search(products, query) == Search(products, Lower(query))
  {
    LowerIdempotent(query);
  }

  /** The category test: a truthy category equal to the wanted one once
    * both are lower-cased. */
  function CategoryHit(product: JsValue, category: string): (r: Result<bool, string>)
    ensures r.Ok? <==> TextOrFalsy(Prop(product, "category"))
    ensures r == Ok(true) <==> Prop(product, "category").Str? && Prop(product, "category").s != [] &&
                               Lower(Prop(product, "category").s) == Lower(category)
  {
    var c := Prop(product, "category");
    if !Truthy(c) then Ok(false)
    else if !c.Str? then Err("TypeError")
    else Ok(Lower(c.s) == Lower(category))
  }

  function CategoryTest(category: string): JsValue -> Result<bool, string> { p => CategoryHit(p, category) }

  /** A truthy text category equal to the wanted one without regard to case. */
  predicate InCategory(product: JsValue, category: string) {
    Prop(product, "category").Str? && Prop(product, "category").s != [] &&
    Lower(Prop(product, "category").s) == Lower(category)
  }

  function InCategoryTest(category: string): JsValue -> bool { p => InCategory(p, category) }

  /** getByCategory(category), given the product list. */
  function ByCategory(products: seq<JsValue>, category: string): (r: Result<seq<JsValue>, string>)
    ensures r.Ok? <==> forall k :: 0 <= k < |products| ==> TextOrFalsy(Prop(products[k], "category"))
    ensures r.Ok? ==> forall x :: x in r.value <==> x in products && InCategory(x, category)
    ensures r.Ok? ==> r.value == Keep(products, InCategoryTest(category))
  {
    KeepOrThrowKeeps(products, CategoryTest(category), InCategoryTest(category));
    KeepOrThrow(products, CategoryTest(category))
  }

  /** The category is compared without regard to case: any spelling of it
    * selects the same products. */
  lemma ByCategoryIgnoresCase(products: seq<JsValue>, category: string)
    ensures ByCategory(products, category) == ByCategory(products, Lower(category))
  {
    LowerIdempotent(category);
    KeepOrThrowSame(products, CategoryTest(category), CategoryTest(Lower(category)));
  }

  function ActiveTest(): JsValue -> bool { p => Truthy(Prop(p, "active")) }

  /** getActive(), given the product list: the products whose `active` is
    * truthy, in order. */
  function Active(products: seq<JsValue>): (r: seq<JsValue>)
    ensures forall x :: x in r <==> x in products && Truthy(Prop(x, "active"))
  {
    Keep(products, ActiveTest())
  }

  // ---------------------------------------------------------------------
  // The client

  /** The list getAll answers with at time `now`, its request coming to
    * `fetched`: a fresh cached list, else the fetched list, else the sample
    * products. */
  function AllProducts(cache: map<string, CacheEntry>, now: int, fetched: Option<seq<JsValue>>): seq<JsValue>
    requires AllKey in cache ==> cache[AllKey].data.Arr?
  {
    if Cached(cache, AllKey, now).Some? then cache[AllKey].data.items
    else if fetched.Some? then fetched.value
    else FallbackProducts
  }

  /** The cache getAll leaves: the fetched list is stored at `now` when no
    * fresh list was cached; otherwise the cache is as it was. */
  function CacheAfterAll(cache: map<string, CacheEntry>, now: int, fetched: Option<seq<JsValue>>): map<string, CacheEntry>
  {
    if Cached(cache, AllKey, now).None? && fetched.Some? then cache[AllKey := CacheEntry(Arr(fetched.value), now)]
    else cache
  }

  class Client {
    var cache: map<string, CacheEntry>

    /** The list getAll stores is always an array. */
    predicate Valid()
      reads this
    {
      AllKey in cache ==> cache[AllKey].data.Arr?
    }

    constructor()
      ensures cache == map[] && Valid()
    {
      cache := map[];
    }

    /** clearCache(). */
    method ClearCache()
      modifies this
      ensures cache == map[] && Valid()
    {
      cache := map[];
    }

    /** getAll() at time `now`, the request coming to `fetched`: a fresh
      * cached list, else the server's list (cached at `now`), else the
      * sample products. */
    method GetAll(now: int, fetched: Option<seq<JsValue>>) returns (products: seq<JsValue>)
      requires Valid()
      modifies this
      ensures Valid()
      ensures Cached(old(cache), AllKey, now).Some? ==>
        products == Cached(old(cache), AllKey, now).value.items && cache == old(cache)
      ensures Cached(old(cache), AllKey, now).None? && fetched.Some? ==>
        products == fetched.value && cache == old(cache)[AllKey := CacheEntry(Arr(fetched.value), now)]
      ensures Cached(old(cache), AllKey, now).None? && fetched.None? ==>
        products == FallbackProducts && cache == old(cache)
      ensures products == AllProducts(old(cache), now, fetched) && cache == CacheAfterAll(old(cache), now, fetched)
    {
      var hit := Cached(cache, AllKey, now);
      if hit.Some? {
        products := hit.value.items;
      } else if fetched.Some? {
        cache := cache[AllKey := CacheEntry(Arr(fetched.value), now)];
        products := fetched.value;
      } else {
        products := FallbackProducts;
      }
    }

    /** getById(productId) at time `now`: a fresh cached product, else the
      * server's answer `fetched` (cached at `now`), else the first product
      * of getAll whose id is loosely equal, getAll's own request coming to
      * `allFetched`; when that finds nothing it throws. */
    method GetById(productId: JsValue, now: int, fetched: Option<JsValue>, allFetched: Option<seq<JsValue>>)
      returns (r: Result<JsValue, string>)
      requires Valid()
      modifies this
      ensures Valid()
      ensures Cached(old(cache), ProductKey(productId), now).Some? ==>
        r == Ok(Cached(old(cache), ProductKey(productId), now).value) && cache == old(cache)
      ensures Cached(old(cache), ProductKey(productId), now).None? && fetched.Some? ==>
        r == Ok(fetched.value) && cache == old(cache)[ProductKey(productId) := CacheEntry(fetched.value, now)]
      ensures Cached(old(cache), ProductKey(productId), now).None? && fetched.None? ==>
        (var found := FindById(AllProducts(old(cache), now, allFetched), productId);
         (found.Some? ==> r == Ok(found.value) && LooseEquals(Prop(r.value, "id"), productId)) &&
         (found.None? ==> r == Err(NotFound(productId))) &&
         cache == CacheAfterAll(old(cache), now, allFetched))
    {
      var key := ProductKey(productId);
      var hit := Cached(cache, key, now);
      if hit.Some? {
        r := Ok(hit.value);
      } else if fetched.Some? {
        ProductKeyNotAll(productId);
        cache := cache[key := CacheEntry(fetched.value, now)];
        r := Ok(fetched.value);
      } else {
        var all := GetAll(now, allFetched);
        var found := FindById(all, productId);
        if found.Some? {
          r := Ok(found.value);
        } else {
          r := Err(NotFound(productId));
        }
      }
    }
  }
}
