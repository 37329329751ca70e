/** Routes: the shell's hash router. Routes are registered in an
  * insertion-ordered map from pattern to handler; a path is resolved by an
  * exact key first and then by the first pattern whose segments match. */
module Routes {
  import opened Basics
  import opened Text
  import opened JsValues

  /** The registered handlers; the `:id` ones render with `params.id`. */
  datatype Handler =
    | Dashboard
    | CustomersList
    | CustomerNew
    | CustomerById
    | CustomerEdit
    | ProductsList
    | ProductNew
    | ProductById
    | ProductEdit

  /** What navigating to a path does: a handler run with the parsed id, or
    * the not-found page. */
  datatype Outcome = Render(handler: Handler, id: Option<string>) | NotFound

  // ---------------------------------------------------------------------
  // Segments
  // ---------------------------------------------------------------------

  /** `.filter(p => p)` over split parts. */
  function NonEmpty(parts: seq<string>): (r: seq<string>)
    ensures forall k :: 0 <= k < |r| ==> r[k] != []
    ensures |r| <= |parts|
  {
    if parts == [] then []
    else if parts[0] == [] then NonEmpty(parts[1..])
    else [parts[0]] + NonEmpty(parts[1..])
  }

  /** `path.split('/').filter(p => p)`. */
  function Segments(path: string): seq<string> {
    NonEmpty(Split(path, '/'))
  }

  lemma {:induction false} SplitAppendSeparator(s: string, sep: char)
    ensures Split(s + [sep], sep) == Split(s, sep) + [[]]
    decreases |s|
  {
    if s == [] {
      assert [sep][1..] == [];
    } else {
      assert (s + [sep])[1..] == s[1..] + [sep];
      SplitAppendSeparator(s[1..], sep);
      var t := Split(s[1..], sep);
      assert (t + [[]])[0] == t[0];
      assert (t + [[]])[1..] == t[1..] + [[]];
    }
  }

  lemma {:induction false} NonEmptyAppendEmpty(parts: seq<string>)
    ensures NonEmpty(parts + [[]]) == NonEmpty(parts)
    decreases |parts|
  {
    if parts == [] {
      var e: seq<string> := [[]];
      assert e[1..] == [];
    } else {
      assert (parts + [[]])[1..] == parts[1..] + [[]];
      NonEmptyAppendEmpty(parts[1..]);
    }
  }

  /** Empty segments are ignored: a leading or trailing '/' changes nothing. */
  lemma SlashesIgnored(path: string)
    ensures Segments(path + "/") == Segments(path)
    ensures Segments("/" + path) == Segments(path)
  {
    SplitAppendSeparator(path, '/');
    NonEmptyAppendEmpty(Split(path, '/'));
    assert ("/" + path)[1..] == path;
  }

  // ---------------------------------------------------------------------
  // matchRoute
  // ---------------------------------------------------------------------

  predicate IsParam(segment: string) { segment != [] && segment[0] == ':' }

  /** A pattern matches a path when both have as many segments and every
    * segment of the pattern is a parameter or equal to the path's. */
  predicate SegmentsMatch(route: seq<string>, actual: seq<string>) {
    |route| == |actual| && forall i :: 0 <= i < |route| ==> IsParam(route[i]) || route[i] == actual[i]
  }

  predicate Matches(routePath: string, actualPath: string) {
    SegmentsMatch(Segments(routePath), Segments(actualPath))
  }

  /** Every path matches itself, and a pattern without parameters matches
    * exactly the paths with the same segments. */
  lemma MatchProperties(routePath: string, actualPath: string)
    ensures Matches(actualPath, actualPath)
    ensures (forall k :: 0 <= k < |Segments(routePath)| ==> !IsParam(Segments(routePath)[k])) ==>
      (Matches(routePath, actualPath) <==> Segments(routePath) == Segments(actualPath))
  {}

  /** A pattern with a different number of segments never matches. */
  lemma MatchNeedsSameLength(routePath: string, actualPath: string)
    requires |Segments(routePath)| != |Segments(actualPath)|
    ensures !Matches(routePath, actualPath)
  {}

  // ---------------------------------------------------------------------
  // findRouteHandler
  // ---------------------------------------------------------------------

  /** The first registered pattern, in insertion order, that matches. */
  function FirstMatch(routes: seq<(string, Handler)>, path: string): (r: Option<nat>)
    ensures r.Some? ==> r.value < |routes| && Matches(routes[r.value].0, path)
    ensures r.Some? ==> forall j :: 0 <= j < r.value ==> !Matches(routes[j].0, path)
    ensures r.None? ==> forall j :: 0 <= j < |routes| ==> !Matches(routes[j].0, path)
  {
    if routes == [] then None
    else if Matches(routes[0].0, path) then Some(0)
    else
      var rest := FirstMatch(routes[1..], path);
      assert forall j :: 1 <= j < |routes| ==> routes[1..][j - 1] == routes[j];
      if rest.None? then None else Some(rest.value + 1)
  }

  /** The handler a path resolves to. */
  function Resolve(routes: seq<(string, Handler)>, path: string): Option<Handler> {
    match Lookup(routes, path)
    case Some(h) => Some(h)
    case None =>
      match FirstMatch(routes, path)
      case Some(i) => Some(routes[i].1)
      case None => None
  }

  /** An exact key wins over any pattern; otherwise the first matching
    * pattern's handler is used, and with none the path is not found. */
  lemma ResolvePriority(routes: seq<(string, Handler)>, path: string)
    ensures path in Keys(routes) ==> Resolve(routes, path) == Lookup(routes, path)
    ensures path !in Keys(routes) ==>
      (Resolve(routes, path).Some? <==> exists j :: 0 <= j < |routes| && Matches(routes[j].0, path))
  {
    if path !in Keys(routes) && (exists j :: 0 <= j < |routes| && Matches(routes[j].0, path)) {
      var j :| 0 <= j < |routes| && Matches(routes[j].0, path);
      assert FirstMatch(routes, path).Some?;
    }
  }

  // ---------------------------------------------------------------------
  // parseParams
  // ---------------------------------------------------------------------

  /** `params.id`: the second segment of a customers or products path,
    * unless it is 'new'. */
  function ParseParams(path: string): (id: Option<string>)
    ensures id.Some? <==>
      (|Segments(path)| >= 2 && Segments(path)[0] in ["customers", "products"] && Segments(path)[1] != "new")
    ensures id.Some? ==> id.value == Segments(path)[1]
  {
    var parts := Segments(path);
    if |parts| >= 2 && parts[0] == "customers" && parts[1] != "new" then Some(parts[1])
    else if |parts| >= 2 && parts[0] == "products" && parts[1] != "new" then Some(parts[1])
    else None
  }

  /** `hash.slice(1) || '/'`: the path of a location hash. */
  function HashPath(hash: string): (path: string)
    ensures |hash| <= 1 ==> path == "/"
    ensures |hash| > 1 ==> path == hash[1..]
  {
    if |hash| <= 1 then "/" else hash[1..]
  }

  /** navigateTo over a route table. */
  function Navigate(routes: seq<(string, Handler)>, path: string): Outcome {
    match Resolve(routes, path)
    case Some(h) => Render(h, ParseParams(path))
    case None => NotFound
  }

  /** What init's nine addRoute calls make of a table. */
  function InitRoutes(r: seq<(string, Handler)>): seq<(string, Handler)> {
    Put(Put(Put(Put(Put(Put(Put(Put(Put(r,
      "/", Dashboard), "/customers", CustomersList), "/customers/new", CustomerNew),
      "/customers/:id", CustomerById), "/customers/:id/edit", CustomerEdit),
      "/products", ProductsList), "/products/new", ProductNew),
      "/products/:id", ProductById), "/products/:id/edit", ProductEdit)
  }

  class Router {
    var routes: seq<(string, Handler)>
    var currentRoute: Option<string>

    ghost predicate Valid()
      reads this
    {
      UniqueKeys(routes)
    }

    /** The router registers its routes and handles the initial hash. */
    constructor(hash: string)
      ensures Valid()
      ensures routes == InitRoutes([])
      ensures currentRoute == Some(HashPath(hash))
    {
      routes := [];
      currentRoute := None;
      new;
      Init();
      var _ := HandleRouteChange(hash);
    }

    /** addRoute: `routes.set(path, handler)`. */
    method AddRoute(path: string, handler: Handler)
      requires Valid()
      modifies this
      ensures Valid()
      ensures routes == Put(old(routes), path, handler)
      ensures currentRoute == old(currentRoute)
      ensures Lookup(routes, path) == Some(handler)
      ensures forall p :: p != path ==> Lookup(routes, p) == Lookup(old(routes), p)
    {
      PutUnique(routes, path, handler);
      forall p | p != path ensures Lookup(Put(routes, path, handler), p) == Lookup(routes, p) {
        LookupPut(routes, path, handler, p);
      }
      LookupPut(routes, path, handler, path);
      routes := Put(routes, path, handler);
    }

    /** init: the nine routes, registered in order. */
    method Init()
      requires Valid()
      modifies this
      ensures Valid()
      ensures routes == InitRoutes(old(routes))
      ensures currentRoute == old(currentRoute)
    {
      AddRoute("/", Dashboard);
      AddRoute("/customers", CustomersList);
      AddRoute("/customers/new", CustomerNew);
      AddRoute("/customers/:id", CustomerById);
      AddRoute("/customers/:id/edit", CustomerEdit);
      AddRoute("/products", ProductsList);
      AddRoute("/products/new", ProductNew);
      AddRoute("/products/:id", ProductById);
      AddRoute("/products/:id/edit", ProductEdit);
    }

    /** matchRoute: the segment loop with its early returns. */
    method MatchRoute(routePath: string, actualPath: string) returns (b: bool)
      ensures b <==> Matches(routePath, actualPath)
    {
      var routeParts := Segments(routePath);
      var actualParts := Segments(actualPath);
      if |routeParts| != |actualParts| {
        return false;
      }
      var i := 0;
      while i < |routeParts|
        invariant 0 <= i <= |routeParts|
        invariant forall j :: 0 <= j < i ==> IsParam(routeParts[j]) || routeParts[j] == actualParts[j]
      {
        if IsParam(routeParts[i]) {
        } else if routeParts[i] != actualParts[i] {
          return false;
        }
        i := i + 1;
      }
      return true;
    }

    /** findRouteHandler: the exact key, else the first matching pattern. */
    method FindRouteHandler(path: string) returns (h: Option<Handler>)
      ensures h == Resolve(routes, path)
    {
      var exact := Lookup(routes, path);
      if exact.Some? {
        return exact;
      }
      var i := 0;
      while i < |routes|
        invariant 0 <= i <= |routes|
        invariant forall j :: 0 <= j < i ==> !Matches(routes[j].0, path)
      {
        var m := MatchRoute(routes[i].0, path);
        if m {
          FirstMatchIs(routes, path, i);
          return Some(routes[i].1);
        }
        i := i + 1;
      }
      return None;
    }

    /** handleRouteChange: the hash's path becomes the current route and is
      * navigated to. */
    method HandleRouteChange(hash: string) returns (outcome: Outcome)
      modifies this
      ensures currentRoute == Some(HashPath(hash))
      ensures routes == old(routes)
      ensures outcome == Navigate(routes, HashPath(hash))
    {
      var path := if |hash| <= 1 then "/" else hash[1..];
      currentRoute := Some(path);
      var h := FindRouteHandler(path);
      if h.Some? {
        outcome := Render(h.value, ParseParams(path));
      } else {
        outcome := NotFound;
      }
    }
  }

  lemma {:induction false} FirstMatchIs(routes: seq<(string, Handler)>, path: string, i: nat)
    requires i < |routes| && Matches(routes[i].0, path)
    requires forall j :: 0 <= j < i ==> !Matches(routes[j].0, path)
    ensures FirstMatch(routes, path) == Some(i)
    decreases i
  {
    if i > 0 {
      FirstMatchIs(routes[1..], path, i - 1);
    }
  }

  lemma {:induction false} NonEmptyAll(parts: seq<string>)
    requires forall k :: 0 <= k < |parts| ==> parts[k] != []
    ensures NonEmpty(parts) == parts
    decreases |parts|
  {
    if parts != [] {
      NonEmptyAll(parts[1..]);
      assert parts == [parts[0]] + parts[1..];
    }
  }

  /** A path written as '/' followed by non-empty, slash-free parts joined
    * by '/' has exactly those parts as its segments. */
  lemma SegmentsOfParts(parts: seq<string>)
    requires |parts| >= 1
    requires forall k :: 0 <= k < |parts| ==> parts[k] != [] && '/' !in parts[k]
    ensures Segments("/" + Join(parts, '/')) == parts
  {
    var all := [[]] + parts;
    assert all[1..] == parts;
    assert Join(all, '/') == "/" + Join(parts, '/');
    SplitJoin(all, '/');
    assert NonEmpty(all) == NonEmpty(parts);
    NonEmptyAll(parts);
  }

  lemma Segments1(a: string)
    requires a != [] && '/' !in a
    ensures Segments("/" + a) == [a]
  {
    SegmentsOfParts([a]);
  }

  lemma Segments2(a: string, b: string)
    requires a != [] && '/' !in a && b != [] && '/' !in b
    ensures Segments("/" + a + "/" + b) == [a, b]
  {
    SegmentsOfParts([a, b]);
    assert [a, b][1..] == [b];
    assert Join([b], '/') == b;
    assert Join([a, b], '/') == a + "/" + b;
    assert "/" + a + "/" + b == "/" + (a + "/" + b);
  }

  lemma Segments3(a: string, b: string, c: string)
    requires a != [] && '/' !in a && b != [] && '/' !in b && c != [] && '/' !in c
    ensures Segments("/" + a + "/" + b + "/" + c) == [a, b, c]
  {
    SegmentsOfParts([a, b, c]);
    assert [a, b, c][1..] == [b, c];
    assert [b, c][1..] == [c];
    assert Join([c], '/') == c;
    assert Join([b, c], '/') == b + "/" + c;
    assert Join([a, b, c], '/') == a + "/" + (b + "/" + c);
    assert "/" + a + "/" + b + "/" + c == "/" + (a + "/" + (b + "/" + c));
  }

  /** The root path has no segments. */
  lemma SegmentsOfRoot()
    ensures Segments("/") == []
  {
    assert "/"[1..] == [];
    var e: seq<string> := [[]];
    assert e[1..] == [];
  }

  lemma SegmentsOfCustomerPath(id: string)
    requires id != [] && '/' !in id
    ensures Segments("/customers/" + id) == ["customers", id]
  {
    Segments2("customers", id);
    assert "/customers/" + id == "/" + "customers" + "/" + id;
  }

  lemma SegmentsOfCustomerPatterns()
    ensures Segments("/customers/:id") == ["customers", ":id"]
    ensures Segments("/customers/new") == ["customers", "new"]
  {
    Segments2("customers", ":id");
    assert "/customers/:id" == "/" + "customers" + "/" + ":id";
    Segments2("customers", "new");
    assert "/customers/new" == "/" + "customers" + "/" + "new";
  }

  /** The `:id` pattern matches every customer id path, and the literal
    * 'new' route matches only 'new'. */
  lemma CustomerIdMatches(id: string)
    requires id != [] && '/' !in id
    ensures Matches("/customers/:id", "/customers/" + id)
    ensures Matches("/customers/new", "/customers/" + id) <==> id == "new"
  {
    SegmentsOfCustomerPath(id);
    SegmentsOfCustomerPatterns();
    assert IsParam(":id");
    assert ["customers", "new"][1] == "new";
  }

  /** A customer path's id is parsed unless it is 'new'. */
  lemma CustomerIdParam(id: string)
    requires id != [] && '/' !in id
    ensures ParseParams("/customers/" + id) == if id == "new" then None else Some(id)
  {
    SegmentsOfCustomerPath(id);
  }

  /** A path that is not a key goes to the first matching pattern's handler,
    * with the parsed parameters. */
  lemma PatternRoute(routes: seq<(string, Handler)>, path: string, i: nat)
    requires path !in Keys(routes)
    requires i < |routes| && Matches(routes[i].0, path)
    requires forall j :: 0 <= j < i ==> !Matches(routes[j].0, path)
    ensures Navigate(routes, path) == Render(routes[i].1, ParseParams(path))
  {
    FirstMatchIs(routes, path, i);
  }
}
