/** GlobalSearch: the search box over projects, customers and quotes — the
  * field match, the relevance score and the ordering by it, the minimum
  * query length, the wrap-around keyboard navigation and the search index. */
module GlobalSearch {
  import opened Basics
  import opened Text
  import opened JsValues
  import opened Sorting

  // ---------------------------------------------------------------------
  // Words

  /** `text.split(/\s+/)`: the maximal runs of non-space characters, with an
    * empty word before a leading and after a trailing run of spaces. */
  function Words(s: string): (r: seq<string>)
    ensures |r| >= 1
    decreases |s|
  {
    if s == [] then [[]]
    else
      var rest := Words(s[1..]);
      if IsSpace(s[0]) then
        if rest[0] == [] && |s| > 1 && IsSpace(s[1]) then rest else [[]] + rest
      else [[s[0]] + rest[0]] + rest[1..]
  }

  /** The first word starts the text, and every word occurs in it. */
  lemma {:induction false} WordsOccur(s: string)
    ensures Words(s)[0] <= s
    ensures forall w :: w in Words(s) ==> Contains(s, w)
    decreases |s|
  {
    if s == [] {
      ContainsEmpty(s);
    } else {
      var rest := Words(s[1..]);
      WordsOccur(s[1..]);
      assert forall w :: Contains(s[1..], w) ==> Contains(s, w);
      if IsSpace(s[0]) {
        ContainsEmpty(s);
      } else {
        var first := [s[0]] + rest[0];
        assert first <= s by {
          assert s == [s[0]] + s[1..];
        }
        assert forall w :: w in Words(s) ==> w == first || w in rest;
      }
    }
  }

  // ---------------------------------------------------------------------
  // Relevance

  /** `a.startsWith(b)`. */
  predicate StartsWith(a: string, b: string) { b <= a }

  /** The word-prefix test of getRelevanceScore. */
  predicate SomeWordStartsWith(text: string, query: string) {
    exists w :: w in Words(text) && StartsWith(w, query)
  }

  /** getRelevanceScore. */
  function RelevanceScore(text: string, query: string): int {
    var t := Lower(text);
    var q := Lower(query);
    if t == q then 100
    else if StartsWith(t, q) then 80
    else if Contains(t, q) then 60
    else if SomeWordStartsWith(t, q) then 40
    else 0
  }

  /** A word that starts with the query makes the query a substring of the
    * text, so the word-prefix score is never given: the score is 100 for
    * equal texts, 80 for a prefix, 60 for any other occurrence, else 0. */
  lemma RelevanceScoreLevels(text: string, query: string)
    ensures var t, q := Lower(text), Lower(query);
      var r := RelevanceScore(text, query);
      (r == 100 <==> t == q) &&
      (r == 80 <==> t != q && StartsWith(t, q)) &&
      (r == 60 <==> !StartsWith(t, q) && Contains(t, q)) &&
      (r == 0 <==> !Contains(t, q)) &&
      r != 40
  {
    var t, q := Lower(text), Lower(query);
    if SomeWordStartsWith(t, q) {
      var w :| w in Words(t) && StartsWith(w, q);
      WordsOccur(t);
      assert Contains(w, q);
      ContainsTransitive(t, w, q);
    }
    if StartsWith(t, q) {
      assert Contains(t, q);
    }
  }

  // ---------------------------------------------------------------------
  // Matching and results

  /** matchesQuery: some listed property is truthy and its lower-cased text
    * contains the (already lower-cased) query. */
  function MatchesQuery(item: JsValue, query: string, fields: seq<string>): (b: bool)
    ensures b <==> (exists k :: 0 <= k < |fields| && Truthy(Prop(item, fields[k])) &&
                               Contains(Lower(ToStr(Prop(item, fields[k]))), query))
  {
    if fields == [] then false
    else
      var v := Prop(item, fields[0]);
      var rest := MatchesQuery(item, query, fields[1..]);
      assert forall k :: 1 <= k < |fields| ==> fields[k] == fields[1..][k - 1];
      if rest then
        var k :| 0 <= k < |fields[1..]| && Truthy(Prop(item, fields[1..][k])) &&
          Contains(Lower(ToStr(Prop(item, fields[1..][k]))), query);
        assert fields[k + 1] == fields[1..][k];
        true
      else Truthy(v) && Contains(Lower(ToStr(v)), query)
  }

  datatype Hit = Hit(kind: string, title: JsValue, data: JsValue)

  const ProjectFields: seq<string> := ["clientName", "number", "siteAddress", "description"]
  const CustomerFields: seq<string> := ["name", "company", "email", "phone"]
  const QuoteFields: seq<string> := ["number", "description"]

  function ProjectHits(projects: seq<JsValue>, q: string): (r: seq<Hit>)
    ensures forall h :: h in r ==> h.kind == "project" && h.data in projects && MatchesQuery(h.data, q, ProjectFields)
    ensures forall p :: p in projects && MatchesQuery(p, q, ProjectFields) ==> exists h :: h in r && h.data == p
    ensures forall h :: h in r ==> h.title.Str?
  {
    if projects == [] then []
    else
      var p := projects[0];
      var rest := ProjectHits(projects[1..], q);
      if MatchesQuery(p, q, ProjectFields) then
        var h := Hit("project", Str(ToStr(Prop(p, "number")) + " - " + ToStr(Prop(p, "clientName"))), p);
        assert h in [h] + rest;
        [h] + rest
      else rest
  }

  function CustomerHits(customers: seq<JsValue>, q: string): (r: seq<Hit>)
    ensures forall h :: h in r ==> h.kind == "customer" && h.data in customers && MatchesQuery(h.data, q, CustomerFields)
    ensures forall c :: c in customers && MatchesQuery(c, q, CustomerFields) ==> exists h :: h in r && h.data == c
  {
    if customers == [] then []
    else
      var c := customers[0];
      var rest := CustomerHits(customers[1..], q);
      if MatchesQuery(c, q, CustomerFields) then
        var h := Hit("customer", Prop(c, "name"), c);
        assert h in [h] + rest;
        [h] + rest
      else rest
  }

  /** `project.quotes?.forEach`: a missing list gives none. */
  function QuotesOf(p: JsValue): seq<JsValue> {
    match Prop(p, "quotes")
    case Arr(items) => items
    case _ => []
  }

  /** The hit a matching quote of a project becomes. */
  function QuoteHit(p: JsValue, quote: JsValue): Hit {
    Hit("quote", Str("Quote " + ToStr(Prop(quote, "number"))), Obj([("quote", quote), ("project", p)]))
  }

  /** One project's quotes: exactly the matching ones become hits. */
  function QuoteHitsOf(p: JsValue, quotes: seq<JsValue>, q: string): (r: seq<Hit>)
    ensures |r| <= |quotes|
    ensures forall h :: h in r ==> exists quote :: quote in quotes && MatchesQuery(quote, q, QuoteFields) && h == QuoteHit(p, quote)
    ensures forall quote :: quote in quotes && MatchesQuery(quote, q, QuoteFields) ==> QuoteHit(p, quote) in r
  {
    if quotes == [] then []
    else
      var rest := QuoteHitsOf(p, quotes[1..], q);
      var quote := quotes[0];
      assert forall x :: x in quotes[1..] ==> x in quotes;
      if MatchesQuery(quote, q, QuoteFields)
      then
        assert QuoteHit(p, quote) in [QuoteHit(p, quote)] + rest;
        [QuoteHit(p, quote)] + rest
      else rest
  }

  /** The quotes are searched in their list order: the hits of a joined list
    * are the hits of its first part followed by those of its second. */
  lemma {:induction false} QuoteHitsOfConcat(p: JsValue, a: seq<JsValue>, b: seq<JsValue>, q: string)
    ensures QuoteHitsOf(p, a + b, q) == QuoteHitsOf(p, a, q) + QuoteHitsOf(p, b, q)
  {
    if a == [] {
      assert a + b == b;
    } else {
      assert (a + b)[1..] == a[1..] + b;
      QuoteHitsOfConcat(p, a[1..], b, q);
    }
  }

  lemma QuoteHitsOfSingle(p: JsValue, quote: JsValue, q: string)
    ensures QuoteHitsOf(p, [quote], q) == if MatchesQuery(quote, q, QuoteFields) then [QuoteHit(p, quote)] else []
  {
    assert [quote][1..] == [];
  }

  /** Every project's quotes in project order: a hit is a matching quote of
    * some project, paired with that project, and every such pair is a hit. */
  function QuoteHits(projects: seq<JsValue>, q: string): (r: seq<Hit>)
    ensures forall h :: h in r ==> h.kind == "quote" && h.title.Str?
    ensures forall h :: h in r ==>
      exists p, quote :: p in projects && quote in QuotesOf(p) && MatchesQuery(quote, q, QuoteFields) && h == QuoteHit(p, quote)
    ensures forall p, quote :: p in projects && quote in QuotesOf(p) && MatchesQuery(quote, q, QuoteFields) ==>
      QuoteHit(p, quote) in r
  {
    if projects == [] then []
    else
      var first := QuoteHitsOf(projects[0], QuotesOf(projects[0]), q);
      var rest := QuoteHits(projects[1..], q);
      assert forall x :: x in projects[1..] ==> x in projects;
      assert forall p :: p in projects ==> p == projects[0] || p in projects[1..];
      first + rest
  }

  /** Projects are searched in order, as their concatenation shows. */
  lemma {:induction false} QuoteHitsConcat(a: seq<JsValue>, b: seq<JsValue>, q: string)
    ensures QuoteHits(a + b, q) == QuoteHits(a, q) + QuoteHits(b, q)
  {
    if a == [] {
      assert a + b == b;
    } else {
      assert (a + b)[1..] == a[1..] + b;
      QuoteHitsConcat(a[1..], b, q);
    }
  }

  /** searchAllSources before the ordering: projects, then customers, then
    * each project's quotes. */
  function Candidates(projects: seq<JsValue>, customers: seq<JsValue>, query: string): seq<Hit> {
    var q := Lower(query);
    ProjectHits(projects, q) + CustomerHits(customers, q) + QuoteHits(projects, q)
  }

  /** The sort key: the negated score, so that the comparator `key(a) -
    * key(b)` is `bScore - aScore`. */
  function NegScore(h: Hit, query: string): int {
    -RelevanceScore(if h.title.Str? then h.title.s else [], query)
  }

  function ByRelevance(query: string): (Hit, Hit) -> int {
    var key := (h: Hit) => NegScore(h, query);
    (a: Hit, b: Hit) => key(a) - key(b)
  }

  /** searchAllSources: the candidates in order of falling relevance; a
    * customer title that is not text makes the scoring throw once there are
    * two results to compare. */
  function SearchAll(projects: seq<JsValue>, customers: seq<JsValue>, query: string): Result<seq<Hit>, string> {
    var hits := Candidates(projects, customers, query);
    if |hits| >= 2 && exists k :: 0 <= k < |hits| && !hits[k].title.Str? then Err("TypeError")
    else Ok(SortBy(hits, ByRelevance(query)))
  }

  /** The results are the candidates, reordered so that the scores never rise. */
  lemma SearchAllOrdered(projects: seq<JsValue>, customers: seq<JsValue>, query: string)
    requires SearchAll(projects, customers, query).Ok?
    ensures var r := SearchAll(projects, customers, query).value;
      multiset(r) == multiset(Candidates(projects, customers, query)) &&
      forall i, j :: 0 <= i < j < |r| ==> NegScore(r[i], query) <= NegScore(r[j], query)
  {
    var hits := Candidates(projects, customers, query);
    var key := (h: Hit) => NegScore(h, query);
    KeyComparatorConsistent(key, hits);
    SortBySorted(hits, ByRelevance(query));
  }

  /** Every project result matches the query in one of its listed fields. */
  lemma ProjectResultsMatch(projects: seq<JsValue>, customers: seq<JsValue>, query: string, h: Hit)
    requires SearchAll(projects, customers, query).Ok? && h in SearchAll(projects, customers, query).value
    requires h.kind == "project"
    ensures h.data in projects && MatchesQuery(h.data, Lower(query), ProjectFields)
  {
    var hits := Candidates(projects, customers, query);
    assert h in multiset(SortBy(hits, ByRelevance(query)));
    assert h in hits;
    var q := Lower(query);
    assert "project" != "customer" && "project" != "quote";
  }

  // ---------------------------------------------------------------------
  // Keyboard

  /** ArrowDown: the next item, wrapping from the last to the first. */
  function ArrowDownIndex(current: int, count: nat): (r: int)
    requires count > 0 && -1 <= current < count
    ensures 0 <= r < count
    ensures current == count - 1 ==> r == 0
  {
    if current < count - 1 then current + 1 else 0
  }

  /** ArrowUp: the previous item, wrapping from the first (or none) to the last. */
  function ArrowUpIndex(current: int, count: nat): (r: int)
    requires count > 0 && -1 <= current < count
    ensures 0 <= r < count
    ensures current <= 0 ==> r == count - 1
  {
    if current > 0 then current - 1 else count - 1
  }

  /** Down then up returns to a highlighted item. */
  lemma ArrowDownUp(current: int, count: nat)
    requires count > 0 && 0 <= current < count
    ensures ArrowUpIndex(ArrowDownIndex(current, count), count) == current
  {}

  datatype Key = ArrowDown | ArrowUp | Enter | Escape | OtherKey

  // ---------------------------------------------------------------------
  // The component

  /** The minimum query: a search is scheduled only for at least two
    * characters after trimming. */
  predicate SearchableQuery(query: string) {
    |Trim(query)| >= 2
  }

  const SourceTypes: seq<string> := ["customers", "projects", "quotes", "orders", "contacts", "employees"]

  class Search {
    /** searchableData, by type. */
    var index: seq<(string, seq<JsValue>)>
    /** The query of the pending debounced search. */
    var pending: Option<string>
    var resultsVisible: bool
    /** The highlighted result, -1 for none. */
    var active: int
    var resultCount: nat

    predicate Valid()
      reads this
    {
      Keys(index) == SourceTypes && -1 <= active < resultCount
    }

    /** The constructor runs init(), whose loadSearchableData has no await,
      * so the sample customers (here the parameter `sample`) are in the
      * index before the constructor returns; the other types start empty. */
    constructor(sample: seq<JsValue>)
      ensures Valid() && pending.None? && !resultsVisible && active == -1 && resultCount == 0
      ensures Lookup(index, "customers") == Some(sample)
      ensures forall t :: t in SourceTypes && t != "customers" ==> Lookup(index, t) == Some([])
    {
      var rest: seq<(string, seq<JsValue>)> := [("projects", []), ("quotes", []), ("orders", []), ("contacts", []), ("employees", [])];
      assert ([("customers", sample)] + rest)[1..] == rest;
      index := [("customers", sample)] + rest;
      pending := None;
      resultsVisible := false;
      active := -1;
      resultCount := 0;
    }

    /** handleSearchInput: a short query hides the results and schedules
      * nothing; a longer one replaces the pending search. */
    method HandleSearchInput(query: string)
      modifies this
      requires Valid()
      ensures Valid()
      ensures !SearchableQuery(query) ==> pending.None? && !resultsVisible
      ensures SearchableQuery(query) ==> pending == Some(query) && resultsVisible == old(resultsVisible)
      ensures index == old(index) && active == old(active) && resultCount == old(resultCount)
    {
      pending := None;
      if |Trim(query)| < 2 {
        resultsVisible := false;
        return;
      }
      pending := Some(query);
    }

    /** The pending search runs: its results are shown, none highlighted. */
    method ShowResults(count: nat)
      modifies this
      requires Valid()
      ensures Valid()
      ensures pending.None? && resultsVisible && resultCount == count && active == -1 && index == old(index)
    {
      pending := None;
      resultsVisible := true;
      resultCount := count;
      active := -1;
    }

    /** handleKeyboardNavigation; returns the result Enter opens. Choosing a
      * result clicks it, and its click handler hides the results. */
    method HandleKey(key: Key) returns (chosen: Option<nat>)
      modifies this
      requires Valid()
      ensures Valid()
      ensures old(resultCount) == 0 ==> active == old(active) && resultsVisible == old(resultsVisible) && chosen.None?
      ensures old(resultCount) > 0 && key == ArrowDown ==>
        active == ArrowDownIndex(old(active), old(resultCount)) && resultsVisible == old(resultsVisible)
      ensures old(resultCount) > 0 && key == ArrowUp ==>
        active == ArrowUpIndex(old(active), old(resultCount)) && resultsVisible == old(resultsVisible)
      ensures old(resultCount) > 0 && key == Enter ==>
        chosen == (if old(active) >= 0 then Some(old(active) as nat) else None) && active == old(active)
      ensures old(resultCount) > 0 && key == Enter && old(active) >= 0 ==> !resultsVisible
      ensures old(resultCount) > 0 && key == Enter && old(active) < 0 ==> resultsVisible == old(resultsVisible)
      ensures old(resultCount) > 0 && key == Escape ==> !resultsVisible && active == old(active)
      ensures key == OtherKey ==> active == old(active) && resultsVisible == old(resultsVisible)
      ensures key != Enter ==> chosen.None?
      ensures index == old(index) && resultCount == old(resultCount) && pending == old(pending)
    {
      chosen := None;
      if resultCount == 0 {
        return;
      }
      match key
      case ArrowDown => active := ArrowDownIndex(active, resultCount);
      case ArrowUp => active := ArrowUpIndex(active, resultCount);
      case Enter =>
        if active >= 0 {
          chosen := Some(active as nat);
          resultsVisible := false;
        }
      case Escape => resultsVisible := false;
      case OtherKey =>
    }

    /** addToSearchIndex: appends to a known type; an unknown type is ignored. */
    method AddToSearchIndex(kind: string, items: seq<JsValue>)
      modifies this
      requires Valid()
      ensures Valid()
      ensures Lookup(old(index), kind).None? ==> index == old(index)
      ensures Lookup(old(index), kind).Some? ==> Lookup(index, kind) == Some(Lookup(old(index), kind).value + items)
      ensures forall t :: t != kind ==> Lookup(index, t) == Lookup(old(index), t)
      ensures pending == old(pending) && active == old(active) && resultCount == old(resultCount)
    {
      var current := Lookup(index, kind);
      if current.Some? {
        KeysPut(index, kind, current.value + items);
        forall t | t != kind {
          LookupPut(index, kind, current.value + items, t);
        }
        LookupPut(index, kind, current.value + items, kind);
        index := Put(index, kind, current.value + items);
      }
    }

    /** updateSearchIndex: replaces a known type's items; an unknown type is
      * ignored. */
    method UpdateSearchIndex(kind: string, items: seq<JsValue>)
      modifies this
      requires Valid()
      ensures Valid()
      ensures Lookup(old(index), kind).None? ==> index == old(index)
      ensures Lookup(old(index), kind).Some? ==> Lookup(index, kind) == Some(items)
      ensures forall t :: t != kind ==> Lookup(index, t) == Lookup(old(index), t)
      ensures pending == old(pending) && active == old(active) && resultCount == old(resultCount)
    {
      if Lookup(index, kind).Some? {
        KeysPut(index, kind, items);
        forall t | t != kind {
          LookupPut(index, kind, items, t);
        }
        LookupPut(index, kind, items, kind);
        index := Put(index, kind, items);
      }
    }
  }

  /** Only the six source types are known to the index. */
  lemma UnknownTypeIgnored(kind: string)
    requires kind !in SourceTypes
    ensures forall index: seq<(string, seq<JsValue>)> :: Keys(index) == SourceTypes ==> Lookup(index, kind).None?
  {}
}
