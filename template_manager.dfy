/** TemplateManager: the store of material-list templates, their processing
  * into quote items (each item's formula evaluated, nail quantities worked
  * out), the item counts and the consolidation of nails into one group of
  * kilogram quantities. Formula evaluation is a parameter: it either yields
  * a number or fails with a message; EvaluateFormula states how the
  * source's evaluator is built from a substitution and a guarded run. */
module TemplateManager {
  import opened Basics
  import opened Text
  import opened JsValues

  /** A nail requirement of an item: its formula and nail code. */
  datatype Nails = Nails(formula: string, code: string)

  /** A template item; an empty formula is no formula. */
  datatype Item = Item(stockCode: string, description: string, formula: string, unit: string, nails: Option<Nails>)

  datatype Pricing = Pricing(unitCost: real, unitPrice: real, margin: real, discount: real, commission: real)

  const ZeroPricing := Pricing(0.0, 0.0, 0.0, 0.0, 0.0)

  /** A processed item: the source item plus what processing added. */
  datatype Processed = Processed(
    item: Item,
    calculatedQuantity: Option<real>,
    hasCalculation: Option<bool>,
    formulaError: Option<string>,
    nailQuantity: Option<real>,
    nailCode: Option<string>,
    pricing: Pricing)

  datatype Group<I> = Group(name: string, items: seq<I>)

  datatype Template<I> = Template(name: string, description: string, category: string, groups: seq<Group<I>>)

  /** The formula evaluator: a number, or the error it throws. */
  type Evaluator = string -> Result<real, string>

  /** `Math.round(x * 100) / 100`: the nearest hundredth, halves rounded up. */
  function RoundHundredths(x: real): (r: real)
    ensures (r * 100.0).Floor as real == r * 100.0
    ensures x - 0.005 < r <= x + 0.005
  {
    var n := (x * 100.0 + 0.5).Floor;
    assert n as real <= x * 100.0 + 0.5 < n as real + 1.0;
    assert (n as real / 100.0) * 100.0 == n as real;
    n as real / 100.0
  }

  /** evaluateFormula, given its two steps. `substitute` is the replacement
    * of variable names by their values; it runs unguarded and can throw (a
    * null value, or a name that is not a valid regular expression). `run`
    * is the `Function(...)` call, None when it throws; that failure is
    * caught and gives 0, and a result is rounded to hundredths. */
  function EvaluateFormula(formula: string, substitute: string -> Result<string, string>,
                           run: string -> Option<real>): (r: Result<real, string>)
    ensures r.Err? <==> substitute(formula).Err?
    ensures r.Err? ==> r.error == substitute(formula).error
    ensures r.Ok? && run(substitute(formula).value).None? ==> r.value == 0.0
    ensures r.Ok? && run(substitute(formula).value).Some? ==>
      var x := run(substitute(formula).value).value;
      r.value == RoundHundredths(x) && x - 0.005 < r.value <= x + 0.005
  {
    match substitute(formula)
    case Err(e) => Err(e)
    case Ok(code) =>
      match run(code)
      case Some(x) => Ok(RoundHundredths(x))
      case None => Ok(0.0)
  }

  // ---------------------------------------------------------------------
  // Processing

  /** processTemplateItem. */
  function ProcessItem(item: Item, eval: Evaluator): Processed {
    var quantity := if item.formula == [] then None else
      match eval(item.formula)
      case Ok(v) => Some(v)
      case Err(_) => Some(0.0);
    var has := if item.formula == [] then None else Some(eval(item.formula).Ok?);
    var error := if item.formula == [] || eval(item.formula).Ok? then None else Some(eval(item.formula).error);
    var withNails := item.nails.Some? && quantity.Some? && quantity.value > 0.0;
    var nailResult := if withNails then eval(item.nails.value.formula) else Err("");
    Processed(item, quantity, has,
              error,
              if withNails && nailResult.Ok? then Some(nailResult.value) else None,
              if withNails && nailResult.Ok? then Some(item.nails.value.code) else None,
              ZeroPricing)
  }

  /** Nails are worked out only for an item whose quantity came out
    * positive; the pricing is all zeros; an evaluator that throws leaves
    * quantity 0 and its message; no formula, no quantity. */
  lemma ProcessItemProperties(item: Item, eval: Evaluator)
    ensures var p := ProcessItem(item, eval);
      p.item == item && p.pricing == ZeroPricing &&
      (p.nailQuantity.Some? ==> item.nails.Some? && p.calculatedQuantity.Some? && p.calculatedQuantity.value > 0.0) &&
      (p.nailQuantity.Some? <==> p.nailCode.Some?) &&
      (item.formula == [] ==> p.calculatedQuantity.None? && p.nailQuantity.None?) &&
      (item.formula != [] && eval(item.formula).Err? ==>
        p.calculatedQuantity == Some(0.0) && p.hasCalculation == Some(false) &&
        p.formulaError == Some(eval(item.formula).error) && p.nailQuantity.None?) &&
      (item.formula != [] && eval(item.formula).Ok? ==>
        p.calculatedQuantity == Some(eval(item.formula).value) && p.hasCalculation == Some(true))
  {}

  /** With the source's evaluator, a formula error is always a substitution
    * error: an expression that fails to evaluate gives quantity 0 but
    * counts as a calculation. */
  lemma ProcessItemErrorsAreSubstitution(item: Item, substitute: string -> Result<string, string>,
                                         run: string -> Option<real>)
    requires item.formula != []
    ensures var p := ProcessItem(item, f => EvaluateFormula(f, substitute, run));
      (p.formulaError.Some? <==> substitute(item.formula).Err?) &&
      (substitute(item.formula).Ok? && run(substitute(item.formula).value).None? ==>
        p.calculatedQuantity == Some(0.0) && p.hasCalculation == Some(true))
  {
    var eval: Evaluator := f => EvaluateFormula(f, substitute, run);
    assert eval(item.formula) == EvaluateFormula(item.formula, substitute, run);
  }

  function ProcessItems(items: seq<Item>, eval: Evaluator): (r: seq<Processed>)
    ensures |r| == |items| && forall k :: 0 <= k < |r| ==> r[k] == ProcessItem(items[k], eval)
  {
    if items == [] then [] else [ProcessItem(items[0], eval)] + ProcessItems(items[1..], eval)
  }

  function ProcessGroups(groups: seq<Group<Item>>, eval: Evaluator): (r: seq<Group<Processed>>)
    ensures |r| == |groups|
    ensures forall k :: 0 <= k < |r| ==> r[k] == Group(groups[k].name, ProcessItems(groups[k].items, eval))
  {
    if groups == [] then []
    else [Group(groups[0].name, ProcessItems(groups[0].items, eval))] + ProcessGroups(groups[1..], eval)
  }

  function ProcessTemplateValue(t: Template<Item>, eval: Evaluator): Template<Processed> {
    Template(t.name, t.description, t.category, ProcessGroups(t.groups, eval))
  }

  /** Processing keeps the template's fields, the groups with their names
    * and order, and every group's items in order, one processed item for
    * each. */
  lemma ProcessKeepsShape(t: Template<Item>, eval: Evaluator)
    ensures var p := ProcessTemplateValue(t, eval);
      p.name == t.name && p.description == t.description && p.category == t.category &&
      |p.groups| == |t.groups| &&
      forall g :: 0 <= g < |t.groups| ==>
        p.groups[g].name == t.groups[g].name && |p.groups[g].items| == |t.groups[g].items| &&
        forall k :: 0 <= k < |t.groups[g].items| ==> p.groups[g].items[k].item == t.groups[g].items[k]
  {}

  // ---------------------------------------------------------------------
  // Counting

  /** The items of the groups, group after group. */
  function Flat<I>(groups: seq<Group<I>>): seq<I>
    decreases |groups|
  {
    if groups == [] then [] else Flat(groups[..|groups| - 1]) + groups[|groups| - 1].items
  }

  /** `groups.reduce((sum, group) => sum + group.items.length, 0)`. */
  function ItemCount<I>(groups: seq<Group<I>>): nat
    decreases |groups|
  {
    if groups == [] then 0 else ItemCount(groups[..|groups| - 1]) + |groups[|groups| - 1].items|
  }

  /** The reduce counts exactly the items listed group after group. */
  lemma {:induction false} ItemCountFlat<I>(groups: seq<Group<I>>)
    ensures ItemCount(groups) == |Flat(groups)|
    decreases |groups|
  {
    if groups != [] {
      var init := groups[..|groups| - 1];
      ItemCountFlat(init);
      assert Flat(groups) == Flat(init) + groups[|groups| - 1].items;
    }
  }

  predicate HasQuantity(p: Processed) {
    p.calculatedQuantity.Some? && p.calculatedQuantity.value > 0.0
  }

  function CountWithQuantity(items: seq<Processed>): (n: nat)
    ensures n <= |items|
    decreases |items|
  {
    if items == [] then 0
    else CountWithQuantity(items[..|items| - 1]) + (if HasQuantity(items[|items| - 1]) then 1 else 0)
  }

  /** countTemplateItems: the two counters of the nested loops. */
  method CountTemplateItems(t: Template<Processed>) returns (total: nat, withQuantity: nat, withoutQuantity: int)
    ensures total == |Flat(t.groups)| && withQuantity == CountWithQuantity(Flat(t.groups))
    ensures withQuantity <= total && withoutQuantity == total - withQuantity && withoutQuantity >= 0
  {
    total := 0;
    withQuantity := 0;
    var groups := t.groups;
    var g := 0;
    assert groups[..0] == [];
    while g < |groups|
      invariant 0 <= g <= |groups|
      invariant total == |Flat(groups[..g])| && withQuantity == CountWithQuantity(Flat(groups[..g]))
    {
      var items := groups[g].items;
      var done := Flat(groups[..g]);
      var j := 0;
      assert done + items[..0] == done;
      while j < |items|
        invariant 0 <= j <= |items|
        invariant total == |done + items[..j]| && withQuantity == CountWithQuantity(done + items[..j])
      {
        assert (done + items[..j + 1])[..|done + items[..j]|] == done + items[..j];
        total := total + 1;
        if HasQuantity(items[j]) {
          withQuantity := withQuantity + 1;
        }
        j := j + 1;
      }
      assert groups[..g + 1][..g] == groups[..g];
      assert items[..j] == items;
      g := g + 1;
    }
    assert groups[..g] == groups;
    withoutQuantity := total - withQuantity;
  }

  /** Counting a processed template finds as many items as its summary
    * reports for the unprocessed one. */
  lemma ProcessedCountMatchesSummary(t: Template<Item>, eval: Evaluator)
    ensures |Flat(ProcessTemplateValue(t, eval).groups)| == ItemCount(t.groups)
  {
    ItemCountFlat(t.groups);
    ItemCountFlat(ProcessTemplateValue(t, eval).groups);
    ItemCountSameShape(t.groups, ProcessTemplateValue(t, eval).groups);
  }

  lemma {:induction false} ItemCountSameShape<I, J>(a: seq<Group<I>>, b: seq<Group<J>>)
    requires |a| == |b| && forall k :: 0 <= k < |a| ==> |a[k].items| == |b[k].items|
    ensures ItemCount(a) == ItemCount(b)
    decreases |a|
  {
    if a != [] {
      ItemCountSameShape(a[..|a| - 1], b[..|b| - 1]);
    }
  }

  // ---------------------------------------------------------------------
  // Summaries

  /** One entry of getAvailableTemplates. */
  datatype Summary = Summary(id: string, name: string, description: string, category: string,
                             groupCount: nat, itemCount: nat)

  function Summaries(templates: seq<(string, Template<Item>)>): (r: seq<Summary>)
    ensures |r| == |templates|
    ensures forall k :: 0 <= k < |r| ==>
      r[k].id == templates[k].0 && r[k].name == templates[k].1.name &&
      r[k].groupCount == |templates[k].1.groups| && r[k].itemCount == |Flat(templates[k].1.groups)|
  {
    if templates == [] then []
    else
      var t := templates[0].1;
      ItemCountFlat(t.groups);
      [Summary(templates[0].0, t.name, t.description, t.category, |t.groups|, ItemCount(t.groups))] +
      Summaries(templates[1..])
  }

  // ---------------------------------------------------------------------
  // Nail consolidation

  /** The nails per kilogram of a code; 180 for codes not listed. */
  function NailsPerKg(code: string): (r: real)
    ensures r > 0.0
    ensures code !in ["NAIL-75", "NAIL-90", "NAIL-65", "SCREW-12X65"] ==> r == 180.0
  {
    if code == "NAIL-75" then 180.0
    else if code == "NAIL-90" then 150.0
    else if code == "NAIL-65" then 200.0
    else if code == "SCREW-12X65" then 160.0
    else 180.0
  }

  function NailDescription(code: string): string {
    if code == "NAIL-75" then "75mm Galvanised Nails"
    else if code == "NAIL-90" then "90mm Galvanised Nails"
    else if code == "NAIL-65" then "65mm Galvanised Nails"
    else if code == "SCREW-12X65" then "12x65mm Timber Screws"
    else code
  }

  /** `Math.ceil`. */
  function Ceil(x: real): (r: int)
    ensures x <= r as real < x + 1.0
  {
    if x.Floor as real == x then x.Floor else x.Floor + 1
  }

  /** convertNailsToKg: the weight rounded up to hundredths of a kilogram. */
  function ConvertNailsToKg(quantity: real, code: string): real {
    Ceil(quantity / NailsPerKg(code) * 100.0) as real / 100.0
  }

  /** The result is the least whole number of hundredths that is at least
    * the exact weight. */
  lemma ConvertNailsToKgRoundsUp(quantity: real, code: string)
    ensures var kg := quantity / NailsPerKg(code);
      var r := ConvertNailsToKg(quantity, code);
      kg <= r < kg + 0.01 && (r * 100.0).Floor as real == r * 100.0
  {
    var c := Ceil(quantity / NailsPerKg(code) * 100.0);
    assert ConvertNailsToKg(quantity, code) * 100.0 == c as real;
  }

  /** A processed item with its group's name. */
  type Sourced = (string, Processed)

  /** The items, each with its group name, group after group. */
  function Pairs(groups: seq<Group<Processed>>): seq<Sourced>
    decreases |groups|
  {
    if groups == [] then []
    else Pairs(groups[..|groups| - 1]) + GroupPairs(groups[|groups| - 1].name, groups[|groups| - 1].items)
  }

  function GroupPairs(name: string, items: seq<Processed>): (r: seq<Sourced>)
    ensures |r| == |items| && forall k :: 0 <= k < |r| ==> r[k] == (name, items[k])
  {
    seq(|items|, k requires 0 <= k < |items| => (name, items[k]))
  }

  /** An item counts toward its nail code when the code is set and the nail
    * quantity is positive. */
  predicate Contributes(p: Sourced) {
    p.1.nailCode.Some? && p.1.nailCode.value != [] && p.1.nailQuantity.Some? && p.1.nailQuantity.value > 0.0
  }

  /** Per code: the total number of nails and the contributing groups. */
  type Tally = seq<(string, (real, seq<string>))>

  function TallyStep(acc: Tally, p: Sourced): Tally {
    if Contributes(p) then
      var code := p.1.nailCode.value;
      var prev := match Lookup(acc, code) case Some(e) => e case None => (0.0, []);
      Put(acc, code, (prev.0 + p.1.nailQuantity.value, prev.1 + [p.0]))
    else acc
  }

  function Consolidate(pairs: seq<Sourced>): Tally
    decreases |pairs|
  {
    if pairs == [] then [] else TallyStep(Consolidate(pairs[..|pairs| - 1]), pairs[|pairs| - 1])
  }

  /** The contributions for one code, summed, and their group names. */
  function TotalFor(pairs: seq<Sourced>, code: string): real
    decreases |pairs|
  {
    if pairs == [] then 0.0
    else
      var p := pairs[|pairs| - 1];
      TotalFor(pairs[..|pairs| - 1], code) + (if Contributes(p) && p.1.nailCode.value == code then p.1.nailQuantity.value else 0.0)
  }

  function SourcesFor(pairs: seq<Sourced>, code: string): seq<string>
    decreases |pairs|
  {
    if pairs == [] then []
    else
      var p := pairs[|pairs| - 1];
      SourcesFor(pairs[..|pairs| - 1], code) + (if Contributes(p) && p.1.nailCode.value == code then [p.0] else [])
  }

  predicate AnyFor(pairs: seq<Sourced>, code: string) {
    exists k :: 0 <= k < |pairs| && Contributes(pairs[k]) && pairs[k].1.nailCode.value == code
  }

  /** What consolidation should hold for a code. */
  function Expected(pairs: seq<Sourced>, code: string): Option<(real, seq<string>)> {
    if AnyFor(pairs, code) then Some((TotalFor(pairs, code), SourcesFor(pairs, code))) else None
  }

  /** Each code found holds the sum of its contributions and the names of
    * the contributing groups in order; a code nobody contributes to is
    * absent. */
  lemma {:induction false} ConsolidateTotals(pairs: seq<Sourced>, code: string)
    ensures Lookup(Consolidate(pairs), code) == Expected(pairs, code)
    decreases |pairs|
  {
    if pairs != [] {
      var init := pairs[..|pairs| - 1];
      var p := pairs[|pairs| - 1];
      ConsolidateTotals(init, code);
      assert pairs == init + [p];
      if Contributes(p) && p.1.nailCode.value == code {
        ConsolidateHit(init, p, code);
      } else if Contributes(p) {
        ConsolidateOther(init, p, code);
      } else {
        ConsolidateSkip(init, p, code);
      }
    }
  }

  lemma ConsolidateSkip(init: seq<Sourced>, p: Sourced, code: string)
    requires Lookup(Consolidate(init), code) == Expected(init, code)
    requires !Contributes(p)
    ensures Lookup(Consolidate(init + [p]), code) == Expected(init + [p], code)
  {
    var pairs := init + [p];
    assert pairs[..|pairs| - 1] == init && pairs[|pairs| - 1] == p;
    assert Consolidate(pairs) == Consolidate(init);
    AnyForSnoc(init, p, code);
    assert TotalFor(pairs, code) == TotalFor(init, code);
    assert SourcesFor(pairs, code) == SourcesFor(init, code);
    assert Expected(pairs, code) == Expected(init, code);
  }

  lemma ConsolidateOther(init: seq<Sourced>, p: Sourced, code: string)
    requires Lookup(Consolidate(init), code) == Expected(init, code)
    requires Contributes(p) && p.1.nailCode.value != code
    ensures Lookup(Consolidate(init + [p]), code) == Expected(init + [p], code)
  {
    var pairs := init + [p];
    assert pairs[..|pairs| - 1] == init && pairs[|pairs| - 1] == p;
    var acc := Consolidate(init);
    var c := p.1.nailCode.value;
    var prev := match Lookup(acc, c) case Some(e) => e case None => (0.0, []);
    assert Consolidate(pairs) == Put(acc, c, (prev.0 + p.1.nailQuantity.value, prev.1 + [p.0]));
    LookupPut(acc, c, (prev.0 + p.1.nailQuantity.value, prev.1 + [p.0]), code);
    AnyForSnoc(init, p, code);
    assert TotalFor(pairs, code) == TotalFor(init, code);
    assert SourcesFor(pairs, code) == SourcesFor(init, code);
    assert Expected(pairs, code) == Expected(init, code);
  }

  lemma ConsolidateHit(init: seq<Sourced>, p: Sourced, code: string)
    requires Lookup(Consolidate(init), code) == Expected(init, code)
    requires Contributes(p) && p.1.nailCode.value == code
    ensures Lookup(Consolidate(init + [p]), code) == Expected(init + [p], code)
  {
    var pairs := init + [p];
    assert pairs[..|pairs| - 1] == init && pairs[|pairs| - 1] == p;
    var acc := Consolidate(init);
    var prev := match Lookup(acc, code) case Some(e) => e case None => (0.0, []);
    LookupPut(acc, code, (prev.0 + p.1.nailQuantity.value, prev.1 + [p.0]), code);
    assert AnyFor(pairs, code) by { assert pairs[|pairs| - 1] == p; }
    if !AnyFor(init, code) {
      NoneForEmpty(init, code);
      assert SourcesFor(pairs, code) == [] + [p.0];
    }
  }

  lemma AnyForSnoc(init: seq<Sourced>, p: Sourced, code: string)
    requires !(Contributes(p) && p.1.nailCode.value == code)
    ensures AnyFor(init + [p], code) <==> AnyFor(init, code)
  {
    var all := init + [p];
    if AnyFor(all, code) {
      var k :| 0 <= k < |all| && Contributes(all[k]) && all[k].1.nailCode.value == code;
      assert k < |init| && all[k] == init[k];
    }
    if AnyFor(init, code) {
      var k :| 0 <= k < |init| && Contributes(init[k]) && init[k].1.nailCode.value == code;
      assert all[k] == init[k];
    }
  }

  lemma {:induction false} NoneForEmpty(pairs: seq<Sourced>, code: string)
    requires !AnyFor(pairs, code)
    ensures SourcesFor(pairs, code) == [] && TotalFor(pairs, code) == 0.0
    decreases |pairs|
  {
    if pairs != [] {
      var init := pairs[..|pairs| - 1];
      assert forall k :: 0 <= k < |init| ==> init[k] == pairs[k];
      NoneForEmpty(init, code);
    }
  }

  /** A consolidated fastener line. */
  datatype Consolidated = Consolidated(stockCode: string, description: string, calculatedQuantity: real,
                                       unit: string, originalQuantityEach: real, sources: string, pricing: Pricing)

  function ConsolidatedItems(tally: Tally): (r: seq<Consolidated>)
    ensures |r| == |tally|
    ensures forall k :: 0 <= k < |r| ==>
      r[k].stockCode == tally[k].0 && r[k].originalQuantityEach == tally[k].1.0 &&
      r[k].calculatedQuantity == ConvertNailsToKg(tally[k].1.0, tally[k].0) && r[k].unit == "kg"
  {
    if tally == [] then []
    else
      var e := tally[0];
      [Consolidated(e.0, NailDescription(e.0) + " (Consolidated)", ConvertNailsToKg(e.1.0, e.0), "kg",
                    e.1.0, JoinWith(e.1.1, ", "), ZeroPricing)] + ConsolidatedItems(tally[1..])
  }

  /** The group added to the quote, if any code was found. */
  function ConsolidatedGroup(tally: Tally): Option<Group<Consolidated>> {
    if |tally| > 0 then Some(Group("Consolidated Fasteners", ConsolidatedItems(tally))) else None
  }

  /** One more item of a group adds one more pair. */
  lemma GroupPairsStep(name: string, items: seq<Processed>, j: nat)
    requires j < |items|
    ensures GroupPairs(name, items[..j + 1]) == GroupPairs(name, items[..j]) + [(name, items[j])]
  {}

  /** Tallying one more pair is one more step of the accumulator. */
  lemma ConsolidateStep(before: seq<Sourced>, p: Sourced)
    ensures Consolidate(before + [p]) == TallyStep(Consolidate(before), p)
  {
    assert (before + [p])[..|before|] == before;
  }

  /** One more group adds its pairs. */
  lemma PairsStep(groups: seq<Group<Processed>>, g: nat)
    requires g < |groups|
    ensures Pairs(groups[..g + 1]) == Pairs(groups[..g]) + GroupPairs(groups[g].name, groups[g].items)
  {
    assert groups[..g + 1][..g] == groups[..g];
  }

  /** consolidateNailsInQuote: the accumulator loop over groups and items;
    * returns the group handed to the quote builder. */
  method ConsolidateNailsInQuote(t: Template<Processed>) returns (added: Option<Group<Consolidated>>)
    ensures added == ConsolidatedGroup(Consolidate(Pairs(t.groups)))
  {
    var tally: Tally := [];
    var groups := t.groups;
    var g := 0;
    assert groups[..0] == [];
    while g < |groups|
      invariant 0 <= g <= |groups|
      invariant tally == Consolidate(Pairs(groups[..g]))
    {
      PairsStep(groups, g);
      tally := TallyGroup(tally, Pairs(groups[..g]), groups[g]);
      g := g + 1;
    }
    assert groups[..g] == groups;
    added := ConsolidatedGroup(tally);
  }

  /** The inner forEach of consolidateNailsInQuote: each item of a group
    * tallied in turn. */
  method TallyGroup(tally: Tally, done: seq<Sourced>, group: Group<Processed>) returns (r: Tally)
    requires tally == Consolidate(done)
    ensures r == Consolidate(done + GroupPairs(group.name, group.items))
  {
    r := tally;
    var j := 0;
    assert done + GroupPairs(group.name, group.items[..0]) == done;
    while j < |group.items|
      invariant 0 <= j <= |group.items|
      invariant r == Consolidate(done + GroupPairs(group.name, group.items[..j]))
    {
      var before := done + GroupPairs(group.name, group.items[..j]);
      GroupPairsStep(group.name, group.items, j);
      ConsolidateStep(before, (group.name, group.items[j]));
      assert done + GroupPairs(group.name, group.items[..j + 1]) == before + [(group.name, group.items[j])];
      r := TallyStep(r, (group.name, group.items[j]));
      j := j + 1;
    }
    assert group.items[..j] == group.items;
  }

  /** A group is added exactly when some item has a nail code and a positive
    * nail quantity. */
  lemma {:induction false} ConsolidateEmptyIff(pairs: seq<Sourced>)
    ensures |Consolidate(pairs)| == 0 <==> forall k :: 0 <= k < |pairs| ==> !Contributes(pairs[k])
    decreases |pairs|
  {
    if pairs != [] {
      var init := pairs[..|pairs| - 1];
      var p := pairs[|pairs| - 1];
      ConsolidateEmptyIff(init);
      assert forall k :: 0 <= k < |init| ==> init[k] == pairs[k];
      if Contributes(p) {
        KeysPut(Consolidate(init), p.1.nailCode.value,
                (match Lookup(Consolidate(init), p.1.nailCode.value) case Some(e) => e.0 + p.1.nailQuantity.value case None => 0.0 + p.1.nailQuantity.value,
                 match Lookup(Consolidate(init), p.1.nailCode.value) case Some(e) => e.1 + [p.0] case None => [] + [p.0]));
        assert |Keys(Consolidate(pairs))| > 0;
      }
    }
  }

  // ---------------------------------------------------------------------
  // The template store

  /** `name.toLowerCase().replace(/\s+/g, '-')` after lower-casing: every
    * run of white space becomes one '-'. */
  function Slug(s: string): (r: string)
    ensures |r| <= |s|
    ensures forall k :: 0 <= k < |r| ==> !IsSpace(r[k])
    ensures forall k :: 0 <= k < |r| ==> r[k] == '-' || r[k] in s
    decreases |s|
  {
    if s == [] then []
    else if IsSpace(s[0]) then ['-'] + Slug(TrimStart(s))
    else [s[0]] + Slug(s[1..])
  }

  /** The id of a custom template. */
  function TemplateId(name: string): string {
    Slug(Lower(name))
  }

  /** A name without white space is only lower-cased. */
  lemma {:induction false} SlugNoSpace(s: string)
    requires forall k :: 0 <= k < |s| ==> !IsSpace(s[k])
    ensures Slug(s) == s
    decreases |s|
  {
    if s != [] {
      SlugNoSpace(s[1..]);
    }
  }

  /** The id function is idempotent: an id names itself. */
  lemma TemplateIdIdempotent(name: string)
    ensures TemplateId(TemplateId(name)) == TemplateId(name)
  {
    var low := Lower(name);
    var id := Slug(low);
    forall k | 0 <= k < |id| ensures !IsUpper(id[k]) {
      if id[k] != '-' {
        var m :| 0 <= m < |low| && low[m] == id[k];
      }
    }
    assert Lower(id) == id;
    SlugNoSpace(id);
  }

  /** Fields an update spreads over a template. */
  datatype Patch = Patch(name: Option<string>, description: Option<string>, category: Option<string>,
                         groups: Option<seq<Group<Item>>>)

  function Merge(t: Template<Item>, p: Patch): Template<Item> {
    Template(if p.name.Some? then p.name.value else t.name,
             if p.description.Some? then p.description.value else t.description,
             if p.category.Some? then p.category.value else t.category,
             if p.groups.Some? then p.groups.value else t.groups)
  }

  class Store {
    var templates: seq<(string, Template<Item>)>

    /** The built-in catalogue. */
    constructor(catalogue: seq<(string, Template<Item>)>)
      ensures templates == catalogue
    {
      templates := catalogue;
    }

    /** getAvailableTemplates. */
    method GetAvailableTemplates() returns (r: seq<Summary>)
      ensures |r| == |templates|
      ensures forall k :: 0 <= k < |r| ==>
        r[k].id == templates[k].0 && r[k].groupCount == |templates[k].1.groups| &&
        r[k].itemCount == |Flat(templates[k].1.groups)|
    {
      r := Summaries(templates);
    }

    /** processTemplate: an unknown id throws. */
    method ProcessTemplate(id: string, eval: Evaluator) returns (r: Result<Template<Processed>, string>)
      ensures Lookup(templates, id).None? ==> r == Err("Template " + id + " not found")
      ensures Lookup(templates, id).Some? ==> r == Ok(ProcessTemplateValue(Lookup(templates, id).value, eval))
    {
      var t := Lookup(templates, id);
      if t.None? {
        return Err("Template " + id + " not found");
      }
      r := Ok(ProcessTemplateValue(t.value, eval));
    }

    /** createCustomTemplate: stored under its slug, replacing any template
      * with that id. */
    method CreateCustomTemplate(data: Template<Item>) returns (id: string)
      modifies this
      ensures id == TemplateId(data.name)
      ensures templates == Put(old(templates), id, data)
    {
      id := TemplateId(data.name);
      templates := Put(templates, id, data);
    }

    /** updateTemplate: the patch spread over a known template. */
    method UpdateTemplate(id: string, patch: Patch) returns (ok: bool)
      modifies this
      ensures ok <==> Lookup(old(templates), id).Some?
      ensures ok ==> templates == Put(old(templates), id, Merge(Lookup(old(templates), id).value, patch))
      ensures !ok ==> templates == old(templates)
    {
      var t := Lookup(templates, id);
      ok := t.Some?;
      if ok {
        templates := Put(templates, id, Merge(t.value, patch));
      }
    }

    /** deleteTemplate. */
    method DeleteTemplate(id: string) returns (ok: bool)
      modifies this
      ensures ok <==> Lookup(old(templates), id).Some?
      ensures ok ==> templates == Remove(old(templates), id)
      ensures !ok ==> templates == old(templates)
    {
      ok := Lookup(templates, id).Some?;
      if ok {
        templates := Remove(templates, id);
      }
    }
  }

  /** A created template is found under its id with its data; a deleted
    * one is gone; neither touches another id. */
  lemma StoreEffects(templates: seq<(string, Template<Item>)>, data: Template<Item>, id: string, other: string)
    requires other != TemplateId(data.name) && other != id
    ensures Lookup(Put(templates, TemplateId(data.name), data), TemplateId(data.name)) == Some(data)
    ensures Lookup(Put(templates, TemplateId(data.name), data), other) == Lookup(templates, other)
    ensures Lookup(Remove(templates, id), id).None?
    ensures Lookup(Remove(templates, id), other) == Lookup(templates, other)
  {
    LookupPut(templates, TemplateId(data.name), data, other);
    LookupRemove(templates, id, other);
  }
}
