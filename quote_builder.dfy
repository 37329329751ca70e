/** QuoteBuilder: the lines of the quote being built — adding a line for a
  * stock item, editing a line's fields, removing lines, the line totals
  * and the quote total, and the lines a template adds. */
module QuoteBuilder {
  import opened Basics
  import opened JsValues
  import TemplateManager

  /** A quote line. The quantity and the unit price are numbers. */
  datatype QuoteLine = QuoteLine(id: real, stockItemId: JsValue, stockCode: JsValue, description: JsValue,
                                 formula: string, quantity: real, unitPrice: real, total: real,
                                 groupName: Option<string>)

  /** A stock item as offered for selection. */
  datatype StockItem = StockItem(id: JsValue, code: JsValue, description: JsValue, sellingPrice: Option<real>)

  /** The edits updateLineField receives from the line's inputs. */
  datatype Update =
    | SetStockItemId(v: JsValue)
    | SetStockCode(v: JsValue)
    | SetDescription(v: JsValue)
    | SetFormula(f: string)
    | SetQuantity(q: real)
    | SetUnitPrice(p: real)

  /** `a || ''`. */
  function OrEmpty(v: JsValue): JsValue {
    if Truthy(v) then v else Str([])
  }

  /** The line addQuoteLine builds: quantity 1, the stock item's selling
    * price (0 without one) as unit price and as total. */
  function NewLine(stock: Option<StockItem>, id: real): (l: QuoteLine)
    ensures l.quantity == 1.0 && l.formula == []
    ensures l.unitPrice == (if stock.Some? then OrZero(stock.value.sellingPrice) else 0.0)
    ensures l.total == l.unitPrice
  {
    match stock
    case None => QuoteLine(id, Str([]), Str([]), Str([]), [], 1.0, 0.0, 0.0, None)
    case Some(s) =>
      var price := OrZero(s.sellingPrice);
      QuoteLine(id, OrEmpty(s.id), OrEmpty(s.code), OrEmpty(s.description), [], 1.0, price, price, None)
  }

  /** A line with its total set to quantity times unit price. */
  function Retotal(l: QuoteLine): (r: QuoteLine)
    ensures r.total == Times(l.quantity, l.unitPrice)
    ensures r.(total := l.total) == l
  {
    l.(total := Times(l.quantity, l.unitPrice))
  }

  /** Every line retotalled, in place. */
  function Retotalled(lines: seq<QuoteLine>): (r: seq<QuoteLine>)
    ensures |r| == |lines|
    ensures forall k :: 0 <= k < |r| ==> r[k] == Retotal(lines[k])
  {
    seq(|lines|, k requires 0 <= k < |lines| => Retotal(lines[k]))
  }

  /** `lines.reduce((sum, line) => sum + (line.total || 0), 0)`. */
  function SumTotals(lines: seq<QuoteLine>): real
    decreases |lines|
  {
    if lines == [] then 0.0 else SumTotals(lines[..|lines| - 1]) + lines[|lines| - 1].total
  }

  /** A line with one field set. */
  function Apply(l: QuoteLine, u: Update): QuoteLine {
    match u
    case SetStockItemId(v) => l.(stockItemId := v)
    case SetStockCode(v) => l.(stockCode := v)
    case SetDescription(v) => l.(description := v)
    case SetFormula(f) => l.(formula := f)
    case SetQuantity(q) => l.(quantity := q)
    case SetUnitPrice(p) => l.(unitPrice := p)
  }

  /** `quoteLines.find(l => l.id === lineId)`, as a position. */
  function FindLine(lines: seq<QuoteLine>, id: real): (r: Option<nat>)
    ensures r.Some? ==> r.value < |lines| && lines[r.value].id == id &&
                        forall k :: 0 <= k < r.value ==> lines[k].id != id
    ensures r.None? ==> forall k :: 0 <= k < |lines| ==> lines[k].id != id
  {
    if lines == [] then None
    else if lines[0].id == id then Some(0)
    else
      var rest := FindLine(lines[1..], id);
      if rest.Some? then Some(rest.value + 1) else None
  }

  /** `quoteLines.filter(line => line.id !== lineId)`. */
  function WithoutId(lines: seq<QuoteLine>, id: real): (r: seq<QuoteLine>)
    ensures |r| <= |lines|
  {
    if lines == [] then []
    else (if lines[0].id == id then [] else [lines[0]]) + WithoutId(lines[1..], id)
  }

  /** The filter works piecewise, so the kept lines stay in their order. */
  lemma {:induction false} WithoutIdConcat(a: seq<QuoteLine>, b: seq<QuoteLine>, id: real)
    ensures WithoutId(a + b, id) == WithoutId(a, id) + WithoutId(b, id)
    decreases |a|
  {
    if a == [] {
      assert a + b == b;
    } else {
      assert (a + b)[0] == a[0];
      assert (a + b)[1..] == a[1..] + b;
      WithoutIdConcat(a[1..], b, id);
      var head := if a[0].id == id then [] else [a[0]];
      assert WithoutId(a + b, id) == head + WithoutId(a[1..] + b, id);
      assert WithoutId(a, id) == head + WithoutId(a[1..], id);
    }
  }

  /** The lines kept are exactly those with another id. */
  lemma {:induction false} WithoutIdMembers(lines: seq<QuoteLine>, id: real)
    ensures forall l :: l in WithoutId(lines, id) <==> l in lines && l.id != id
    decreases |lines|
  {
    if lines != [] {
      WithoutIdMembers(lines[1..], id);
      assert lines == [lines[0]] + lines[1..];
    }
  }

  /** Removing an id no line has changes nothing. */
  lemma {:induction false} WithoutAbsentId(lines: seq<QuoteLine>, id: real)
    requires forall k :: 0 <= k < |lines| ==> lines[k].id != id
    ensures WithoutId(lines, id) == lines
    decreases |lines|
  {
    if lines != [] {
      WithoutAbsentId(lines[1..], id);
      assert lines == [lines[0]] + lines[1..];
    }
  }

  // ---------------------------------------------------------------------
  // Template lines

  /** The line addTemplateItemsToQuote builds for an item of a group. */
  function ItemLine(group: string, p: TemplateManager.Processed, id: real): (l: QuoteLine)
    ensures l.stockCode == Str(p.item.stockCode) && l.groupName == Some(group)
    ensures l.quantity == OrZero(p.calculatedQuantity) && l.unitPrice == p.pricing.unitPrice
    ensures l.total == Times(l.quantity, l.unitPrice)
  {
    var quantity := OrZero(p.calculatedQuantity);
    QuoteLine(id, Str(p.item.stockCode), Str(p.item.stockCode), Str(p.item.description), p.item.formula,
              quantity, p.pricing.unitPrice, Times(quantity, p.pricing.unitPrice), Some(group))
  }

  /** The lines of one group's items, the k-th getting id `idAt(start + k)`. */
  function GroupLines(group: string, items: seq<TemplateManager.Processed>, start: nat, idAt: nat -> real): (r: seq<QuoteLine>)
    ensures |r| == |items|
    decreases |items|
  {
    if items == [] then []
    else GroupLines(group, items[..|items| - 1], start, idAt) + [ItemLine(group, items[|items| - 1], idAt(start + |items| - 1))]
  }

  /** The k-th line of a group is its k-th item's line, with the k-th id. */
  lemma {:induction false} GroupLinesAt(group: string, items: seq<TemplateManager.Processed>, start: nat, idAt: nat -> real)
    ensures forall k :: 0 <= k < |items| ==> GroupLines(group, items, start, idAt)[k] == ItemLine(group, items[k], idAt(start + k))
    decreases |items|
  {
    if items != [] {
      var init := items[..|items| - 1];
      GroupLinesAt(group, init, start, idAt);
      assert forall k :: 0 <= k < |init| ==> init[k] == items[k];
    }
  }

  /** The lines of the first `g` groups, group after group, the line at
    * position p of the quote getting id `idAt(p)`. */
  function LinesUpTo(groups: seq<TemplateManager.Group<TemplateManager.Processed>>, g: nat, start: nat, idAt: nat -> real): seq<QuoteLine>
    requires g <= |groups|
    decreases g
  {
    if g == 0 then []
    else
      var before := LinesUpTo(groups, g - 1, start, idAt);
      before + GroupLines(groups[g - 1].name, groups[g - 1].items, start + |before|, idAt)
  }

  /** One more group appends its lines, numbered from where the lines so far
    * end. */
  lemma LinesUpToStep(prefix: seq<QuoteLine>, groups: seq<TemplateManager.Group<TemplateManager.Processed>>, g: nat, start: nat, idAt: nat -> real)
    requires g < |groups| && start == |prefix|
    ensures var before := prefix + LinesUpTo(groups, g, start, idAt);
      before + GroupLines(groups[g].name, groups[g].items, |before|, idAt) == prefix + LinesUpTo(groups, g + 1, start, idAt)
  {
    var a := LinesUpTo(groups, g, start, idAt);
    var b := GroupLines(groups[g].name, groups[g].items, start + |a|, idAt);
    assert LinesUpTo(groups, g + 1, start, idAt) == a + b;
    assert (prefix + a) + b == prefix + (a + b);
  }

  /** The lines of all the groups. */
  function TemplateLines(groups: seq<TemplateManager.Group<TemplateManager.Processed>>, start: nat, idAt: nat -> real): seq<QuoteLine> {
    LinesUpTo(groups, |groups|, start, idAt)
  }

  /** The k-th of `r` is the line of the k-th of `flat`, in its own group,
    * with id `idAt(start + k)`. */
  ghost predicate Follows(r: seq<QuoteLine>, flat: seq<TemplateManager.Processed>, start: nat, idAt: nat -> real) {
    |r| == |flat| &&
    forall k :: 0 <= k < |r| ==> r[k].groupName.Some? && r[k] == ItemLine(r[k].groupName.value, flat[k], idAt(start + k))
  }

  /** A group's lines follow its items. */
  lemma GroupLinesFollow(group: string, items: seq<TemplateManager.Processed>, start: nat, idAt: nat -> real)
    ensures Follows(GroupLines(group, items, start, idAt), items, start, idAt)
  {
    GroupLinesAt(group, items, start, idAt);
  }

  /** Lines that follow their items, then lines that follow the next items
    * numbered on from there, follow all the items. */
  lemma FollowsConcat(a: seq<QuoteLine>, b: seq<QuoteLine>, fa: seq<TemplateManager.Processed>, fb: seq<TemplateManager.Processed>, start: nat, idAt: nat -> real)
    requires Follows(a, fa, start, idAt) && Follows(b, fb, start + |a|, idAt)
    ensures Follows(a + b, fa + fb, start, idAt)
  {
    var r, f := a + b, fa + fb;
    forall k | 0 <= k < |r|
      ensures r[k].groupName.Some? && r[k] == ItemLine(r[k].groupName.value, f[k], idAt(start + k))
    {
      if k >= |a| {
        assert r[k] == b[k - |a|] && f[k] == fb[k - |a|];
      } else {
        assert r[k] == a[k] && f[k] == fa[k];
      }
    }
  }

  /** One line per item of the first `g` groups, in group-then-item order:
    * the k-th line is the k-th item's line, with id `idAt(start + k)`. */
  lemma {:induction false} LinesUpToFollowItems(groups: seq<TemplateManager.Group<TemplateManager.Processed>>, g: nat, start: nat, idAt: nat -> real)
    requires g <= |groups|
    ensures Follows(LinesUpTo(groups, g, start, idAt), TemplateManager.Flat(groups[..g]), start, idAt)
    decreases g
  {
    if g > 0 {
      LinesUpToFollowItems(groups, g - 1, start, idAt);
      var a := LinesUpTo(groups, g - 1, start, idAt);
      var last := groups[g - 1];
      GroupLinesFollow(last.name, last.items, start + |a|, idAt);
      assert groups[..g][..g - 1] == groups[..g - 1];
      assert TemplateManager.Flat(groups[..g]) == TemplateManager.Flat(groups[..g - 1]) + last.items;
      FollowsConcat(a, GroupLines(last.name, last.items, start + |a|, idAt), TemplateManager.Flat(groups[..g - 1]), last.items, start, idAt);
    }
  }

  /** A template adds exactly one line per item, in group-then-item order. */
  lemma TemplateLinesFollowItems(groups: seq<TemplateManager.Group<TemplateManager.Processed>>, start: nat, idAt: nat -> real)
    ensures var r, flat := TemplateLines(groups, start, idAt), TemplateManager.Flat(groups);
      |r| == TemplateManager.ItemCount(groups) && |r| == |flat| &&
      forall k :: 0 <= k < |r| ==> r[k].groupName.Some? && r[k] == ItemLine(r[k].groupName.value, flat[k], idAt(start + k))
  {
    LinesUpToFollowItems(groups, |groups|, start, idAt);
    assert groups[..|groups|] == groups;
    TemplateManager.ItemCountFlat(groups);
  }

  // ---------------------------------------------------------------------
  // The builder

  class Builder {
    var lines: seq<QuoteLine>
    /** The quote total shown under the lines. */
    var displayedTotal: real
    var saveEnabled: bool

    constructor()
      ensures lines == [] && displayedTotal == 0.0 && !saveEnabled
    {
      lines := [];
      displayedTotal := 0.0;
      saveEnabled := false;
    }

    /** calculateQuoteTotal: the sum of the line totals. */
    method CalculateQuoteTotal()
      modifies this
      ensures displayedTotal == SumTotals(lines)
      ensures lines == old(lines) && saveEnabled == old(saveEnabled)
    {
      var sum := 0.0;
      var i := 0;
      while i < |lines|
        invariant 0 <= i <= |lines|
        invariant sum == SumTotals(lines[..i])
      {
        assert lines[..i + 1][..i] == lines[..i];
        sum := sum + lines[i].total;
        i := i + 1;
      }
      assert lines[..|lines|] == lines;
      displayedTotal := sum;
    }

    /** calculateLineTotals: every line's total becomes quantity times unit
      * price, then the quote total is their sum. */
    method CalculateLineTotals()
      modifies this
      ensures lines == Retotalled(old(lines))
      ensures displayedTotal == SumTotals(lines)
      ensures saveEnabled == old(saveEnabled)
    {
      var i := 0;
      while i < |lines|
        invariant 0 <= i <= |lines| && |lines| == |old(lines)|
        invariant forall k :: 0 <= k < i ==> lines[k] == Retotal(old(lines)[k])
        invariant forall k :: i <= k < |lines| ==> lines[k] == old(lines)[k]
        invariant saveEnabled == old(saveEnabled)
      {
        lines := lines[i := Retotal(lines[i])];
        i := i + 1;
      }
      CalculateQuoteTotal();
    }

    /** addQuoteLine: one line for the stock item (or a blank one) is
      * appended, with id `now` plus its position; all totals are then
      * recomputed. */
    method AddQuoteLine(stock: Option<StockItem>, now: real)
      modifies this
      ensures lines == Retotalled(old(lines) + [NewLine(stock, now + |old(lines)| as real)])
      ensures displayedTotal == SumTotals(lines) && saveEnabled
    {
      lines := lines + [NewLine(stock, now + |lines| as real)];
      CalculateLineTotals();
      saveEnabled := true;
    }

    /** updateLineField: the first line with the id gets the field; a new
      * quantity or unit price recomputes that line's total and the quote
      * total; a non-empty formula whose value `formulaValue` the calculator
      * gives becomes the line's quantity the same way. No other line
      * changes, and an unknown id changes nothing. */
    method UpdateLineField(lineId: real, u: Update, formulaValue: Option<real>)
      modifies this
      ensures FindLine(old(lines), lineId).None? ==>
        lines == old(lines) && displayedTotal == old(displayedTotal) && saveEnabled == old(saveEnabled)
      ensures FindLine(old(lines), lineId).Some? ==>
        var i := FindLine(old(lines), lineId).value;
        |lines| == |old(lines)| && saveEnabled &&
        (forall k :: 0 <= k < |lines| && k != i ==> lines[k] == old(lines)[k]) &&
        lines[i] == Edited(old(lines)[i], u, formulaValue)
      ensures FindLine(old(lines), lineId).Some? && Recalculates(u, formulaValue) ==> displayedTotal == SumTotals(lines)
      ensures !Recalculates(u, formulaValue) ==> displayedTotal == old(displayedTotal)
    {
      var found := FindLine(lines, lineId);
      if found.None? {
        return;
      }
      var i := found.value;
      lines := lines[i := Apply(lines[i], u)];
      if u.SetQuantity? || u.SetUnitPrice? {
        lines := lines[i := Retotal(lines[i])];
        CalculateQuoteTotal();
      }
      if u.SetFormula? && u.f != [] && formulaValue.Some? {
        lines := lines[i := Retotal(lines[i].(quantity := formulaValue.value))];
        CalculateQuoteTotal();
      }
      saveEnabled := true;
    }

    /** removeLine: every line with the id goes, the rest keep their order;
      * all totals are then recomputed. */
    method RemoveLine(lineId: real)
      modifies this
      ensures lines == Retotalled(WithoutId(old(lines), lineId))
      ensures displayedTotal == SumTotals(lines) && saveEnabled
    {
      lines := WithoutId(lines, lineId);
      CalculateLineTotals();
      saveEnabled := true;
    }

    /** The inner forEach of addTemplateItemsToQuote: the group's items'
      * lines appended, each with the id of its position. */
    method AppendGroupLines(group: string, items: seq<TemplateManager.Processed>, idAt: nat -> real)
      modifies this
      ensures lines == old(lines) + GroupLines(group, items, |old(lines)|, idAt)
      ensures displayedTotal == old(displayedTotal) && saveEnabled == old(saveEnabled)
    {
      var start := |lines|;
      var j := 0;
      while j < |items|
        invariant 0 <= j <= |items|
        invariant lines == old(lines) + GroupLines(group, items[..j], start, idAt)
        invariant displayedTotal == old(displayedTotal) && saveEnabled == old(saveEnabled)
      {
        assert items[..j + 1][..j] == items[..j];
        lines := lines + [ItemLine(group, items[j], idAt(|lines|))];
        j := j + 1;
      }
      assert items[..|items|] == items;
    }

    /** The outer forEach of addTemplateItemsToQuote: the lines of every
      * group appended, group after group. */
    method AppendTemplateLines(groups: seq<TemplateManager.Group<TemplateManager.Processed>>, idAt: nat -> real)
      modifies this
      ensures lines == old(lines) + TemplateLines(groups, |old(lines)|, idAt)
      ensures displayedTotal == old(displayedTotal) && saveEnabled == old(saveEnabled)
    {
      ghost var prefix := lines;
      var start := |lines|;
      var g := 0;
      while g < |groups|
        invariant 0 <= g <= |groups|
        invariant lines == prefix + LinesUpTo(groups, g, start, idAt)
        invariant displayedTotal == old(displayedTotal) && saveEnabled == old(saveEnabled)
      {
        LinesUpToStep(prefix, groups, g, start, idAt);
        AppendGroupLines(groups[g].name, groups[g].items, idAt);
        g := g + 1;
      }
    }

    /** addTemplateItemsToQuote: one line per item, group after group,
      * appended; the line at position p gets id `idAt(p)`; all totals are
      * then recomputed. */
    method AddTemplateItemsToQuote(template: TemplateManager.Template<TemplateManager.Processed>, idAt: nat -> real)
      modifies this
      ensures lines == Retotalled(old(lines) + TemplateLines(template.groups, |old(lines)|, idAt))
      ensures displayedTotal == SumTotals(lines) && saveEnabled
    {
      AppendTemplateLines(template.groups, idAt);
      CalculateLineTotals();
      saveEnabled := true;
    }
  }

  /** Whether an edit recomputes the quote total. */
  predicate Recalculates(u: Update, formulaValue: Option<real>) {
    u.SetQuantity? || u.SetUnitPrice? || (u.SetFormula? && u.f != [] && formulaValue.Some?)
  }

  /** The line updateLineField leaves behind. */
  function Edited(l: QuoteLine, u: Update, formulaValue: Option<real>): (r: QuoteLine)
    ensures u.SetQuantity? ==> r.quantity == u.q && r.total == Times(u.q, l.unitPrice)
    ensures u.SetUnitPrice? ==> r.unitPrice == u.p && r.total == Times(l.quantity, u.p)
    ensures u.SetFormula? && u.f != [] && formulaValue.Some? ==>
      r.formula == u.f && r.quantity == formulaValue.value && r.unitPrice == l.unitPrice
    ensures Recalculates(u, formulaValue) ==> r.total == Times(r.quantity, r.unitPrice)
    ensures !Recalculates(u, formulaValue) ==> r == Apply(l, u)
    ensures r.id == l.id
  {
    var a := Apply(l, u);
    if u.SetQuantity? || u.SetUnitPrice? then Retotal(a)
    else if u.SetFormula? && u.f != [] && formulaValue.Some? then Retotal(a.(quantity := formulaValue.value))
    else a
  }

  /** After the totals are recomputed, each line's total is its quantity
    * times its unit price, and the quote total is their sum. */
  lemma RetotalledLines(lines: seq<QuoteLine>)
    ensures forall k :: 0 <= k < |Retotalled(lines)| ==>
      Retotalled(lines)[k].total == Times(lines[k].quantity, lines[k].unitPrice) &&
      Retotalled(lines)[k].quantity == lines[k].quantity && Retotalled(lines)[k].unitPrice == lines[k].unitPrice
    ensures Retotalled(Retotalled(lines)) == Retotalled(lines)
  {
    var r := Retotalled(lines);
    assert forall k :: 0 <= k < |r| ==> Retotal(r[k]) == r[k];
  }
}
