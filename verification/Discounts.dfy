/** Pricing proposed lines from trusted rows, and the offer ladder over a priced order. */
module Discounts {
  import opened Text
  import opened Rounding
  import opened Catalogue

  /** One entry of the offer registry; `minSubtotal` is in paise. */
  datatype Offer = Offer(id: string, pct: real, minLines: int, minSubtotal: real)

  /** The code-owned registries and limits: any offers, any step-up pairs, any ceiling. */
  datatype Policy = Policy(
    offers: seq<Offer>, upgrades: map<string, string>,
    ceiling: real, maxQty: int, minAmount: real, maxAmount: real)

  /** A proposed line, a priced line. */
  datatype Item = Item(sku: string, qty: int)
  datatype Line = Line(sku: string, qty: int, unit: real, install: real, total: real)

  /** What an order records about the ways it differs from what was asked for. */
  datatype Note =
    | QtyClamped(sku: string)
    | MergedQtyClamped(sku: string)
    | UnpricedDropped
    | UnknownOffer
    | TooFewProducts
    | SubtotalTooLow
    | CeilingClamped
    | InstallationExcluded

  /** A verified step-up: the dearer model, the line it replaces, the difference over the whole line,
      and whether there is a benefit to lead on. */
  datatype StepUp = StepUp(sku: string, replaced: string, lineDelta: real, hasBenefit: bool)

  datatype Order = Order(
    lines: seq<Line>, appliedOffer: Option<string>, pct: real, discount: real,
    subtotal: real, amount: real, currency: string, notes: seq<Note>,
    complement: Option<string>, stepUp: Option<StepUp>)

  ghost predicate SoundPolicy(p: Policy) {
    && 0.0 <= p.ceiling <= 100.0
    && 1 <= p.maxQty
    && (forall i, j | 0 <= i < j < |p.offers| :: p.offers[i].id != p.offers[j].id)
    && (forall i | 0 <= i < |p.offers| :: OfferId(p.offers[i].id) == p.offers[i].id)
    && (forall o | o in p.offers && o.id == "NONE" :: o.pct == 0.0)
  }

  // ---- Pricing the proposed lines -----------------------------------------------------------

  function ClampQty(p: Policy, qty: int): int {
    if qty < 1 then 1 else if qty > p.maxQty then p.maxQty else qty
  }

  /** The distinct non-blank names, in order of first appearance. */
  function Distinct(items: seq<Item>): seq<string> {
    if items == [] then []
    else
      var before := Distinct(items[..|items| - 1]);
      var sku := Trim(items[|items| - 1].sku);
      if sku == "" || sku in before then before else before + [sku]
  }

  /** How much of one name the proposal asks for, each mention clamped on its own. */
  function TotalQty(p: Policy, items: seq<Item>, sku: string): int {
    if items == [] then 0
    else
      var item := items[|items| - 1];
      TotalQty(p, items[..|items| - 1], sku) + (if Trim(item.sku) == sku then ClampQty(p, item.qty) else 0)
  }

  function PriceLine(p: Policy, qty: int, row: Row): Line {
    var q := if qty > p.maxQty then p.maxQty else qty;
    Line(row.name, q, Round2(row.base), Round2(row.install), Round2(Times(row.base + row.install, q)))
  }

  function LinesFor(p: Policy, skus: seq<string>, items: seq<Item>, trusted: map<string, Row>): seq<Line> {
    if skus == [] then []
    else
      var sku := skus[|skus| - 1];
      LinesFor(p, skus[..|skus| - 1], items, trusted) +
      (if sku in trusted then [PriceLine(p, TotalQty(p, items, sku), trusted[sku])] else [])
  }

  /** One line for each distinct name that has a trusted price, in order of first appearance. */
  function PricedLines(p: Policy, items: seq<Item>, trusted: map<string, Row>): seq<Line> {
    LinesFor(p, Distinct(items), items, trusted)
  }

  /** The audit notes of line pricing: each mention over the cap, then each merged quantity over it,
      then whether anything was dropped for want of a price. */
  function ClampNotes(p: Policy, items: seq<Item>): seq<Note> {
    if items == [] then []
    else
      var item := items[|items| - 1];
      var sku := Trim(item.sku);
      ClampNotes(p, items[..|items| - 1]) + (if sku != "" && item.qty > p.maxQty then [QtyClamped(sku)] else [])
  }

  function MergeNotes(p: Policy, skus: seq<string>, items: seq<Item>, trusted: map<string, Row>): seq<Note> {
    if skus == [] then []
    else
      var sku := skus[|skus| - 1];
      MergeNotes(p, skus[..|skus| - 1], items, trusted) +
      (if sku in trusted && TotalQty(p, items, sku) > p.maxQty then [MergedQtyClamped(sku)] else [])
  }

  predicate AllPriced(skus: seq<string>, trusted: map<string, Row>) {
    forall sku | sku in skus :: sku in trusted
  }

  function PricingNotes(p: Policy, items: seq<Item>, trusted: map<string, Row>): seq<Note> {
    ClampNotes(p, items) + MergeNotes(p, Distinct(items), items, trusted) +
    (if AllPriced(Distinct(items), trusted) then [] else [UnpricedDropped])
  }

  method PriceLineItems(p: Policy, items: seq<Item>, trusted: map<string, Row>)
    returns (lines: seq<Line>, unresolved: seq<string>, notes: seq<Note>)
    requires 1 <= p.maxQty
    ensures lines == PricedLines(p, items, trusted)
    ensures forall sku :: sku in unresolved <==> sku in Distinct(items) && sku !in trusted
    ensures notes == PricingNotes(p, items, trusted)
  {
    var order, merged, clamps := MergeItems(p, items);
    var mergeNotes;
    lines, unresolved, mergeNotes := PriceMerged(p, items, order, merged, trusted);
    notes := clamps + mergeNotes;
    assert unresolved == [] <==> AllPriced(order, trusted) by {
      if unresolved != [] {
        assert unresolved[0] in unresolved;
      }
    }
    if unresolved != [] {
      notes := notes + [UnpricedDropped];
    }
  }

  method PriceMerged(p: Policy, ghost items: seq<Item>, order: seq<string>, merged: map<string, int>,
                     trusted: map<string, Row>)
    returns (lines: seq<Line>, unresolved: seq<string>, notes: seq<Note>)
    requires merged.Keys == set sku | sku in order
    requires forall sku | sku in order :: merged[sku] == TotalQty(p, items, sku)
    ensures lines == LinesFor(p, order, items, trusted)
    ensures forall sku :: sku in unresolved <==> sku in order && sku !in trusted
    ensures notes == MergeNotes(p, order, items, trusted)
  {
    lines, unresolved, notes := [], [], [];
    for i := 0 to |order|
      invariant lines == LinesFor(p, order[..i], items, trusted)
      invariant forall sku :: sku in unresolved <==> sku in order[..i] && sku !in trusted
      invariant notes == MergeNotes(p, order[..i], items, trusted)
    {
      assert order[..i + 1][..i] == order[..i];
      var sku, qty := order[i], merged[order[i]];
      if sku !in trusted {
        unresolved := unresolved + [sku];
        continue;
      }
      if qty > p.maxQty {
        notes := notes + [MergedQtyClamped(sku)];
      }
      lines := lines + [PriceLine(p, qty, trusted[sku])];
    }
    assert order[..|order|] == order;
  }

  /** The insertion-ordered dictionary of clamped quantities. */
  method MergeItems(p: Policy, items: seq<Item>)
    returns (order: seq<string>, merged: map<string, int>, notes: seq<Note>)
    requires 1 <= p.maxQty
    ensures order == Distinct(items)
    ensures merged.Keys == set sku | sku in order
    ensures forall sku | sku in order :: merged[sku] == TotalQty(p, items, sku)
    ensures notes == ClampNotes(p, items)
  {
    order, merged, notes := [], map[], [];
    for i := 0 to |items|
      invariant order == Distinct(items[..i])
      invariant merged.Keys == set sku | sku in order
      invariant forall sku | sku != "" ::
        TotalQty(p, items[..i], sku) == if sku in merged then merged[sku] else 0
      invariant "" !in order
      invariant notes == ClampNotes(p, items[..i])
    {
      assert items[..i + 1][..i] == items[..i];
      var sku := Trim(items[i].sku);
      if sku == "" {
        continue;
      }
      var qty := items[i].qty;
      if qty < 1 {
        qty := 1;
      }
      if qty > p.maxQty {
        notes := notes + [QtyClamped(sku)];
        qty := p.maxQty;
      }
      if sku in merged {
        merged := merged[sku := merged[sku] + qty];
      } else {
        order, merged := order + [sku], merged[sku := qty];
      }
    }
    assert items[..|items|] == items;
  }

  // ---- Totals -------------------------------------------------------------------------------

  function SumTotals(lines: seq<Line>): real {
    if lines == [] then 0.0
    else SumTotals(lines[..|lines| - 1]) + lines[|lines| - 1].total
  }

  function SumInstall(lines: seq<Line>): real {
    if lines == [] then 0.0
    else SumInstall(lines[..|lines| - 1]) + Times(lines[|lines| - 1].install, lines[|lines| - 1].qty)
  }

  function Subtotal(lines: seq<Line>): real {
    Round2(SumTotals(lines))
  }

  function InstallTotal(lines: seq<Line>): real {
    Round2(SumInstall(lines))
  }

  /** The product value an offer may reduce: installation is never discounted. */
  function Discountable(lines: seq<Line>): real {
    Round2(Max(Subtotal(lines) - InstallTotal(lines), 0.0))
  }

  // ---- Applying an offer --------------------------------------------------------------------

  /** The id as the registry spells it; no choice reads as "NONE". */
  function OfferId(id: string): string {
    if Upper(Trim(id)) == "" then "NONE" else Upper(Trim(id))
  }

  function FindOffer(offers: seq<Offer>, id: string): Option<Offer> {
    if offers == [] then None
    else if offers[|offers| - 1].id == id then Some(offers[|offers| - 1])
    else FindOffer(offers[..|offers| - 1], id)
  }

  predicate Qualifies(o: Offer, lines: seq<Line>) {
    |lines| >= o.minLines && Subtotal(lines) >= o.minSubtotal
  }

  /** What an offer is really worth once the ceiling has had its say. */
  function EffectivePct(p: Policy, o: Offer): real {
    Min(o.pct, p.ceiling)
  }

  /** The percentage a choice of offer buys: nothing unless the registry lists it and the order
      qualifies for it, and never more than the ceiling. */
  function GrantedPct(p: Policy, lines: seq<Line>, id: string): real {
    var o := FindOffer(p.offers, OfferId(id));
    if o.None? || o.value.pct <= 0.0 || !Qualifies(o.value, lines) then 0.0
    else EffectivePct(p, o.value)
  }

  function GrantedDiscount(p: Policy, lines: seq<Line>, id: string): real {
    Round2(Percent(Discountable(lines), GrantedPct(p, lines, id)))
  }

  /** The order and nothing about how it was reached. */
  ghost predicate IsPricedAs(order: Order, p: Policy, lines: seq<Line>, id: string, currency: string) {
    && order.lines == lines
    && order.pct == GrantedPct(p, lines, id)
    && order.appliedOffer == (if order.pct > 0.0 then Some(OfferId(id)) else None)
    && order.discount == GrantedDiscount(p, lines, id)
    && order.subtotal == Subtotal(lines)
    && order.amount == Round2(order.subtotal - order.discount)
    && order.currency == currency
    && order.complement.None? && order.stepUp.None?
  }

  function ApplyNotes(p: Policy, lines: seq<Line>, id: string): seq<Note> {
    var o := FindOffer(p.offers, OfferId(id));
    (if o.None? then [UnknownOffer] else []) +
    (if o.None? || o.value.pct <= 0.0 then []
     else if |lines| < o.value.minLines then [TooFewProducts]
     else if Subtotal(lines) < o.value.minSubtotal then [SubtotalTooLow]
     else if o.value.pct > p.ceiling then [CeilingClamped]
     else []) +
    (if InstallTotal(lines) > 0.0 && GrantedPct(p, lines, id) > 0.0 then [InstallationExcluded] else [])
  }

  function OfferApplied(p: Policy, lines: seq<Line>, id: string, currency: string): (order: Order)
    ensures IsPricedAs(order, p, lines, id, currency)
  {
    var pct := GrantedPct(p, lines, id);
    var discount := GrantedDiscount(p, lines, id);
    Order(lines, if pct > 0.0 then Some(OfferId(id)) else None, pct, discount,
          Subtotal(lines), Round2(Subtotal(lines) - discount), currency, ApplyNotes(p, lines, id), None, None)
  }

  method ApplyOffer(p: Policy, lines: seq<Line>, id: string, currency: string) returns (order: Order)
    requires SoundPolicy(p)
    ensures order == OfferApplied(p, lines, id, currency)
  {
    var notes: seq<Note> := [];
    var requested := OfferId(id);
    var subtotal := Round2(SumTotals(lines));
    var installTotal := Round2(SumInstall(lines));
    var discountable := Round2(Max(subtotal - installTotal, 0.0));

    var spec := FindOffer(p.offers, requested);
    var pct := 0.0;
    if spec.None? {
      notes := notes + [UnknownOffer];
      requested := "NONE";
    } else {
      pct := spec.value.pct;
      if pct > 0.0 && |lines| < spec.value.minLines {
        notes := notes + [TooFewProducts];
        requested, pct := "NONE", 0.0;
      } else if pct > 0.0 && subtotal < spec.value.minSubtotal {
        notes := notes + [SubtotalTooLow];
        requested, pct := "NONE", 0.0;
      }
    }
    if pct > p.ceiling {
      notes := notes + [CeilingClamped];
      pct := p.ceiling;
    }
    if pct < 0.0 {
      pct := 0.0;
    }
    var discount := Round2(Percent(discountable, pct));
    if installTotal > 0.0 && pct > 0.0 {
      notes := notes + [InstallationExcluded];
    }
    order := Order(lines, if pct > 0.0 then Some(requested) else None, pct, discount,
                   subtotal, Round2(subtotal - discount), currency, notes, None, None);
  }

  // ---- The best offer already earned --------------------------------------------------------

  predicate Eligible(p: Policy, o: Offer, lines: seq<Line>) {
    o.id != "NONE" && EffectivePct(p, o) > 0.0 && Qualifies(o, lines)
  }

  /** The registry's first offer among those worth the most. */
  function BestOf(p: Policy, offers: seq<Offer>, lines: seq<Line>): Option<Offer> {
    if offers == [] then None
    else
      var before := BestOf(p, offers[..|offers| - 1], lines);
      var o := offers[|offers| - 1];
      if Eligible(p, o, lines) && (before.None? || EffectivePct(p, o) > EffectivePct(p, before.value))
      then Some(o) else before
  }

  function Best(p: Policy, lines: seq<Line>): Option<Offer> {
    if lines == [] then None else BestOf(p, p.offers, lines)
  }

  method BestEligibleOffer(p: Policy, lines: seq<Line>) returns (best: Option<Offer>)
    ensures best == Best(p, lines)
  {
    var distinct, subtotal := |lines|, Round2(SumTotals(lines));
    if lines == [] {
      return None;
    }
    best := None;
    for i := 0 to |p.offers|
      invariant best == BestOf(p, p.offers[..i], lines)
    {
      assert p.offers[..i + 1][..i] == p.offers[..i];
      var o := p.offers[i];
      if o.id == "NONE" || EffectivePct(p, o) <= 0.0 {
        continue;
      }
      if distinct < o.minLines {
        continue;
      }
      if subtotal < o.minSubtotal {
        continue;
      }
      if best.None? || EffectivePct(p, o) > EffectivePct(p, best.value) {
        best := Some(o);
      }
    }
    assert p.offers[..|p.offers|] == p.offers;
  }

  /** What one tap on the offer button would save. */
  datatype Preview = Preview(offerId: string, pct: real, saving: real, newTotal: real)

  method AvailableOfferPreview(p: Policy, lines: seq<Line>) returns (preview: Option<Preview>)
    requires SoundPolicy(p)
    ensures preview == PreviewOf(p, lines)
  {
    var best := BestEligibleOffer(p, lines);
    if best.None? {
      return None;
    }
    var priced := ApplyOffer(p, lines, best.value.id, "INR");
    if priced.discount <= 0.0 {
      return None;
    }
    return Some(Preview(best.value.id, priced.pct, priced.discount, priced.amount));
  }

  function PreviewOf(p: Policy, lines: seq<Line>): Option<Preview> {
    var best := Best(p, lines);
    if best.None? || GrantedDiscount(p, lines, best.value.id) <= 0.0 then None
    else
      var id := best.value.id;
      var saving := GrantedDiscount(p, lines, id);
      Some(Preview(id, GrantedPct(p, lines, id), saving, Round2(Subtotal(lines) - saving)))
  }

  // ---- The nearest better tier --------------------------------------------------------------

  /** A better tier one dimension away. Exactly one of the two gaps is open. */
  datatype Hint = Hint(offerId: string, pct: real, needsProducts: int, needsSubtotal: real, effort: real)

  function CurrentPct(p: Policy, lines: seq<Line>): real {
    var best := Best(p, lines);
    if best.None? then 0.0 else EffectivePct(p, best.value)
  }

  function ProductGap(o: Offer, lines: seq<Line>): int {
    if o.minLines > |lines| then o.minLines - |lines| else 0
  }

  function SubtotalGap(o: Offer, lines: seq<Line>): real {
    Round2(Max(o.minSubtotal - Subtotal(lines), 0.0))
  }

  function Candidate(p: Policy, o: Offer, lines: seq<Line>): Option<Hint>
    requires lines != []
  {
    var pct := EffectivePct(p, o);
    var products := ProductGap(o, lines);
    var money := SubtotalGap(o, lines);
    if o.id == "NONE" || pct <= CurrentPct(p, lines) then None
    else if (products != 0) == (money != 0.0) then None
    else
      var effort := if products != 0 then products as real / |lines| as real
                    else money / Max(Subtotal(lines), 100.0);
      if effort > 1.0 then None else Some(Hint(o.id, pct, products, if products != 0 then 0.0 else money, effort))
  }

  /** Least effort first, then the better percentage. */
  predicate Before(a: Hint, b: Hint) {
    a.effort < b.effort || (a.effort == b.effort && a.pct > b.pct)
  }

  function HintOf(p: Policy, offers: seq<Offer>, lines: seq<Line>): Option<Hint>
    requires lines != []
  {
    if offers == [] then None
    else
      var before := HintOf(p, offers[..|offers| - 1], lines);
      var next := Candidate(p, offers[|offers| - 1], lines);
      if next.Some? && (before.None? || Before(next.value, before.value)) then next else before
  }

  function NextHint(p: Policy, lines: seq<Line>): Option<Hint> {
    if lines == [] then None else HintOf(p, p.offers, lines)
  }

  method NextOfferHint(p: Policy, lines: seq<Line>) returns (hint: Option<Hint>)
    ensures hint == NextHint(p, lines)
  {
    if lines == [] {
      return None;
    }
    var subtotal := Round2(SumTotals(lines));
    var current := BestEligibleOffer(p, lines);
    var currentPct := if current.None? then 0.0 else EffectivePct(p, current.value);
    var candidates: seq<Hint> := [];
    // The head of the stable sort of the candidates collected so far.
    hint := None;
    for i := 0 to |p.offers|
      invariant hint == HintOf(p, p.offers[..i], lines)
      invariant hint.None? <==> candidates == []
    {
      assert p.offers[..i + 1][..i] == p.offers[..i];
      var o := p.offers[i];
      var pct := EffectivePct(p, o);
      if o.id == "NONE" || pct <= currentPct {
        continue;
      }
      var productGap := if o.minLines > |lines| then o.minLines - |lines| else 0;
      var subtotalGap := Round2(Max(o.minSubtotal - subtotal, 0.0));
      if productGap != 0 && subtotalGap != 0.0 {
        continue;
      }
      if productGap == 0 && subtotalGap == 0.0 {
        continue;
      }
      var effort := if productGap != 0 then productGap as real / |lines| as real
                    else subtotalGap / Max(subtotal, 100.0);
      if effort > 1.0 {
        continue;
      }
      var candidate := Hint(o.id, pct, productGap, if productGap != 0 then 0.0 else subtotalGap, effort);
      candidates := candidates + [candidate];
      if hint.None? || Before(candidate, hint.value) {
        hint := Some(candidate);
      }
    }
    assert p.offers[..|p.offers|] == p.offers;
  }
}
