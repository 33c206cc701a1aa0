/** What each button on the order does: which request it raises, when the request goes through, and what it
    changes on the order in state. */
module TapTheorems {
  import opened Text
  import opened Rounding
  import opened Catalogue
  import opened Discounts
  import opened Guardrails
  import opened Money
  import opened Orders
  import opened OrderTheorems
  import opened Walkthrough
  import opened Conversation
  import opened Runs
  import opened RunTheorems

  // ---- Which button raises which request ----------------------------------------------------

  /** With an order in state each button raises its own request and no other; the first of apply, add, swap,
      pass and quote on the message is the one. A confirm or connect tap raises none, and neither does any
      button with no order to act on. Nothing else of the sale changes but the confirmation, which is this
      message's alone. */
  lemma EachButtonRaisesItsRequest(s: Settings, c: Conv, t: Turn)
    ensures
      var m, before, after := t.msg, c.sale, Triage(s, c, t).sale;
      var served := before.pending.Some? && !m.confirm && !m.connectNow;
      && after == before.(confirmed := m.confirm, taps := after.taps)
      && (!served ==> after.taps == before.taps)
      && (served && m.applyOffer ==> after.taps == before.taps + {ApplyTap})
      && (served && !m.applyOffer && m.addIt ==> after.taps == before.taps + {AddTap})
      && (served && !m.applyOffer && !m.addIt && m.swapIt ==> after.taps == before.taps + {SwapTap})
      && (served && !m.applyOffer && !m.addIt && !m.swapIt && m.pass ==> after.taps == before.taps + {PassTap})
      && (served && !m.applyOffer && !m.addIt && !m.swapIt && !m.pass && m.quoteNow ==>
            after.taps == before.taps + {QuoteTap})
      && (served && !m.applyOffer && !m.addIt && !m.swapIt && !m.pass && !m.quoteNow ==> after.taps == before.taps)
  {
    assert c.sale.taps + {} == c.sale.taps;
  }

  /** The buttons that no earlier one on the message overrides. */
  predicate TapsAdd(m: Message) {
    m.addIt && !m.applyOffer && !m.confirm && !m.connectNow
  }

  predicate TapsSwap(m: Message) {
    m.swapIt && !m.addIt && !m.applyOffer && !m.confirm && !m.connectNow
  }

  predicate TapsApply(m: Message) {
    m.applyOffer && !m.confirm && !m.connectNow
  }

  /** A tap turn is the agent's, and no question takes the message as its answer. */
  predicate Undiverted(s: Settings, c: Conv, t: Turn) {
    !Triage(s, c, t).custody.held && !(Asking(c.sale) && DetailsAnswered(c.sale, t.msg).Some?)
  }

  lemma UndivertedTapIsAnswered(s: Settings, c: Conv, t: Turn)
    requires c.sale.pending.Some? && Undiverted(s, c, t)
    requires TapsAdd(t.msg) || TapsSwap(t.msg) || TapsApply(t.msg)
    ensures NodeSaid(s.policy, Triage(s, c, t), t) == TapAnswered(s.policy, Triage(s, c, t).sale, t)
    ensures TurnTaken(s, c, t).0.sale.pending == TapAnswered(s.policy, Triage(s, c, t).sale, t).sale.pending
  {
    var d := Triage(s, c, t);
    EachButtonRaisesItsRequest(s, c, t);
    assert d.sale.taps != {} && Route(d) == Sales(false);
    assert BranchOf(d.sale, Retrieved(d, t).specsUnavailable, t.msg).TapBranch?;
    GateKeepsWalk(s.policy, NodeSaid(s.policy, d, t).sale, t);
  }

  /** The button's request joins those still standing, and the first of apply, add and swap among them is
      served: an apply leaves the re-priced order in state, or the same one; an add the enlarged order, or the
      same one without its suggestion; a swap the swapped order, or the same one without its step-up. */
  lemma ButtonIsServed(s: Settings, c: Conv, t: Turn)
    requires c.sale.pending.Some? && Undiverted(s, c, t)
    requires TapsAdd(t.msg) || TapsSwap(t.msg) || TapsApply(t.msg)
    ensures
      var before, after, taps := c.sale.pending.value, TurnTaken(s, c, t).0.sale.pending, c.sale.taps;
      && (TapsApply(t.msg) || ApplyTap in taps ==>
            after == if Repriced(s.policy, before).Some? then Repriced(s.policy, before) else Some(before))
      && (ApplyTap !in taps && (TapsAdd(t.msg) || (TapsSwap(t.msg) && AddTap in taps)) ==>
            after == Some(AfterAdd(s.policy, t.cat, t.lookupOk, before)))
      && (ApplyTap !in taps && AddTap !in taps && TapsSwap(t.msg) ==>
            after == Some(AfterSwap(s.policy, t.cat, t.lookupOk, before)))
  {
    var d := Triage(s, c, t);
    EachButtonRaisesItsRequest(s, c, t);
    UndivertedTapIsAnswered(s, c, t);
    if ApplyTap in d.sale.taps {
      ApplyLeaves(s.policy, d.sale, t);
    } else if AddTap in d.sale.taps {
      AddLeaves(s.policy, d.sale, t);
    } else {
      SwapLeaves(s.policy, d.sale, t);
    }
  }

  /** A request once served does not stand: an apply or an add that falls back leaves the others standing, and
      whatever shows the order clears them all. */
  lemma ServedRequestIsSpent(s: Settings, c: Conv, t: Turn)
    requires c.sale.pending.Some? && Undiverted(s, c, t)
    requires TapsAdd(t.msg) || TapsSwap(t.msg) || TapsApply(t.msg)
    ensures
      var (after, log) := TurnTaken(s, c, t);
      var standing := Triage(s, c, t).sale.taps;
      && (log.shown.Some? ==> after.sale.taps == {})
      && (log.shown.None? ==> after.sale.taps == standing - {if ApplyTap in standing then ApplyTap else AddTap})
      && (log.shown.None? ==> ApplyTap in standing || AddTap in standing)
  {
    var d := Triage(s, c, t);
    EachButtonRaisesItsRequest(s, c, t);
    UndivertedTapIsAnswered(s, c, t);
    TapSpendsItsRequest(s.policy, d.sale, t);
    GateKeepsWalk(s.policy, NodeSaid(s.policy, d, t).sale, t);
  }

  lemma TapSpendsItsRequest(p: Policy, v: Sale, t: Turn)
    requires v.pending.Some? && v.taps != {}
    ensures
      var said := TapAnswered(p, v, t);
      && (said.shown.Some? ==> said.sale.taps == {})
      && (said.shown.None? ==> ApplyTap in v.taps || AddTap in v.taps)
      && (said.shown.None? ==> said.sale.taps == v.taps - {if ApplyTap in v.taps then ApplyTap else AddTap})
  {
  }

  /** What a tap that falls back leaves: the order with the suggestion it could not take put away. */
  lemma FallbackPutsTheCardAway(p: Policy, cat: seq<Row>, lookupOk: bool, order: Order)
    requires order.lines != []
    ensures Added(p, cat, lookupOk, order).None? ==> AfterAdd(p, cat, lookupOk, order) == order.(complement := None)
    ensures Swapped(p, cat, lookupOk, order).None? ==> AfterSwap(p, cat, lookupOk, order) == order.(stepUp := None)
  {
  }

  // ---- When a tap goes through --------------------------------------------------------------

  /** Each product on one line, by name. */
  ghost predicate NamesDiffer(items: seq<Item>) {
    forall i, j | 0 <= i < j < |items| :: Trim(items[i].sku) != Trim(items[j].sku)
  }

  lemma {:induction false} DifferentNamesAreAllKept(items: seq<Item>)
    requires NamesDiffer(items) && forall i | 0 <= i < |items| :: Trim(items[i].sku) != ""
    ensures |Distinct(items)| == |items|
    ensures forall i | 0 <= i < |items| :: Distinct(items)[i] == Trim(items[i].sku)
  {
    if items != [] {
      var init := items[..|items| - 1];
      assert forall i | 0 <= i < |init| :: init[i] == items[i];
      DifferentNamesAreAllKept(init);
    }
  }

  lemma {:induction false} TrustedNamesAreAllPriced(p: Policy, skus: seq<string>, items: seq<Item>, trusted: map<string, Row>)
    requires forall i | 0 <= i < |skus| :: skus[i] in trusted
    ensures |LinesFor(p, skus, items, trusted)| == |skus|
  {
    if skus != [] {
      TrustedNamesAreAllPriced(p, skus[..|skus| - 1], items, trusted);
    }
  }

  /** As many lines as proposals exactly when no two name the same thing. */
  lemma LinePerProposalExactly(p: Policy, items: seq<Item>, trusted: map<string, Row>)
    requires 1 <= p.maxQty && forall i | 0 <= i < |items| :: Trim(items[i].sku) != "" && Trim(items[i].sku) in trusted
    ensures |PricedLines(p, items, trusted)| >= |items| <==> NamesDiffer(items)
    ensures |PricedLines(p, items, trusted)| <= |items|
  {
    DistinctNames(p, items);
    EveryLinePriced(p, Distinct(items), items, trusted);
    if NamesDiffer(items) {
      DifferentNamesAreAllKept(items);
      TrustedNamesAreAllPriced(p, Distinct(items), items, trusted);
    }
    if |PricedLines(p, items, trusted)| >= |items| {
      OneLineEach(p, items, trusted);
    }
  }

  /** Rows of one name cost the same, wherever on the order they are. */
  lemma {:induction false} LineOfItsName(cat: seq<Row>, lines: seq<Line>, i: int)
    requires CleanCatalogue(cat) && FromCatalogue(cat, lines) && 0 <= i < |lines|
    ensures lines[i].sku in SelfTrusted(lines)
    ensures SelfTrusted(lines)[lines[i].sku] == Row(lines[i].sku, lines[i].unit, lines[i].install)
  {
    SelfTrustedAreLines(lines);
    var name := lines[i].sku;
    assert RowOfLine(SelfTrusted(lines)[name], lines, name);
    var j :| 0 <= j < |lines| && lines[j].sku == name && SelfTrusted(lines)[name] == Row(name, lines[j].unit, lines[j].install);
    SameNameSamePrices(cat, lines[i], lines[j]);
  }

  lemma SameNameSamePrices(cat: seq<Row>, a: Line, b: Line)
    requires CleanCatalogue(cat) && HasRow(cat, a) && HasRow(cat, b) && a.sku == b.sku
    ensures a.unit == b.unit && a.install == b.install
  {
    var r :| r in cat && LineOfRow(a, r);
    var q :| q in cat && LineOfRow(b, q);
    var i :| 0 <= i < |cat| && cat[i] == r;
    var j :| 0 <= j < |cat| && cat[j] == q;
    assert i == j;
  }

  /** Against its own prices, an order of tight lines from the catalogue is refused for its amount alone. */
  lemma {:induction false} TightTapIsAcceptedExactlyInWindow(p: Policy, cat: seq<Row>, lines: seq<Line>, id: string, currency: string)
    requires SoundPolicy(p) && CleanCatalogue(cat) && FromCatalogue(cat, lines) && Tight(p, lines) && CleanSkus(lines)
    requires lines != [] && IsRupees(currency)
    ensures
      var order := OfferApplied(p, lines, id, currency);
      Accepts(p, Some(order), Some(SelfTrusted(lines))) <==> p.minAmount <= order.amount <= p.maxAmount
  {
    forall i | 0 <= i < |lines|
      ensures LineAccepted(p, lines[i], Some(SelfTrusted(lines)))
    {
      assert TightLine(p, lines[i]) && Clean(lines[i].sku);
      TightLineTotals(p, lines[i]);
      RoundWhole(lines[i].total);
      LineOfItsName(cat, lines, i);
    }
    TightOrderPassesTotals(p, lines, id, currency);
  }

  /** What the gate reads of an order: everything but its notes and suggestions. */
  lemma GateReadsTheMoney(p: Policy, order: Order, notes: seq<Note>, complement: Option<string>, stepUp: Option<StepUp>,
                          trusted: map<string, Row>)
    ensures Accepts(p, Some(order.(notes := notes, complement := complement, stepUp := stepUp)), Some(trusted))
       <==> Accepts(p, Some(order), Some(trusted))
  {
  }

  /** The amount these lines come to at the best offer they qualify for may be charged. */
  predicate Chargeable(p: Policy, lines: seq<Line>, currency: string) {
    p.minAmount <= OfferApplied(p, lines, BestId(p, lines), currency).amount <= p.maxAmount
  }

  /** An order in state: payable, its lines exact to the paisa. */
  ghost predicate Standing(p: Policy, cat: seq<Row>, order: Order) {
    && SoundPolicy(p) && CleanCatalogue(cat) && (forall r | r in cat :: WholeRow(r))
    && Payable(p, cat, order) && Tight(p, order.lines)
  }

  lemma StandingLines(p: Policy, cat: seq<Row>, order: Order)
    requires Standing(p, cat, order)
    ensures order.lines != [] && IsRupees(order.currency)
    ensures FromCatalogue(cat, order.lines) && Rounded(p, order.lines) && CleanSkus(order.lines)
    ensures RelinedAll(order.lines) == order.lines
  {
    PayableLinesAreRounded(p, cat, order);
    RelinedExactlyWhenTight(p, order.lines);
  }

  /** The apply tap goes through exactly when some offer is earned and the amount may be charged. */
  lemma ApplyTapGoesThroughExactly(p: Policy, cat: seq<Row>, order: Order)
    requires Standing(p, cat, order)
    ensures Repriced(p, order).Some? <==>
      (exists o :: o in p.offers && Eligible(p, o, order.lines)) && Chargeable(p, order.lines, order.currency)
  {
    StandingLines(p, cat, order);
    BestOfIsHighest(p, p.offers, order.lines);
    var id := BestId(p, order.lines);
    TightTapIsAcceptedExactlyInWindow(p, cat, order.lines, id, order.currency);
    var priced := OfferApplied(p, order.lines, id, order.currency);
    GateReadsTheMoney(p, priced, priced.notes, order.complement, order.stepUp, SelfTrusted(order.lines));
  }

  /** It changes the money and nothing else: the best offer earned, and the amount that leaves. */
  lemma ApplyTapChangesTheMoneyOnly(p: Policy, order: Order)
    requires SoundPolicy(p) && Repriced(p, order).Some?
    ensures
      var next := Repriced(p, order).value;
      && next.lines == order.lines && next.complement == order.complement && next.stepUp == order.stepUp
      && next.currency == order.currency && next.pct == CurrentPct(p, order.lines)
      && (forall o | o in p.offers && Eligible(p, o, order.lines) :: EffectivePct(p, o) <= next.pct)
  {
    BestIdGrantsCurrent(p, order.lines);
    BestOfIsHighest(p, p.offers, order.lines);
  }

  /** No product is on two lines, and this one on none. */
  ghost predicate AppendsTo(lines: seq<Line>, sku: string) {
    && (forall i, j | 0 <= i < j < |lines| :: lines[i].sku != lines[j].sku)
    && (forall i | 0 <= i < |lines| :: lines[i].sku != sku)
  }

  lemma AddItems(p: Policy, lines: seq<Line>, sku: string, row: Row)
    requires SoundPolicy(p) && Rounded(p, lines) && CleanSkus(lines) && Trim(sku) == sku != ""
    ensures
      var items := AsItems(lines) + [Item(sku, 1)];
      |PricedLines(p, items, SelfTrusted(lines)[sku := row])| > |lines| <==> AppendsTo(lines, sku)
  {
    var items, trusted := AsItems(lines) + [Item(sku, 1)], SelfTrusted(lines)[sku := row];
    SelfTrustedAreLines(lines);
    forall i | 0 <= i < |items|
      ensures Trim(items[i].sku) != "" && Trim(items[i].sku) in trusted
      ensures Trim(items[i].sku) == if i < |lines| then lines[i].sku else sku
    {
      if i < |lines| {
        assert items[i] == AsItem(lines[i]) && Clean(lines[i].sku);
      }
    }
    LinePerProposalExactly(p, items, trusted);
  }

  /** The add tap goes through exactly when the catalogue answers, the suggestion is one of its products and
      on no line, no product is on two lines, and the enlarged order's amount may be charged. */
  lemma AddTapGoesThroughExactly(p: Policy, cat: seq<Row>, lookupOk: bool, order: Order)
    requires Standing(p, cat, order)
    ensures
      var sku := Stripped(order.complement);
      Added(p, cat, lookupOk, order).Some? <==>
      && lookupOk && sku != "" && Resolve(cat, sku).Some? && AppendsTo(order.lines, sku)
      && Chargeable(p, order.lines + [PriceLine(p, 1, Resolve(cat, sku).value)], order.currency)
  {
    StandingLines(p, cat, order);
    var sku := Stripped(order.complement);
    if lookupOk && sku != "" && Resolve(cat, sku).Some? {
      TrimTwice(order.complement);
      AddIsTakenExactly(p, cat, order, sku);
    }
  }

  lemma AddIsTakenExactly(p: Policy, cat: seq<Row>, order: Order, sku: string)
    requires Standing(p, cat, order) && Trim(sku) == sku != "" && Resolve(cat, sku).Some?
    ensures
      var row := Resolve(cat, sku).value;
      var grown := Grown(p, order, sku, row);
      |grown.lines| > |order.lines| && Accepts(p, Some(grown), Some(SelfTrusted(grown.lines))) <==>
      AppendsTo(order.lines, sku) && Chargeable(p, order.lines + [PriceLine(p, 1, row)], order.currency)
  {
    StandingLines(p, cat, order);
    var row := Resolve(cat, sku).value;
    AddItems(p, order.lines, sku, row);
    if |Grown(p, order, sku, row).lines| > |order.lines| {
      OneLineIsAppended(p, order.lines, sku, row);
      GrownIsJudgedByItsAmount(p, cat, order, sku);
    }
  }

  lemma GrownIsJudgedByItsAmount(p: Policy, cat: seq<Row>, order: Order, sku: string)
    requires Standing(p, cat, order) && Resolve(cat, sku).Some?
    requires Grown(p, order, sku, Resolve(cat, sku).value).lines == order.lines + [PriceLine(p, 1, Resolve(cat, sku).value)]
    ensures
      var grown := Grown(p, order, sku, Resolve(cat, sku).value);
      Accepts(p, Some(grown), Some(SelfTrusted(grown.lines))) <==>
      Chargeable(p, order.lines + [PriceLine(p, 1, Resolve(cat, sku).value)], order.currency)
  {
    var row := Resolve(cat, sku).value;
    var grown := Grown(p, order, sku, row);
    StandingLines(p, cat, order);
    TapPricesFromCatalogue(cat, order.lines, sku);
    var items, trusted := AsItems(order.lines) + [Item(sku, 1)], SelfTrusted(order.lines)[sku := row];
    PricedLinesFromCatalogue(p, cat, items, trusted);
    TapPricesAreWhole(p, cat, order.lines, sku, items);
    LinesFromCatalogueAreClean(cat, grown.lines);
    TightTapIsAcceptedExactlyInWindow(p, cat, grown.lines, BestId(p, grown.lines), order.currency);
    GateReadsTheMoney(p, OfferApplied(p, grown.lines, BestId(p, grown.lines), order.currency), grown.notes, None, order.stepUp,
                      SelfTrusted(grown.lines));
  }

  lemma LinesFromCatalogueAreClean(cat: seq<Row>, lines: seq<Line>)
    requires CleanCatalogue(cat) && FromCatalogue(cat, lines)
    ensures CleanSkus(lines)
  {
    forall i | 0 <= i < |lines|
      ensures Clean(lines[i].sku)
    {
      assert HasRow(cat, lines[i]);
      var r :| r in cat && LineOfRow(lines[i], r);
      var k :| 0 <= k < |cat| && cat[k] == r;
      assert Clean(cat[k].name);
    }
  }

  /** Once taken, the suggestion is gone; the step-up and the currency stay. */
  lemma AddTapKeepsTheStepUp(p: Policy, cat: seq<Row>, lookupOk: bool, order: Order)
    requires Added(p, cat, lookupOk, order).Some?
    ensures
      var next := Added(p, cat, lookupOk, order).value;
      next.complement.None? && next.stepUp == order.stepUp && next.currency == order.currency
  {
  }

  /** One line, and no other, is under the name to be replaced; with the target in its place no product is
      on two lines. */
  ghost predicate SwapsAt(lines: seq<Line>, replaced: string, target: string, k: int) {
    && 0 <= k < |lines| && Key(lines[k].sku) == Lower(replaced)
    && (forall i | 0 <= i < |lines| && i != k :: Key(lines[i].sku) != Lower(replaced) && lines[i].sku != target)
    && (forall i, j | 0 <= i < j < |lines| && i != k && j != k :: lines[i].sku != lines[j].sku)
  }

  /** A line's name once every line under one name gives another. */
  function NameAfter(li: Line, replaced: string, target: string): string {
    if Key(li.sku) == Lower(replaced) then target else li.sku
  }

  ghost predicate NamesDifferAfter(lines: seq<Line>, replaced: string, target: string) {
    forall i, j | 0 <= i < j < |lines| :: NameAfter(lines[i], replaced, target) != NameAfter(lines[j], replaced, target)
  }

  lemma SwapNames(p: Policy, lines: seq<Line>, replaced: string, target: string, row: Row)
    requires SoundPolicy(p) && Rounded(p, lines) && CleanSkus(lines) && Trim(target) == target != ""
    ensures
      |PricedLines(p, SwapItems(lines, replaced, target), SelfTrusted(lines)[target := row])| == |lines| <==>
      NamesDifferAfter(lines, replaced, target)
  {
    var items, trusted := SwapItems(lines, replaced, target), SelfTrusted(lines)[target := row];
    SelfTrustedAreLines(lines);
    forall i | 0 <= i < |items|
      ensures Trim(items[i].sku) != "" && Trim(items[i].sku) in trusted
      ensures Trim(items[i].sku) == NameAfter(lines[i], replaced, target)
    {
      assert Clean(lines[i].sku);
    }
    LinePerProposalExactly(p, items, trusted);
  }

  lemma SwapsAtExactly(lines: seq<Line>, replaced: string, target: string, k: int)
    requires 0 <= k < |lines| && Key(lines[k].sku) == Lower(replaced)
    ensures SwapsAt(lines, replaced, target, k) <==> NamesDifferAfter(lines, replaced, target)
  {
    assert NameAfter(lines[k], replaced, target) == target;
    if NamesDifferAfter(lines, replaced, target) {
      forall i | 0 <= i < |lines| && i != k
        ensures NameAfter(lines[i], replaced, target) != target
      {
        assert NameAfter(lines[if i < k then i else k], replaced, target) != NameAfter(lines[if i < k then k else i], replaced, target);
      }
    }
  }

  /** The swap tap goes through exactly when the catalogue answers and has the dearer model, one line and no
      other is under the replaced name, no other line already names the model, no product is on two lines,
      and the amount may be charged. */
  lemma SwapTapGoesThroughExactly(p: Policy, cat: seq<Row>, lookupOk: bool, order: Order, k: int)
    requires Standing(p, cat, order) && order.stepUp.Some?
    requires
      var replaced := Trim(order.stepUp.value.replaced);
      0 <= k < |order.lines| && Key(order.lines[k].sku) == Lower(replaced) && replaced != ""
    ensures
      var target, replaced := Trim(order.stepUp.value.sku), Trim(order.stepUp.value.replaced);
      Swapped(p, cat, lookupOk, order).Some? <==>
      && lookupOk && target != "" && Resolve(cat, target).Some? && SwapsAt(order.lines, replaced, target, k)
      && Chargeable(p, order.lines[k := PriceLine(p, order.lines[k].qty, Resolve(cat, target).value)], order.currency)
  {
    StandingLines(p, cat, order);
    var target, replaced := Trim(order.stepUp.value.sku), Trim(order.stepUp.value.replaced);
    assert HasLine(order.lines, replaced);
    if lookupOk && target != "" && Resolve(cat, target).Some? {
      TrimIdempotent(order.stepUp.value.sku);
      SwapIsTakenExactly(p, cat, order, replaced, target, k);
    }
  }

  /** The two tests the swapped order is put to. */
  lemma SwapIsTakenExactly(p: Policy, cat: seq<Row>, order: Order, replaced: string, target: string, k: int)
    requires Standing(p, cat, order) && Trim(target) == target != "" && Resolve(cat, target).Some?
    requires 0 <= k < |order.lines| && Key(order.lines[k].sku) == Lower(replaced)
    ensures
      var row := Resolve(cat, target).value;
      var swapped := SwappedOrder(p, order, replaced, target, row);
      |swapped.lines| == |order.lines| && Accepts(p, Some(swapped), Some(SelfTrusted(swapped.lines))) <==>
      SwapsAt(order.lines, replaced, target, k) && Chargeable(p, order.lines[k := PriceLine(p, order.lines[k].qty, row)], order.currency)
  {
    StandingLines(p, cat, order);
    var row := Resolve(cat, target).value;
    SwapNames(p, order.lines, replaced, target, row);
    SwapsAtExactly(order.lines, replaced, target, k);
    if |SwappedOrder(p, order, replaced, target, row).lines| == |order.lines| {
      SwapAt(p, order.lines, replaced, target, row, k);
      SwappedIsJudgedByItsAmount(p, cat, order, replaced, target, k);
    }
  }

  lemma SwappedIsJudgedByItsAmount(p: Policy, cat: seq<Row>, order: Order, replaced: string, target: string, k: int)
    requires Standing(p, cat, order) && Resolve(cat, target).Some? && 0 <= k < |order.lines|
    requires SwappedOrder(p, order, replaced, target, Resolve(cat, target).value).lines
          == order.lines[k := PriceLine(p, order.lines[k].qty, Resolve(cat, target).value)]
    ensures
      var swapped := SwappedOrder(p, order, replaced, target, Resolve(cat, target).value);
      Accepts(p, Some(swapped), Some(SelfTrusted(swapped.lines))) <==>
      Chargeable(p, order.lines[k := PriceLine(p, order.lines[k].qty, Resolve(cat, target).value)], order.currency)
  {
    var row := Resolve(cat, target).value;
    var swapped := SwappedOrder(p, order, replaced, target, row);
    StandingLines(p, cat, order);
    TapPricesFromCatalogue(cat, order.lines, target);
    var items, trusted := SwapItems(order.lines, replaced, target), SelfTrusted(order.lines)[target := row];
    PricedLinesFromCatalogue(p, cat, items, trusted);
    TapPricesAreWhole(p, cat, order.lines, target, items);
    LinesFromCatalogueAreClean(cat, swapped.lines);
    TightTapIsAcceptedExactlyInWindow(p, cat, swapped.lines, BestId(p, swapped.lines), order.currency);
    GateReadsTheMoney(p, OfferApplied(p, swapped.lines, BestId(p, swapped.lines), order.currency), swapped.notes,
                      order.complement, None, SelfTrusted(swapped.lines));
  }

  /** With no line under the replaced name nothing is swapped. */
  lemma NothingToSwap(p: Policy, cat: seq<Row>, lookupOk: bool, order: Order)
    requires order.stepUp.None? || forall i | 0 <= i < |order.lines| ::
      Key(order.lines[i].sku) != Lower(Trim(order.stepUp.value.replaced))
    ensures Swapped(p, cat, lookupOk, order).None?
  {
  }

  /** The step-up is gone once swapped in; the suggestion and the currency stay, at the best offer earned. */
  lemma SwapTapKeepsTheSuggestion(p: Policy, cat: seq<Row>, lookupOk: bool, order: Order)
    requires SoundPolicy(p) && Swapped(p, cat, lookupOk, order).Some?
    ensures
      var next := Swapped(p, cat, lookupOk, order).value;
      && next.stepUp.None? && next.complement == order.complement && next.currency == order.currency
      && next.pct == CurrentPct(p, next.lines)
  {
    BestIdGrantsCurrent(p, Swapped(p, cat, lookupOk, order).value.lines);
  }

  // ---- The swap and apply buttons, in a conversation ----------------------------------------

  /** The lines with a dearer model in place of exactly the line under one name, every other at its own unit
      prices. */
  ghost predicate PutInPlace(p: Policy, lines: seq<Line>, next: seq<Line>, replaced: string, row: Row) {
    exists k :: 0 <= k < |lines| && Key(lines[k].sku) == replaced
      && next == RelinedAll(lines)[k := PriceLine(p, lines[k].qty, row)]
  }

  ghost predicate PutsStepUp(p: Policy, t: Turn, before: Order, after: Order) {
    && before.stepUp.Some? && Resolve(t.cat, Trim(before.stepUp.value.sku)).Some?
    && PutInPlace(p, before.lines, after.lines, Lower(Trim(before.stepUp.value.replaced)),
                  Resolve(t.cat, Trim(before.stepUp.value.sku)).value)
  }

  lemma SwappedPutsStepUp(p: Policy, t: Turn, before: Order)
    requires SoundPolicy(p) && Rounded(p, before.lines) && CleanSkus(before.lines)
    requires Swapped(p, t.cat, t.lookupOk, before).Some?
    ensures PutsStepUp(p, t, before, Swapped(p, t.cat, t.lookupOk, before).value)
  {
    SwapTapReplacesOneLine(p, t.cat, t.lookupOk, before);
  }

  /** What any turn that ends in the selling node's taps can leave, request by request. */
  lemma SwapServed(s: Settings, d: Conv, t: Turn)
    requires d.sale.pending.Some? && SwapTap in d.sale.taps
    ensures
      var before := d.sale.pending.value;
      var after := NodeSaid(s.policy, d, t).sale.pending;
      || (after.Some? && after.value.lines == before.lines)
      || (after.Some? && after == Swapped(s.policy, t.cat, t.lookupOk, before))
      || (AddTap in d.sale.taps && after.Some? && after == Added(s.policy, t.cat, t.lookupOk, before))
  {
    if Route(d).Sales? && BranchOf(d.sale, Retrieved(d, t).specsUnavailable, t.msg).TapBranch? {
      if ApplyTap in d.sale.taps {
        ApplyLeaves(s.policy, d.sale, t);
        if Repriced(s.policy, d.sale.pending.value).Some? {
          RepriceKeepsLines(s.policy, d.sale.pending.value);
        }
      } else if AddTap in d.sale.taps {
        AddLeaves(s.policy, d.sale, t);
      } else {
        SwapLeaves(s.policy, d.sale, t);
      }
    }
  }

  /** A turn with the swap button puts the dearer model in place of exactly one line, or leaves the lines as
      they were; a standing add request comes first, and appends the suggestion. */
  lemma SwapTurnReplacesOrLeaves(s: Settings, c: Conv, t: Turn)
    requires SoundPolicy(s.policy) && c.sale.pending.Some? && TapsSwap(t.msg)
    requires Rounded(s.policy, c.sale.pending.value.lines) && CleanSkus(c.sale.pending.value.lines)
    ensures
      var before, after := c.sale.pending.value, TurnTaken(s, c, t).0.sale.pending;
      && after.Some?
      && (after.value.lines == before.lines || PutsStepUp(s.policy, t, before, after.value)
          || (AddTap in c.sale.taps && AppendsSuggestion(s.policy, t, before, after.value)))
  {
    var d := Triage(s, c, t);
    var before := c.sale.pending.value;
    EachButtonRaisesItsRequest(s, c, t);
    SwapServed(s, d, t);
    GateKeepsWalk(s.policy, NodeSaid(s.policy, d, t).sale, t);
    if Swapped(s.policy, t.cat, t.lookupOk, before).Some? {
      SwappedPutsStepUp(s.policy, t, before);
    }
    if Added(s.policy, t.cat, t.lookupOk, before).Some? {
      AddTapAppendsOneLine(s.policy, t.cat, t.lookupOk, before);
    }
  }

  lemma {:induction false} SwapTapOnEveryRun(s: Settings, cat: seq<Row>, events: seq<Event>, t: Turn)
    requires SoundPolicy(s.policy) && CleanCatalogue(cat)
    requires (forall e | e in events :: UsesCatalogue(e, cat)) && t.cat == cat
    requires Run(s, START, events).conv.sale.pending.Some? && TapsSwap(t.msg)
    ensures
      var c := Run(s, START, events).conv;
      var before, after := c.sale.pending.value, TurnTaken(s, c, t).0.sale.pending;
      && after.Some?
      && (after.value.lines == before.lines || PutsStepUp(s.policy, t, before, after.value)
          || (AddTap in c.sale.taps && AppendsSuggestion(s.policy, t, before, after.value)))
  {
    PendingOrderIsAlwaysPayable(s, cat, events);
    var c := Run(s, START, events).conv;
    PayableLinesAreRounded(s.policy, cat, c.sale.pending.value);
    SwapTurnReplacesOrLeaves(s, c, t);
  }

  /** A turn with the apply button never changes a line or a suggestion; if it shows the total, the order is
      at the best offer its lines earn. */
  lemma ApplyTurnChangesTheMoneyOnly(s: Settings, c: Conv, t: Turn)
    requires SoundPolicy(s.policy) && c.sale.pending.Some? && TapsApply(t.msg)
    ensures
      var before := c.sale.pending.value;
      var (after, log) := TurnTaken(s, c, t);
      && after.sale.pending.Some?
      && after.sale.pending.value.lines == before.lines
      && after.sale.pending.value.complement == before.complement && after.sale.pending.value.stepUp == before.stepUp
      && (log.shown.None? ==> after.sale.pending.value == before)
      && (log.shown.Some? ==> log.shown == Some(Total) && after.sale.pending.value.pct == CurrentPct(s.policy, before.lines))
  {
    var d := Triage(s, c, t);
    EachButtonRaisesItsRequest(s, c, t);
    ApplyServed(s, d, t);
    GateKeepsWalk(s.policy, NodeSaid(s.policy, d, t).sale, t);
    if Repriced(s.policy, c.sale.pending.value).Some? {
      ApplyTapChangesTheMoneyOnly(s.policy, c.sale.pending.value);
    }
  }

  lemma ApplyServed(s: Settings, d: Conv, t: Turn)
    requires d.sale.pending.Some? && ApplyTap in d.sale.taps
    ensures
      var said := NodeSaid(s.policy, d, t);
      || (said.shown.None? && said.sale.pending == d.sale.pending)
      || (said.shown == Some(Total) && said.sale.pending.Some? && said.sale.pending == Repriced(s.policy, d.sale.pending.value))
  {
    if Route(d).Sales? && BranchOf(d.sale, Retrieved(d, t).specsUnavailable, t.msg).TapBranch? {
      ApplyLeaves(s.policy, d.sale, t);
    }
  }
}
