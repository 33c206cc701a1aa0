/** What the pricing code promises: the two computations of an order agree, the ladder is honest, and
    no choice of offer buys more than the best one already earned. */
module Money {
  import opened Text
  import opened Rounding
  import opened Catalogue
  import opened Discounts
  import opened Guardrails

  /** The shipped registries and limits. */
  const SHIPPED: Policy := Policy(
    [ Offer("NONE", 0.0, 0, 0.0),
      Offer("FESTIVE5", 5.0, 1, 0.0),
      Offer("BUNDLE8", 8.0, 2, 0.0),
      Offer("BUNDLE10", 10.0, 3, 0.0),
      Offer("PROJECT12", 12.0, 2, 10000000.0) ],
    map["Smart Door Lock Base" := "Smart Door Lock Premium",
        "Touch Screen Control Panel 7 inch" := "Touch Screen Control Panel 10 inch"],
    12.0, 20, 100.0, 50000000.0)

  // ---- Lines in whole paise -----------------------------------------------------------------

  /** A catalogue row in whole paise with a positive product price. */
  ghost predicate WholeRow(row: Row) {
    Whole(row.base) && Whole(row.install) && row.base > 0.0 && row.install >= 0.0
  }

  /** A line whose total is exactly its own unit prices times its quantity. */
  ghost predicate TightLine(p: Policy, li: Line) {
    && 1 <= li.qty <= p.maxQty
    && Whole(li.unit) && Whole(li.install) && li.unit > 0.0 && li.install >= 0.0
    && li.total == Times(li.unit + li.install, li.qty)
  }

  ghost predicate Tight(p: Policy, lines: seq<Line>) {
    forall i | 0 <= i < |lines| :: TightLine(p, lines[i])
  }

  lemma TightLineTotals(p: Policy, li: Line)
    requires TightLine(p, li)
    ensures li.total == Times(li.unit, li.qty) + Times(li.install, li.qty)
    ensures Whole(li.total) && Whole(Times(li.unit, li.qty)) && Whole(Times(li.install, li.qty))
    ensures Times(li.unit, li.qty) >= 1.0 && Times(li.install, li.qty) >= 0.0
  {
    TimesAdds(li.unit, li.install, li.qty);
    WholeTimes(li.unit, li.qty);
    WholeTimes(li.install, li.qty);
    WholeSum(Times(li.unit, li.qty), Times(li.install, li.qty));
    assert li.unit >= 1.0;
    TimesMonotone(1.0, li.unit, li.qty);
    TimesMonotone(0.0, li.install, li.qty);
    assert Times(1.0, li.qty) == li.qty as real && Times(0.0, li.qty) == 0.0;
  }

  lemma {:induction false} TightTotals(p: Policy, lines: seq<Line>)
    requires Tight(p, lines)
    ensures SumTotals(lines) == SumProducts(lines) + SumInstall(lines)
    ensures Whole(SumTotals(lines)) && Whole(SumProducts(lines)) && Whole(SumInstall(lines))
    ensures SumProducts(lines) >= |lines| as real && SumInstall(lines) >= 0.0
  {
    if lines != [] {
      var init, li := lines[..|lines| - 1], lines[|lines| - 1];
      TightTotals(p, init);
      TightLineTotals(p, li);
      WholeSum(SumTotals(init), li.total);
      WholeSum(SumProducts(init), Times(li.unit, li.qty));
      WholeSum(SumInstall(init), Times(li.install, li.qty));
    }
  }

  lemma {:induction false} TightSubtotal(p: Policy, lines: seq<Line>)
    requires Tight(p, lines)
    ensures Subtotal(lines) == SumTotals(lines) == Round2(SumTotals(lines))
    ensures InstallTotal(lines) == SumInstall(lines)
    ensures Discountable(lines) == SumProducts(lines) == Round2(SumProducts(lines))
    ensures 0.0 <= InstallTotal(lines) <= Subtotal(lines)
  {
    TightTotals(p, lines);
    RoundWhole(SumTotals(lines));
    RoundWhole(SumInstall(lines));
    RoundWhole(SumProducts(lines));
  }

  // ---- The priced lines ---------------------------------------------------------------------

  lemma {:induction false} DistinctNames(p: Policy, items: seq<Item>)
    requires 1 <= p.maxQty
    ensures forall i, j | 0 <= i < j < |Distinct(items)| :: Distinct(items)[i] != Distinct(items)[j]
    ensures forall sku :: sku in Distinct(items) <==>
      sku != "" && exists i :: 0 <= i < |items| && Trim(items[i].sku) == sku
    ensures forall sku | sku in Distinct(items) :: TotalQty(p, items, sku) >= 1
    ensures forall sku :: TotalQty(p, items, sku) >= 0
    ensures |Distinct(items)| <= |items|
  {
    if items != [] {
      var init := items[..|items| - 1];
      DistinctNames(p, init);
      forall sku
        ensures sku in Distinct(items) <==> sku != "" && exists i :: 0 <= i < |items| && Trim(items[i].sku) == sku
      {
        if i :| 0 <= i < |init| && Trim(init[i].sku) == sku {
          assert Trim(items[i].sku) == sku;
        }
        if i :| 0 <= i < |items| && Trim(items[i].sku) == sku && i < |init| {
          assert Trim(init[i].sku) == sku;
        }
      }
    }
  }

  predicate NamedAt(items: seq<Item>, i: int, sku: string) {
    0 <= i < |items| && Trim(items[i].sku) == sku
  }

  /** One name is mentioned before there is any mention of the other. */
  ghost predicate MentionedBefore(items: seq<Item>, first: string, second: string) {
    exists i :: NamedAt(items, i, first) && forall j | 0 <= j <= i :: !NamedAt(items, j, second)
  }

  lemma MentionedBeforeGrows(init: seq<Item>, items: seq<Item>, first: string, second: string)
    requires MentionedBefore(init, first, second) && init <= items
    ensures MentionedBefore(items, first, second)
  {
    var i :| NamedAt(init, i, first) && forall j | 0 <= j <= i :: !NamedAt(init, j, second);
    assert NamedAt(items, i, first);
    assert forall j | 0 <= j <= i :: NamedAt(items, j, second) == NamedAt(init, j, second);
  }

  /** The names stand in the order they are first mentioned. */
  lemma {:induction false} NamesStandAsFirstMentioned(items: seq<Item>, a: nat, b: nat)
    requires a < b < |Distinct(items)|
    ensures MentionedBefore(items, Distinct(items)[a], Distinct(items)[b])
  {
    var init := items[..|items| - 1];
    var names, before := Distinct(items), Distinct(init);
    if b < |before| {
      NamesStandAsFirstMentioned(init, a, b);
    } else {
      NewNameIsMentionedLast(init, before[a], names[b]);
    }
    MentionedBeforeGrows(init, items, names[a], names[b]);
  }

  lemma {:induction false} NewNameIsMentionedLast(init: seq<Item>, first: string, second: string)
    requires first in Distinct(init) && second !in Distinct(init) && second != ""
    ensures MentionedBefore(init, first, second)
  {
    MentionedSomewhere(init);
    var i :| 0 <= i < |init| && Trim(init[i].sku) == first;
    assert NamedAt(init, i, first);
    assert forall j :: NamedAt(init, j, second) ==> second in Distinct(init);
  }

  lemma {:induction false} MentionedSomewhere(items: seq<Item>)
    ensures forall sku :: sku in Distinct(items) <==>
      sku != "" && exists i :: 0 <= i < |items| && Trim(items[i].sku) == sku
  {
    if items != [] {
      var init := items[..|items| - 1];
      MentionedSomewhere(init);
      assert items == init + [items[|items| - 1]];
    }
  }

  /** Every priced line is the trusted row of some proposed name, at between one and the cap. */
  ghost predicate PricedFrom(p: Policy, li: Line, trusted: map<string, Row>) {
    && 1 <= li.qty <= p.maxQty
    && exists sku :: sku in trusted && li == PriceLine(p, li.qty, trusted[sku])
  }

  lemma {:induction false} LinesPricedFrom(p: Policy, skus: seq<string>, items: seq<Item>, trusted: map<string, Row>)
    requires 1 <= p.maxQty
    requires forall sku | sku in skus :: TotalQty(p, items, sku) >= 1
    ensures forall i | 0 <= i < |LinesFor(p, skus, items, trusted)| ::
      PricedFrom(p, LinesFor(p, skus, items, trusted)[i], trusted)
    ensures |LinesFor(p, skus, items, trusted)| <= |skus|
  {
    if skus != [] {
      LinesPricedFrom(p, skus[..|skus| - 1], items, trusted);
      var sku := skus[|skus| - 1];
      if sku in trusted {
        var li := PriceLine(p, TotalQty(p, items, sku), trusted[sku]);
        assert li == PriceLine(p, li.qty, trusted[sku]);
        assert PricedFrom(p, li, trusted);
      }
    }
  }

  lemma WholeRowsPriceTightly(p: Policy, items: seq<Item>, trusted: map<string, Row>)
    requires 1 <= p.maxQty
    requires forall sku | sku in trusted :: WholeRow(trusted[sku])
    ensures Tight(p, PricedLines(p, items, trusted))
  {
    DistinctNames(p, items);
    LinesPricedFrom(p, Distinct(items), items, trusted);
    var lines := PricedLines(p, items, trusted);
    forall i | 0 <= i < |lines|
      ensures TightLine(p, lines[i])
    {
      assert PricedFrom(p, lines[i], trusted);
      var sku :| sku in trusted && lines[i] == PriceLine(p, lines[i].qty, trusted[sku]);
      var row := trusted[sku];
      RoundWhole(row.base);
      RoundWhole(row.install);
      WholeSum(row.base, row.install);
      WholeTimes(row.base + row.install, lines[i].qty);
      RoundWhole(Times(row.base + row.install, lines[i].qty));
    }
  }

  // ---- The two computations agree -----------------------------------------------------------

  /** Rows that share a name are one row, so a map keyed by canonical name is well defined. */
  ghost predicate Consistent(trusted: map<string, Row>) {
    forall x, y | x in trusted && y in trusted && trusted[x].name == trusted[y].name :: trusted[x] == trusted[y]
  }

  /** The trusted rows keyed by their own names. */
  ghost predicate KeyedByName(canonical: map<string, Row>, trusted: map<string, Row>) {
    && (forall x | x in trusted :: trusted[x].name in canonical && canonical[trusted[x].name] == trusted[x])
    && (forall n | n in canonical :: exists x :: x in trusted && canonical[n] == trusted[x] && trusted[x].name == n)
  }

  lemma TightOrderAmounts(p: Policy, lines: seq<Line>, id: string, currency: string)
    requires SoundPolicy(p) && Tight(p, lines)
    ensures
      var order := OfferApplied(p, lines, id, currency);
      && 0.0 <= order.pct <= p.ceiling
      && 0.0 <= order.discount <= Discountable(lines)
      && order.amount == order.subtotal - order.discount
      && InstallTotal(lines) <= order.amount <= order.subtotal
  {
    TightSubtotal(p, lines);
    TightTotals(p, lines);
    var order := OfferApplied(p, lines, id, currency);
    DiscountIsWithin(Discountable(lines), order.pct);
    WholeSum(order.subtotal, order.discount);
    RoundWhole(order.subtotal - order.discount);
  }

  lemma DiscountIsWithin(discountable: real, pct: real)
    requires 0.0 <= discountable && Whole(discountable) && 0.0 <= pct <= 100.0
    ensures 0.0 <= Round2(Percent(discountable, pct)) <= discountable
  {
    PercentWithin(discountable, pct);
    RoundMonotone(0.0, Percent(discountable, pct));
    RoundMonotone(Percent(discountable, pct), discountable);
    RoundWhole(0.0);
    RoundWhole(discountable);
  }

  lemma TightOrderPassesTotals(p: Policy, lines: seq<Line>, id: string, currency: string)
    requires SoundPolicy(p) && Tight(p, lines)
    ensures
      var order := OfferApplied(p, lines, id, currency);
      TotalsAccepted(p, order) <==> p.minAmount <= order.amount <= p.maxAmount
  {
    TightOrderAmounts(p, lines, id, currency);
    TightSubtotal(p, lines);
  }

  /** In a catalogue priced in whole paise, the gate and the pricing code agree on every order line
      pricing can build, whatever was proposed and whichever offer was named: the gate refuses exactly
      the empty order and the order outside the allowed window. And installation is never discounted. */
  lemma BuiltOrderAcceptedExactlyInWindow(
      p: Policy, items: seq<Item>, trusted: map<string, Row>, canonical: map<string, Row>, id: string)
    requires SoundPolicy(p) && KeyedByName(canonical, trusted)
    requires forall sku | sku in trusted :: WholeRow(trusted[sku]) && Clean(trusted[sku].name)
    ensures
      var lines := PricedLines(p, items, trusted);
      var order := OfferApplied(p, lines, id, "INR");
      && (Accepts(p, Some(order), Some(canonical)) <==> lines != [] && p.minAmount <= order.amount <= p.maxAmount)
      && InstallTotal(lines) <= order.amount <= Subtotal(lines)
  {
    var lines := PricedLines(p, items, trusted);
    var order := OfferApplied(p, lines, id, "INR");
    PricedLinesAreAccepted(p, items, trusted, canonical);
    TightOrderAmounts(p, lines, id, "INR");
    TightOrderPassesTotals(p, lines, id, "INR");
    assert Upper("INR") == "INR";
  }

  lemma PricedLinesAreAccepted(p: Policy, items: seq<Item>, trusted: map<string, Row>, canonical: map<string, Row>)
    requires SoundPolicy(p) && KeyedByName(canonical, trusted)
    requires forall sku | sku in trusted :: WholeRow(trusted[sku]) && Clean(trusted[sku].name)
    ensures Tight(p, PricedLines(p, items, trusted))
    ensures forall i | 0 <= i < |PricedLines(p, items, trusted)| ::
      LineAccepted(p, PricedLines(p, items, trusted)[i], Some(canonical))
  {
    var lines := PricedLines(p, items, trusted);
    WholeRowsPriceTightly(p, items, trusted);
    DistinctNames(p, items);
    LinesPricedFrom(p, Distinct(items), items, trusted);
    forall i | 0 <= i < |lines|
      ensures LineAccepted(p, lines[i], Some(canonical))
    {
      PricedLineIsAccepted(p, lines[i], trusted, canonical);
    }
  }

  lemma PricedLineIsAccepted(p: Policy, li: Line, trusted: map<string, Row>, canonical: map<string, Row>)
    requires PricedFrom(p, li, trusted) && TightLine(p, li) && KeyedByName(canonical, trusted)
    requires forall sku | sku in trusted :: WholeRow(trusted[sku]) && Clean(trusted[sku].name)
    ensures LineAccepted(p, li, Some(canonical))
  {
    var sku :| sku in trusted && li == PriceLine(p, li.qty, trusted[sku]);
    TightLineTotals(p, li);
    RoundWhole(li.total);
    RoundWhole(trusted[sku].base);
    RoundWhole(trusted[sku].install);
  }

  /** Whole paise are needed. Four units at six tenths of a paisa over: the line total is rounded once
      from the exact price, the gate multiplies the rounded one, and the two differ by over a paisa. */
  lemma FractionalPriceIsRefused(p: Policy, name: string)
    requires SoundPolicy(p) && Clean(name) && p.maxQty >= 4 && p.minAmount <= 4002.0 <= p.maxAmount
    ensures
      var row := Row(name, 1000.6, 0.0);
      var lines := PricedLines(p, [Item(name, 4)], map[name := row]);
      var order := OfferApplied(p, lines, "NONE", "INR");
      && order.amount == 4002.0
      && !Accepts(p, Some(order), Some(map[name := row]))
  {
    var row := Row(name, 1000.6, 0.0);
    var li := Line(name, 4, 1001.0, 0.0, 4002.0);
    OneItemOneLine(p, name, 4, row);
    SingleLineTotal(li);
    NoOfferNoDiscount(p, [li]);
    RoundWhole(4002.0);
    var order := OfferApplied(p, [li], "NONE", "INR");
    assert !LineArithmetic(p, li);
    assert !LineAccepted(p, order.lines[0], Some(map[name := row]));
  }

  lemma OneItemOneLine(p: Policy, name: string, qty: int, row: Row)
    requires Clean(name) && 1 <= p.maxQty
    ensures PricedLines(p, [Item(name, qty)], map[name := row]) == [PriceLine(p, ClampQty(p, qty), row)]
  {
    var items := [Item(name, qty)];
    OneItemOneName(p, items[0], name);
    assert [name][..0] == [] && LinesFor(p, [name][..0], items, map[name := row]) == [];
    assert [name][|[name]| - 1] == name;
  }

  lemma {:induction false} OneItemOneName(p: Policy, item: Item, name: string)
    requires Trim(item.sku) == name != ""
    ensures Distinct([item]) == [name] && TotalQty(p, [item], name) == ClampQty(p, item.qty)
  {
    assert [item][..0] == [] && Distinct([]) == [] && TotalQty(p, [], name) == 0;
    assert [item][0] == item && [] + [name] == [name];
  }

  lemma SingleLineTotal(li: Line)
    ensures SumTotals([li]) == li.total
  {
    assert [li][..0] == [];
  }

  lemma NoOfferNoDiscount(p: Policy, lines: seq<Line>)
    requires SoundPolicy(p)
    ensures GrantedPct(p, lines, "NONE") == 0.0
    ensures GrantedDiscount(p, lines, "NONE") == 0.0
  {
    CapitalsAreAnOfferId("NONE");
    FindOfferFinds(p.offers, "NONE");
    RoundWhole(0.0);
    assert Percent(Discountable(lines), 0.0) == 0.0;
  }

  // ---- The offer ladder ---------------------------------------------------------------------

  lemma {:induction false} BestOfIsHighest(p: Policy, offers: seq<Offer>, lines: seq<Line>)
    ensures var best := BestOf(p, offers, lines);
            && (best.None? ==> forall o | o in offers :: !Eligible(p, o, lines))
            && (best.Some? ==> best.value in offers && Eligible(p, best.value, lines))
            && (best.Some? ==> forall o | o in offers && Eligible(p, o, lines) ::
                  EffectivePct(p, o) <= EffectivePct(p, best.value))
  {
    if offers != [] {
      BestOfIsHighest(p, offers[..|offers| - 1], lines);
      assert offers == offers[..|offers| - 1] + [offers[|offers| - 1]];
    }
  }

  lemma {:induction false} FindOfferFinds(offers: seq<Offer>, id: string)
    ensures var found := FindOffer(offers, id);
            if found.None? then forall o | o in offers :: o.id != id
            else found.value in offers && found.value.id == id
  {
    if offers != [] {
      FindOfferFinds(offers[..|offers| - 1], id);
      assert offers == offers[..|offers| - 1] + [offers[|offers| - 1]];
    }
  }

  lemma OfferFoundById(p: Policy, o: Offer)
    requires SoundPolicy(p) && o in p.offers
    ensures FindOffer(p.offers, OfferId(o.id)) == Some(o)
  {
    FindOfferFinds(p.offers, o.id);
  }

  /** The best offer is worth at least as much as anything the order qualifies for, and naming its id
      buys exactly that and exactly the saving the button promised. No id, real or invented, buys more. */
  lemma BestOfferIsGrantedAndUnbeaten(p: Policy, lines: seq<Line>, id: string)
    requires SoundPolicy(p) && lines != []
    ensures forall o | o in p.offers && Eligible(p, o, lines) :: EffectivePct(p, o) <= CurrentPct(p, lines)
    ensures GrantedPct(p, lines, id) <= CurrentPct(p, lines) <= p.ceiling
    ensures Best(p, lines).Some? ==>
      var order := OfferApplied(p, lines, Best(p, lines).value.id, "INR");
      && order.pct == CurrentPct(p, lines) > 0.0
      && order.appliedOffer == Some(Best(p, lines).value.id)
      && (if order.discount > 0.0
          then PreviewOf(p, lines) == Some(Preview(Best(p, lines).value.id, order.pct, order.discount, order.amount))
          else PreviewOf(p, lines).None?)
  {
    BestOfIsHighest(p, p.offers, lines);
    NoIdBeatsTheBest(p, lines, id);
    if Best(p, lines).Some? {
      BestIsGranted(p, lines);
      PreviewIsWhatIsApplied(p, lines);
    }
  }

  lemma PreviewIsWhatIsApplied(p: Policy, lines: seq<Line>)
    requires Best(p, lines).Some?
    ensures
      var id := Best(p, lines).value.id;
      var order := OfferApplied(p, lines, id, "INR");
      PreviewOf(p, lines) == if order.discount > 0.0 then Some(Preview(id, order.pct, order.discount, order.amount)) else None
  {
  }

  lemma NoIdBeatsTheBest(p: Policy, lines: seq<Line>, id: string)
    requires SoundPolicy(p) && lines != []
    ensures GrantedPct(p, lines, id) <= CurrentPct(p, lines) <= p.ceiling
  {
    BestOfIsHighest(p, p.offers, lines);
    FindOfferFinds(p.offers, OfferId(id));
    if GrantedPct(p, lines, id) > 0.0 {
      assert Eligible(p, FindOffer(p.offers, OfferId(id)).value, lines);
    }
  }

  lemma BestIsGranted(p: Policy, lines: seq<Line>)
    requires SoundPolicy(p) && lines != [] && Best(p, lines).Some?
    ensures GrantedPct(p, lines, Best(p, lines).value.id) == CurrentPct(p, lines) > 0.0
    ensures OfferId(Best(p, lines).value.id) == Best(p, lines).value.id
  {
    BestOfIsHighest(p, p.offers, lines);
    OfferFoundById(p, Best(p, lines).value);
  }

  lemma {:induction false} SumTotalsAppends(lines: seq<Line>, more: seq<Line>)
    requires forall li | li in more :: li.total >= 0.0
    ensures SumTotals(lines) <= SumTotals(lines + more)
  {
    if more == [] {
      assert lines + more == lines;
    } else {
      var init := more[..|more| - 1];
      SumTotalsAppends(lines, init);
      assert (lines + more)[..|lines + more| - 1] == lines + init;
    }
  }

  /** An order with no fewer lines and no less spend keeps its tier. */
  lemma NoSmallerOrderKeepsTheOffer(p: Policy, lines: seq<Line>, grown: seq<Line>)
    requires |lines| <= |grown| && Subtotal(lines) <= Subtotal(grown) && 0.0 <= p.ceiling
    ensures CurrentPct(p, lines) <= CurrentPct(p, grown)
  {
    BestOfIsHighest(p, p.offers, lines);
    BestOfIsHighest(p, p.offers, grown);
    if Best(p, lines).Some? {
      assert Eligible(p, Best(p, lines).value, grown);
    }
  }

  lemma OneOfferLadder(p: Policy, o: Offer, lines: seq<Line>)
    requires p.offers == [o] && lines != []
    ensures Best(p, lines) == if Eligible(p, o, lines) then Some(o) else None
    ensures NextHint(p, lines) == Candidate(p, o, lines)
  {
    assert p.offers[..0] == [];
    assert BestOf(p, [], lines) == None && HintOf(p, [], lines) == None;
  }

  /** And spend decides it: an order with no fewer lines keeps its tier on every ladder exactly when it is
      worth no less. */
  lemma TierIsKeptOnEveryLadderExactly(p: Policy, lines: seq<Line>, grown: seq<Line>)
    requires lines != [] && |lines| <= |grown| && 0.0 < p.ceiling
    ensures (forall offers :: CurrentPct(p.(offers := offers), lines) <= CurrentPct(p.(offers := offers), grown))
       <==> Subtotal(lines) <= Subtotal(grown)
  {
    if Subtotal(lines) <= Subtotal(grown) {
      forall offers
        ensures CurrentPct(p.(offers := offers), lines) <= CurrentPct(p.(offers := offers), grown)
      {
        NoSmallerOrderKeepsTheOffer(p.(offers := offers), lines, grown);
      }
    } else {
      var spend := Offer("SPEND", p.ceiling, 0, Subtotal(lines));
      var ladder := p.(offers := [spend]);
      OneOfferLadder(ladder, spend, lines);
      OneOfferLadder(ladder, spend, grown);
      assert CurrentPct(ladder, lines) == p.ceiling && CurrentPct(ladder, grown) == 0.0;
    }
  }

  /** Adding lines never costs an order its tier. */
  lemma MoreLinesKeepTheOffer(p: Policy, lines: seq<Line>, more: seq<Line>)
    requires forall li | li in more :: li.total >= 0.0
    requires 0.0 <= p.ceiling
    ensures CurrentPct(p, lines) <= CurrentPct(p, lines + more)
  {
    SumTotalsAppends(lines, more);
    RoundMonotone(SumTotals(lines), SumTotals(lines + more));
    NoSmallerOrderKeepsTheOffer(p, lines, lines + more);
  }

  // ---- The audit trail ----------------------------------------------------------------------

  lemma {:induction false} ClampNotesSilent(p: Policy, items: seq<Item>)
    ensures ClampNotes(p, items) == [] <==> forall i | 0 <= i < |items| :: MentionKept(p, items[i])
  {
    if items != [] {
      var init, item := items[..|items| - 1], items[|items| - 1];
      ClampNotesSilent(p, init);
      assert forall i | 0 <= i < |init| :: init[i] == items[i];
      assert ClampNotes(p, items) == ClampNotes(p, init) + (if MentionKept(p, item) then [] else [QtyClamped(Trim(item.sku))]);
    }
  }

  /** One mention, unnamed or within the cap. */
  predicate MentionKept(p: Policy, item: Item) {
    Trim(item.sku) == "" || item.qty <= p.maxQty
  }

  lemma {:induction false} MergeNotesSilent(p: Policy, skus: seq<string>, items: seq<Item>, trusted: map<string, Row>)
    ensures MergeNotes(p, skus, items, trusted) == [] <==>
      forall sku | sku in skus && sku in trusted :: TotalQty(p, items, sku) <= p.maxQty
  {
    if skus != [] {
      MergeNotesSilent(p, skus[..|skus| - 1], items, trusted);
      assert skus == skus[..|skus| - 1] + [skus[|skus| - 1]];
    }
  }

  /** Everything proposed is priced, in the quantities asked for. */
  predicate PricedAsAsked(p: Policy, items: seq<Item>, trusted: map<string, Row>) {
    && (forall i | 0 <= i < |items| :: MentionKept(p, items[i]))
    && (forall sku | sku in Distinct(items) :: sku in trusted && TotalQty(p, items, sku) <= p.maxQty)
  }

  /** The offer named is one the ladder has, and it is granted in full on everything charged. */
  predicate OfferedAsAsked(p: Policy, lines: seq<Line>, id: string) {
    var asked := FindOffer(p.offers, OfferId(id));
    && asked.Some?
    && (asked.value.pct <= 0.0 || GrantedPct(p, lines, id) == asked.value.pct)
    && (InstallTotal(lines) <= 0.0 || GrantedPct(p, lines, id) == 0.0)
  }

  lemma ApplyNotesSilent(p: Policy, lines: seq<Line>, id: string)
    requires SoundPolicy(p)
    ensures ApplyNotes(p, lines, id) == [] <==> OfferedAsAsked(p, lines, id)
  {
  }

  lemma PricingNotesSilent(p: Policy, items: seq<Item>, trusted: map<string, Row>)
    ensures PricingNotes(p, items, trusted) == [] <==> PricedAsAsked(p, items, trusted)
  {
    ClampNotesSilent(p, items);
    MergeNotesSilent(p, Distinct(items), items, trusted);
  }

  // ---- The nearest better tier --------------------------------------------------------------

  lemma {:induction false} HintOfIsNearest(p: Policy, offers: seq<Offer>, lines: seq<Line>)
    requires lines != []
    ensures var hint := HintOf(p, offers, lines);
            && (hint.Some? ==> exists o :: o in offers && Candidate(p, o, lines) == hint)
            && forall o | o in offers && Candidate(p, o, lines).Some? ::
                 hint.Some? && !Before(Candidate(p, o, lines).value, hint.value)
  {
    if offers != [] {
      var init, last := offers[..|offers| - 1], offers[|offers| - 1];
      HintOfIsNearest(p, init, lines);
      assert offers == init + [last];
      if HintOf(p, init, lines).Some? {
        var o :| o in init && Candidate(p, o, lines) == HintOf(p, init, lines);
        assert o in offers;
      }
      assert last in offers;
    }
  }

  /** Some offer at least this good asks for no more products and no more spend than the order has. */
  ghost predicate ReachesTier(p: Policy, lines: seq<Line>, pct: real) {
    exists o :: o in p.offers && o.id != "NONE" && EffectivePct(p, o) >= pct && Qualifies(o, lines)
  }

  /** The larger order goes over the spend threshold of an offer at least as good. */
  ghost predicate CrossesSpendTier(p: Policy, lines: seq<Line>, grown: seq<Line>, pct: real) {
    exists o :: o in p.offers && o.id != "NONE" && EffectivePct(p, o) >= pct && o.minLines <= |grown|
      && Subtotal(lines) < o.minSubtotal <= Subtotal(grown)
  }

  /** When one more product keeps the pairing card's word. Where the spend rises with it, exactly when the
      nearest tier is one product away, or the spend happens to cross a threshold; where it does not, only
      an offer the larger order qualifies for as it stands. */
  ghost predicate KeepsPromise(p: Policy, lines: seq<Line>, grown: seq<Line>, hint: Hint) {
    if Subtotal(lines) < Subtotal(grown) then hint.needsProducts == 1 || CrossesSpendTier(p, lines, grown, hint.pct)
    else ReachesTier(p, grown, hint.pct)
  }

  lemma SpendRisesByAPaisa(lines: seq<Line>, grown: seq<Line>)
    requires Subtotal(lines) < Subtotal(grown)
    ensures Subtotal(lines) + 1.0 <= Subtotal(grown)
  {
    assert Subtotal(lines).Floor < Subtotal(grown).Floor;
  }

  /** When the pairing card says one more product takes the order to a percentage, it does, exactly
      when the nearest tier is one product away. A nearest tier two or more products away is promised
      in the same words, and then only a spend threshold the new line happens to cross can keep it. */
  lemma PairingPromiseKeptExactly(p: Policy, lines: seq<Line>, grown: seq<Line>)
    requires SoundPolicy(p) && lines != [] && |grown| == |lines| + 1
    requires NextHint(p, lines).Some? && NextHint(p, lines).value.needsProducts > 0
    ensures CurrentPct(p, grown) >= NextHint(p, lines).value.pct <==> KeepsPromise(p, lines, grown, NextHint(p, lines).value)
  {
    var hint := NextHint(p, lines).value;
    HintOfIsNearest(p, p.offers, lines);
    BestOfIsHighest(p, p.offers, lines);
    assert hint.pct > CurrentPct(p, lines) >= 0.0;
    TierIsReachedExactly(p, grown, hint.pct);
    if Subtotal(lines) < Subtotal(grown) {
      SpendRisesByAPaisa(lines, grown);
      PromiseWhereSpendRises(p, lines, grown, hint);
    }
  }

  lemma TierIsReachedExactly(p: Policy, lines: seq<Line>, pct: real)
    requires SoundPolicy(p) && lines != [] && pct > 0.0
    ensures CurrentPct(p, lines) >= pct <==> ReachesTier(p, lines, pct)
  {
    BestOfIsHighest(p, p.offers, lines);
    if ReachesTier(p, lines, pct) {
      var o :| o in p.offers && o.id != "NONE" && EffectivePct(p, o) >= pct && Qualifies(o, lines);
      assert Eligible(p, o, lines);
    }
  }

  lemma PromiseWhereSpendRises(p: Policy, lines: seq<Line>, grown: seq<Line>, hint: Hint)
    requires SoundPolicy(p) && lines != [] && |grown| == |lines| + 1 && Subtotal(lines) + 1.0 <= Subtotal(grown)
    requires NextHint(p, lines) == Some(hint) && hint.needsProducts > 0
    ensures ReachesTier(p, grown, hint.pct) <==> hint.needsProducts == 1 || CrossesSpendTier(p, lines, grown, hint.pct)
  {
    HintOfIsNearest(p, p.offers, lines);
    var promised :| promised in p.offers && Candidate(p, promised, lines) == Some(hint);
    if hint.needsProducts == 1 {
      assert Qualifies(promised, grown);
    }
    if CrossesSpendTier(p, lines, grown, hint.pct) {
      var o :| o in p.offers && o.id != "NONE" && EffectivePct(p, o) >= hint.pct && o.minLines <= |grown|
        && Subtotal(lines) < o.minSubtotal <= Subtotal(grown);
      assert Qualifies(o, grown);
    }
    if ReachesTier(p, grown, hint.pct) && !CrossesSpendTier(p, lines, grown, hint.pct) {
      var o :| o in p.offers && o.id != "NONE" && EffectivePct(p, o) >= hint.pct && Qualifies(o, grown);
      NearerTierIsChosen(p, lines, o, hint);
    }
  }

  /** The card's word broken: a ladder whose one offer asks for four products, a two-line order. The card
      says one more product earns ten percent; it earns nothing. */
  lemma TwoShortIsPromisedAndBroken(p: Policy, lines: seq<Line>, added: Line)
    requires p.offers == [Offer("BIG", 10.0, 4, 0.0)] && p.ceiling == 100.0 && |lines| == 2 && Subtotal(lines) >= 0.0
    ensures NextHint(p, lines) == Some(Hint("BIG", 10.0, 2, 0.0, 1.0)) && CurrentPct(p, lines + [added]) == 0.0
  {
    var big := p.offers[0];
    OneOfferLadder(p, big, lines);
    OneOfferLadder(p, big, lines + [added]);
    RoundWhole(0.0);
    assert SubtotalGap(big, lines) == 0.0 && ProductGap(big, lines) == 2;
  }

  /** An offer better than the current one and one product short is itself a candidate, so the tier
      chosen cannot be further away. */
  lemma NearerTierIsChosen(p: Policy, lines: seq<Line>, o: Offer, hint: Hint)
    requires lines != [] && o in p.offers && o.id != "NONE"
    requires NextHint(p, lines) == Some(hint) && hint.needsProducts > 0
    requires EffectivePct(p, o) >= hint.pct
    requires Subtotal(lines) >= o.minSubtotal && o.minLines <= |lines| + 1
    ensures hint.needsProducts == 1
  {
    HintOfIsNearest(p, p.offers, lines);
    BestOfIsHighest(p, p.offers, lines);
    var promised :| promised in p.offers && Candidate(p, promised, lines) == Some(hint);
    assert EffectivePct(p, o) > CurrentPct(p, lines);
    assert !Eligible(p, o, lines);
    assert ProductGap(o, lines) == 1;
    RoundWhole(0.0);
    assert SubtotalGap(o, lines) == 0.0;
    EffortGrowsWithGap(1, hint.needsProducts, |lines|);
    assert Candidate(p, o, lines).Some?;
    assert !Before(Candidate(p, o, lines).value, hint);
  }

  lemma EffortGrowsWithGap(few: int, many: int, lines: int)
    requires 0 < few <= many && 0 < lines
    ensures few as real / lines as real <= many as real / lines as real
    ensures few < many ==> few as real / lines as real < many as real / lines as real
    ensures few <= lines ==> few as real / lines as real <= 1.0
  {
  }

  /** On the shipped ladder the nearest tier is never more than one product away, so the card keeps
      its word every time. */
  lemma ShippedLadderKeepsItsPromise(lines: seq<Line>, added: Line)
    requires NextHint(SHIPPED, lines).Some? && NextHint(SHIPPED, lines).value.needsProducts > 0
    requires Subtotal(lines) < Subtotal(lines + [added])
    ensures CurrentPct(SHIPPED, lines + [added]) >= NextHint(SHIPPED, lines).value.pct
  {
    ShippedPolicyIsSound();
    HintOfIsNearest(SHIPPED, SHIPPED.offers, lines);
    var o :| o in SHIPPED.offers && Candidate(SHIPPED, o, lines) == NextHint(SHIPPED, lines);
    AtMostThreeProducts(o);
    NearGapIsOne(SHIPPED, o, lines);
    PairingPromiseKeptExactly(SHIPPED, lines, lines + [added]);
  }

  lemma NearGapIsOne(p: Policy, o: Offer, lines: seq<Line>)
    requires lines != [] && o.minLines <= 3
    requires Candidate(p, o, lines).Some? && Candidate(p, o, lines).value.needsProducts > 0
    ensures Candidate(p, o, lines).value.needsProducts == 1
  {
    EffortGrowsWithGap(1, ProductGap(o, lines), |lines|);
  }

  lemma AtMostThreeProducts(o: Offer)
    requires o in SHIPPED.offers
    ensures o.minLines <= 3
  {
  }

  lemma ShippedPolicyIsSound()
    ensures SoundPolicy(SHIPPED)
  {
    ShippedOffersAreNamed();
    ShippedOffersAreDistinct();
  }

  lemma ShippedOffersAreDistinct()
    ensures forall i, j | 0 <= i < j < |SHIPPED.offers| :: SHIPPED.offers[i].id != SHIPPED.offers[j].id
    ensures forall o | o in SHIPPED.offers && o.id == "NONE" :: o.pct == 0.0
  {
  }

  lemma ShippedOffersAreNamed()
    ensures forall i | 0 <= i < |SHIPPED.offers| :: OfferId(SHIPPED.offers[i].id) == SHIPPED.offers[i].id
  {
    forall i | 0 <= i < |SHIPPED.offers|
      ensures OfferId(SHIPPED.offers[i].id) == SHIPPED.offers[i].id
    {
      CapitalsAreAnOfferId(SHIPPED.offers[i].id);
    }
  }

  lemma CapitalsAreAnOfferId(id: string)
    requires id != "" && forall i | 0 <= i < |id| :: 'A' <= id[i] <= 'Z' || IsDigit(id[i])
    ensures OfferId(id) == id
  {
    assert Trim(id) == id;
    assert Upper(id) == id;
  }
}
