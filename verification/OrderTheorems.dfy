/** What building an order and editing it by taps preserve: catalogue prices, the gate's approval, and
    the lines the customer did not touch. */
module OrderTheorems {
  import opened Text
  import opened Rounding
  import opened Catalogue
  import opened Discounts
  import opened Guardrails
  import opened Money
  import opened Orders

  // ---- Catalogue prices travel with the lines -----------------------------------------------

  ghost predicate LineOfRow(li: Line, r: Row) {
    li.sku == r.name && li.unit == Round2(r.base) && li.install == Round2(r.install)
  }

  ghost predicate HasRow(cat: seq<Row>, li: Line) {
    exists r :: r in cat && LineOfRow(li, r)
  }

  ghost predicate FromCatalogue(cat: seq<Row>, lines: seq<Line>) {
    forall i | 0 <= i < |lines| :: HasRow(cat, lines[i])
  }

  function AllNames(cat: seq<Row>): set<string> {
    set r | r in cat :: r.name
  }

  /** The order the customer may be shown and charged: every unit price is the catalogue's own, and the
      gate accepts the order against the whole catalogue. */
  ghost predicate Payable(p: Policy, cat: seq<Row>, order: Order) {
    FromCatalogue(cat, order.lines) && Accepts(p, Some(order), Some(TrustedFor(cat, AllNames(cat))))
  }

  /** Lines priced from the catalogue pass against any list that gives their names their own rows. */
  lemma AcceptedAgainstFreshRows(p: Policy, cat: seq<Row>, order: Order, was: Option<map<string, Row>>,
                                 names: set<string>)
    requires CleanCatalogue(cat) && FromCatalogue(cat, order.lines)
    requires Accepts(p, Some(order), was)
    requires forall i | 0 <= i < |order.lines| :: order.lines[i].sku in names
    ensures Accepts(p, Some(order), Some(TrustedFor(cat, names)))
  {
    forall i | 0 <= i < |order.lines|
      ensures LineAccepted(p, order.lines[i], Some(TrustedFor(cat, names)))
    {
      var li := order.lines[i];
      assert LineAccepted(p, li, was);
      assert HasRow(cat, li);
      var r :| r in cat && LineOfRow(li, r);
      CanonicalNameResolvesToItself(cat, r);
      var k :| 0 <= k < |cat| && cat[k] == r;
      assert Clean(cat[k].name);
    }
  }

  lemma AcceptedBecomesPayable(p: Policy, cat: seq<Row>, order: Order, was: Option<map<string, Row>>)
    requires CleanCatalogue(cat) && FromCatalogue(cat, order.lines)
    requires Accepts(p, Some(order), was)
    ensures Payable(p, cat, order)
  {
    forall i | 0 <= i < |order.lines|
      ensures order.lines[i].sku in AllNames(cat)
    {
      assert HasRow(cat, order.lines[i]);
    }
    AcceptedAgainstFreshRows(p, cat, order, was, AllNames(cat));
  }

  /** Reading the prices again at mint time cannot change the verdict: a canonical name resolves to its
      own row, and a failed lookup only removes checks. */
  lemma PayableOrderMints(p: Policy, cat: seq<Row>, order: Order, lookupOk: bool)
    requires CleanCatalogue(cat) && Payable(p, cat, order)
    ensures Accepts(p, Some(order), MintTrusted(cat, lookupOk, order))
  {
    var all := Some(TrustedFor(cat, AllNames(cat)));
    var names := set li | li in order.lines && li.sku != "" :: li.sku;
    forall i | 0 <= i < |order.lines|
      ensures order.lines[i].sku in names && LineArithmetic(p, order.lines[i])
    {
      assert LineAccepted(p, order.lines[i], all);
      assert order.lines[i] in order.lines;
    }
    AcceptedAgainstFreshRows(p, cat, order, all, names);
  }

  // ---- Each writer of the order keeps it payable --------------------------------------------

  /** A catalogue row, or the unit prices of a line taken from one. */
  ghost predicate PricesOfRow(row: Row, cat: seq<Row>) {
    exists r :: r in cat && SamePrices(row, r)
  }

  ghost predicate SamePrices(row: Row, r: Row) {
    row.name == r.name && Round2(row.base) == Round2(r.base) && Round2(row.install) == Round2(r.install)
  }

  ghost predicate RowsFromCatalogue(cat: seq<Row>, trusted: map<string, Row>) {
    forall s | s in trusted :: PricesOfRow(trusted[s], cat)
  }

  lemma PricedLinesFromCatalogue(p: Policy, cat: seq<Row>, items: seq<Item>, trusted: map<string, Row>)
    requires SoundPolicy(p) && RowsFromCatalogue(cat, trusted)
    ensures FromCatalogue(cat, PricedLines(p, items, trusted))
  {
    DistinctNames(p, items);
    LinesPricedFrom(p, Distinct(items), items, trusted);
    var lines := PricedLines(p, items, trusted);
    forall i | 0 <= i < |lines|
      ensures HasRow(cat, lines[i])
    {
      assert PricedFrom(p, lines[i], trusted);
      var s :| s in trusted && lines[i] == PriceLine(p, lines[i].qty, trusted[s]);
      var r :| r in cat && SamePrices(trusted[s], r);
      assert LineOfRow(lines[i], r);
    }
  }

  ghost predicate RowOfLine(row: Row, lines: seq<Line>, s: string) {
    exists i :: 0 <= i < |lines| && lines[i].sku == s && row == Row(s, lines[i].unit, lines[i].install)
  }

  lemma {:induction false} SelfTrustedAreLines(lines: seq<Line>)
    ensures forall s | s in SelfTrusted(lines) :: RowOfLine(SelfTrusted(lines)[s], lines, s)
    ensures forall i | 0 <= i < |lines| :: lines[i].sku in SelfTrusted(lines)
  {
    if lines != [] {
      var init := lines[..|lines| - 1];
      SelfTrustedAreLines(init);
      forall s | s in SelfTrusted(lines)
        ensures RowOfLine(SelfTrusted(lines)[s], lines, s)
      {
        if s == lines[|lines| - 1].sku {
          assert lines[|lines| - 1].sku == s;
        } else {
          assert RowOfLine(SelfTrusted(init)[s], init, s);
          var i :| 0 <= i < |init| && init[i].sku == s && SelfTrusted(init)[s] == Row(s, init[i].unit, init[i].install);
          assert lines[i] == init[i];
        }
      }
      forall i | 0 <= i < |lines| ensures lines[i].sku in SelfTrusted(lines) {
        if i < |init| {
          assert init[i] == lines[i];
        }
      }
    }
  }

  lemma {:induction false} TapPricesFromCatalogue(cat: seq<Row>, lines: seq<Line>, name: string)
    requires FromCatalogue(cat, lines) && Resolve(cat, name).Some?
    ensures RowsFromCatalogue(cat, SelfTrusted(lines)[name := Resolve(cat, name).value])
  {
    var trusted := SelfTrusted(lines)[name := Resolve(cat, name).value];
    SelfTrustedAreLines(lines);
    ResolveIsUnambiguous(cat, name);
    forall s | s in trusted
      ensures PricesOfRow(trusted[s], cat)
    {
      if s == name {
        assert SamePrices(trusted[s], trusted[s]);
      } else {
        assert RowOfLine(SelfTrusted(lines)[s], lines, s);
        var i :| 0 <= i < |lines| && lines[i].sku == s && trusted[s] == Row(s, lines[i].unit, lines[i].install);
        assert HasRow(cat, lines[i]);
        var r :| r in cat && LineOfRow(lines[i], r);
        RoundWhole(lines[i].unit);
        RoundWhole(lines[i].install);
        assert SamePrices(trusted[s], r);
      }
    }
  }

  lemma BuiltOrderIsPayable(p: Policy, cat: seq<Row>, lookupOk: bool, pr: Proposal)
    requires SoundPolicy(p) && CleanCatalogue(cat)
    requires Built(p, cat, lookupOk, pr).Some?
    ensures Payable(p, cat, Built(p, cat, lookupOk, pr).value)
  {
    var trusted := TrustedFor(cat, ProposedNames(pr));
    ResolvedRowsAreConsistent(cat, ProposedNames(pr));
    var order := Built(p, cat, lookupOk, pr).value;
    forall s | s in trusted
      ensures PricesOfRow(trusted[s], cat)
    {
      ResolveIsUnambiguous(cat, s);
      assert SamePrices(trusted[s], trusted[s]);
    }
    PricedLinesFromCatalogue(p, cat, RawItems(pr.items), trusted);
    AcceptedBecomesPayable(p, cat, order, Some(Canonical(trusted)));
  }

  lemma RepricedOrderIsPayable(p: Policy, cat: seq<Row>, order: Order)
    requires CleanCatalogue(cat) && Payable(p, cat, order)
    requires Repriced(p, order).Some?
    ensures Payable(p, cat, Repriced(p, order).value)
  {
    AcceptedBecomesPayable(p, cat, Repriced(p, order).value, Some(SelfTrusted(order.lines)));
  }

  lemma AddedOrderIsPayable(p: Policy, cat: seq<Row>, lookupOk: bool, order: Order)
    requires SoundPolicy(p) && CleanCatalogue(cat) && Payable(p, cat, order)
    requires Added(p, cat, lookupOk, order).Some?
    ensures Payable(p, cat, Added(p, cat, lookupOk, order).value)
  {
    var sku := Stripped(order.complement);
    var grown := Added(p, cat, lookupOk, order).value;
    TapPricesFromCatalogue(cat, order.lines, sku);
    PricedLinesFromCatalogue(p, cat, AsItems(order.lines) + [Item(sku, 1)],
                             SelfTrusted(order.lines)[sku := Resolve(cat, sku).value]);
    AcceptedBecomesPayable(p, cat, grown, Some(SelfTrusted(grown.lines)));
  }

  lemma SwappedOrderIsPayable(p: Policy, cat: seq<Row>, lookupOk: bool, order: Order)
    requires SoundPolicy(p) && CleanCatalogue(cat) && Payable(p, cat, order)
    requires Swapped(p, cat, lookupOk, order).Some?
    ensures Payable(p, cat, Swapped(p, cat, lookupOk, order).value)
  {
    var target, replaced := Trim(order.stepUp.value.sku), Trim(order.stepUp.value.replaced);
    var swapped := Swapped(p, cat, lookupOk, order).value;
    TapPricesFromCatalogue(cat, order.lines, target);
    PricedLinesFromCatalogue(p, cat, SwapItems(order.lines, replaced, target),
                             SelfTrusted(order.lines)[target := Resolve(cat, target).value]);
    AcceptedBecomesPayable(p, cat, swapped, Some(SelfTrusted(swapped.lines)));
  }

  /** Suggestions are not money: dropping one leaves a payable order payable. */
  lemma SuggestionsAreNotMoney(p: Policy, cat: seq<Row>, order: Order, complement: Option<string>, stepUp: Option<StepUp>)
    requires Payable(p, cat, order)
    ensures Payable(p, cat, order.(complement := complement, stepUp := stepUp))
  {
    var bare := order.(complement := complement, stepUp := stepUp);
    assert bare.lines == order.lines;
    assert TotalsAccepted(p, bare) == TotalsAccepted(p, order);
  }

  /** A built order's audit trail is silent exactly when nothing in the proposal was changed: every name
      priced, every quantity kept, the named offer granted in full on everything charged. */
  lemma TrailIsSilentExactlyWhenAsAsked(p: Policy, cat: seq<Row>, lookupOk: bool, pr: Proposal)
    requires SoundPolicy(p) && Built(p, cat, lookupOk, pr).Some?
    ensures
      var order, trusted := Built(p, cat, lookupOk, pr).value, TrustedFor(cat, ProposedNames(pr));
      order.notes == [] <==> PricedAsAsked(p, RawItems(pr.items), trusted) && OfferedAsAsked(p, order.lines, pr.offer)
  {
    var trusted := TrustedFor(cat, ProposedNames(pr));
    PricingNotesSilent(p, RawItems(pr.items), trusted);
    ApplyNotesSilent(p, PricedLines(p, RawItems(pr.items), trusted), pr.offer);
  }

  // ---- A tap touches one line ---------------------------------------------------------------

  /** As many lines as proposals means every proposal named a different priced product, so each line is
      its own proposal's. */
  lemma {:induction false} NothingMerged(p: Policy, items: seq<Item>)
    requires 1 <= p.maxQty && |Distinct(items)| == |items|
    ensures forall i | 0 <= i < |items| :: Distinct(items)[i] == Trim(items[i].sku)
    ensures forall i | 0 <= i < |items| :: TotalQty(p, items, Trim(items[i].sku)) == ClampQty(p, items[i].qty)
    ensures forall i, j | 0 <= i < j < |items| :: Trim(items[i].sku) != Trim(items[j].sku)
    ensures forall sku | sku !in Distinct(items) && sku != "" :: TotalQty(p, items, sku) == 0
  {
    if items != [] {
      var init, last := items[..|items| - 1], items[|items| - 1];
      DistinctNames(p, init);
      NothingMerged(p, init);
      forall i | 0 <= i < |items|
        ensures TotalQty(p, items, Trim(items[i].sku)) == ClampQty(p, items[i].qty)
      {
        if i < |init| {
          assert init[i] == items[i];
          assert Distinct(init)[i] == Trim(items[i].sku);
        }
      }
    }
  }

  lemma {:induction false} EveryLinePriced(p: Policy, skus: seq<string>, items: seq<Item>, trusted: map<string, Row>)
    ensures |LinesFor(p, skus, items, trusted)| <= |skus|
    ensures |LinesFor(p, skus, items, trusted)| == |skus| ==>
      forall i | 0 <= i < |skus| :: skus[i] in trusted
        && LinesFor(p, skus, items, trusted)[i] == PriceLine(p, TotalQty(p, items, skus[i]), trusted[skus[i]])
  {
    if skus != [] {
      EveryLinePriced(p, skus[..|skus| - 1], items, trusted);
    }
  }

  lemma OneLineEach(p: Policy, items: seq<Item>, trusted: map<string, Row>)
    requires 1 <= p.maxQty && |PricedLines(p, items, trusted)| >= |items|
    ensures |PricedLines(p, items, trusted)| == |items|
    ensures forall i, j | 0 <= i < j < |items| :: Trim(items[i].sku) != Trim(items[j].sku)
    ensures forall i | 0 <= i < |items| :: Trim(items[i].sku) in trusted
    ensures forall i | 0 <= i < |items| ::
      PricedLines(p, items, trusted)[i] == PriceLine(p, ClampQty(p, items[i].qty), trusted[Trim(items[i].sku)])
  {
    DistinctNames(p, items);
    EveryLinePriced(p, Distinct(items), items, trusted);
    NothingMerged(p, items);
  }

  ghost predicate CleanSkus(lines: seq<Line>) {
    forall i | 0 <= i < |lines| :: Clean(lines[i].sku)
  }

  /** A line as every stored order has it: prices rounded to the paisa, a quantity within the cap. Its
      total was rounded from the exact price, and may be off the rounded one by a paisa. */
  ghost predicate RoundedLine(p: Policy, li: Line) {
    && 1 <= li.qty <= p.maxQty
    && Whole(li.unit) && Whole(li.install) && li.unit > 0.0 && li.install >= 0.0
  }

  ghost predicate Rounded(p: Policy, lines: seq<Line>) {
    forall i | 0 <= i < |lines| :: RoundedLine(p, lines[i])
  }

  /** The line as a tap prices it again: the same but for its total, now its own unit prices times its
      quantity. */
  function Relined(li: Line): Line {
    li.(total := Times(li.unit + li.install, li.qty))
  }

  function RelinedAll(lines: seq<Line>): seq<Line> {
    seq(|lines|, i requires 0 <= i < |lines| => Relined(lines[i]))
  }

  /** Re-pricing leaves a line as it was exactly when it was tight. */
  lemma RelinedExactlyWhenTight(p: Policy, lines: seq<Line>)
    requires Rounded(p, lines)
    ensures RelinedAll(lines) == lines <==> Tight(p, lines)
  {
    assert forall i | 0 <= i < |lines| :: RelinedAll(lines)[i] == lines[i] <==> TightLine(p, lines[i]);
  }

  lemma RelinedLinesAreTight(p: Policy, lines: seq<Line>)
    requires Rounded(p, lines)
    ensures Tight(p, RelinedAll(lines))
  {
  }

  /** Pricing a rounded line again from its own unit prices. */
  lemma RoundedLineReprices(p: Policy, li: Line)
    requires RoundedLine(p, li)
    ensures PriceLine(p, ClampQty(p, li.qty), Row(li.sku, li.unit, li.install)) == Relined(li)
  {
    RoundWhole(li.unit);
    RoundWhole(li.install);
    WholeSum(li.unit, li.install);
    WholeTimes(li.unit + li.install, li.qty);
    RoundWhole(Relined(li).total);
  }

  /** A price with a fraction of a paisa, at two units: the gate lets the line through, and the next tap on
      any other line changes its total. */
  lemma FractionalLineIsRelined(p: Policy, name: string)
    requires SoundPolicy(p) && Clean(name) && p.maxQty >= 2
    ensures
      var li := PriceLine(p, 2, Row(name, 1000.4, 0.0));
      && LineAccepted(p, li, Some(map[name := Row(name, 1000.4, 0.0)])) && RoundedLine(p, li)
      && li.total == 2001.0 && Relined(li).total == 2000.0
  {
    RoundWhole(2000.0);
  }

  lemma {:induction false} UntouchedLine(p: Policy, lines: seq<Line>, i: int)
    requires Rounded(p, lines) && CleanSkus(lines) && 0 <= i < |lines|
    requires forall j | 0 <= j < |lines| && j != i :: lines[j].sku != lines[i].sku
    ensures lines[i].sku in SelfTrusted(lines)
    ensures PriceLine(p, ClampQty(p, lines[i].qty), SelfTrusted(lines)[lines[i].sku]) == Relined(lines[i])
  {
    SelfTrustedAreLines(lines);
    assert RowOfLine(SelfTrusted(lines)[lines[i].sku], lines, lines[i].sku);
    RoundedLineReprices(p, lines[i]);
  }

  /** Every order that reaches the customer is one of rounded lines under clean names. */
  lemma PayableLinesAreRounded(p: Policy, cat: seq<Row>, order: Order)
    requires CleanCatalogue(cat) && Payable(p, cat, order)
    ensures Rounded(p, order.lines) && CleanSkus(order.lines)
  {
    forall i | 0 <= i < |order.lines|
      ensures RoundedLine(p, order.lines[i]) && Clean(order.lines[i].sku)
    {
      assert LineAccepted(p, order.lines[i], Some(TrustedFor(cat, AllNames(cat))));
      assert HasRow(cat, order.lines[i]);
      var r :| r in cat && LineOfRow(order.lines[i], r);
      var k :| 0 <= k < |cat| && cat[k] == r;
      assert Clean(cat[k].name);
    }
  }

  lemma SkusDiffer(lines: seq<Line>, items: seq<Item>, i: int)
    requires CleanSkus(lines) && 0 <= i < |lines| <= |items|
    requires forall j | 0 <= j < |lines| :: items[j] == AsItem(lines[j])
    requires forall j, k | 0 <= j < k < |items| :: Trim(items[j].sku) != Trim(items[k].sku)
    ensures forall j | 0 <= j < |lines| && j != i :: lines[j].sku != lines[i].sku
  {
    forall j | 0 <= j < |lines| && j != i
      ensures lines[j].sku != lines[i].sku
    {
      assert Clean(lines[j].sku) && Clean(lines[i].sku);
    }
  }

  /** A successful add tap appends exactly one line, one unit of the suggested product at its catalogue
      price; every line before it keeps its name, quantity and unit prices, at exactly their product. */
  lemma AddTapAppendsOneLine(p: Policy, cat: seq<Row>, lookupOk: bool, order: Order)
    requires SoundPolicy(p) && Rounded(p, order.lines) && CleanSkus(order.lines)
    requires Added(p, cat, lookupOk, order).Some?
    ensures
      var row := Resolve(cat, Stripped(order.complement)).value;
      Added(p, cat, lookupOk, order).value.lines == RelinedAll(order.lines) + [PriceLine(p, 1, row)]
  {
    var sku := Stripped(order.complement);
    TrimTwice(order.complement);
    OneLineIsAppended(p, order.lines, sku, Resolve(cat, sku).value);
  }

  lemma OneLineIsAppended(p: Policy, lines: seq<Line>, sku: string, row: Row)
    requires SoundPolicy(p) && Rounded(p, lines) && CleanSkus(lines) && Trim(sku) == sku
    requires |PricedLines(p, AsItems(lines) + [Item(sku, 1)], SelfTrusted(lines)[sku := row])| > |lines|
    ensures PricedLines(p, AsItems(lines) + [Item(sku, 1)], SelfTrusted(lines)[sku := row])
         == RelinedAll(lines) + [PriceLine(p, 1, row)]
  {
    var items, trusted := AsItems(lines) + [Item(sku, 1)], SelfTrusted(lines)[sku := row];
    var next := PricedLines(p, items, trusted);
    NewLineIsLast(p, lines, items, sku, row);
    OldLinesStay(p, lines, items, sku, row);
    AppendedIs(next, RelinedAll(lines), PriceLine(p, 1, row));
  }

  lemma AppendedIs(next: seq<Line>, before: seq<Line>, last: Line)
    requires |next| == |before| + 1 && next[|before|] == last && forall i | 0 <= i < |before| :: next[i] == before[i]
    ensures next == before + [last]
  {
  }

  lemma NewLineIsLast(p: Policy, lines: seq<Line>, items: seq<Item>, sku: string, row: Row)
    requires 1 <= p.maxQty && items == AsItems(lines) + [Item(sku, 1)] && Trim(sku) == sku
    requires |PricedLines(p, items, SelfTrusted(lines)[sku := row])| > |lines|
    ensures |PricedLines(p, items, SelfTrusted(lines)[sku := row])| == |items|
    ensures PricedLines(p, items, SelfTrusted(lines)[sku := row])[|lines|] == PriceLine(p, 1, row)
  {
    OneLineEach(p, items, SelfTrusted(lines)[sku := row]);
    assert items[|lines|] == Item(sku, 1);
  }

  lemma OldLinesStay(p: Policy, lines: seq<Line>, items: seq<Item>, sku: string, row: Row)
    requires SoundPolicy(p) && Rounded(p, lines) && CleanSkus(lines)
    requires items == AsItems(lines) + [Item(sku, 1)] && Trim(sku) == sku
    requires |PricedLines(p, items, SelfTrusted(lines)[sku := row])| >= |items|
    ensures forall i | 0 <= i < |lines| :: PricedLines(p, items, SelfTrusted(lines)[sku := row])[i] == Relined(lines[i])
  {
    var trusted := SelfTrusted(lines)[sku := row];
    OneLineEach(p, items, trusted);
    assert forall i | 0 <= i < |lines| :: items[i] == AsItem(lines[i]);
    forall i | 0 <= i < |lines|
      ensures PricedLines(p, items, trusted)[i] == Relined(lines[i])
    {
      assert Clean(lines[i].sku) && items[|lines|] == Item(sku, 1);
      SkusDiffer(lines, items, i);
      UntouchedLine(p, lines, i);
      assert trusted[lines[i].sku] == SelfTrusted(lines)[lines[i].sku];
    }
  }

  lemma {:induction false} TrimLeftIdempotent(s: string)
    ensures TrimLeft(TrimLeft(s)) == TrimLeft(s)
    ensures TrimLeft(s) != "" ==> !IsSpace(TrimLeft(s)[0])
    decreases |s|
  {
    if s != [] && IsSpace(s[0]) {
      TrimLeftIdempotent(s[1..]);
    }
  }

  lemma {:induction false} TrimRightKeeps(s: string)
    ensures TrimRight(TrimRight(s)) == TrimRight(s)
    ensures s != "" && !IsSpace(s[0]) ==> TrimRight(s) != "" && TrimRight(s)[0] == s[0]
    decreases |s|
  {
    if s != [] && IsSpace(s[|s| - 1]) {
      TrimRightKeeps(s[..|s| - 1]);
    }
  }

  lemma TrimIdempotent(s: string)
    ensures Trim(Trim(s)) == Trim(s)
  {
    TrimLeftIdempotent(s);
    TrimRightKeeps(TrimLeft(s));
  }

  lemma TrimTwice(o: Option<string>)
    ensures Trim(Stripped(o)) == Stripped(o)
  {
    if o.Some? {
      TrimIdempotent(o.value);
    }
  }

  lemma BestIdGrantsCurrent(p: Policy, lines: seq<Line>)
    requires SoundPolicy(p) && lines != []
    ensures GrantedPct(p, lines, BestId(p, lines)) == CurrentPct(p, lines)
  {
    BestOfferIsGrantedAndUnbeaten(p, lines, BestId(p, lines));
  }

  lemma {:induction false} TightSubtotalGrows(p: Policy, lines: seq<Line>, li: Line)
    requires Tight(p, lines) && Whole(li.total)
    ensures Subtotal(lines + [li]) == Subtotal(lines) + li.total
  {
    TightTotals(p, lines);
    TightSubtotal(p, lines);
    assert (lines + [li])[..|lines|] == lines;
    WholeSum(SumTotals(lines), li.total);
    RoundWhole(SumTotals(lines) + li.total);
  }

  /** The order's spend after an add tap: its own lines at their unit prices, and the new one. */
  lemma AddedSpend(p: Policy, lines: seq<Line>, added: Line)
    requires Rounded(p, lines) && Whole(added.total)
    ensures Subtotal(RelinedAll(lines) + [added]) == Subtotal(RelinedAll(lines)) + added.total
  {
    RelinedLinesAreTight(p, lines);
    TightSubtotalGrows(p, RelinedAll(lines), added);
  }

  /** An add tap keeps the order's tier where its spend does not fall, and it earns the percentage the
      pairing card promised exactly when the card's word can be kept: with the spend rising, when the
      nearest tier was one product away or a spend threshold is crossed. */
  lemma AddTapEarnsThePromisedTier(p: Policy, cat: seq<Row>, lookupOk: bool, order: Order)
    requires SoundPolicy(p) && Rounded(p, order.lines) && CleanSkus(order.lines)
    requires Added(p, cat, lookupOk, order).Some?
    ensures
      var grown := Added(p, cat, lookupOk, order).value;
      && grown.pct == CurrentPct(p, grown.lines)
      && (Subtotal(order.lines) <= Subtotal(grown.lines) ==> grown.pct >= CurrentPct(p, order.lines))
      && (TierByProducts(p, order.lines) ==>
            var hint := NextHint(p, order.lines).value;
            grown.pct >= hint.pct <==> KeepsPromise(p, order.lines, grown.lines, hint))
  {
    AddTapAppendsOneLine(p, cat, lookupOk, order);
    var grown := Added(p, cat, lookupOk, order).value;
    BestIdGrantsCurrent(p, grown.lines);
    if Subtotal(order.lines) <= Subtotal(grown.lines) {
      NoSmallerOrderKeepsTheOffer(p, order.lines, grown.lines);
    }
    if TierByProducts(p, order.lines) {
      PairingPromiseKeptExactly(p, order.lines, grown.lines);
    }
  }

  /** What re-pricing can take off an accepted order: a paisa a line. */
  lemma {:induction false} RelinedTotalsAreNear(p: Policy, lines: seq<Line>)
    requires Rounded(p, lines) && forall i | 0 <= i < |lines| :: LineArithmetic(p, lines[i])
    ensures Abs(SumTotals(RelinedAll(lines)) - SumTotals(lines)) <= |lines| as real
  {
    if lines != [] {
      var init, li := lines[..|lines| - 1], lines[|lines| - 1];
      RelinedTotalsAreNear(p, init);
      assert RelinedAll(lines)[..|lines| - 1] == RelinedAll(init);
      WholeSum(li.unit, li.install);
      WholeTimes(li.unit + li.install, li.qty);
      RoundWhole(Relined(li).total);
    }
  }

  /** So a suggestion that costs more than a paisa for each line on the order never costs it its tier. */
  lemma DearSuggestionRaisesSpend(p: Policy, lines: seq<Line>, added: Line)
    requires Rounded(p, lines) && forall i | 0 <= i < |lines| :: LineArithmetic(p, lines[i])
    requires Whole(added.total) && added.total > |lines| as real
    ensures Subtotal(lines) < Subtotal(RelinedAll(lines) + [added])
  {
    AddedSpend(p, lines, added);
    RelinedTotalsAreNear(p, lines);
    RelinedLinesAreTight(p, lines);
    TightSubtotal(p, RelinedAll(lines));
    TightTotals(p, RelinedAll(lines));
    RoundMonotone(SumTotals(lines), SumTotals(RelinedAll(lines)) + |lines| as real);
    WholeSum(SumTotals(RelinedAll(lines)), |lines| as real);
    RoundWhole(SumTotals(RelinedAll(lines)) + |lines| as real);
  }

  /** And a cheaper one can: two lines at a fraction of a paisa each, a suggestion at one paisa. The spend
      falls, and with it the tier. */
  lemma CheapSuggestionCostsTheTier(p: Policy, first: string, second: string, third: string)
    requires p.offers == [Offer("SPEND", 10.0, 0, 4002.0)] && p.ceiling == 100.0 && p.maxQty >= 2
    ensures
      var lines := [PriceLine(p, 2, Row(first, 1000.4, 0.0)), PriceLine(p, 2, Row(second, 1000.4, 0.0))];
      var grown := RelinedAll(lines) + [PriceLine(p, 1, Row(third, 1.0, 0.0))];
      && Rounded(p, lines) && CurrentPct(p, lines) == 10.0 && CurrentPct(p, grown) == 0.0
  {
    var a, b := PriceLine(p, 2, Row(first, 1000.4, 0.0)), PriceLine(p, 2, Row(second, 1000.4, 0.0));
    var c := PriceLine(p, 1, Row(third, 1.0, 0.0));
    RoundWhole(1.0);
    assert a == Line(first, 2, 1000.0, 0.0, 2001.0) && b == Line(second, 2, 1000.0, 0.0, 2001.0);
    assert c == Line(third, 1, 1.0, 0.0, 1.0);
    TwoLineSpend(a, b, 4002.0);
    TwoLineSpend(Relined(a), Relined(b), 4000.0);
    assert RelinedAll([a, b]) == [Relined(a), Relined(b)];
    AddedSpend(p, [a, b], c);
    OneOfferLadder(p, p.offers[0], [a, b]);
    OneOfferLadder(p, p.offers[0], RelinedAll([a, b]) + [c]);
  }

  lemma TwoLineSpend(a: Line, b: Line, spend: real)
    requires spend == a.total + b.total && Whole(spend)
    ensures Subtotal([a, b]) == spend
  {
    assert [a, b][..1] == [a];
    SingleLineTotal(a);
    RoundWhole(spend);
  }

  /** A successful swap tap puts the dearer model in place of exactly one line, at the same quantity; every
      other line keeps its name, quantity and unit prices, at exactly their product. */
  lemma SwapTapReplacesOneLine(p: Policy, cat: seq<Row>, lookupOk: bool, order: Order)
    requires SoundPolicy(p) && Rounded(p, order.lines) && CleanSkus(order.lines)
    requires Swapped(p, cat, lookupOk, order).Some?
    ensures
      var row := Resolve(cat, Trim(order.stepUp.value.sku)).value;
      var replaced := Lower(Trim(order.stepUp.value.replaced));
      exists k :: 0 <= k < |order.lines| && Key(order.lines[k].sku) == replaced
        && Swapped(p, cat, lookupOk, order).value.lines == RelinedAll(order.lines)[k := PriceLine(p, order.lines[k].qty, row)]
  {
    var target, replaced := Trim(order.stepUp.value.sku), Trim(order.stepUp.value.replaced);
    var row := Resolve(cat, target).value;
    TrimIdempotent(order.stepUp.value.sku);
    var k :| 0 <= k < |order.lines| && Key(order.lines[k].sku) == Lower(replaced);
    SwapAt(p, order.lines, replaced, target, row, k);
  }

  lemma SwapAt(p: Policy, lines: seq<Line>, replaced: string, target: string, row: Row, k: int)
    requires SoundPolicy(p) && Rounded(p, lines) && CleanSkus(lines)
    requires 0 <= k < |lines| && Key(lines[k].sku) == Lower(replaced) && Trim(target) == target
    requires |PricedLines(p, SwapItems(lines, replaced, target), SelfTrusted(lines)[target := row])| == |lines|
    ensures PricedLines(p, SwapItems(lines, replaced, target), SelfTrusted(lines)[target := row])
         == RelinedAll(lines)[k := PriceLine(p, lines[k].qty, row)]
  {
    var items, trusted := SwapItems(lines, replaced, target), SelfTrusted(lines)[target := row];
    var next := PricedLines(p, items, trusted);
    OneLineEach(p, items, trusted);
    assert items[k] == Item(target, lines[k].qty);
    assert RoundedLine(p, lines[k]);
    assert next[k] == PriceLine(p, lines[k].qty, row);
    forall i | 0 <= i < |lines| && i != k
      ensures next[i] == Relined(lines[i])
    {
      SwapLeavesLine(p, lines, replaced, target, row, i, k);
    }
  }

  lemma SwapLeavesLine(p: Policy, lines: seq<Line>, replaced: string, target: string, row: Row, i: int, k: int)
    requires SoundPolicy(p) && Rounded(p, lines) && CleanSkus(lines)
    requires 0 <= i < |lines| && 0 <= k < |lines| && i != k
    requires Key(lines[k].sku) == Lower(replaced) && Trim(target) == target
    requires |PricedLines(p, SwapItems(lines, replaced, target), SelfTrusted(lines)[target := row])| == |lines|
    ensures Key(lines[i].sku) != Lower(replaced)
    ensures PricedLines(p, SwapItems(lines, replaced, target), SelfTrusted(lines)[target := row])[i] == Relined(lines[i])
  {
    var items, trusted := SwapItems(lines, replaced, target), SelfTrusted(lines)[target := row];
    OneLineEach(p, items, trusted);
    assert Trim(items[k].sku) == target;
    assert Trim(items[i].sku) != target;
    assert items[i] == AsItem(lines[i]) && Clean(lines[i].sku);
    OtherLinesDiffer(lines, replaced, target, i);
    UntouchedLine(p, lines, i);
    assert trusted[lines[i].sku] == SelfTrusted(lines)[lines[i].sku];
  }

  lemma OtherLinesDiffer(lines: seq<Line>, replaced: string, target: string, i: int)
    requires 0 <= i < |lines| && Key(lines[i].sku) != Lower(replaced)
    requires var items := SwapItems(lines, replaced, target);
             forall j, l | 0 <= j < l < |items| :: Trim(items[j].sku) != Trim(items[l].sku)
    ensures forall j | 0 <= j < |lines| && j != i :: lines[j].sku != lines[i].sku
  {
    var items := SwapItems(lines, replaced, target);
    forall j | 0 <= j < |lines| && j != i
      ensures lines[j].sku != lines[i].sku
    {
      assert Trim(items[i].sku) != Trim(items[j].sku) && items[i] == AsItem(lines[i]);
      assert lines[j].sku == lines[i].sku ==> items[j] == AsItem(lines[j]);
    }
  }
}
