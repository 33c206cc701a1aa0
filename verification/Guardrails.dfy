/** The money gate: an independent re-derivation of an order from its own lines, run before a total is
    shown and again before a link is minted. It assumes nothing about where the order came from. */
module Guardrails {
  import opened Text
  import opened Rounding
  import opened Catalogue
  import opened Discounts

  datatype Reason =
    | NoOrder | NoLines | BadCurrency | EmptySku | BadQuantity | BadUnitPrice | BadInstallation | BadLineTotal
    | NotInCatalogue | UnitPriceMismatch | InstallationMismatch | BadSubtotal | NegativeDiscount | OverCeiling
    | BadDiscount | DiscountTooLarge | BadAmount | BelowMinimum | AboveMaximum

  /** One paisa, the tolerance of every comparison of amounts. */
  const PAISA: real := 1.0

  /** The slack on the ceiling comparison, in percentage points. */
  const PCT_SLACK: real := 0.000000001

  predicate Near(x: real, y: real) {
    Abs(x - y) <= PAISA
  }

  /** A quantity as the guardrail multiplies by it. */
  function Units(qty: int): int {
    if qty < 0 then 0 else qty
  }

  function SumProducts(lines: seq<Line>): real {
    if lines == [] then 0.0
    else SumProducts(lines[..|lines| - 1]) + Times(lines[|lines| - 1].unit, Units(lines[|lines| - 1].qty))
  }

  predicate LineArithmetic(p: Policy, li: Line) {
    && Trim(li.sku) != ""
    && 1 <= li.qty <= p.maxQty
    && li.unit > 0.0
    && li.install >= 0.0
    && Near(Round2(Times(li.unit + li.install, Units(li.qty))), li.total)
  }

  predicate LineTrusted(li: Line, trusted: map<string, Row>) {
    var sku := Trim(li.sku);
    sku in trusted && Near(trusted[sku].base, li.unit) && Near(trusted[sku].install, li.install)
  }

  predicate LineAccepted(p: Policy, li: Line, trusted: Option<map<string, Row>>) {
    LineArithmetic(p, li) && (trusted.Some? ==> LineTrusted(li, trusted.value))
  }

  predicate TotalsAccepted(p: Policy, order: Order) {
    var recomputed := Round2(SumTotals(order.lines));
    var discountable := Round2(SumProducts(order.lines));
    && Near(order.subtotal, recomputed)
    && 0.0 <= order.pct <= p.ceiling + PCT_SLACK
    && 0.0 <= order.discount <= discountable + PAISA
    && Near(Round2(Percent(discountable, order.pct)), order.discount)
    && Near(Round2(recomputed - order.discount), order.amount)
    && p.minAmount <= order.amount <= p.maxAmount
  }

  predicate IsRupees(currency: string) {
    currency == "" || Upper(currency) == "INR"
  }

  predicate Accepts(p: Policy, order: Option<Order>, trusted: Option<map<string, Row>>) {
    && order.Some?
    && order.value.lines != []
    && IsRupees(order.value.currency)
    && (forall i | 0 <= i < |order.value.lines| :: LineAccepted(p, order.value.lines[i], trusted))
    && TotalsAccepted(p, order.value)
  }

  method ValidatePaymentRequest(p: Policy, order: Option<Order>, trusted: Option<map<string, Row>>)
    returns (ok: bool, reasons: seq<Reason>)
    ensures ok <==> Accepts(p, order, trusted)
    ensures ok <==> reasons == []
  {
    if order.None? {
      return false, [NoOrder];
    }
    var o := order.value;
    if o.lines == [] {
      return false, [NoLines];
    }
    reasons := [];
    if !IsRupees(o.currency) {
      reasons := reasons + [BadCurrency];
    }
    var recomputed, discountable := 0.0, 0.0;
    for i := 0 to |o.lines|
      invariant reasons == [] <==>
        IsRupees(o.currency) && forall k | 0 <= k < i :: LineAccepted(p, o.lines[k], trusted)
      invariant reasons == [] ==> recomputed == SumTotals(o.lines[..i])
      invariant reasons == [] ==> discountable == SumProducts(o.lines[..i])
    {
      assert o.lines[..i + 1][..i] == o.lines[..i];
      var li := o.lines[i];
      if Trim(li.sku) == "" {
        reasons := reasons + [EmptySku];
        continue;
      }
      var found := LineReasons(p, li, trusted);
      reasons := reasons + found;
      recomputed := recomputed + li.total;
      discountable := discountable + Times(li.unit, Units(li.qty));
    }
    assert o.lines[..|o.lines|] == o.lines;
    var found := TotalReasons(p, o, Round2(recomputed), Round2(discountable));
    reasons := reasons + found;
    ok := reasons == [];
  }

  method LineReasons(p: Policy, li: Line, trusted: Option<map<string, Row>>) returns (reasons: seq<Reason>)
    requires Trim(li.sku) != ""
    ensures reasons == [] <==> LineAccepted(p, li, trusted)
  {
    reasons := [];
    if li.qty < 1 || li.qty > p.maxQty {
      reasons := reasons + [BadQuantity];
    }
    if li.unit <= 0.0 {
      reasons := reasons + [BadUnitPrice];
    }
    if li.install < 0.0 {
      reasons := reasons + [BadInstallation];
    }
    if !Near(Round2(Times(li.unit + li.install, Units(li.qty))), li.total) {
      reasons := reasons + [BadLineTotal];
    }
    if trusted.Some? {
      var sku := Trim(li.sku);
      if sku !in trusted.value {
        reasons := reasons + [NotInCatalogue];
      } else {
        if !Near(trusted.value[sku].base, li.unit) {
          reasons := reasons + [UnitPriceMismatch];
        }
        if !Near(trusted.value[sku].install, li.install) {
          reasons := reasons + [InstallationMismatch];
        }
      }
    }
  }

  method TotalReasons(p: Policy, o: Order, recomputed: real, discountable: real) returns (reasons: seq<Reason>)
    ensures recomputed == Round2(SumTotals(o.lines)) && discountable == Round2(SumProducts(o.lines)) ==>
      (reasons == [] <==> TotalsAccepted(p, o))
  {
    reasons := [];
    if !Near(o.subtotal, recomputed) {
      reasons := reasons + [BadSubtotal];
    }
    if o.pct < 0.0 || o.discount < 0.0 {
      reasons := reasons + [NegativeDiscount];
    }
    if o.pct > p.ceiling + PCT_SLACK {
      reasons := reasons + [OverCeiling];
    }
    if !Near(Round2(Percent(discountable, o.pct)), o.discount) {
      reasons := reasons + [BadDiscount];
    }
    if o.discount > discountable + PAISA {
      reasons := reasons + [DiscountTooLarge];
    }
    if !Near(Round2(recomputed - o.discount), o.amount) {
      reasons := reasons + [BadAmount];
    }
    if o.amount < p.minAmount {
      reasons := reasons + [BelowMinimum];
    }
    if o.amount > p.maxAmount {
      reasons := reasons + [AboveMaximum];
    }
  }

  // ---- What an accepted order says of itself ------------------------------------------------

  /** Every figure on an accepted order follows from its own lines, to the paisa the gate allows: the
      quantities and prices are possible, each total is its product, and the subtotal, the discount and the
      amount are those of the lines. It is in rupees or names no currency, and its amount may be charged. */
  lemma AcceptedOrderAddsUp(p: Policy, order: Order, trusted: Option<map<string, Row>>)
    requires Accepts(p, Some(order), trusted)
    ensures order.lines != [] && (order.currency == "" || Upper(order.currency) == "INR")
    ensures forall li | li in order.lines ::
      && 1 <= li.qty <= p.maxQty && li.unit > 0.0 && li.install >= 0.0 && Trim(li.sku) != ""
      && -1.0 <= li.total - Round2(Times(li.unit + li.install, li.qty)) <= 1.0
    ensures -1.0 <= order.subtotal - Round2(SumTotals(order.lines)) <= 1.0
    ensures 0.0 <= order.pct && 0.0 <= order.discount
    ensures -1.0 <= order.discount - Round2(Percent(Round2(SumProducts(order.lines)), order.pct)) <= 1.0
    ensures -2.5 <= order.amount - (order.subtotal - order.discount) <= 2.5
    ensures p.minAmount <= order.amount <= p.maxAmount
  {
    forall li | li in order.lines
      ensures
        && 1 <= li.qty <= p.maxQty && li.unit > 0.0 && li.install >= 0.0 && Trim(li.sku) != ""
        && -1.0 <= li.total - Round2(Times(li.unit + li.install, li.qty)) <= 1.0
    {
      var i :| 0 <= i < |order.lines| && order.lines[i] == li;
      LineAddsUp(p, li, trusted);
    }
  }

  lemma LineAddsUp(p: Policy, li: Line, trusted: Option<map<string, Row>>)
    requires LineAccepted(p, li, trusted)
    ensures 1 <= li.qty <= p.maxQty && li.unit > 0.0 && li.install >= 0.0 && Trim(li.sku) != ""
    ensures -1.0 <= li.total - Round2(Times(li.unit + li.install, li.qty)) <= 1.0
  {
  }

  // ---- How far an accepted order can be from the catalogue ----------------------------------

  function Quantity(lines: seq<Line>): int {
    if lines == [] then 0 else Quantity(lines[..|lines| - 1]) + lines[|lines| - 1].qty
  }

  /** What the catalogue charges for the products on these lines, without and with installation. */
  function CatalogueProducts(lines: seq<Line>, trusted: map<string, Row>): real
    requires forall i | 0 <= i < |lines| :: Trim(lines[i].sku) in trusted
  {
    if lines == [] then 0.0
    else
      var li := lines[|lines| - 1];
      CatalogueProducts(lines[..|lines| - 1], trusted) + Times(trusted[Trim(li.sku)].base, li.qty)
  }

  function CatalogueInstall(lines: seq<Line>, trusted: map<string, Row>): real
    requires forall i | 0 <= i < |lines| :: Trim(lines[i].sku) in trusted
  {
    if lines == [] then 0.0
    else
      var li := lines[|lines| - 1];
      CatalogueInstall(lines[..|lines| - 1], trusted) + Times(trusted[Trim(li.sku)].install, li.qty)
  }

  lemma LineNearCatalogue(p: Policy, li: Line, row: Row)
    requires LineArithmetic(p, li) && Near(row.base, li.unit) && Near(row.install, li.install)
    ensures Abs(Times(li.unit, Units(li.qty)) - Times(row.base, li.qty)) <= li.qty as real
    ensures Abs(li.total - Times(row.base, li.qty) - Times(row.install, li.qty)) <= 2.0 * li.qty as real + 1.5
  {
    var q := li.qty;
    TimesMonotone(li.unit, row.base + 1.0, q);
    TimesMonotone(row.base - 1.0, li.unit, q);
    TimesMonotone(li.install, row.install + 1.0, q);
    TimesMonotone(row.install - 1.0, li.install, q);
    TimesAdds(row.base, 1.0, q);
    TimesAdds(row.base, -1.0, q);
    TimesAdds(row.install, 1.0, q);
    TimesAdds(row.install, -1.0, q);
    TimesAdds(li.unit, li.install, q);
    assert Times(1.0, q) == q as real && Times(-1.0, q) == -(q as real);
  }

  lemma {:induction false} LinesNearCatalogue(p: Policy, lines: seq<Line>, trusted: map<string, Row>)
    requires forall i | 0 <= i < |lines| :: Trim(lines[i].sku) in trusted
    requires forall i | 0 <= i < |lines| :: LineArithmetic(p, lines[i]) && LineTrusted(lines[i], trusted)
    ensures Abs(SumProducts(lines) - CatalogueProducts(lines, trusted)) <= Quantity(lines) as real
    ensures Abs(SumTotals(lines) - CatalogueProducts(lines, trusted) - CatalogueInstall(lines, trusted))
            <= 2.0 * Quantity(lines) as real + 1.5 * |lines| as real
    ensures Quantity(lines) >= |lines|
  {
    if lines != [] {
      LinesNearCatalogue(p, lines[..|lines| - 1], trusted);
      var li := lines[|lines| - 1];
      LineNearCatalogue(p, li, trusted[Trim(li.sku)]);
    }
  }

  /** The furthest an accepted amount can be from the catalogue's own, in paise: linear in the total
      quantity and in the number of lines, one paisa of tolerance for each check plus its rounding. */
  function Slack(quantity: int, lines: int, pct: real): real {
    2.0 * quantity as real + 1.5 * lines as real + 3.5 + Percent(quantity as real + 0.5, pct)
  }

  /** Whatever an order claims, if the gate lets it through against trusted prices then its amount is
      the catalogue's product value less the stated percentage, plus installation at full price. */
  lemma {:induction false} AcceptedAmountIsNearCatalogue(p: Policy, order: Order, trusted: map<string, Row>)
    requires Accepts(p, Some(order), Some(trusted))
    ensures forall i | 0 <= i < |order.lines| :: Trim(order.lines[i].sku) in trusted
    ensures
      var products := CatalogueProducts(order.lines, trusted);
      var fair := products - Percent(products, order.pct) + CatalogueInstall(order.lines, trusted);
      Abs(order.amount - fair) <= Slack(Quantity(order.lines), |order.lines|, order.pct)
    ensures 0.0 <= order.pct <= p.ceiling + PCT_SLACK
  {
    var lines, pct := order.lines, order.pct;
    forall i | 0 <= i < |lines|
      ensures LineArithmetic(p, lines[i]) && LineTrusted(lines[i], trusted)
    {
      assert LineAccepted(p, lines[i], Some(trusted));
    }
    LinesNearCatalogue(p, lines, trusted);
    var products := CatalogueProducts(lines, trusted);
    var reach := Quantity(lines) as real + 0.5;
    var discountable := Round2(SumProducts(lines));
    DiscountNear(discountable, products, reach, pct);
  }

  lemma DiscountNear(discountable: real, products: real, reach: real, pct: real)
    requires Abs(discountable - products) <= reach && 0.0 <= pct
    ensures Abs(Percent(discountable, pct) - Percent(products, pct)) <= Percent(reach, pct)
  {
    PercentMonotone(discountable, products + reach, pct);
    PercentMonotone(products - reach, discountable, pct);
    PercentAdds(products, reach, pct);
  }
}
