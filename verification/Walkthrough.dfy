/** The consultative beats between choosing a product and seeing a total. */
module Walkthrough {
  import opened Text
  import opened Discounts
  import opened Orders

  /** `Hold` is the absence of a beat: the order is stored and nothing is shown. */
  datatype Beat = Hold | StepUpCard | PairingCard | PriceQuestion | Total

  function StageAfter(b: Beat): nat {
    match b
    case Hold => 0
    case StepUpCard => 1
    case PairingCard => 2
    case PriceQuestion => 3
    case Total => 4
  }

  /** Which sale an order belongs to: its product names, case folded, quantities left out. */
  function OrderKey(order: Order): set<string> {
    set li | li in order.lines && Key(li.sku) != "" :: Key(li.sku)
  }

  /** A sale is new when it shares no product with the one being walked. */
  predicate IsNewSale(order: Order, walked: set<string>) {
    walked != {} && OrderKey(order) != {} && walked !! OrderKey(order)
  }

  /** Whether the step-up card has anything to say. */
  predicate HasStepUpCard(order: Order) {
    && order.stepUp.Some?
    && Trim(order.stepUp.value.sku) != ""
    && order.stepUp.value.lineDelta > 0.0
    && order.stepUp.value.hasBenefit
  }

  /** Whether the pairing card has anything to say: a product, and a tier it would earn. */
  predicate HasPairingCard(p: Policy, order: Order) {
    Stripped(order.complement) != "" && TierByProducts(p, order.lines)
  }

  function NextBeat(p: Policy, order: Order, stage: nat): Beat {
    if stage < 1 && HasStepUpCard(order) then StepUpCard
    else if stage < 2 && HasPairingCard(p, order) then PairingCard
    else if stage < 3 then PriceQuestion
    else Total
  }

  lemma OrderKeyByLine(order: Order, key: string)
    ensures key in OrderKey(order) <==>
      key != "" && exists i :: 0 <= i < |order.lines| && Key(order.lines[i].sku) == key
  {
    if key in OrderKey(order) {
      var li :| li in order.lines && Key(li.sku) == key;
      var i :| 0 <= i < |order.lines| && order.lines[i] == li;
      assert Key(order.lines[i].sku) == key;
    }
  }

  /** A restart needs a product-disjoint order: more of what was being walked, or one product more
      beside it, keeps its place. */
  lemma GrowingAnOrderIsTheSameSale(order: Order, grown: Order, i: nat)
    requires i < |order.lines| && i < |grown.lines| && Key(order.lines[i].sku) != ""
    requires grown.lines[i].sku == order.lines[i].sku
    ensures !IsNewSale(grown, OrderKey(order))
  {
    OrderKeyByLine(order, Key(order.lines[i].sku));
    OrderKeyByLine(grown, Key(order.lines[i].sku));
    assert Key(order.lines[i].sku) in OrderKey(order) * OrderKey(grown);
  }
}
