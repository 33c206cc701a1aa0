/** The promises of the sale, each over every run or every state a run can be in. */
module RunTheorems {
  import opened Text
  import opened Catalogue
  import opened Discounts
  import opened Guardrails
  import opened Money
  import opened Orders
  import opened OrderTheorems
  import opened Conversation
  import opened Runs

  // ---- Links and taps -----------------------------------------------------------------------

  /** However the model behaves and whatever is tapped: never more links than confirm taps, and never a
      link for an order with nobody's name on it, unless a person was holding the thread. */
  lemma {:induction false} LinksNeverOutnumberConfirmTaps(s: Settings, events: seq<Event>)
    ensures var past := Run(s, START, events).past; past.mints <= past.confirmTaps && past.namelessMints == 0
  {
    EveryRunKeepsInv(s, events);
  }

  /** The exception is real: a confirm tap on a thread a person holds is routed past the name question,
      and mints with no name on file. */
  lemma HeldThreadMintsWithoutName(s: Settings, c: Conv, t: Turn)
    requires c.custody.held && !HoldExpired(s, c.custody, t.now) && Trim(c.sale.name) == ""
    requires t.msg.confirm && c.sale.pending.Some? && !c.sale.linkSent && !c.sale.awaitingDetails
    requires t.stateReadOk && t.linkOk
    requires Accepts(s.policy, c.sale.pending, MintTrusted(t.mintCat, t.mintLookupOk, c.sale.pending.value))
    ensures var log := TurnTaken(s, c, t).1; log.minted && log.mintedHeld && Trim(log.mintedName) == ""
  {
    assert Route(Triage(s, c, t)) == Escalation;
  }

  // ---- The order in state is always payable -------------------------------------------------

  ghost predicate UsesCatalogue(e: Event, cat: seq<Row>) {
    e.TurnEvent? ==> e.turn.cat == cat && e.turn.mintCat == cat
  }

  /** In a catalogue in whole paise the stored lines stay exact to the paisa as well. */
  ghost predicate Sellable(p: Policy, cat: seq<Row>, order: Order) {
    Payable(p, cat, order) && ((forall r | r in cat :: WholeRow(r)) ==> Tight(p, order.lines))
  }

  lemma ResolvedRowIsWhole(cat: seq<Row>, name: string)
    requires (forall r | r in cat :: WholeRow(r)) && Resolve(cat, name).Some?
    ensures WholeRow(Resolve(cat, name).value)
  {
    ResolveIsUnambiguous(cat, name);
  }

  lemma {:induction false} SelfTrustedIsWhole(p: Policy, lines: seq<Line>)
    requires Tight(p, lines)
    ensures forall n | n in SelfTrusted(lines) :: WholeRow(SelfTrusted(lines)[n])
  {
    SelfTrustedAreLines(lines);
    forall n | n in SelfTrusted(lines)
      ensures WholeRow(SelfTrusted(lines)[n])
    {
      assert RowOfLine(SelfTrusted(lines)[n], lines, n);
      var i :| 0 <= i < |lines| && SelfTrusted(lines)[n] == Row(n, lines[i].unit, lines[i].install);
      assert TightLine(p, lines[i]);
    }
  }

  lemma BuiltIsSellable(p: Policy, cat: seq<Row>, lookupOk: bool, pr: Proposal)
    requires SoundPolicy(p) && CleanCatalogue(cat) && Built(p, cat, lookupOk, pr).Some?
    ensures Sellable(p, cat, Built(p, cat, lookupOk, pr).value)
  {
    BuiltOrderIsPayable(p, cat, lookupOk, pr);
    if forall r | r in cat :: WholeRow(r) {
      var trusted := TrustedFor(cat, ProposedNames(pr));
      forall n | n in trusted ensures WholeRow(trusted[n]) {
        ResolvedRowIsWhole(cat, n);
      }
      WholeRowsPriceTightly(p, RawItems(pr.items), trusted);
    }
  }

  lemma TapPricesAreWhole(p: Policy, cat: seq<Row>, lines: seq<Line>, name: string, items: seq<Item>)
    requires SoundPolicy(p) && Tight(p, lines) && (forall r | r in cat :: WholeRow(r)) && Resolve(cat, name).Some?
    ensures Tight(p, PricedLines(p, items, SelfTrusted(lines)[name := Resolve(cat, name).value]))
  {
    SelfTrustedIsWhole(p, lines);
    ResolvedRowIsWhole(cat, name);
    WholeRowsPriceTightly(p, items, SelfTrusted(lines)[name := Resolve(cat, name).value]);
  }

  lemma AddedIsSellable(p: Policy, cat: seq<Row>, lookupOk: bool, order: Order)
    requires SoundPolicy(p) && CleanCatalogue(cat) && Sellable(p, cat, order)
    requires Added(p, cat, lookupOk, order).Some?
    ensures Sellable(p, cat, Added(p, cat, lookupOk, order).value)
  {
    AddedOrderIsPayable(p, cat, lookupOk, order);
    if forall r | r in cat :: WholeRow(r) {
      var sku := Stripped(order.complement);
      TapPricesAreWhole(p, cat, order.lines, sku, AsItems(order.lines) + [Item(sku, 1)]);
    }
  }

  lemma SwappedIsSellable(p: Policy, cat: seq<Row>, lookupOk: bool, order: Order)
    requires SoundPolicy(p) && CleanCatalogue(cat) && Sellable(p, cat, order)
    requires Swapped(p, cat, lookupOk, order).Some?
    ensures Sellable(p, cat, Swapped(p, cat, lookupOk, order).value)
  {
    SwappedOrderIsPayable(p, cat, lookupOk, order);
    if forall r | r in cat :: WholeRow(r) {
      var target, replaced := Trim(order.stepUp.value.sku), Trim(order.stepUp.value.replaced);
      TapPricesAreWhole(p, cat, order.lines, target, SwapItems(order.lines, replaced, target));
    }
  }

  lemma TapKeepsSellable(p: Policy, cat: seq<Row>, v: Sale, t: Turn)
    requires SoundPolicy(p) && CleanCatalogue(cat) && t.cat == cat
    requires v.pending.Some? && v.taps != {} && Sellable(p, cat, v.pending.value)
    ensures var w := TapAnswered(p, v, t).sale; w.pending.Some? && Sellable(p, cat, w.pending.value)
  {
    var order := v.pending.value;
    TapLeaves(p, v, t);
    RepriceStaysSellable(p, cat, order);
    AddStaysSellable(p, cat, t.lookupOk, order);
    SwapStaysSellable(p, cat, t.lookupOk, order);
  }

  function AfterAdd(p: Policy, cat: seq<Row>, lookupOk: bool, order: Order): Order {
    var added := Added(p, cat, lookupOk, order);
    if added.Some? then added.value else WithoutComplement(order)
  }

  function AfterSwap(p: Policy, cat: seq<Row>, lookupOk: bool, order: Order): Order {
    var swapped := Swapped(p, cat, lookupOk, order);
    if swapped.Some? then swapped.value else order.(stepUp := None)
  }

  /** The orders a tap can leave in state. */
  lemma TapLeaves(p: Policy, v: Sale, t: Turn)
    requires v.pending.Some? && v.taps != {}
    ensures
      var order := v.pending.value;
      var after := TapAnswered(p, v, t).sale.pending;
      || after == Some(order) || (after.Some? && after == Repriced(p, order))
      || after == Some(AfterAdd(p, t.cat, t.lookupOk, order)) || after == Some(AfterSwap(p, t.cat, t.lookupOk, order))
  {
    if ApplyTap in v.taps {
      ApplyLeaves(p, v, t);
    } else if AddTap in v.taps {
      AddLeaves(p, v, t);
    } else if SwapTap in v.taps {
      SwapLeaves(p, v, t);
    }
  }

  lemma ApplyLeaves(p: Policy, v: Sale, t: Turn)
    requires v.pending.Some? && ApplyTap in v.taps
    ensures TapAnswered(p, v, t).sale.pending ==
            if Repriced(p, v.pending.value).Some? then Repriced(p, v.pending.value) else v.pending
  {
  }

  lemma AddLeaves(p: Policy, v: Sale, t: Turn)
    requires v.pending.Some? && AddTap in v.taps && ApplyTap !in v.taps
    ensures TapAnswered(p, v, t).sale.pending == Some(AfterAdd(p, t.cat, t.lookupOk, v.pending.value))
  {
  }

  lemma SwapLeaves(p: Policy, v: Sale, t: Turn)
    requires v.pending.Some? && SwapTap in v.taps && AddTap !in v.taps && ApplyTap !in v.taps
    ensures TapAnswered(p, v, t).sale.pending == Some(AfterSwap(p, t.cat, t.lookupOk, v.pending.value))
  {
  }

  lemma RepriceStaysSellable(p: Policy, cat: seq<Row>, order: Order)
    requires CleanCatalogue(cat) && Sellable(p, cat, order)
    ensures Repriced(p, order).Some? ==> Sellable(p, cat, Repriced(p, order).value)
  {
    if Repriced(p, order).Some? {
      RepricedOrderIsPayable(p, cat, order);
      RepriceKeepsLines(p, order);
    }
  }

  lemma RepriceKeepsLines(p: Policy, order: Order)
    requires Repriced(p, order).Some?
    ensures Repriced(p, order).value.lines == order.lines
  {
  }

  /** Enlarged, or with its suggestion dropped. */
  lemma AddStaysSellable(p: Policy, cat: seq<Row>, lookupOk: bool, order: Order)
    requires SoundPolicy(p) && CleanCatalogue(cat) && Sellable(p, cat, order)
    ensures Sellable(p, cat, AfterAdd(p, cat, lookupOk, order))
  {
    if Added(p, cat, lookupOk, order).Some? {
      AddedIsSellable(p, cat, lookupOk, order);
    } else {
      SuggestionsAreNotMoney(p, cat, order, None, order.stepUp);
    }
  }

  /** Swapped, or with its step-up card put away. */
  lemma SwapStaysSellable(p: Policy, cat: seq<Row>, lookupOk: bool, order: Order)
    requires SoundPolicy(p) && CleanCatalogue(cat) && Sellable(p, cat, order)
    ensures Sellable(p, cat, AfterSwap(p, cat, lookupOk, order))
  {
    if Swapped(p, cat, lookupOk, order).Some? {
      SwappedIsSellable(p, cat, lookupOk, order);
    } else {
      SuggestionsAreNotMoney(p, cat, order, order.complement, None);
    }
  }

  ghost predicate SaleSellable(p: Policy, cat: seq<Row>, v: Sale) {
    v.pending.Some? ==> Sellable(p, cat, v.pending.value)
  }

  lemma SoldKeepsSellable(p: Policy, cat: seq<Row>, v: Sale, specsUnavailable: bool, t: Turn)
    requires SoundPolicy(p) && CleanCatalogue(cat) && t.cat == cat && SaleSellable(p, cat, v)
    ensures SaleSellable(p, cat, Sold(p, v, specsUnavailable, t).sale)
  {
    match BranchOf(v, specsUnavailable, t.msg)
    case DetailsBranch =>
      assert DetailsAnswered(v, t.msg).value.pending == v.pending;
    case ConfirmBranch =>
    case NoSpecsBranch =>
    case TapBranch => TapKeepsSellable(p, cat, v, t);
    case ModelBranch => ModelKeepsSellable(p, cat, v, t);
  }

  lemma ModelKeepsSellable(p: Policy, cat: seq<Row>, v: Sale, t: Turn)
    requires SoundPolicy(p) && CleanCatalogue(cat) && t.cat == cat && SaleSellable(p, cat, v)
    ensures SaleSellable(p, cat, ModelAnswered(p, v, t).sale)
  {
    if ModelOrder(p, v, t).Some? {
      BuiltIsSellable(p, cat, t.lookupOk, t.reply.value.proposal);
    }
  }

  lemma StepKeepsSellable(s: Settings, cat: seq<Row>, c: Conv, e: Event)
    requires SoundPolicy(s.policy) && CleanCatalogue(cat) && UsesCatalogue(e, cat)
    requires SaleSellable(s.policy, cat, c.sale)
    ensures SaleSellable(s.policy, cat, Step(s, c, e).0.sale)
  {
    if e.TurnEvent? {
      var d := Triage(s, c, e.turn);
      SoldKeepsSellable(s.policy, cat, d.sale, Retrieved(d, e.turn).specsUnavailable, e.turn);
      GateKeepsWalk(s.policy, NodeSaid(s.policy, d, e.turn).sale, e.turn);
    }
  }

  /** For a fixed catalogue with unique names: on every run of arbitrary proposals and taps, the order in
      state is absent, or carries the catalogue's own unit prices and passes the gate against it. */
  lemma {:induction false} PendingOrderIsAlwaysPayable(s: Settings, cat: seq<Row>, events: seq<Event>)
    requires SoundPolicy(s.policy) && CleanCatalogue(cat)
    requires forall e | e in events :: UsesCatalogue(e, cat)
    ensures SaleSellable(s.policy, cat, Run(s, START, events).conv.sale)
  {
    if events != [] {
      var init := events[..|events| - 1];
      PendingOrderIsAlwaysPayable(s, cat, init);
      StepKeepsSellable(s, cat, Run(s, START, init).conv, events[|events| - 1]);
    }
  }

  /** So the re-read at mint time never turns a confirmed customer away: after any run, whenever a turn
      leaves the gate open and the payment service answers, the link is made. */
  lemma {:induction false} ConfirmedOrderIsNeverRefused(s: Settings, cat: seq<Row>, events: seq<Event>, t: Turn)
    requires SoundPolicy(s.policy) && CleanCatalogue(cat)
    requires forall e | e in events + [TurnEvent(t)] :: UsesCatalogue(e, cat)
    ensures
      var c := Run(s, START, events).conv;
      var said := NodeSaid(s.policy, Triage(s, c, t), t);
      GateOpen(said.sale, t) && t.linkOk ==> TurnTaken(s, c, t).1.minted
  {
    assert TurnEvent(t) in events + [TurnEvent(t)];
    forall e | e in events ensures UsesCatalogue(e, cat) {
      assert e in events + [TurnEvent(t)];
    }
    PendingOrderIsAlwaysPayable(s, cat, events);
    var c := Run(s, START, events).conv;
    var d := Triage(s, c, t);
    SoldKeepsSellable(s.policy, cat, d.sale, Retrieved(d, t).specsUnavailable, t);
    var said := NodeSaid(s.policy, d, t);
    if GateOpen(said.sale, t) {
      PayableOrderMints(s.policy, cat, said.sale.pending.value, t.mintLookupOk);
    }
  }

  // ---- The add tap, in a conversation -------------------------------------------------------

  /** A turn whose message carries the add button, and none that goes before it, appends exactly the suggested
      product to the order in state, or leaves its lines as they were; and then its amount too, unless an
      apply tap was standing. */
  lemma AddTurnAppendsOrLeaves(s: Settings, c: Conv, t: Turn)
    requires SoundPolicy(s.policy) && c.sale.pending.Some?
    requires Rounded(s.policy, c.sale.pending.value.lines) && CleanSkus(c.sale.pending.value.lines)
    requires t.msg.addIt && !t.msg.applyOffer && !t.msg.confirm && !t.msg.connectNow
    ensures
      var before := c.sale.pending.value;
      var after := TurnTaken(s, c, t).0.sale;
      && after.pending.Some?
      && (after.pending.value.lines == before.lines && ApplyTap !in c.sale.taps ==> after.pending.value.amount == before.amount)
      && (after.pending.value.lines == before.lines || AppendsSuggestion(s.policy, t, before, after.pending.value))
  {
    var d := Triage(s, c, t);
    var before := c.sale.pending.value;
    assert d.sale.taps == c.sale.taps + {AddTap} && d.sale.pending == Some(before);
    AddServed(s, d, t);
    GateKeepsWalk(s.policy, NodeSaid(s.policy, d, t).sale, t);
    if Added(s.policy, t.cat, t.lookupOk, before).Some? {
      AddTapAppendsOneLine(s.policy, t.cat, t.lookupOk, before);
    }
  }

  /** The order with one unit of its suggestion at the end, every other line at its own unit prices. */
  ghost predicate AppendsSuggestion(p: Policy, t: Turn, before: Order, after: Order) {
    && Added(p, t.cat, t.lookupOk, before) == Some(after)
    && after.lines == RelinedAll(before.lines) + [PriceLine(p, 1, Resolve(t.cat, Stripped(before.complement)).value)]
  }

  /** Whichever branch answers, the order is enlarged, loses its suggestion, is re-priced at its best offer,
      or stays. */
  lemma AddServed(s: Settings, d: Conv, t: Turn)
    requires d.sale.pending.Some? && AddTap in d.sale.taps
    ensures
      var before := d.sale.pending.value;
      var after := NodeSaid(s.policy, d, t).sale.pending;
      || after == Some(before) || after == Some(WithoutComplement(before))
      || (after.Some? && after == Added(s.policy, t.cat, t.lookupOk, before))
      || (ApplyTap in d.sale.taps && after.Some? && after == Repriced(s.policy, before) && after.value.lines == before.lines)
  {
    if Route(d).Sales? && BranchOf(d.sale, Retrieved(d, t).specsUnavailable, t.msg).TapBranch? {
      if ApplyTap in d.sale.taps {
        ApplyLeaves(s.policy, d.sale, t);
        if Repriced(s.policy, d.sale.pending.value).Some? {
          RepriceKeepsLines(s.policy, d.sale.pending.value);
        }
      } else {
        AddLeaves(s.policy, d.sale, t);
      }
    }
  }

  /** So on every run over a catalogue of unique names, whatever was proposed and tapped before: a turn
      with the add button appends exactly the suggested product or leaves the lines alone, and an appended
      product never costs the order its tier where the spend does not fall. */
  lemma {:induction false} AddTapOnEveryRun(s: Settings, cat: seq<Row>, events: seq<Event>, t: Turn)
    requires SoundPolicy(s.policy) && CleanCatalogue(cat)
    requires (forall e | e in events :: UsesCatalogue(e, cat)) && t.cat == cat
    requires Run(s, START, events).conv.sale.pending.Some?
    requires t.msg.addIt && !t.msg.applyOffer && !t.msg.confirm && !t.msg.connectNow
    ensures
      var c := Run(s, START, events).conv;
      var before, after := c.sale.pending.value, TurnTaken(s, c, t).0.sale;
      && after.pending.Some?
      && (after.pending.value.lines == before.lines ||
          (AppendsSuggestion(s.policy, t, before, after.pending.value) &&
           (Subtotal(before.lines) <= Subtotal(after.pending.value.lines) ==>
              CurrentPct(s.policy, before.lines) <= after.pending.value.pct)))
  {
    PendingOrderIsAlwaysPayable(s, cat, events);
    var c := Run(s, START, events).conv;
    var before := c.sale.pending.value;
    PayableLinesAreRounded(s.policy, cat, before);
    AddTurnAppendsOrLeaves(s, c, t);
    if Added(s.policy, cat, t.lookupOk, before).Some? {
      AddTapEarnsThePromisedTier(s.policy, cat, t.lookupOk, before);
    }
  }
}
