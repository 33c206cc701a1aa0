/** The sale does get made: when a proposal becomes an order, when a confirm tap becomes a link, and a
    whole sale from the first message to the link. */
module ProgressTheorems {
  import opened Text
  import opened Catalogue
  import opened Discounts
  import opened Guardrails
  import opened Money
  import opened Orders
  import opened OrderTheorems
  import opened Walkthrough
  import opened Conversation
  import opened Runs

  // ---- When a proposal becomes an order -----------------------------------------------------

  function LinesOf(p: Policy, cat: seq<Row>, pr: Proposal): seq<Line> {
    PricedLines(p, RawItems(pr.items), TrustedFor(cat, ProposedNames(pr)))
  }

  /** Notes and suggestions are nothing the gate looks at. */
  lemma OrderIsJudgedByItsMoney(p: Policy, order: Order, notes: seq<Note>, complement: Option<string>,
                                stepUp: Option<StepUp>, canonical: map<string, Row>)
    ensures var other := order.(notes := notes, complement := complement, stepUp := stepUp);
            Accepts(p, Some(other), Some(canonical)) <==> Accepts(p, Some(order), Some(canonical))
  {
  }

  /** In a whole-paise catalogue, a proposal becomes an order exactly when something in it resolves to a
      price and the total at its offer lies in the allowed window, whatever else it suggests. */
  lemma ProposalBecomesAnOrderExactly(p: Policy, cat: seq<Row>, pr: Proposal)
    requires SoundPolicy(p) && CleanCatalogue(cat) && forall r | r in cat :: WholeRow(r)
    ensures
      var lines := LinesOf(p, cat, pr);
      var amount := OfferApplied(p, lines, pr.offer, "INR").amount;
      && (Built(p, cat, true, pr).Some? <==> lines != [] && p.minAmount <= amount <= p.maxAmount)
      && (Built(p, cat, true, pr).Some? ==>
            Built(p, cat, true, pr).value.lines == lines && Built(p, cat, true, pr).value.amount == amount)
  {
    var trusted := TrustedFor(cat, ProposedNames(pr));
    ResolvedRowsAreConsistent(cat, ProposedNames(pr));
    var canonical := Canonical(trusted);
    forall sku | sku in trusted
      ensures WholeRow(trusted[sku]) && Clean(trusted[sku].name)
    {
      ResolveIsUnambiguous(cat, sku);
      assert trusted[sku] in cat;
    }
    BuiltOrderAcceptedExactlyInWindow(p, RawItems(pr.items), trusted, canonical, pr.offer);
    var lines := LinesOf(p, cat, pr);
    var draft := Drafted(p, trusted, pr);
    OrderIsJudgedByItsMoney(p, OfferApplied(p, lines, pr.offer, "INR"), draft.notes, draft.complement, draft.stepUp, canonical);
  }

  // ---- When a confirm tap becomes a link ----------------------------------------------------

  /** Every call out of the system in this turn goes well, on this catalogue. */
  predicate GoesWell(t: Turn, cat: seq<Row>) {
    && t.cat == cat && t.mintCat == cat && t.lookupOk && t.mintLookupOk
    && t.stateReadOk && t.linkOk && t.stateWriteOk
  }

  /** A payable order waiting for its confirm tap, on a thread the agent has. */
  ghost predicate AwaitsTap(s: Settings, cat: seq<Row>, c: Conv) {
    && c.sale.pending.Some? && Payable(s.policy, cat, c.sale.pending.value)
    && !c.sale.linkSent && !c.sale.awaitingDetails && !c.custody.held
  }

  /** A confirm tap makes the link at once exactly when a name is on file; otherwise it asks for one,
      and keeps the order and the tap. */
  lemma ConfirmTapMintsExactlyWhenNamed(s: Settings, cat: seq<Row>, c: Conv, t: Turn)
    requires CleanCatalogue(cat) && AwaitsTap(s, cat, c) && t.msg.confirm && GoesWell(t, cat)
    ensures
      var (after, log) := TurnTaken(s, c, t);
      && (log.minted <==> NamedOnFile(c.sale))
      && after.sale == c.sale.(confirmed := true, awaitingDetails := !NamedOnFile(c.sale), linkSent := NamedOnFile(c.sale))
      && !after.custody.held
  {
    var d := Triage(s, c, t);
    assert d.sale == c.sale.(confirmed := true) by {
      assert c.sale.taps + {} == c.sale.taps;
    }
    assert Route(d) == Sales(false);
    var said := NodeSaid(s.policy, d, t);
    assert said.sale == d.sale.(awaitingDetails := !NamedOnFile(d.sale));
    GateIsOpenToPayable(s.policy, cat, said.sale, t);
  }

  /** The gate makes a link for a payable order exactly when the tap is on it and no question is open. */
  lemma GateIsOpenToPayable(p: Policy, cat: seq<Row>, v: Sale, t: Turn)
    requires CleanCatalogue(cat) && v.pending.Some? && Payable(p, cat, v.pending.value) && GoesWell(t, cat)
    ensures Mints(p, v, t) <==> ConfirmHeld(v)
    ensures AfterGate(p, v, t) == v.(linkSent := v.linkSent || ConfirmHeld(v))
  {
    PayableOrderMints(p, cat, v.pending.value, true);
  }

  /** A name and a city in one reply complete the tap that asked, whatever the reply is classified as and
      whatever else it contains, so long as it is the agent's to answer: one link, in that name. */
  lemma NameAndCityCompleteTheTap(s: Settings, cat: seq<Row>, c: Conv, t: Turn)
    requires CleanCatalogue(cat) && Asking(c.sale) && Payable(s.policy, cat, c.sale.pending.value) && !NamedOnFile(c.sale)
    requires Route(Triage(s, c, t)).Sales? && t.msg.details.NameAndCity? && GoesWell(t, cat)
    ensures
      var (after, log) := TurnTaken(s, c, t);
      && log.minted && log.mintedName == after.sale.name == t.msg.details.name && after.sale.linkSent
      && after.sale.pending == c.sale.pending
  {
    var d := Triage(s, c, t);
    assert Asking(d.sale) && d.sale.name == c.sale.name && d.sale.pending == c.sale.pending;
    assert BranchOf(d.sale, Retrieved(d, t).specsUnavailable, t.msg).DetailsBranch?;
    GateIsOpenToPayable(s.policy, cat, NodeSaid(s.policy, d, t).sale, t);
  }

  // ---- A whole sale -------------------------------------------------------------------------

  /** A first message the agent answers from the model: the model proposes, and the customer has asked what
      it costs. */
  predicate AsksThePrice(s: Settings, t: Turn) {
    && Route(Triage(s, FRESH, t)).Sales? && !t.msg.confirm
    && !Retrieved(Triage(s, FRESH, t), t).specsUnavailable
    && t.reply.Some? && t.reply.value.proposal.quoteRequested && t.reply.value.name == ""
  }

  lemma AskedOrderIsShown(s: Settings, cat: seq<Row>, t: Turn, order: Order)
    requires AsksThePrice(s, t) && GoesWell(t, cat) && t.reply.value.proposal.items != []
    requires Built(s.policy, cat, true, t.reply.value.proposal) == Some(order) && Payable(s.policy, cat, order)
    ensures
      var (after, log) := TurnTaken(s, FRESH, t);
      && log.shown == Some(Total) && !log.minted && AwaitsTap(s, cat, after) && after.sale.name == ""
      && after.sale.pending == Some(order)
  {
    var v := FRESH.sale;
    FirstTurnAsksTheModel(s, t);
    AskedModelShowsTotal(s.policy, v, t, order);
    NoTapNoLink(s.policy, Advanced(v, order, v.stage, Total), t);
  }

  /** With no order in state, the first message is the model's to answer. */
  lemma FirstTurnAsksTheModel(s: Settings, t: Turn)
    requires AsksThePrice(s, t)
    ensures NodeSaid(s.policy, Triage(s, FRESH, t), t) == ModelAnswered(s.policy, FRESH.sale, t)
    ensures !NodeCustody(Triage(s, FRESH, t), t).held
  {
    var d := Triage(s, FRESH, t);
    assert d.sale == FRESH.sale;
    assert BranchOf(d.sale, Retrieved(d, t).specsUnavailable, t.msg).ModelBranch?;
  }

  lemma NoTapNoLink(p: Policy, v: Sale, t: Turn)
    requires !v.confirmed
    ensures !Mints(p, v, t) && AfterGate(p, v, t) == v
  {
  }

  lemma AskedModelShowsTotal(p: Policy, v: Sale, t: Turn, order: Order)
    requires t.reply.Some? && t.reply.value.proposal.quoteRequested && t.reply.value.name == ""
    requires !v.confirmed && v.paid == [] && v.saleKey == {}
    requires t.reply.value.proposal.items != [] && Built(p, t.cat, t.lookupOk, t.reply.value.proposal) == Some(order)
    ensures ModelAnswered(p, v, t) == Said(Advanced(v, order, v.stage, Total), Some(Total), false, false)
  {
  }

  lemma BlankItemsBuildNothing(p: Policy, cat: seq<Row>, pr: Proposal)
    ensures pr.items == [] ==> Built(p, cat, true, pr).None?
  {
    assert pr.items == [] ==> Distinct(RawItems(pr.items)) == [];
  }

  /** Ask, tap, answer: whatever the model proposed, if it became an order then three turns make exactly
      one link, for that order, in the customer's name. */
  lemma {:induction false} ASaleRunsToItsLink(s: Settings, cat: seq<Row>, ask: Turn, tap: Turn, answer: Turn, order: Order)
    requires SoundPolicy(s.policy) && CleanCatalogue(cat)
    requires AsksThePrice(s, ask) && tap.msg.confirm && answer.msg.details.NameAndCity?
    requires Route(Triage(s, Next(s, Next(s, START, TurnEvent(ask)), TurnEvent(tap)).conv, answer)).Sales?
    requires GoesWell(ask, cat) && GoesWell(tap, cat) && GoesWell(answer, cat)
    requires Built(s.policy, cat, true, ask.reply.value.proposal) == Some(order)
    ensures
      var w := Run(s, START, [TurnEvent(ask), TurnEvent(tap), TurnEvent(answer)]);
      && w.past.mints == 1 && w.past.namelessMints == 0
      && w.past.confirmTaps == 1 + (if answer.msg.confirm then 1 else 0)
      && w.conv.sale.pending == Some(order)
      && w.conv.sale.name == answer.msg.details.name && w.conv.sale.linkSent
  {
    AskedOrderAwaitsItsTap(s, cat, ask, order);
    TapAndAnswerMakeOneLink(s, cat, Next(s, START, TurnEvent(ask)), tap, answer);
    assert Run(s, START, [TurnEvent(ask), TurnEvent(tap), TurnEvent(answer)]) ==
           Next(s, Next(s, Next(s, START, TurnEvent(ask)), TurnEvent(tap)), TurnEvent(answer)) by {
      RunOfThree(s, TurnEvent(ask), TurnEvent(tap), TurnEvent(answer));
    }
  }

  lemma AskedOrderAwaitsItsTap(s: Settings, cat: seq<Row>, ask: Turn, order: Order)
    requires SoundPolicy(s.policy) && CleanCatalogue(cat) && AsksThePrice(s, ask) && GoesWell(ask, cat)
    requires Built(s.policy, cat, true, ask.reply.value.proposal) == Some(order)
    ensures
      var n := Next(s, START, TurnEvent(ask));
      && AwaitsTap(s, cat, n.conv) && n.conv.sale.pending == Some(order) && n.conv.sale.name == ""
      && n.past.mints == 0 && n.past.confirmTaps == 0 && n.past.namelessMints == 0
  {
    BlankItemsBuildNothing(s.policy, cat, ask.reply.value.proposal);
    BuiltOrderIsPayable(s.policy, cat, true, ask.reply.value.proposal);
    AskedOrderIsShown(s, cat, ask, order);
    Counted(s, START, ask);
  }

  /** From any order waiting for its tap, with no name on file. */
  lemma TapAndAnswerMakeOneLink(s: Settings, cat: seq<Row>, w: World, tap: Turn, answer: Turn)
    requires CleanCatalogue(cat) && AwaitsTap(s, cat, w.conv) && w.conv.sale.name == ""
    requires tap.msg.confirm && answer.msg.details.NameAndCity?
    requires Route(Triage(s, Next(s, w, TurnEvent(tap)).conv, answer)).Sales?
    requires GoesWell(tap, cat) && GoesWell(answer, cat)
    ensures
      var n := Next(s, Next(s, w, TurnEvent(tap)), TurnEvent(answer));
      && n.past.mints == w.past.mints + 1 && n.past.namelessMints == w.past.namelessMints
      && n.past.confirmTaps == w.past.confirmTaps + 1 + (if answer.msg.confirm then 1 else 0)
      && n.conv.sale.pending == w.conv.sale.pending
      && n.conv.sale.name == answer.msg.details.name && n.conv.sale.linkSent
  {
    assert Trim("") == "";
    ConfirmTapMintsExactlyWhenNamed(s, cat, w.conv, tap);
    Counted(s, w, tap);
    var tapped := Next(s, w, TurnEvent(tap));
    NameAndCityCompleteTheTap(s, cat, tapped.conv, answer);
    Counted(s, tapped, answer);
  }

  /** What a turn adds to the counts of the run. */
  lemma Counted(s: Settings, w: World, t: Turn)
    ensures
      var (after, log) := TurnTaken(s, w.conv, t);
      var n := Next(s, w, TurnEvent(t));
      && n.conv == after
      && n.past.mints == w.past.mints + (if log.minted then 1 else 0)
      && n.past.confirmTaps == w.past.confirmTaps + (if t.msg.confirm then 1 else 0)
      && (Trim(log.mintedName) != "" || !log.minted ==> n.past.namelessMints == w.past.namelessMints)
  {
  }

  lemma {:induction false} RunAppends(s: Settings, w: World, events: seq<Event>, e: Event)
    ensures Run(s, w, events + [e]) == Next(s, Run(s, w, events), e)
  {
    assert (events + [e])[..|events|] == events;
  }

  lemma {:induction false} RunOfThree(s: Settings, a: Event, b: Event, c: Event)
    ensures Run(s, START, [a, b, c]) == Next(s, Next(s, Next(s, START, a), b), c)
  {
    RunAppends(s, START, [], a);
    RunAppends(s, START, [a], b);
    RunAppends(s, START, [a, b], c);
    assert [] + [a] == [a] && [a] + [b] == [a, b] && [a, b] + [c] == [a, b, c];
  }
}
