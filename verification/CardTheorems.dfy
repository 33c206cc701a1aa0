/** Which card a sale is owed, and that it is shown: said of the order's own fields, the offer ladder and what
    the sale has had on screen, on every run. */
module CardTheorems {
  import opened Text
  import opened Discounts
  import opened Orders
  import opened Walkthrough
  import opened Conversation
  import opened Runs

  // ---- What is owed -------------------------------------------------------------------------

  /** The order has a step-up to show: a dearer model, at a difference, with a benefit to lead on. */
  predicate OffersStepUp(order: Order) {
    && order.stepUp.Some? && Trim(order.stepUp.value.sku) != ""
    && order.stepUp.value.lineDelta > 0.0 && order.stepUp.value.hasBenefit
  }

  /** It has a pairing to show: a product that takes it to a better offer some products away. */
  predicate OffersPairing(p: Policy, order: Order) {
    && order.complement.Some? && Trim(order.complement.value) != ""
    && NextHint(p, order.lines).Some? && NextHint(p, order.lines).value.needsProducts > 0
  }

  /** The step-up comes first or not at all. */
  predicate OwesStepUp(order: Order, beats: seq<Beat>) {
    OffersStepUp(order) && beats == []
  }

  /** The pairing comes next, unless it or something after it has been shown. */
  predicate OwesPairing(p: Policy, order: Order, beats: seq<Beat>) {
    && OffersPairing(p, order) && !OwesStepUp(order, beats)
    && PairingCard !in beats && PriceQuestion !in beats && Total !in beats
  }

  /** No card is owed, and the price is still to be asked about. */
  predicate OwesQuestion(p: Policy, order: Order, beats: seq<Beat>) {
    && !OwesStepUp(order, beats) && !OwesPairing(p, order, beats)
    && PriceQuestion !in beats && Total !in beats
  }

  /** What a sale that has shown `beats` shows next of this order. */
  predicate Owed(p: Policy, order: Order, beats: seq<Beat>, b: Beat) {
    match b
    case StepUpCard => OwesStepUp(order, beats)
    case PairingCard => OwesPairing(p, order, beats)
    case PriceQuestion => OwesQuestion(p, order, beats)
    case Total => PriceQuestion in beats || Total in beats
    case Hold => false
  }

  lemma StageTellsWhatWasShown(stage: nat, beats: seq<Beat>)
    requires Tracks(stage, beats)
    ensures stage < 1 <==> beats == []
    ensures stage < 2 <==> PairingCard !in beats && PriceQuestion !in beats && Total !in beats
    ensures stage < 3 <==> PriceQuestion !in beats && Total !in beats
    ensures stage == 3 <==> PriceQuestion in beats && Total !in beats
  {
    if beats != [] {
      assert beats[0] in beats;
      assert StageAfter(beats[0]) <= stage;
    }
    assert forall b | b in beats :: StageAfter(b) <= stage;
  }

  lemma NextBeatIsOwed(p: Policy, order: Order, stage: nat, beats: seq<Beat>)
    requires Tracks(stage, beats)
    ensures Owed(p, order, beats, NextBeat(p, order, stage))
  {
    StageTellsWhatWasShown(stage, beats);
  }

  lemma OneThingIsOwed(p: Policy, order: Order, beats: seq<Beat>, a: Beat, b: Beat)
    requires Owed(p, order, beats, a) && Owed(p, order, beats, b)
    ensures a == b
  {
  }

  // ---- A model turn -------------------------------------------------------------------------

  /** A turn in which the model's proposal becomes the order in state. */
  ghost predicate ModelTurn(s: Settings, c: Conv, t: Turn) {
    var d := Triage(s, c, t);
    && Route(d).Sales? && BranchOf(d.sale, Retrieved(d, t).specsUnavailable, t.msg).ModelBranch?
    && ModelOrder(s.policy, d.sale, t).Some?
  }

  /** What the order shares with the sale being walked: nothing, though both name something. */
  ghost predicate SharesNothing(order: Order, walked: set<string>) {
    && walked != {}
    && (exists i :: 0 <= i < |order.lines| && Key(order.lines[i].sku) != "")
    && (forall i | 0 <= i < |order.lines| :: Key(order.lines[i].sku) !in walked - {""})
  }

  lemma NewSaleExactly(order: Order, walked: set<string>)
    ensures IsNewSale(order, walked) <==> SharesNothing(order, walked)
  {
    forall key
      ensures key in OrderKey(order) <==> key != "" && exists i :: 0 <= i < |order.lines| && Key(order.lines[i].sku) == key
    {
      OrderKeyByLine(order, key);
    }
    if i :| 0 <= i < |order.lines| && Key(order.lines[i].sku) != "" {
      assert Key(order.lines[i].sku) in OrderKey(order);
    }
    if IsNewSale(order, walked) {
      var key :| key in OrderKey(order);
    }
  }

  /** The price question has been put, and no total shown since. */
  predicate QuestionStands(beats: seq<Beat>) {
    PriceQuestion in beats && Total !in beats
  }

  /** A model turn shows the total if it was asked for, nothing while the price question stands, and otherwise
      what the sale is owed. */
  predicate ShowsWhatIsOwed(p: Policy, order: Order, beats: seq<Beat>, asked: bool, shown: Beat) {
    && (asked ==> shown == Total)
    && (!asked && QuestionStands(beats) ==> shown == Hold)
    && (!asked && !QuestionStands(beats) ==> Owed(p, order, beats, shown))
  }

  lemma ModelBeatIsOwed(p: Policy, order: Order, stage: nat, beats: seq<Beat>, asked: bool)
    requires Tracks(stage, beats)
    ensures ShowsWhatIsOwed(p, order, beats, asked, ModelBeat(p, order, stage, asked))
  {
    NextBeatIsOwed(p, order, stage, beats);
    StageTellsWhatWasShown(stage, beats);
  }

  /** What the sale has shown, as far as this order goes: nothing, if it shares no product with it. */
  ghost function ShownOf(order: Order, walked: set<string>, beats: seq<Beat>): seq<Beat> {
    if SharesNothing(order, walked) then [] else beats
  }

  lemma ModelAnswerIsOwed(p: Policy, v: Sale, t: Turn, beats: seq<Beat>)
    requires Tracks(v.stage, beats) && ModelOrder(p, v, t).Some?
    ensures
      var said, order, asked := ModelAnswered(p, v, t), ModelOrder(p, v, t).value, t.reply.value.proposal.quoteRequested;
      && said.restarted == SharesNothing(order, v.saleKey) && said.sale.pending == Some(order)
      && said.unasked == !asked && said.shown.Some?
      && ShowsWhatIsOwed(p, order, ShownOf(order, v.saleKey, beats), asked, said.shown.value)
  {
    var order := ModelOrder(p, v, t).value;
    NewSaleExactly(order, v.saleKey);
    ModelBeatIsOwed(p, order, if IsNewSale(order, v.saleKey) then 0 else v.stage, ShownOf(order, v.saleKey, beats),
                    t.reply.value.proposal.quoteRequested);
  }

  /** On every run: a model turn shows the total if it was asked for, and otherwise what the sale is owed. The
      step-up card comes while nothing has been shown, the pairing card while no step-up is owed and neither
      it nor anything later has been shown, the price question when no card is owed. Once the question has
      been put and no total shown, the turn stores its order and shows nothing. What was shown of an earlier
      sale does not count when the order shares no product with it. */
  lemma {:induction false} ModelTurnShowsWhatIsOwed(s: Settings, events: seq<Event>, t: Turn)
    requires ModelTurn(s, Run(s, START, events).conv, t)
    ensures
      var w := Run(s, START, events);
      var (after, log) := TurnTaken(s, w.conv, t);
      && t.reply.Some? && after.sale.pending.Some? && log.shown.Some?
      && log.restarted == SharesNothing(after.sale.pending.value, w.conv.sale.saleKey)
      && ShowsWhatIsOwed(s.policy, after.sale.pending.value, ShownOf(after.sale.pending.value, w.conv.sale.saleKey, w.past.beats),
                         t.reply.value.proposal.quoteRequested, log.shown.value)
  {
    EveryRunKeepsInv(s, events);
    ModelTurnIsOwed(s, Run(s, START, events).conv, t, Run(s, START, events).past.beats);
  }

  /** The same of one turn, in a sale that has shown these beats. */
  lemma ModelTurnIsOwed(s: Settings, c: Conv, t: Turn, beats: seq<Beat>)
    requires ModelTurn(s, c, t) && Tracks(c.sale.stage, beats)
    ensures
      var (after, log) := TurnTaken(s, c, t);
      && t.reply.Some? && after.sale.pending.Some? && log.shown.Some?
      && log.restarted == SharesNothing(after.sale.pending.value, c.sale.saleKey)
      && ShowsWhatIsOwed(s.policy, after.sale.pending.value, ShownOf(after.sale.pending.value, c.sale.saleKey, beats),
                         t.reply.value.proposal.quoteRequested, log.shown.value)
  {
    var d := Triage(s, c, t);
    ModelAnswerIsOwed(s.policy, d.sale, t, beats);
    GateKeepsWalk(s.policy, NodeSaid(s.policy, d, t).sale, t);
  }

  // ---- The buttons of the walkthrough -------------------------------------------------------

  /** The pass button alone, on a thread the agent has, with no other request standing before it and no
      question taking the message. */
  ghost predicate PassServed(s: Settings, c: Conv, t: Turn) {
    var m := t.msg;
    && m.pass && !m.confirm && !m.connectNow && !m.applyOffer && !m.addIt && !m.swapIt
    && c.sale.pending.Some? && c.sale.taps !! {ApplyTap, AddTap, SwapTap}
    && !Triage(s, c, t).custody.held && !(Asking(c.sale) && DetailsAnswered(c.sale, m).Some?)
  }

  /** On every run a pass button is answered with the very thing the sale is owed, on the order as it was: each
      card is offered before the question, and the question before the total. */
  lemma {:induction false} PassTapShowsWhatIsOwed(s: Settings, events: seq<Event>, t: Turn)
    requires PassServed(s, Run(s, START, events).conv, t)
    ensures
      var w := Run(s, START, events);
      var (after, log) := TurnTaken(s, w.conv, t);
      && after.sale.pending == w.conv.sale.pending && log.shown.Some?
      && Owed(s.policy, w.conv.sale.pending.value, w.past.beats, log.shown.value)
  {
    EveryRunKeepsInv(s, events);
    var w := Run(s, START, events);
    PassIsAnswered(s, w.conv, t);
    NextBeatIsOwed(s.policy, w.conv.sale.pending.value, w.conv.sale.stage, w.past.beats);
  }

  lemma PassIsAnswered(s: Settings, c: Conv, t: Turn)
    requires PassServed(s, c, t)
    ensures
      var (after, log) := TurnTaken(s, c, t);
      after.sale.pending == c.sale.pending && log.shown == Some(NextBeat(s.policy, c.sale.pending.value, c.sale.stage))
  {
    var d := Triage(s, c, t);
    assert d.sale.taps == c.sale.taps + {PassTap} && Asking(d.sale) == Asking(c.sale) && Route(d) == Sales(false);
    assert NodeSaid(s.policy, d, t) == TapAnswered(s.policy, d.sale, t);
    GateKeepsWalk(s.policy, NodeSaid(s.policy, d, t).sale, t);
  }

  /** The add or swap button alone, likewise. */
  ghost predicate EditServed(s: Settings, c: Conv, t: Turn) {
    var m := t.msg;
    && (m.addIt || m.swapIt) && !m.confirm && !m.connectNow && !m.applyOffer
    && c.sale.pending.Some? && c.sale.taps == {}
    && !Triage(s, c, t).custody.held && !(Asking(c.sale) && DetailsAnswered(c.sale, m).Some?)
  }

  /** And so is an add that goes through or a swap, on the order it leaves. */
  lemma {:induction false} EditTapShowsWhatIsOwed(s: Settings, events: seq<Event>, t: Turn)
    requires EditServed(s, Run(s, START, events).conv, t)
    ensures
      var w := Run(s, START, events);
      var (after, log) := TurnTaken(s, w.conv, t);
      && after.sale.pending.Some?
      && (log.shown.None? ==> t.msg.addIt && Added(s.policy, t.cat, t.lookupOk, w.conv.sale.pending.value).None?)
      && (log.shown.Some? ==> Owed(s.policy, after.sale.pending.value, w.past.beats, log.shown.value))
  {
    EveryRunKeepsInv(s, events);
    EditIsAnswered(s, Run(s, START, events).conv, t);
    EditBeatIsOwed(s.policy, Triage(s, Run(s, START, events).conv, t).sale, t, Run(s, START, events).past.beats);
  }

  lemma EditIsAnswered(s: Settings, c: Conv, t: Turn)
    requires EditServed(s, c, t)
    ensures
      var v := Triage(s, c, t).sale;
      && v == c.sale.(confirmed := false, taps := {if t.msg.addIt then AddTap else SwapTap})
      && TurnTaken(s, c, t).0.sale.pending == TapAnswered(s.policy, v, t).sale.pending
      && TurnTaken(s, c, t).1.shown == TapAnswered(s.policy, v, t).shown
  {
    var d := Triage(s, c, t);
    assert d.sale.taps == {if t.msg.addIt then AddTap else SwapTap} && Asking(d.sale) == Asking(c.sale) && Route(d) == Sales(false);
    assert NodeSaid(s.policy, d, t) == TapAnswered(s.policy, d.sale, t);
    GateKeepsWalk(s.policy, NodeSaid(s.policy, d, t).sale, t);
  }

  lemma EditBeatIsOwed(p: Policy, v: Sale, t: Turn, beats: seq<Beat>)
    requires v.pending.Some? && Tracks(v.stage, beats) && (v.taps == {AddTap} || v.taps == {SwapTap})
    ensures
      var said := TapAnswered(p, v, t);
      && said.sale.pending.Some?
      && (said.shown.None? ==> AddTap in v.taps && Added(p, t.cat, t.lookupOk, v.pending.value).None?)
      && (said.shown.Some? ==> Owed(p, said.sale.pending.value, beats, said.shown.value))
  {
    var order := v.pending.value;
    if AddTap in v.taps {
      var added := Added(p, t.cat, t.lookupOk, order);
      if added.Some? {
        NextBeatIsOwed(p, added.value, v.stage, beats);
      }
    } else {
      var swapped := Swapped(p, t.cat, t.lookupOk, order);
      NextBeatIsOwed(p, if swapped.Some? then swapped.value else order.(stepUp := None), v.stage, beats);
    }
  }

  // ---- What is shown is not yet agreed to ---------------------------------------------------

  /** A turn that shows or stores an order leaves it to be confirmed afresh: no confirmation, no request and
      no link survive it, and none is made in it. */
  lemma ShownOrderAwaitsItsConfirmation(s: Settings, c: Conv, t: Turn)
    ensures
      var (after, log) := TurnTaken(s, c, t);
      log.shown.Some? ==>
        && after.sale.pending.Some? && after.sale.saleKey == OrderKey(after.sale.pending.value)
        && !after.sale.confirmed && !after.sale.linkSent && after.sale.taps == {} && !log.minted
  {
    var d := Triage(s, c, t);
    if Route(d).Sales? {
      ShownIsUnconfirmed(s.policy, d.sale, Retrieved(d, t).specsUnavailable, t);
    }
  }

  lemma ShownIsUnconfirmed(p: Policy, v: Sale, specsUnavailable: bool, t: Turn)
    ensures
      var said := Sold(p, v, specsUnavailable, t);
      said.shown.Some? ==>
        && said.sale.pending.Some? && said.sale.saleKey == OrderKey(said.sale.pending.value)
        && !said.sale.confirmed && !said.sale.linkSent && said.sale.taps == {}
  {
    match BranchOf(v, specsUnavailable, t.msg)
    case DetailsBranch =>
    case ConfirmBranch =>
    case TapBranch => TapShowsUnconfirmed(p, v, t);
    case NoSpecsBranch =>
    case ModelBranch =>
  }

  lemma TapShowsUnconfirmed(p: Policy, v: Sale, t: Turn)
    requires v.pending.Some? && v.taps != {}
    ensures
      var said := TapAnswered(p, v, t);
      said.shown.Some? ==>
        && said.sale.pending.Some? && said.sale.saleKey == OrderKey(said.sale.pending.value)
        && !said.sale.confirmed && !said.sale.linkSent && said.sale.taps == {}
  {
  }
}
