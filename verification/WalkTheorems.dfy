/** How a sale walks from a product to its total. */
module WalkTheorems {
  import opened Text
  import opened Discounts
  import opened Guardrails
  import opened Orders
  import opened Walkthrough
  import opened Conversation
  import opened Runs
  import opened RunTheorems

  // ---- Before the first total ---------------------------------------------------------------

  /** The taps that can stand for a request when this turn's node runs. */
  function TapsSoFar(w: World, log: Log): set<Tap> {
    w.past.openTaps + log.taps
  }

  lemma TapTotal(p: Policy, v: Sale, t: Turn)
    requires v.pending.Some? && v.taps != {} && v.stage < 4
    requires TapAnswered(p, v, t).shown == Some(Total)
    ensures QuoteTap in v.taps || ApplyTap in v.taps
         || (v.stage == 3 && v.taps * {AddTap, SwapTap, PassTap} != {})
  {
    var tap :| tap in v.taps;
    if ApplyTap !in v.taps && QuoteTap !in v.taps {
      NextBeatClimbs(p, TapAnswered(p, v, t).sale.pending.value, v.stage);
      if AddTap in v.taps {
        assert AddTap in v.taps * {AddTap, SwapTap, PassTap};
      } else if SwapTap in v.taps {
        assert SwapTap in v.taps * {AddTap, SwapTap, PassTap};
      } else {
        assert tap == PassTap by {
          match tap case ApplyTap => case AddTap => case SwapTap => case PassTap => case QuoteTap =>
        }
        assert PassTap in v.taps * {AddTap, SwapTap, PassTap};
      }
    }
  }

  /** Before a sale's first total, a total appears only for a quote or apply tap not yet answered, an
      explicit request in words, or a walkthrough tap while the price question stands. A model turn that
      was not asked shows one only in a sale that has already had one. */
  lemma {:induction false} FirstTotalIsAskedFor(s: Settings, events: seq<Event>, t: Turn)
    ensures
      var w := Run(s, START, events);
      var log := TurnTaken(s, w.conv, t).1;
      log.shown == Some(Total) && (log.restarted || Total !in w.past.beats) ==>
        || QuoteTap in TapsSoFar(w, log) || ApplyTap in TapsSoFar(w, log)
        || (t.reply.Some? && t.reply.value.proposal.quoteRequested && !log.unasked)
        || (w.conv.sale.stage == 3 && TapsSoFar(w, log) * {AddTap, SwapTap, PassTap} != {})
  {
    EveryRunKeepsInv(s, events);
    var w := Run(s, START, events);
    var d := Triage(s, w.conv, t);
    var taps := TapsSoFar(w, TurnTaken(s, w.conv, t).1);
    assert d.sale.taps <= taps && d.sale.stage == w.conv.sale.stage;
    SoldTotalIsAskedFor(s.policy, d.sale, Retrieved(d, t).specsUnavailable, t, taps);
  }

  /** The same of the selling node, for any set that has every tap still standing. */
  lemma SoldTotalIsAskedFor(p: Policy, v: Sale, specsUnavailable: bool, t: Turn, taps: set<Tap>)
    requires v.stage <= 4 && v.taps <= taps
    ensures
      var said := Sold(p, v, specsUnavailable, t);
      said.shown == Some(Total) && (said.restarted || v.stage < 4) ==>
        || QuoteTap in taps || ApplyTap in taps
        || (t.reply.Some? && t.reply.value.proposal.quoteRequested && !said.unasked)
        || (v.stage == 3 && taps * {AddTap, SwapTap, PassTap} != {})
  {
    match BranchOf(v, specsUnavailable, t.msg)
    case DetailsBranch =>
    case ConfirmBranch =>
    case NoSpecsBranch =>
    case ModelBranch => UnaskedModelHoldsTotal(p, v, t);
    case TapBranch =>
      if TapAnswered(p, v, t).shown == Some(Total) && v.stage < 4 {
        TapTotal(p, v, t);
        assert v.taps * {AddTap, SwapTap, PassTap} <= taps * {AddTap, SwapTap, PassTap};
      }
      TapNeverRestarts(p, v, t);
  }

  lemma TapNeverRestarts(p: Policy, v: Sale, t: Turn)
    requires v.pending.Some? && v.taps != {}
    ensures !TapAnswered(p, v, t).restarted && !TapAnswered(p, v, t).unasked
  {
  }

  lemma UnaskedModelHoldsTotal(p: Policy, v: Sale, t: Turn)
    requires v.stage <= 4
    ensures var said := ModelAnswered(p, v, t);
            said.shown == Some(Total) && said.unasked ==> !said.restarted && v.stage == 4
  {
    var order := ModelOrder(p, v, t);
    if order.Some? {
      UnaskedBeatHolds(p, order.value, if IsNewSale(order.value, v.saleKey) then 0 else v.stage);
    }
  }

  lemma UnaskedBeatHolds(p: Policy, order: Order, stage: nat)
    requires stage <= 4
    ensures ModelBeat(p, order, stage, false) == Total ==> stage == 4
  {
    NextBeatClimbs(p, order, stage);
  }

  lemma {:induction false} UnaskedTurnNeverShowsFirstTotal(s: Settings, events: seq<Event>, t: Turn)
    ensures
      var w := Run(s, START, events);
      var log := TurnTaken(s, w.conv, t).1;
      log.unasked && log.shown == Some(Total) ==> !log.restarted && Total in w.past.beats
  {
    EveryRunKeepsInv(s, events);
    var w := Run(s, START, events);
    var d := Triage(s, w.conv, t);
    UnaskedSaleHoldsTotal(s.policy, d.sale, Retrieved(d, t).specsUnavailable, t);
  }

  lemma UnaskedSaleHoldsTotal(p: Policy, v: Sale, specsUnavailable: bool, t: Turn)
    requires v.stage <= 4
    ensures var said := Sold(p, v, specsUnavailable, t);
            said.shown == Some(Total) && said.unasked ==> !said.restarted && v.stage == 4
  {
    match BranchOf(v, specsUnavailable, t.msg)
    case DetailsBranch =>
    case ConfirmBranch =>
    case NoSpecsBranch =>
    case ModelBranch => UnaskedModelHoldsTotal(p, v, t);
    case TapBranch => TapNeverRestarts(p, v, t);
  }

  ghost predicate OnlyQuoteTap(m: Message) {
    m.quoteNow && !m.confirm && !m.connectNow && !m.applyOffer && !m.addIt && !m.swapIt && !m.pass
  }

  /** The quote tap shows the total in its own turn exactly when nobody holds the thread and the name
      question does not take the message as its answer; otherwise the request is left standing. */
  lemma QuoteTapShowsTotalUnlessDiverted(s: Settings, c: Conv, t: Turn)
    requires OnlyQuoteTap(t.msg) && c.sale.pending.Some? && c.sale.taps <= {QuoteTap}
    ensures
      var (after, log) := TurnTaken(s, c, t);
      var diverted := Triage(s, c, t).custody.held || (Asking(c.sale) && DetailsAnswered(c.sale, t.msg).Some?);
      && (log.shown == Some(Total) <==> !diverted)
      && (QuoteTap in after.sale.taps <==> diverted)
  {
    var d := Triage(s, c, t);
    assert d.sale.taps == {QuoteTap};
    assert Asking(d.sale) == Asking(c.sale);
    assert Route(d) == (if d.custody.held then Escalation else Sales(false));
    GateKeepsWalk(s.policy, NodeSaid(s.policy, d, t).sale, t);
  }

  /** And a request left standing is honoured by the next plain turn the agent answers, however much
      later: a message that asks for nothing then shows the total. */
  lemma StandingQuoteTapShowsTotalLater(s: Settings, c: Conv, t: Turn)
    requires c.sale.pending.Some? && c.sale.taps == {QuoteTap} && !c.sale.awaitingDetails
    requires t.msg == PLAIN
    requires Route(Triage(s, c, t)).Sales?
    ensures TurnTaken(s, c, t).1.shown == Some(Total) && TurnTaken(s, c, t).1.taps == {}
  {
  }

  // ---- Restarts -----------------------------------------------------------------------------

  lemma SoldMovesForward(p: Policy, v: Sale, specsUnavailable: bool, t: Turn)
    ensures var said := Sold(p, v, specsUnavailable, t);
            && (!said.restarted ==> said.sale.stage >= v.stage)
            && (said.restarted ==> said.sale.pending.Some? && OrderKey(said.sale.pending.value) !! v.saleKey)
  {
    match BranchOf(v, specsUnavailable, t.msg)
    case DetailsBranch =>
    case ConfirmBranch =>
    case TapBranch => TapMovesForward(p, v, t);
    case NoSpecsBranch =>
    case ModelBranch =>
  }

  lemma TapMovesForward(p: Policy, v: Sale, t: Turn)
    requires v.pending.Some? && v.taps != {}
    ensures var said := TapAnswered(p, v, t); !said.restarted && said.sale.stage >= v.stage
  {
  }

  /** Between restarts the stage never falls, and a turn restarts the walkthrough only with an order that
      shares no product with the one in state. */
  lemma {:induction false} RestartsOnlyForANewSale(s: Settings, events: seq<Event>, t: Turn)
    ensures
      var c := Run(s, START, events).conv;
      var (after, log) := TurnTaken(s, c, t);
      && (!log.restarted ==> after.sale.stage >= c.sale.stage)
      && (log.restarted ==> after.sale.pending.Some?)
      && (log.restarted && c.sale.pending.Some? ==> OrderKey(after.sale.pending.value) !! OrderKey(c.sale.pending.value))
  {
    EveryRunKeepsInv(s, events);
    var c := Run(s, START, events).conv;
    var d := Triage(s, c, t);
    SoldMovesForward(s.policy, d.sale, Retrieved(d, t).specsUnavailable, t);
    GateKeepsWalk(s.policy, NodeSaid(s.policy, d, t).sale, t);
  }

  // ---- Passing to the total -----------------------------------------------------------------

  ghost predicate OnlyPassTap(t: Turn) {
    t.msg.pass && !t.msg.confirm && !t.msg.connectNow && !t.msg.applyOffer && !t.msg.addIt && !t.msg.swapIt
  }

  /** The pass button as the phone sends it: a postback in brackets, no name in it. */
  ghost predicate PassButton(t: Turn) {
    OnlyPassTap(t) && t.msg.bracket && t.msg.details.NoDetails?
  }

  /** A pass tap is answered in its own turn exactly when nobody holds the thread and neither the name nor
      the city question takes the message. */
  lemma PassTapShowsUnlessDiverted(s: Settings, c: Conv, t: Turn)
    requires OnlyPassTap(t) && c.sale.pending.Some? && ApplyTap !in c.sale.taps && AddTap !in c.sale.taps
    ensures TurnTaken(s, c, t).1.shown.Some? <==>
            !Triage(s, c, t).custody.held && !(Asking(c.sale) && DetailsAnswered(c.sale, t.msg).Some?)
  {
    var d := Triage(s, c, t);
    assert PassTap in d.sale.taps && Asking(d.sale) == Asking(c.sale);
    assert Route(d) == (if d.custody.held then Escalation else Sales(false));
  }

  ghost predicate ReachesTotal(s: Settings, c: Conv, turns: seq<Turn>)
    decreases |turns|
  {
    turns != [] &&
    (TurnTaken(s, c, turns[0]).1.shown == Some(Total) || ReachesTotal(s, TurnTaken(s, c, turns[0]).0, turns[1..]))
  }

  /** The name question is open: asked, and no name on file. */
  predicate NameOpen(v: Sale) {
    v.awaitingDetails && !NamedOnFile(v)
  }

  /** How many pass taps the total is away: one for each beat not yet reached, one more for an apply or add
      request left standing, one more for an open city question. A standing swap or quote costs nothing. */
  function TapsToGo(v: Sale): nat {
    (if v.stage < 4 then 4 - v.stage else 1) +
    (if ApplyTap in v.taps then 1 else 0) + (if AddTap in v.taps then 1 else 0) + (if v.awaitingDetails then 1 else 0)
  }

  /** While a question is open no link has been sent. */
  predicate QuestionBeforeLink(v: Sale) {
    v.awaitingDetails ==> !v.linkSent
  }

  lemma SoldKeepsQuestionBeforeLink(p: Policy, v: Sale, specsUnavailable: bool, t: Turn)
    requires QuestionBeforeLink(v)
    ensures QuestionBeforeLink(Sold(p, v, specsUnavailable, t).sale)
  {
    match BranchOf(v, specsUnavailable, t.msg)
    case DetailsBranch =>
    case ConfirmBranch =>
    case TapBranch => TapKeepsQuestionBeforeLink(p, v, t);
    case NoSpecsBranch =>
    case ModelBranch =>
  }

  lemma TapKeepsQuestionBeforeLink(p: Policy, v: Sale, t: Turn)
    requires v.pending.Some? && v.taps != {} && QuestionBeforeLink(v)
    ensures QuestionBeforeLink(TapAnswered(p, v, t).sale)
  {
  }

  lemma {:induction false} EveryRunAsksBeforeLink(s: Settings, events: seq<Event>)
    ensures QuestionBeforeLink(Run(s, START, events).conv.sale)
  {
    if events != [] {
      var init, last := events[..|events| - 1], events[|events| - 1];
      EveryRunAsksBeforeLink(s, init);
      var c := Run(s, START, init).conv;
      if last.TurnEvent? {
        var d := Triage(s, c, last.turn);
        SoldKeepsQuestionBeforeLink(s.policy, d.sale, Retrieved(d, last.turn).specsUnavailable, last.turn);
      }
    }
  }

  /** Nothing keeps a pass button from the walkthrough for long. */
  ghost predicate Passable(c: Conv) {
    c.sale.pending.Some? && !c.custody.held && !NameOpen(c.sale) && QuestionBeforeLink(c.sale)
  }

  /** A shown beat short of the total moves the walkthrough on. */
  lemma BeatComesCloser(p: Policy, v: Sale, order: Order)
    requires !v.awaitingDetails
    ensures
      var said := Show(v, order, NextBeat(p, order, v.stage));
      said.shown == Some(Total) || (!said.sale.awaitingDetails && said.sale.pending.Some? && TapsToGo(said.sale) < TapsToGo(v))
  {
  }

  lemma TapComesCloser(p: Policy, v: Sale, t: Turn)
    requires v.pending.Some? && PassTap in v.taps && !v.awaitingDetails
    ensures
      var said := TapAnswered(p, v, t);
      said.shown == Some(Total) || (!said.sale.awaitingDetails && said.sale.pending.Some? && TapsToGo(said.sale) < TapsToGo(v))
  {
    var order := v.pending.value;
    if ApplyTap in v.taps {
    } else if AddTap in v.taps {
      var added := Added(p, t.cat, t.lookupOk, order);
      if added.Some? {
        BeatComesCloser(p, v, added.value);
      }
    } else if SwapTap in v.taps {
      BeatComesCloser(p, v, AfterSwap(p, t.cat, t.lookupOk, order));
    } else {
      BeatComesCloser(p, v, order);
    }
  }

  /** Where a pass button lands: the sale with the request standing, and nobody's thread. */
  lemma PassButtonLands(s: Settings, c: Conv, t: Turn)
    requires PassButton(t) && c.sale.pending.Some? && !c.custody.held
    ensures
      var d := Triage(s, c, t);
      && Route(d) == Sales(false) && !NodeCustody(d, t).held
      && d.sale == c.sale.(confirmed := false, taps := c.sale.taps + {PassTap})
      && BranchOf(d.sale, Retrieved(d, t).specsUnavailable, t.msg) == (if Asking(c.sale) then DetailsBranch else TapBranch)
  {
  }

  lemma PassTapComesCloser(s: Settings, c: Conv, t: Turn)
    requires Passable(c) && PassButton(t)
    ensures var (after, log) := TurnTaken(s, c, t);
            log.shown == Some(Total) || (Passable(after) && TapsToGo(after.sale) < TapsToGo(c.sale))
  {
    PassButtonLands(s, c, t);
    var d := Triage(s, c, t);
    if !Asking(c.sale) {
      TapComesCloser(s.policy, d.sale, t);
    }
    GateKeepsWalk(s.policy, NodeSaid(s.policy, d, t).sale, t);
  }

  lemma {:induction false} PassableReachesTotal(s: Settings, c: Conv, turns: seq<Turn>)
    requires Passable(c) && |turns| >= TapsToGo(c.sale) && forall t | t in turns :: PassButton(t)
    ensures ReachesTotal(s, c, turns)
    decreases |turns|
  {
    PassTapComesCloser(s, c, turns[0]);
    var (after, log) := TurnTaken(s, c, turns[0]);
    if log.shown != Some(Total) {
      PassableReachesTotal(s, after, turns[1..]);
    }
  }

  /** With the name question open, a pass button is met with the question again. Nothing is shown, and only
      the request is left standing. */
  lemma NameQuestionSwallowsAPass(s: Settings, c: Conv, t: Turn)
    requires Asking(c.sale) && NameOpen(c.sale) && !c.custody.held && PassButton(t)
    ensures var (after, log) := TurnTaken(s, c, t);
            && log.shown.None? && !log.minted && !after.custody.held
            && after.sale == c.sale.(confirmed := false, taps := c.sale.taps + {PassTap})
  {
    PassButtonLands(s, c, t);
  }

  lemma {:induction false} NameQuestionSwallowsEveryPass(s: Settings, c: Conv, turns: seq<Turn>)
    requires Asking(c.sale) && NameOpen(c.sale) && !c.custody.held && forall t | t in turns :: PassButton(t)
    ensures !ReachesTotal(s, c, turns)
    decreases |turns|
  {
    if turns != [] {
      NameQuestionSwallowsAPass(s, c, turns[0]);
      NameQuestionSwallowsEveryPass(s, TurnTaken(s, c, turns[0]).0, turns[1..]);
    }
  }

  /** The gate accepts this order against the prices this turn reads. */
  predicate AcceptedNow(p: Policy, order: Order, t: Turn) {
    Accepts(p, Some(order), MintTrusted(t.mintCat, t.mintLookupOk, order))
  }

  /** With a name on file and the city question open, the same button is taken for the city: a tap that
      declines a card lets the link go out. */
  lemma CityQuestionTakesAPassForConsent(s: Settings, c: Conv, t: Turn)
    requires Asking(c.sale) && NamedOnFile(c.sale) && !c.custody.held && PassButton(t)
    ensures var (after, log) := TurnTaken(s, c, t);
            && log.shown.None? && after.sale.confirmed && !after.sale.awaitingDetails
            && (log.minted <==> t.stateReadOk && t.linkOk && AcceptedNow(s.policy, c.sale.pending.value, t))
  {
    PassButtonLands(s, c, t);
  }

  /** A person's thread shows nothing, pass or no pass. */
  lemma HeldSwallowsAPass(s: Settings, c: Conv, t: Turn)
    requires c.custody.held && c.custody.notified && !HoldExpired(s, c.custody, t.now) && PassButton(t)
    ensures var (after, log) := TurnTaken(s, c, t);
            && log.shown.None? && after.custody.held && after.custody.notified
            && after.custody.heldSince == c.custody.heldSince
  {
  }

  lemma {:induction false} HeldSwallowsEveryPass(s: Settings, c: Conv, turns: seq<Turn>)
    requires c.custody.held && c.custody.notified
    requires forall t | t in turns :: PassButton(t) && !HoldExpired(s, c.custody, t.now)
    ensures !ReachesTotal(s, c, turns)
    decreases |turns|
  {
    if turns != [] {
      HeldSwallowsAPass(s, c, turns[0]);
      HeldSwallowsEveryPass(s, TurnTaken(s, c, turns[0]).0, turns[1..]);
    }
  }

  /** On every run, where no hold runs out meanwhile: passing on every card reaches the total, in at most four
      taps and one for each thing left standing, exactly when nobody holds the thread and no name question
      is open. */
  lemma {:induction false} PassTapsReachTheTotalExactly(s: Settings, events: seq<Event>, turns: seq<Turn>)
    requires
      var c := Run(s, START, events).conv;
      && c.sale.pending.Some? && |turns| >= TapsToGo(c.sale)
      && forall t | t in turns :: PassButton(t) && !HoldExpired(s, c.custody, t.now)
    ensures
      var c := Run(s, START, events).conv;
      ReachesTotal(s, c, turns) <==> !c.custody.held && !NameOpen(c.sale)
  {
    EveryRunKeepsInv(s, events);
    EveryRunAsksBeforeLink(s, events);
    var c := Run(s, START, events).conv;
    if c.custody.held {
      HeldSwallowsEveryPass(s, c, turns);
    } else if NameOpen(c.sale) {
      NameQuestionSwallowsEveryPass(s, c, turns);
    } else {
      PassableReachesTotal(s, c, turns);
    }
  }
}
