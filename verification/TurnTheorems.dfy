/** What one turn does, said of the message, the clock and the fields of the thread: who is to answer, what is
    remembered of the customer, and when a link is made. */
module TurnTheorems {
  import opened Text
  import opened Catalogue
  import opened Discounts
  import opened Guardrails
  import opened Orders
  import opened Conversation
  import opened Runs

  // ---- How long a hold lasts ----------------------------------------------------------------

  /** A hold runs out when as many hours have passed since it began as the limit allows. With no limit, or no
      time of beginning, it never does. */
  lemma HoldRunsOutInHours(s: Settings, u: Custody, now: real)
    ensures HoldExpired(s, u, now) <==>
      && u.held && s.maxHoldHours > 0.0
      && u.heldSince.Some? && u.heldSince.value != 0.0 && now - u.heldSince.value >= 3600.0 * s.maxHoldHours
  {
  }

  // ---- What triage makes of a message -------------------------------------------------------

  /** No button on the message that triage answers by itself. */
  predicate Typed(v: Sale, m: Message) {
    && !m.confirm && !m.connectNow
    && (v.pending.None? || (!m.applyOffer && !m.addIt && !m.swapIt && !m.pass && !m.quoteNow))
  }

  /** A button triage answers by itself marks the thread as a sale and ends any run of requests for a person. The
      agent serves it in the same turn exactly when nobody holds the thread. */
  lemma ServedButtonIsASale(s: Settings, c: Conv, t: Turn)
    requires !Typed(c.sale, t.msg) && (t.msg.confirm || !t.msg.connectNow)
    ensures
      var d := Triage(s, c, t);
      && d.chat == Chat(Some(HighIntent), false, 0, Some(t.now), c.chat.specsUnavailable)
      && !d.custody.needsHuman
      && (Route(d) == Sales(false) <==> !c.custody.held || HoldExpired(s, c.custody, t.now))
  {
  }

  /** A message with nothing to tap and no classification goes to a person, for a fault of the agent's own. */
  lemma FailedTriageGoesToAPerson(s: Settings, c: Conv, t: Turn)
    requires Typed(c.sale, t.msg) && t.classified.None?
    ensures
      var d := Triage(s, c, t);
      && d.custody == c.custody.(needsHuman := true, why := Some(Technical)) && !d.sale.confirmed
      && d.chat == c.chat.(archetype := Some(Human), lastSeen := Some(t.now)) && (Route(d) == Escalation)
  {
  }

  /** Asking to be connected now goes to a person at once, whatever else the message says short of a confirm
      tap. */
  lemma ConnectGoesToAPerson(s: Settings, c: Conv, t: Turn)
    requires t.msg.connectNow && !t.msg.confirm
    ensures
      var d := Triage(s, c, t);
      && d.custody.needsHuman && Route(d) == Escalation && d.chat.humanAsks == 0
      && (!c.custody.held && c.custody.why.None? ==> d.custody.why == Some(Requested))
  {
  }

  /** After more than two days away a thread that had got somewhere is taken up warmly, whatever is said. */
  lemma LongAbsenceIsTakenUpAgain(s: Settings, c: Conv, t: Turn)
    requires Typed(c.sale, t.msg) && t.classified.Some?
    ensures
      var away := c.chat.lastSeen.Some? && t.now - c.chat.lastSeen.value > 48.0 * 3600.0;
      var begun := c.chat.archetype.Some? && c.chat.archetype.value != Greeting && c.chat.archetype.value != Human;
      Triage(s, c, t).chat.archetype == Some(Rewarm) <==>
        (away && begun) || (!t.classified.value.frustrated && !t.classified.value.wantsHuman && Settle(c.chat, t.classified.value) == Rewarm)
  {
  }

  /** The threads a greeting or a plain "ok" takes up where they were. */
  predicate InProgress(a: Option<Archetype>) {
    a == Some(HighIntent) || a == Some(WindowShopper) || a == Some(ProblemSolver) || a == Some(Enterprise) || a == Some(PostSale)
  }

  /** What a typed message is taken for. */
  predicate TakenAs(h: Chat, k: Classification, a: Archetype) {
    if InProgress(h.archetype) && (k.archetype == Greeting || k.affirmation) then h.archetype == Some(a)
    else if k.affirmation && h.archetype.None? then a == Greeting
    else a == k.archetype
  }

  lemma SettledIsTakenAs(h: Chat, k: Classification)
    ensures TakenAs(h, k, Settle(h, k))
  {
  }

  /** A typed message, placed: anger and a critical matter go to a person, a calm request for one is met with a
      question unless the one before it was, and everything else carries on as what it is. */
  lemma TypedMessageIsPlaced(s: Settings, c: Conv, t: Turn, a: Archetype)
    requires Typed(c.sale, t.msg) && t.classified.Some? && !GhostReturn(c.chat, t.now)
    requires TakenAs(c.chat, t.classified.value, a)
    ensures
      var k, d := t.classified.value, Triage(s, c, t);
      var person := k.frustrated || a == Human || (k.wantsHuman && c.chat.humanAsks >= 1);
      && d.custody.needsHuman == person && d.chat.technical == k.technical
      && d.chat.archetype == Some(if person then Human else if k.wantsHuman then Probe else a)
      && d.chat.humanAsks == (if !person && k.wantsHuman then c.chat.humanAsks + 1 else 0)
      && (!person && !c.custody.held ==> d.custody.why.None?)
      && (person && k.frustrated ==> d.custody.why == Some(Upset))
      && (person && !k.frustrated && a != Human ==> d.custody.why == Some(Requested))
      && (person && !k.frustrated && a == Human && !c.custody.held ==> d.custody.why == Some(Safety))
  {
    SettledIsTakenAs(c.chat, t.classified.value);
  }

  // ---- Who answers --------------------------------------------------------------------------

  /** An adversarial message is deflected, before anything else. A thread a person has or is wanted on goes to
      the person, and so does what no agent answers: an archetype unknown or missing, and a probe about a
      technical matter. The rest is the agent's. */
  lemma WhoAnswers(c: Conv)
    ensures
      var arch := c.chat.archetype;
      var person := c.custody.needsHuman || c.custody.held || arch.None? || arch == Some(Human) || arch == Some(Unlisted)
                    || (arch == Some(Probe) && c.chat.technical);
      && (Route(c) == Adversarial <==> arch == Some(Malicious))
      && (Route(c) == Escalation <==> arch != Some(Malicious) && person)
      && (Route(c) == Sales(true) <==> !person && arch == Some(Probe))
  {
    if c.chat.archetype.Some? {
      match c.chat.archetype.value
      case HighIntent => case WindowShopper => case ProblemSolver => case Enterprise => case PostSale =>
      case OutOfDomain => case Greeting => case Rewarm => case Probe => case Human => case Malicious => case Unlisted =>
    }
  }

  /** A turn begins a hold exactly when it goes to a person for anything but a fault of the agent's own; the
      customer is then told, and the clock of the hold starts. */
  lemma HoldBeginsExactly(s: Settings, c: Conv, t: Turn)
    requires !c.custody.held && !c.custody.notified
    ensures
      var d, (after, log) := Triage(s, c, t), TurnTaken(s, c, t);
      && (after.custody.held <==> Route(d) == Escalation && d.custody.why != Some(Technical))
      && (after.custody.held ==> after.custody.notified && after.custody.heldSince == Some(t.now) && log.announced)
      && (Route(d) == Escalation ==> log.announced && after.custody.needsHuman)
      && (!after.custody.held ==> !after.custody.notified)
  {
  }

  /** A model call that fails hands the turn over for a fault, unless the agent was only asking what the
      customer wants a person for. */
  lemma FailedReplyIsAFault(s: Settings, c: Conv, t: Turn)
    requires var d := Triage(s, c, t);
             Route(d).Sales? && BranchOf(d.sale, Retrieved(d, t).specsUnavailable, t.msg).ModelBranch? && t.reply.None?
    ensures
      var d, after := Triage(s, c, t), TurnTaken(s, c, t).0;
      && after.custody == (if Route(d).probe then d.custody else d.custody.(needsHuman := true, why := Some(Technical)))
      && after.sale == d.sale
  {
    var d := Triage(s, c, t);
    NoConfirmationNoLink(s.policy, d.sale, t);
  }

  lemma NoConfirmationNoLink(p: Policy, v: Sale, t: Turn)
    ensures !ConfirmHeld(v) ==> !Mints(p, v, t) && AfterGate(p, v, t) == v
  {
  }

  /** Nothing else but the escalation, and a failed reply, touches who has the thread after triage. */
  lemma AnsweredTurnKeepsItsOwner(s: Settings, c: Conv, t: Turn)
    requires Route(Triage(s, c, t)).Sales? && t.reply.Some?
    ensures TurnTaken(s, c, t).0.custody == Triage(s, c, t).custody && !TurnTaken(s, c, t).1.announced
  {
  }

  // ---- Specifications not found -------------------------------------------------------------

  /** A technical question whose specifications cannot be found is answered without the model, once: nothing is
      built or shown, and the next question may be answered again. */
  lemma MissingSpecsAreAdmittedOnce(s: Settings, c: Conv, t: Turn)
    requires t.msg == PLAIN && c.sale.pending.None? && t.classified.Some? && !GhostReturn(c.chat, t.now)
    requires Route(Triage(s, c, t)).Sales? && Triage(s, c, t).chat.technical && t.specs == Some(true)
    ensures
      var (after, log) := TurnTaken(s, c, t);
      after.sale == Triage(s, c, t).sale && log.shown.None? && !log.minted && !after.chat.specsUnavailable
  {
    var d := Triage(s, c, t);
    NoConfirmationNoLink(s.policy, d.sale, t);
  }

  // ---- What is remembered -------------------------------------------------------------------

  /** A name the model reports is kept, and an empty one changes nothing; its proposal changes no name. */
  lemma ReportedNameIsKept(p: Policy, v: Sale, t: Turn)
    requires t.reply.Some?
    ensures ModelAnswered(p, v, t).sale.name == if t.reply.value.name == "" then v.name else t.reply.value.name
    ensures ModelAnswered(p, v, t).sale.paid == v.paid && ModelAnswered(p, v, t).sale.awaitingDetails == v.awaitingDetails
  {
  }

  /** A confirmed order is not replaced: while a confirmation stands the model builds nothing, and a message with
      the confirm button leaves the order in state as it was. */
  lemma ConfirmedOrderStays(s: Settings, c: Conv, t: Turn)
    requires t.msg.confirm && (c.sale.taps == {} || c.sale.pending.None? || ConfirmHeld(c.sale.(confirmed := true)))
    ensures TurnTaken(s, c, t).0.sale.pending == c.sale.pending && TurnTaken(s, c, t).1.shown.None?
  {
    var d := Triage(s, c, t);
    assert d.sale == c.sale.(confirmed := true, taps := c.sale.taps + {});
    assert c.sale.taps + {} == c.sale.taps;
    if Route(d).Sales? {
      ConfirmedNodeKeepsTheOrder(s.policy, d.sale, Retrieved(d, t).specsUnavailable, t);
    }
    GateKeepsWalk(s.policy, NodeSaid(s.policy, d, t).sale, t);
  }

  lemma ConfirmedNodeKeepsTheOrder(p: Policy, v: Sale, specsUnavailable: bool, t: Turn)
    requires v.confirmed && (v.taps == {} || v.pending.None? || ConfirmHeld(v))
    ensures Sold(p, v, specsUnavailable, t).sale.pending == v.pending && Sold(p, v, specsUnavailable, t).shown.None?
  {
  }

  /** A name alone is kept and the city asked for; the confirmation stands and no link goes out yet. */
  lemma NameAloneAsksForTheCity(s: Settings, c: Conv, t: Turn)
    requires Asking(c.sale) && !NamedOnFile(c.sale) && t.msg.details.NameOnly? && Route(Triage(s, c, t)).Sales?
    ensures
      var (after, log) := TurnTaken(s, c, t);
      && after.sale.name == t.msg.details.name && after.sale.awaitingDetails && after.sale.confirmed
      && after.sale.pending == c.sale.pending && !log.minted && log.shown.None?
  {
    var d := Triage(s, c, t);
    assert BranchOf(d.sale, Retrieved(d, t).specsUnavailable, t.msg).DetailsBranch?;
  }

  /** Any reply the agent answers after that is taken for the city: the question is closed, the order and the
      name kept, and a link made if the gate and the service allow. */
  lemma AnyReplyIsTheCity(s: Settings, c: Conv, t: Turn)
    requires Asking(c.sale) && NamedOnFile(c.sale) && Route(Triage(s, c, t)).Sales?
    ensures
      var (after, log) := TurnTaken(s, c, t);
      && !after.sale.awaitingDetails && after.sale.confirmed && log.shown.None?
      && after.sale.name == c.sale.name && after.sale.pending == c.sale.pending
      && (log.minted <==> (
            && t.stateReadOk && t.linkOk
            && Accepts(s.policy, c.sale.pending, MintTrusted(t.mintCat, t.mintLookupOk, c.sale.pending.value))))
  {
    var d := Triage(s, c, t);
    assert BranchOf(d.sale, Retrieved(d, t).specsUnavailable, t.msg).DetailsBranch?;
  }

  /** Neither a name nor a postback: the question is dropped for this turn, and the model answers. */
  lemma OtherRepliesAreAnsweredAsUsual(s: Settings, c: Conv, t: Turn)
    requires Asking(c.sale) && !NamedOnFile(c.sale) && t.msg.details.NoDetails? && !t.msg.bracket
    requires Typed(c.sale, t.msg) && c.sale.taps == {} && Route(Triage(s, c, t)).Sales?
    requires !Retrieved(Triage(s, c, t), t).specsUnavailable
    ensures NodeSaid(s.policy, Triage(s, c, t), t) == ModelAnswered(s.policy, c.sale.(confirmed := false), t)
  {
    var d := Triage(s, c, t);
    assert d.sale == c.sale.(confirmed := false) by {
      assert c.sale.taps + {} == c.sale.taps;
    }
  }

  // ---- When a link is made ------------------------------------------------------------------

  /** Everything a link needs: an order confirmed and in state, no question open, no link made for it before,
      the state read and the service answering. It is marked as made exactly when the state can be written. */
  lemma LinkNeedsAllOfThis(s: Settings, c: Conv, t: Turn)
    requires TurnTaken(s, c, t).1.minted
    ensures
      var after := TurnTaken(s, c, t).0.sale;
      && after.pending.Some? && after.confirmed && !after.awaitingDetails && !c.sale.linkSent
      && t.stateReadOk && t.linkOk && after.linkSent == t.stateWriteOk
      && TurnTaken(s, c, t).1.mintedName == after.name
  {
    var d := Triage(s, c, t);
    var said := NodeSaid(s.policy, d, t);
    if Route(d).Sales? {
      ConfirmHeldHadNoLink(s.policy, d.sale, Retrieved(d, t).specsUnavailable, t);
    }
    assert ConfirmHeld(said.sale);
  }

  lemma ConfirmHeldHadNoLink(p: Policy, v: Sale, specsUnavailable: bool, t: Turn)
    ensures ConfirmHeld(Sold(p, v, specsUnavailable, t).sale) ==> !v.linkSent
  {
    match BranchOf(v, specsUnavailable, t.msg)
    case DetailsBranch =>
    case ConfirmBranch =>
    case TapBranch => TapAuthorisesNothing(p, v, t);
    case NoSpecsBranch =>
    case ModelBranch => ModelAuthorisesNothing(p, v, t);
  }

  /** The prices this turn reads for the gate say nothing against a line: its name still resolves, to a row
      whose prices are the line's to the paisa. */
  predicate StillPriced(cat: seq<Row>, li: Line) {
    && Resolve(cat, Trim(li.sku)).Some?
    && -1.0 <= Resolve(cat, Trim(li.sku)).value.base - li.unit <= 1.0
    && -1.0 <= Resolve(cat, Trim(li.sku)).value.install - li.install <= 1.0
  }

  /** A link is made only at prices read again in the same turn: every line still costs what it says, unless
      the read failed or knew none of the names. A price that has moved stops the link. */
  lemma LinkIsMadeAtFreshPrices(s: Settings, c: Conv, t: Turn, k: nat)
    requires TurnTaken(s, c, t).1.minted && TurnTaken(s, c, t).0.sale.pending.Some? && t.mintLookupOk
    requires k < |TurnTaken(s, c, t).0.sale.pending.value.lines|
    ensures
      var lines := TurnTaken(s, c, t).0.sale.pending.value.lines;
      StillPriced(t.mintCat, lines[k]) || forall li | li in lines && li.sku != "" :: Resolve(t.mintCat, li.sku).None?
  {
    var said := NodeSaid(s.policy, Triage(s, c, t), t);
    GateKeepsWalk(s.policy, said.sale, t);
    FreshPricesAreChecked(s.policy, said.sale.pending.value, t, k);
  }

  lemma FreshPricesAreChecked(p: Policy, order: Order, t: Turn, k: nat)
    requires t.mintLookupOk && k < |order.lines| && Accepts(p, Some(order), MintTrusted(t.mintCat, true, order))
    ensures StillPriced(t.mintCat, order.lines[k]) || forall li | li in order.lines && li.sku != "" :: Resolve(t.mintCat, li.sku).None?
  {
    var names := set li | li in order.lines && li.sku != "" :: li.sku;
    var trusted := TrustedFor(t.mintCat, names);
    if trusted == map[] {
      forall li | li in order.lines && li.sku != ""
        ensures Resolve(t.mintCat, li.sku).None?
      {
        assert li.sku in names;
        assert li.sku !in trusted;
      }
    } else {
      assert LineAccepted(p, order.lines[k], MintTrusted(t.mintCat, true, order));
    }
  }
}
