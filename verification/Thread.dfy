/** The thread as the program keeps it: one object whose fields the handlers update in place. Every handler
    is proved to take exactly the step of the state machine, so what holds of every run holds of it. */
module Threads {
  import opened Text
  import opened Catalogue
  import opened Discounts
  import opened Guardrails
  import opened Orders
  import opened Walkthrough
  import opened Conversation
  import opened Runs

  /** Whether a proposal asks for nothing beyond what was already paid for. */
  method ReproposesPaidOrder(items: seq<Item>, paid: seq<Item>) returns (again: bool)
    ensures again <==> Reproposes(items, paid)
  {
    if paid == [] {
      return false;
    }
    var proposed := ProposedQuantities(items);
    assert forall i | 0 <= i < |items| && Key(items[i].sku) != "" :: Proposes(items, Key(items[i].sku));
    if proposed == map[] {
      return false;
    }
    var owned := OwnedQuantities(paid);
    again := forall sku | sku in proposed :: proposed[sku] <= (if sku in owned then owned[sku] else 0);
    assert NamesSomething(items) by {
      var sku :| sku in proposed;
    }
    assert again ==> WithinPaid(items, paid);
  }

  predicate Proposes(items: seq<Item>, sku: string) {
    sku != "" && exists i :: 0 <= i < |items| && Key(items[i].sku) == sku
  }

  method ProposedQuantities(items: seq<Item>) returns (proposed: map<string, int>)
    ensures forall sku :: sku in proposed <==> Proposes(items, sku)
    ensures forall sku | sku in proposed :: proposed[sku] == ProposedQty(items, sku)
  {
    proposed := map[];
    for n := 0 to |items|
      invariant forall sku :: sku in proposed <==> Proposes(items[..n], sku)
      invariant forall sku | sku != "" ::
        ProposedQty(items[..n], sku) == if sku in proposed then proposed[sku] else 0
    {
      ProposesAppends(items[..n], items[n]);
      assert items[..n + 1] == items[..n] + [items[n]];
      var sku := Key(items[n].sku);
      if sku != "" {
        var before := if sku in proposed then proposed[sku] else 0;
        proposed := proposed[sku := before + (if items[n].qty == 0 then 1 else items[n].qty)];
      }
    }
    assert items[..|items|] == items;
  }

  lemma {:induction false} ProposesAppends(items: seq<Item>, item: Item)
    ensures forall sku :: Proposes(items + [item], sku) <==> Proposes(items, sku) || (sku != "" && sku == Key(item.sku))
    ensures forall sku :: (
      ProposedQty(items + [item], sku) ==
      ProposedQty(items, sku) + (if Key(item.sku) == sku then (if item.qty == 0 then 1 else item.qty) else 0))
  {
    assert (items + [item])[..|items|] == items;
    forall sku | Proposes(items, sku)
      ensures Proposes(items + [item], sku)
    {
      var i :| 0 <= i < |items| && Key(items[i].sku) == sku;
      assert (items + [item])[i] == items[i];
    }
    assert (items + [item])[|items|] == item;
  }

  method OwnedQuantities(paid: seq<Item>) returns (owned: map<string, int>)
    ensures forall sku :: PaidQty(paid, sku) == if sku in owned then owned[sku] else 0
  {
    owned := map[];
    for n := 0 to |paid|
      invariant forall sku :: PaidQty(paid[..n], sku) == if sku in owned then owned[sku] else 0
    {
      assert paid[..n + 1][..n] == paid[..n];
      owned := owned[Key(paid[n].sku) := paid[n].qty];
    }
    assert paid[..|paid|] == paid;
  }

  /** What a settled order bought, from the lines on its audit row. */
  method CountPaid(rowItems: seq<Item>) returns (paid: seq<Item>)
    ensures paid == PaidLineItems(rowItems)
  {
    var names: seq<string> := [];
    var bought: map<string, int> := map[];
    for n := 0 to |rowItems|
      invariant Tallies(rowItems[..n], names, bought)
    {
      assert rowItems[..n + 1][..n] == rowItems[..n];
      var sku := Trim(rowItems[n].sku);
      if sku != "" {
        var qty := if rowItems[n].qty < 1 then 1 else rowItems[n].qty;
        names := if sku in names then names else names + [sku];
        bought := bought[sku := (if sku in bought then bought[sku] else 0) + qty];
      }
    }
    assert rowItems[..|rowItems|] == rowItems;
    paid := seq(|names|, i requires 0 <= i < |names| && names[i] in bought => Item(names[i], bought[names[i]]));
  }

  /** The names in order of first mention, and how many of each so far. */
  ghost predicate Tallies(rowItems: seq<Item>, names: seq<string>, bought: map<string, int>) {
    && names == Distinct(rowItems) && "" !in names
    && (forall sku :: sku in names <==> sku in bought)
    && (forall sku | sku != "" :: PaidTotal(rowItems, sku) == if sku in bought then bought[sku] else 0)
  }

  /** Fresh rows for the names on an order. */
  method ReadPrices(cat: seq<Row>, lookupOk: bool, order: Order) returns (trusted: Option<map<string, Row>>)
    ensures trusted == MintTrusted(cat, lookupOk, order)
  {
    if !lookupOk {
      return None;
    }
    var rows := LookUp(cat, set li | li in order.lines && li.sku != "" :: li.sku);
    trusted := if rows == map[] then None else Some(rows);
  }

  /** Taking a step of the state machine and writing down what it did is one step of a run. */
  lemma Recorded(s: Settings, w: World, e: Event, after: Conv, log: Log)
    requires Inv(w) && (after, log) == Step(s, w.conv, e)
    ensures World(after, Remember(w.past, after, log)) == Next(s, w, e) && Inv(Next(s, w, e))
  {
    StepKeepsInv(s, w, e);
  }

  /** The conversation, its fields grouped by who writes them: the checkout, the ownership, the chat. */
  class Thread {
    const settings: Settings
    var sale: Sale
    var custody: Custody
    var chat: Chat
    var failures: int

    /** The history the properties speak of. */
    ghost var past: Past

    /** The state this object stands for. */
    function View(): Conv
      reads this`sale, this`custody, this`chat, this`failures
    {
      Conv(sale, custody, chat, failures)
    }

    ghost function Now(): World
      reads this
    {
      World(View(), past)
    }

    ghost predicate Valid()
      reads this
    {
      SoundPolicy(settings.policy) && Inv(Now())
    }

    constructor (settings: Settings)
      requires SoundPolicy(settings.policy)
      ensures Valid() && Now() == START && this.settings == settings
    {
      this.settings := settings;
      sale, custody, chat, failures := FRESH.sale, FRESH.custody, FRESH.chat, 0;
      past := NOTHING;
      new;
      EveryRunKeepsInv(settings, []);
    }

    // ---- The four events --------------------------------------------------------------------

    /** One inbound message: triage, the node it routes to, the mint gate. */
    method OnMessage(t: Turn) returns (log: Log)
      requires Valid()
      modifies this
      ensures Valid() && Now() == Next(settings, old(Now()), TurnEvent(t))
      ensures log == Step(settings, old(View()), TurnEvent(t)).1
    {
      ghost var before := Now();
      log := TakeTurn(t);
      Recorded(settings, before, TurnEvent(t), View(), log);
      past := Remember(past, View(), log);
    }

    method TakeTurn(t: Turn) returns (log: Log)
      requires SoundPolicy(settings.policy)
      modifies this`sale, this`custody, this`chat
      ensures (View(), log) == TurnTaken(settings, old(View()), t)
    {
      var taps := ServedTaps(sale, t.msg);
      var expired := TriageMessage(t);
      var node, heldAtGate := Route(View()), custody.held;
      var announced := node == Escalation && !custody.notified;
      var shown, restarted, unasked := Answer(t);
      var payer := sale.name;
      var minted := MintGate(t);
      log := Log(t.msg.confirm, taps, Some(node), expired, announced, shown, restarted, unasked, minted, payer, heldAtGate);
    }

    /** A paid webhook clears the order and remembers what was bought. */
    method OnPaid(rowItems: seq<Item>)
      requires Valid()
      modifies this
      ensures Valid() && Now() == Next(settings, old(Now()), PaidEvent(rowItems))
    {
      ghost var before := Now();
      var bought := CountPaid(rowItems);
      sale := sale.(paid := bought, pending := None, confirmed := false);
      failures := 0;
      Recorded(settings, before, PaidEvent(rowItems), View(), QUIET);
      past := Remember(past, View(), QUIET);
    }

    /** A declined webhook counts, and at the limit gives the thread to a person. */
    method OnDeclined(at: real)
      requires Valid()
      modifies this
      ensures Valid() && Now() == Next(settings, old(Now()), DeclinedEvent(at))
    {
      ghost var before := Now();
      failures := failures + 1;
      if failures >= settings.maxFailures {
        custody := custody.(needsHuman := true, held := true, notified := true);
        custody := custody.(heldSince := Some(at), why := Some(PaymentTrouble));
      }
      Recorded(settings, before, DeclinedEvent(at), View(), QUIET);
      past := Remember(past, View(), QUIET);
    }

    /** A colleague hands the thread back, with a note. */
    method OnRelease(noteGiven: bool)
      requires Valid()
      modifies this
      ensures Valid() && Now() == Next(settings, old(Now()), ReleaseEvent(noteGiven))
    {
      ghost var before := Now();
      if custody.held && noteGiven {
        ClearHold();
        failures := 0;
      }
      Recorded(settings, before, ReleaseEvent(noteGiven), View(), QUIET);
      past := Remember(past, View(), QUIET);
    }

    method ClearHold()
      modifies this`custody
      ensures custody == UNHELD
    {
      custody := custody.(needsHuman := false, held := false, notified := false);
      custody := custody.(heldSince := None, why := None);
    }

    // ---- Triage -----------------------------------------------------------------------------

    method TriageMessage(t: Turn) returns (expired: bool)
      modifies this`sale, this`custody, this`chat
      ensures View() == Triage(settings, old(View()), t)
      ensures expired == Expires(settings, old(View()), t)
    {
      var disposal := Dispose(settings, View(), t);
      TakeTap(t.msg);
      expired := HoldExpired(settings, custody, t.now) && !disposal.TriageFailed?;
      if expired {
        ClearHold();
      }
      Assign(disposal);
      Classify(disposal, t.now);
    }

    /** Raise the flag of the button tapped. */
    method TakeTap(m: Message)
      modifies this`sale
      ensures sale == TriagedSale(old(sale), m)
    {
      var tap := ServedTap(sale, m);
      sale := sale.(confirmed := m.confirm);
      if tap.Some? {
        sale := sale.(taps := sale.taps + {tap.value});
      }
    }

    /** Write down whom the message goes to and why. */
    method Assign(d: Disposal)
      modifies this`custody
      ensures custody == Decided(old(custody), d)
    {
      custody := custody.(needsHuman := d.ConnectTap? || d.TriageFailed? || (d.Judged? && d.verdict.EscalateFor?));
      match d {
        case ButtonTap =>
        case ConnectTap =>
          if custody.why.None? {
            custody := custody.(why := Some(Requested));
          }
        case TriageFailed => custody := custody.(why := Some(Technical));
        case GhostRewarm(_) =>
        case Judged(verdict, _) =>
          if verdict.EscalateFor? {
            custody := custody.(why := Some(verdict.why));
          } else if !custody.held {
            custody := custody.(why := None);
          }
      }
    }

    /** Write down what the message is, and count calm requests for a person. */
    method Classify(d: Disposal, now: real)
      modifies this`chat
      ensures chat == TriagedChat(old(chat), now, d)
    {
      chat := chat.(lastSeen := Some(now));
      if !d.TriageFailed? && !d.GhostRewarm? {
        chat := chat.(humanAsks := if d.Judged? && d.verdict.ProbeFirst? then chat.humanAsks + 1 else 0);
      }
      match d {
        case ButtonTap => chat := chat.(archetype := Some(HighIntent), technical := false);
        case ConnectTap => chat := chat.(archetype := Some(Human), technical := false);
        case TriageFailed => chat := chat.(archetype := Some(Human));
        case GhostRewarm(technical) => chat := chat.(archetype := Some(Rewarm), technical := technical);
        case Judged(EscalateFor(_), technical) => chat := chat.(archetype := Some(Human), technical := technical);
        case Judged(ProbeFirst, technical) => chat := chat.(archetype := Some(Probe), technical := technical);
        case Judged(Carry(arch), technical) => chat := chat.(archetype := Some(arch), technical := technical);
      }
    }

    // ---- The nodes --------------------------------------------------------------------------

    method Answer(t: Turn) returns (shown: Option<Beat>, restarted: bool, unasked: bool)
      requires SoundPolicy(settings.policy)
      modifies this`sale, this`custody, this`chat
      ensures NodeSaid(settings.policy, old(View()), t) == Said(sale, shown, restarted, unasked)
      ensures custody == NodeCustody(old(View()), t) && chat == NodeChat(old(View()), t)
    {
      shown, restarted, unasked := None, false, false;
      var node := Route(View());
      if Retrieves(View()) && t.specs.Some? {
        chat := chat.(specsUnavailable := t.specs.value);
      }
      match node {
        case Adversarial => custody := custody.(needsHuman := false);
        case Escalation => Escalate(t.now);
        case Sales(probe) => shown, restarted, unasked := Sell(t, probe);
      }
    }

    /** Announce the hand-over once, acknowledge after that. */
    method Escalate(now: real)
      modifies this`custody
      ensures custody == Escalated(old(custody), now)
    {
      custody := custody.(needsHuman := true);
      if custody.notified {
        custody := custody.(held := true);
        return;
      }
      if custody.why.None? {
        custody := custody.(why := Some(Requested));
      }
      var sticky := custody.why != Some(Technical);
      custody := custody.(held := sticky, notified := sticky, heldSince := if sticky then Some(now) else None);
    }

    method Sell(t: Turn, probe: bool) returns (shown: Option<Beat>, restarted: bool, unasked: bool)
      requires SoundPolicy(settings.policy)
      modifies this`sale, this`custody, this`chat
      ensures Sold(settings.policy, old(sale), old(chat.specsUnavailable), t) == Said(sale, shown, restarted, unasked)
      ensures custody == if ModelFails(old(sale), old(chat.specsUnavailable), t, probe)
                         then old(custody).(needsHuman := true, why := Some(Technical)) else old(custody)
      ensures chat == if BranchOf(old(sale), old(chat.specsUnavailable), t.msg).NoSpecsBranch?
                      then old(chat).(specsUnavailable := false) else old(chat)
    {
      shown, restarted, unasked := None, false, false;
      match BranchOf(sale, chat.specsUnavailable, t.msg) {
        case DetailsBranch => TakeDetails(t.msg);
        case ConfirmBranch => sale := sale.(awaitingDetails := !NamedOnFile(sale));
        case TapBranch => shown := AnswerTap(t);
        case NoSpecsBranch => chat := chat.(specsUnavailable := false);
        case ModelBranch =>
          if t.reply.Some? {
            shown, restarted, unasked := AnswerModel(t);
          } else if !probe {
            custody := custody.(needsHuman := true, why := Some(Technical));
          }
      }
    }

    /** The reply to the name question, or to the city question after it. */
    method TakeDetails(m: Message)
      requires DetailsAnswered(sale, m).Some?
      modifies this`sale
      ensures Some(sale) == DetailsAnswered(old(sale), m)
    {
      if NamedOnFile(sale) {
        sale := sale.(awaitingDetails := false, confirmed := true);
        return;
      }
      match m.details {
        case NameAndCity(name) => sale := sale.(name := name, awaitingDetails := false, confirmed := true);
        case NameOnly(name) => sale := sale.(name := name, awaitingDetails := true, confirmed := true);
        case NoDetails => sale := sale.(awaitingDetails := true);
      }
    }

    /** Store a re-priced order and move the walkthrough to a beat. */
    method Advance(order: Order, stage: nat, beat: Beat)
      modifies this`sale
      ensures sale == Advanced(old(sale), order, stage, beat)
    {
      sale := sale.(pending := Some(order), saleKey := OrderKey(order));
      sale := sale.(stage := if stage < StageAfter(beat) then StageAfter(beat) else stage);
      sale := sale.(confirmed := false, linkSent := false, taps := {});
    }

    method AnswerTap(t: Turn) returns (shown: Option<Beat>)
      requires SoundPolicy(settings.policy) && sale.pending.Some? && sale.taps != {}
      modifies this`sale
      ensures TapAnswered(settings.policy, old(sale), t) == Said(sale, shown, false, false)
    {
      var order := sale.pending.value;
      if ApplyTap in sale.taps {
        var repriced := RepriceWithBestOffer(settings.policy, order);
        if repriced.None? {
          shown, sale := None, sale.(taps := sale.taps - {ApplyTap});
        } else {
          shown := Some(Total);
          Advance(repriced.value, sale.stage, Total);
        }
      } else if AddTap in sale.taps {
        shown := AnswerAdd(t, order);
      } else if SwapTap in sale.taps {
        var swapped := SwapUpgrade(settings.policy, t.cat, t.lookupOk, order);
        var next := if swapped.Some? then swapped.value else order.(stepUp := None);
        shown := Some(NextBeat(settings.policy, next, sale.stage));
        Advance(next, sale.stage, shown.value);
      } else {
        shown := Some(if PassTap in sale.taps then NextBeat(settings.policy, order, sale.stage) else Total);
        Advance(order, sale.stage, shown.value);
      }
    }

    /** Add the suggested product, or drop the suggestion and leave the rest of the order alone. */
    method AnswerAdd(t: Turn, order: Order) returns (shown: Option<Beat>)
      requires SoundPolicy(settings.policy) && sale.pending == Some(order) && AddTap in sale.taps && ApplyTap !in sale.taps
      modifies this`sale
      ensures TapAnswered(settings.policy, old(sale), t) == Said(sale, shown, false, false)
    {
      var added := AddComplement(settings.policy, t.cat, t.lookupOk, order);
      if added.None? {
        shown := None;
        sale := sale.(taps := sale.taps - {AddTap});
        if order.lines != [] {
          sale := sale.(pending := Some(order.(complement := None)));
        }
      } else {
        shown := Some(NextBeat(settings.policy, added.value, sale.stage));
        Advance(added.value, sale.stage, shown.value);
      }
    }

    /** A model reply: keep the name it reports, build the order it proposes, show the beat that is due. */
    method AnswerModel(t: Turn) returns (shown: Option<Beat>, restarted: bool, unasked: bool)
      requires SoundPolicy(settings.policy) && t.reply.Some?
      modifies this`sale
      ensures ModelAnswered(settings.policy, old(sale), t) == Said(sale, shown, restarted, unasked)
    {
      shown, restarted, unasked := None, false, false;
      var pr := t.reply.value.proposal;
      if t.reply.value.name != "" {
        sale := sale.(name := t.reply.value.name);
      }
      if pr.items == [] || sale.confirmed {
        return;
      }
      var again := ReproposesPaidOrder(pr.items, sale.paid);
      if again {
        return;
      }
      var built := BuildPendingOrder(settings.policy, t.cat, t.lookupOk, pr);
      if built.None? {
        return;
      }
      restarted, unasked := IsNewSale(built.value, sale.saleKey), !pr.quoteRequested;
      var stage := if restarted then 0 else sale.stage;
      var beat := ModelBeat(settings.policy, built.value, stage, pr.quoteRequested);
      Advance(built.value, stage, beat);
      shown := Some(beat);
    }

    // ---- The mint gate ----------------------------------------------------------------------

    /** Re-read the prices, re-check the order, and only then ask for a link. A state write that fails
        after the link went out leaves the thread as it was. */
    method MintGate(t: Turn) returns (minted: bool)
      modifies this`sale
      ensures minted == Mints(settings.policy, old(sale), t)
      ensures sale == AfterGate(settings.policy, old(sale), t)
    {
      minted := false;
      if !t.stateReadOk || !ConfirmHeld(sale) {
        return;
      }
      var trusted := ReadPrices(t.mintCat, t.mintLookupOk, sale.pending.value);
      var ok, _ := ValidatePaymentRequest(settings.policy, sale.pending, trusted);
      minted := ok && t.linkOk;
      if minted && t.stateWriteOk {
        sale := sale.(linkSent := true);
      }
    }
  }
}
