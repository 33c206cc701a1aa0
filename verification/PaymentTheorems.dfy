/** What is remembered of a payment, and what it stops from being sold again. */
module PaymentTheorems {
  import opened Text
  import opened Catalogue
  import opened Discounts
  import opened Money
  import opened Orders
  import opened OrderTheorems
  import opened Conversation
  import opened Runs

  // ---- After a payment ----------------------------------------------------------------------

  /** The model proposes no name and no quantity beyond the order already paid for. */
  ghost predicate RestatesPaid(c: Conv, e: Event) {
    match e
    case TurnEvent(t) => t.reply.None? || WithinPaid(t.reply.value.proposal.items, c.sale.paid)
    case PaidEvent(rowItems) => NamesSomething(rowItems)
    case _ => true
  }

  ghost predicate OnlyRestates(s: Settings, w: World, events: seq<Event>) {
    events == [] ||
    (OnlyRestates(s, w, events[..|events| - 1]) && RestatesPaid(Run(s, w, events[..|events| - 1]).conv, events[|events| - 1]))
  }

  lemma {:induction false} BlankProposalPricesNothing(items: seq<Item>)
    requires !NamesSomething(items)
    ensures Distinct(RawItems(items)) == []
  {
    if items != [] {
      var init, last := items[..|items| - 1], items[|items| - 1];
      forall i | 0 <= i < |init| ensures Key(init[i].sku) == "" {
        assert Key(items[i].sku) == "";
      }
      BlankProposalPricesNothing(init);
      assert Key(items[|items| - 1].sku) == "";
      BlankKey(last.sku);
      if last.sku != "" {
        assert RawItems(items) == RawItems(init) + [Item("", last.qty)];
        assert RawItems(items)[..|RawItems(items)| - 1] == RawItems(init);
        assert Trim("") == "";
      } else {
        assert RawItems(items) == RawItems(init);
      }
    }
  }

  lemma BlankKey(sku: string)
    ensures Key(sku) == "" <==> Trim(sku) == ""
  {
    assert |Key(sku)| == |Trim(sku)|;
  }

  /** A payment is remembered exactly when its audit row kept a name. */
  lemma PaymentIsRememberedExactly(rowItems: seq<Item>)
    ensures PaidLineItems(rowItems) != [] <==> NamesSomething(rowItems)
  {
    DistinctAreTheNames(rowItems);
    assert |PaidLineItems(rowItems)| == |Distinct(rowItems)|;
    if PaidLineItems(rowItems) != [] {
      var name := Distinct(rowItems)[0];
      assert name in Distinct(rowItems);
      var i :| 0 <= i < |rowItems| && Trim(rowItems[i].sku) == name;
      BlankKey(rowItems[i].sku);
    }
    if NamesSomething(rowItems) {
      var i :| 0 <= i < |rowItems| && Key(rowItems[i].sku) != "";
      BlankKey(rowItems[i].sku);
      assert Trim(rowItems[i].sku) in Distinct(rowItems);
    }
  }

  lemma {:induction false} DistinctAreTheNames(items: seq<Item>)
    ensures forall name :: name in Distinct(items) <==>
      name != "" && exists i :: 0 <= i < |items| && Trim(items[i].sku) == name
    ensures forall i, j | 0 <= i < j < |Distinct(items)| :: Distinct(items)[i] != Distinct(items)[j]
  {
    if items != [] {
      var init := items[..|items| - 1];
      DistinctAreTheNames(init);
      assert items == init + [items[|items| - 1]];
    }
  }

  /** A restated order builds nothing. */
  lemma RestatementBuildsNothing(p: Policy, v: Sale, t: Turn)
    requires v.paid != [] && (t.reply.None? || WithinPaid(t.reply.value.proposal.items, v.paid))
    ensures ModelOrder(p, v, t).None?
  {
    if t.reply.Some? {
      var pr := t.reply.value.proposal;
      if !NamesSomething(pr.items) {
        BlankProposalPricesNothing(pr.items);
      }
    }
  }

  lemma RestatingStep(s: Settings, c: Conv, e: Event)
    requires c.sale.pending.None? && c.sale.paid != [] && RestatesPaid(c, e)
    ensures var (after, log) := Step(s, c, e); after.sale.pending.None? && after.sale.paid != [] && !log.minted
  {
    match e
    case TurnEvent(t) =>
      var d := Triage(s, c, t);
      RestatementBuildsNothing(s.policy, d.sale, t);
      if Route(d).Sales? {
        var specs := Retrieved(d, t).specsUnavailable;
        assert BranchOf(d.sale, specs, t.msg).NoSpecsBranch? || BranchOf(d.sale, specs, t.msg).ModelBranch?;
      }
    case PaidEvent(rowItems) => PaymentIsRememberedExactly(rowItems);
    case _ =>
  }

  /** Once an order is paid for, no sequence of turns, taps and further payment events makes another link
      until the model proposes a name, as it spells it, or a quantity beyond what was paid. */
  lemma {:induction false} NothingIsSoldTwice(s: Settings, w: World, rowItems: seq<Item>, events: seq<Event>)
    requires NamesSomething(rowItems)
    requires OnlyRestates(s, Next(s, w, PaidEvent(rowItems)), events)
    ensures
      var paid := Next(s, w, PaidEvent(rowItems));
      var later := Run(s, paid, events);
      later.past.mints == w.past.mints && later.conv.sale.pending.None? && later.conv.sale.paid != []
  {
    var paid := Next(s, w, PaidEvent(rowItems));
    if events == [] {
      PaymentIsRememberedExactly(rowItems);
    } else {
      var init := events[..|events| - 1];
      NothingIsSoldTwice(s, w, rowItems, init);
      RestatingStep(s, Run(s, paid, init).conv, events[|events| - 1]);
    }
  }

  /** The next plain turn after a payment: the order the model proposes is back in state exactly when it
      is not recognised as the one paid for, and a row that names nothing has nothing to recognise. */
  lemma TurnAfterPayment(s: Settings, c: Conv, rowItems: seq<Item>, t: Turn)
    requires t.msg == PLAIN
    requires Route(Triage(s, Paid(c, rowItems), t)).Sales? && !Retrieved(Triage(s, Paid(c, rowItems), t), t).specsUnavailable
    requires t.reply.Some? && t.reply.value.proposal.items != []
    ensures
      var items := t.reply.value.proposal.items;
      && TurnTaken(s, Paid(c, rowItems), t).0.sale.pending ==
         (if Reproposes(items, PaidLineItems(rowItems)) then None else Built(s.policy, t.cat, t.lookupOk, t.reply.value.proposal))
      && (!NamesSomething(rowItems) ==> !Reproposes(items, PaidLineItems(rowItems)))
  {
    PaymentIsRememberedExactly(rowItems);
    var d := Triage(s, Paid(c, rowItems), t);
    PlainTurnAsksTheModel(s, Paid(c, rowItems), t);
    ModelBuildsUnlessPaid(s.policy, d.sale, t);
    GateKeepsWalk(s.policy, NodeSaid(s.policy, d, t).sale, t);
  }

  lemma PlainTurnAsksTheModel(s: Settings, c: Conv, t: Turn)
    requires t.msg == PLAIN && c.sale.pending.None?
    requires !Retrieved(Triage(s, c, t), t).specsUnavailable
    ensures !Triage(s, c, t).sale.confirmed
    ensures Route(Triage(s, c, t)).Sales? ==>
      NodeSaid(s.policy, Triage(s, c, t), t) == ModelAnswered(s.policy, Triage(s, c, t).sale, t)
  {
    assert BranchOf(Triage(s, c, t).sale, Retrieved(Triage(s, c, t), t).specsUnavailable, t.msg).ModelBranch?;
  }

  lemma ModelBuildsUnlessPaid(p: Policy, v: Sale, t: Turn)
    requires v.pending.None? && !v.confirmed && t.reply.Some? && t.reply.value.proposal.items != []
    ensures ModelAnswered(p, v, t).sale.pending ==
            if Reproposes(t.reply.value.proposal.items, v.paid) then None
            else Built(p, t.cat, t.lookupOk, t.reply.value.proposal)
  {
  }

  /** A mention on the audit row counts for what it says, at least one; a mention in a proposal for what it says,
      none read as one. */
  lemma {:induction false} MentionsCount(items: seq<Item>, item: Item, sku: string)
    ensures PaidTotal(items + [item], sku) - PaidTotal(items, sku) ==
            if Trim(item.sku) != sku then 0 else if item.qty < 1 then 1 else item.qty
    ensures ProposedQty(items + [item], sku) - ProposedQty(items, sku) ==
            if Key(item.sku) != sku then 0 else if item.qty == 0 then 1 else item.qty
  {
    assert (items + [item])[..|items|] == items;
  }

  // ---- When a paid proposal is recognised ---------------------------------------------------

  /** How much an order holds under a folded name. */
  function OrderedQty(lines: seq<Line>, key: string): int {
    if lines == [] then 0
    else
      var li := lines[|lines| - 1];
      OrderedQty(lines[..|lines| - 1], key) + (if Key(li.sku) == key then li.qty else 0)
  }

  /** Names that fold alike are the same name. */
  ghost predicate FoldsApart(lines: seq<Line>) {
    forall i, j | 0 <= i < |lines| && 0 <= j < |lines| && Key(lines[i].sku) == Key(lines[j].sku) :: lines[i].sku == lines[j].sku
  }

  ghost predicate Ordinary(lines: seq<Line>) {
    && FoldsApart(lines)
    && forall i | 0 <= i < |lines| :: Clean(lines[i].sku) && lines[i].qty >= 1
  }

  lemma {:induction false} PaidTotalIsOrdered(lines: seq<Line>, name: string)
    requires Ordinary(lines)
    requires forall i | 0 <= i < |lines| && Key(lines[i].sku) == Key(name) :: lines[i].sku == name
    ensures PaidTotal(AsItems(lines), name) == OrderedQty(lines, Key(name))
  {
    if lines != [] {
      var init, li := lines[..|lines| - 1], lines[|lines| - 1];
      assert AsItems(lines)[..|lines| - 1] == AsItems(init) && AsItems(lines)[|lines| - 1] == AsItem(li);
      PaidTotalIsOrdered(init, name);
      assert Clean(li.sku);
    }
  }

  lemma {:induction false} PaidQtyFinds(paid: seq<Item>, k: nat)
    requires k < |paid| && forall j | k < j < |paid| :: Key(paid[j].sku) != Key(paid[k].sku)
    ensures PaidQty(paid, Key(paid[k].sku)) == paid[k].qty
  {
    if k < |paid| - 1 {
      assert Key(paid[|paid| - 1].sku) != Key(paid[k].sku);
      PaidQtyFinds(paid[..|paid| - 1], k);
    }
  }

  lemma {:induction false} PaidQtyMisses(paid: seq<Item>, key: string)
    requires forall j | 0 <= j < |paid| :: Key(paid[j].sku) != key
    ensures PaidQty(paid, key) == 0
  {
    if paid != [] {
      PaidQtyMisses(paid[..|paid| - 1], key);
    }
  }

  lemma {:induction false} OrderedQtyMisses(lines: seq<Line>, key: string)
    requires forall j | 0 <= j < |lines| :: Key(lines[j].sku) != key
    ensures OrderedQty(lines, key) == 0
  {
    if lines != [] {
      OrderedQtyMisses(lines[..|lines| - 1], key);
    }
  }

  /** What a paid order is remembered to hold is what its lines hold, name by folded name. */
  lemma {:induction false} PaidQtyIsOrdered(lines: seq<Line>, key: string)
    requires Ordinary(lines)
    ensures PaidQty(PaidLineItems(AsItems(lines)), key) == OrderedQty(lines, key)
  {
    var items := AsItems(lines);
    var names, paid := Distinct(items), PaidLineItems(items);
    DistinctAreTheNames(items);
    forall i | 0 <= i < |lines|
      ensures Trim(items[i].sku) == lines[i].sku && lines[i].sku in names
    {
      assert items[i] == AsItem(lines[i]) && Clean(lines[i].sku);
    }
    if k :| 0 <= k < |names| && Key(names[k]) == key {
      NamesFoldApart(lines, k);
      assert forall j | 0 <= j < |paid| :: paid[j].sku == names[j];
      PaidQtyFinds(paid, k);
      PaidTotalIsOrdered(lines, names[k]);
    } else {
      PaidQtyMisses(paid, key);
      OrderedQtyMisses(lines, key);
    }
  }

  lemma NamesFoldApart(lines: seq<Line>, k: nat)
    requires Ordinary(lines) && k < |Distinct(AsItems(lines))|
    ensures var names := Distinct(AsItems(lines));
            && (forall j | 0 <= j < |names| && j != k :: Key(names[j]) != Key(names[k]))
            && (forall i | 0 <= i < |lines| && Key(lines[i].sku) == Key(names[k]) :: lines[i].sku == names[k])
  {
    var items := AsItems(lines);
    var names := Distinct(items);
    DistinctAreTheNames(items);
    assert names[k] in names;
    var i :| 0 <= i < |items| && Trim(items[i].sku) == names[k];
    assert items[i] == AsItem(lines[i]) && Clean(lines[i].sku);
    forall j | 0 <= j < |names| && j != k
      ensures Key(names[j]) != Key(names[k])
    {
      assert names[j] in names;
      var l :| 0 <= l < |items| && Trim(items[l].sku) == names[j];
      assert items[l] == AsItem(lines[l]) && Clean(lines[l].sku);
    }
  }

  lemma {:induction false} LinesAskWhatTheyHold(lines: seq<Line>, key: string)
    requires Ordinary(lines)
    ensures ProposedQty(AsItems(lines), key) == OrderedQty(lines, key)
  {
    if lines != [] {
      var init := lines[..|lines| - 1];
      assert AsItems(lines)[..|lines| - 1] == AsItems(init) && AsItems(lines)[|lines| - 1] == AsItem(lines[|lines| - 1]);
      LinesAskWhatTheyHold(init, key);
    }
  }

  /** The order that was paid for, restated line by line, is recognised as paid for. */
  lemma PaidOrderIsRecognised(lines: seq<Line>)
    requires Ordinary(lines) && lines != []
    ensures Reproposes(AsItems(lines), PaidLineItems(AsItems(lines)))
  {
    var items := AsItems(lines);
    forall i | 0 <= i < |items|
      ensures ProposedQty(items, Key(items[i].sku)) <= PaidQty(PaidLineItems(items), Key(items[i].sku))
    {
      LinesAskWhatTheyHold(lines, Key(items[i].sku));
      PaidQtyIsOrdered(lines, Key(items[i].sku));
    }
    assert items[0] == AsItem(lines[0]) && Clean(lines[0].sku);
    BlankKey(items[0].sku);
    OrderIsRemembered(lines);
  }

  /** No two catalogue names are spelled with the same letters and digits. */
  ghost predicate NormsDiffer(cat: seq<Row>) {
    forall i, j | 0 <= i < j < |cat| :: Norm(cat[i].name) != Norm(cat[j].name)
  }

  lemma {:induction false} NormOfLower(s: string)
    ensures Norm(Lower(s)) == Norm(s)
  {
    if s != [] {
      NormOfLower(s[1..]);
      assert Lower(s)[1..] == Lower(s[1..]);
    }
  }

  lemma KeyDecidesNorm(a: string, b: string)
    requires Key(a) == Key(b)
    ensures Norm(Trim(a)) == Norm(Trim(b))
  {
    NormOfLower(Trim(a));
    NormOfLower(Trim(b));
  }

  lemma {:induction false} RowsUnderOne(cat: seq<Row>, k: nat)
    requires k < |cat| && NormsDiffer(cat)
    ensures RowsUnder(cat, Norm(cat[k].name)) == [cat[k]]
  {
    var init := cat[..|cat| - 1];
    if k < |init| {
      RowsUnderOne(init, k);
    } else {
      assert forall j | 0 <= j < |init| :: init[j] == cat[j];
      NoRowsUnder(init, Norm(cat[k].name));
    }
  }

  lemma {:induction false} NoRowsUnder(cat: seq<Row>, norm: string)
    requires forall j | 0 <= j < |cat| :: Norm(cat[j].name) != norm
    ensures RowsUnder(cat, norm) == []
  {
    if cat != [] {
      NoRowsUnder(cat[..|cat| - 1], norm);
    }
  }

  /** A name spelled as a row's, but for case and the spaces around it, resolves to that row. */
  lemma SpelledNameResolves(cat: seq<Row>, sku: string, k: nat)
    requires k < |cat| && CleanCatalogue(cat) && NormsDiffer(cat) && Key(sku) == Key(cat[k].name)
    ensures Resolve(cat, Trim(sku)) == Some(cat[k])
  {
    KeyDecidesNorm(sku, cat[k].name);
    assert Clean(cat[k].name);
    ExactMatchFinds(cat, Trim(sku));
    if ExactMatch(cat, Trim(sku)).Some? {
      var j :| 0 <= j < |cat| && cat[j] == ExactMatch(cat, Trim(sku)).value;
    } else {
      RowsUnderOne(cat, k);
    }
  }

  /** The proposed name is the catalogue's own, but for case and the spaces around it. */
  predicate SpelledOut(cat: seq<Row>, sku: string) {
    Resolve(cat, Trim(sku)).Some? && Key(Resolve(cat, Trim(sku)).value.name) == Key(sku)
  }

  lemma BuiltLinesAreOrdinary(p: Policy, cat: seq<Row>, lines: seq<Line>)
    requires CleanCatalogue(cat) && NormsDiffer(cat) && FromCatalogue(cat, lines) && Rounded(p, lines) && CleanSkus(lines)
    ensures Ordinary(lines)
  {
    forall i, j | 0 <= i < |lines| && 0 <= j < |lines| && Key(lines[i].sku) == Key(lines[j].sku)
      ensures lines[i].sku == lines[j].sku
    {
      assert HasRow(cat, lines[i]) && HasRow(cat, lines[j]);
      var r :| r in cat && LineOfRow(lines[i], r);
      var q :| q in cat && LineOfRow(lines[j], q);
      KeyDecidesNorm(r.name, q.name);
      assert Clean(lines[i].sku) && Clean(lines[j].sku);
      var a :| 0 <= a < |cat| && cat[a] == r;
      var b :| 0 <= b < |cat| && cat[b] == q;
    }
    assert forall i | 0 <= i < |lines| :: RoundedLine(p, lines[i]);
  }

  lemma {:induction false} OrderedNamesAreSpelledOut(cat: seq<Row>, lines: seq<Line>, sku: string)
    requires CleanCatalogue(cat) && NormsDiffer(cat) && FromCatalogue(cat, lines) && OrderedQty(lines, Key(sku)) != 0
    ensures SpelledOut(cat, sku)
  {
    if forall i | 0 <= i < |lines| :: Key(lines[i].sku) != Key(sku) {
      OrderedQtyMisses(lines, Key(sku));
    } else {
      var i :| 0 <= i < |lines| && Key(lines[i].sku) == Key(sku);
      assert HasRow(cat, lines[i]);
      var r :| r in cat && LineOfRow(lines[i], r);
      var k :| 0 <= k < |cat| && cat[k] == r;
      SpelledNameResolves(cat, sku, k);
    }
  }

  /** Nothing is asked for under this name, or it is spelled out and asked for no more often than the order
      holds it. */
  predicate Restates(cat: seq<Row>, items: seq<Item>, lines: seq<Line>, sku: string) {
    || ProposedQty(items, Key(sku)) <= 0
    || (SpelledOut(cat, sku) && ProposedQty(items, Key(sku)) <= OrderedQty(lines, Key(sku)))
  }

  /** When the order a proposal built has been paid for, the same proposal made again is recognised exactly
      when every name in it is spelled as the catalogue spells it, case and outer spaces aside, and none
      is asked for more often than the order holds it. */
  lemma PaidProposalIsRecognisedExactly(p: Policy, cat: seq<Row>, pr: Proposal, order: Order)
    requires SoundPolicy(p) && CleanCatalogue(cat) && NormsDiffer(cat) && Built(p, cat, true, pr) == Some(order)
    ensures
      Reproposes(pr.items, PaidLineItems(AsItems(order.lines))) <==>
      forall i | 0 <= i < |pr.items| && Key(pr.items[i].sku) != "" :: Restates(cat, pr.items, order.lines, pr.items[i].sku)
  {
    BuiltOrderIsPayable(p, cat, true, pr);
    PayableLinesAreRounded(p, cat, order);
    BuiltLinesAreOrdinary(p, cat, order.lines);
    BuiltNamesSomething(p, cat, pr);
    LinesAreRecognisedExactly(cat, pr.items, order.lines);
  }

  lemma LinesAreRecognisedExactly(cat: seq<Row>, items: seq<Item>, lines: seq<Line>)
    requires CleanCatalogue(cat) && NormsDiffer(cat) && FromCatalogue(cat, lines) && Ordinary(lines)
    requires lines != [] && NamesSomething(items)
    ensures Reproposes(items, PaidLineItems(AsItems(lines))) <==>
            forall i | 0 <= i < |items| && Key(items[i].sku) != "" :: Restates(cat, items, lines, items[i].sku)
  {
    forall i | 0 <= i < |items| && Key(items[i].sku) != ""
      ensures Restates(cat, items, lines, items[i].sku) <==>
              ProposedQty(items, Key(items[i].sku)) <= PaidQty(PaidLineItems(AsItems(lines)), Key(items[i].sku))
    {
      RestatesWithinPaid(cat, items, lines, items[i].sku);
    }
    OrderIsRemembered(lines);
  }

  lemma {:induction false} RestatesWithinPaid(cat: seq<Row>, items: seq<Item>, lines: seq<Line>, sku: string)
    requires CleanCatalogue(cat) && NormsDiffer(cat) && FromCatalogue(cat, lines) && Ordinary(lines)
    ensures Restates(cat, items, lines, sku) <==> ProposedQty(items, Key(sku)) <= PaidQty(PaidLineItems(AsItems(lines)), Key(sku))
  {
    PaidQtyIsOrdered(lines, Key(sku));
    OrderedQtyIsNatural(lines, Key(sku));
    if OrderedQty(lines, Key(sku)) != 0 {
      OrderedNamesAreSpelledOut(cat, lines, sku);
    }
  }

  lemma OrderIsRemembered(lines: seq<Line>)
    requires Ordinary(lines) && lines != []
    ensures PaidLineItems(AsItems(lines)) != []
  {
    assert AsItems(lines)[0] == AsItem(lines[0]) && Clean(lines[0].sku);
    BlankKey(lines[0].sku);
    PaymentIsRememberedExactly(AsItems(lines));
  }

  lemma BuiltNamesSomething(p: Policy, cat: seq<Row>, pr: Proposal)
    ensures Built(p, cat, true, pr).Some? ==> Built(p, cat, true, pr).value.lines != [] && NamesSomething(pr.items)
  {
    if !NamesSomething(pr.items) {
      BlankProposalPricesNothing(pr.items);
    }
  }

  lemma {:induction false} OrderedQtyIsNatural(lines: seq<Line>, key: string)
    requires Ordinary(lines)
    ensures OrderedQty(lines, key) >= 0
  {
    if lines != [] {
      OrderedQtyIsNatural(lines[..|lines| - 1], key);
    }
  }

  // ---- What the order holds, in terms of the proposal ---------------------------------------

  /** Each product on one line. */
  ghost predicate OneLineAProduct(lines: seq<Line>) {
    forall i, j | 0 <= i < j < |lines| :: lines[i].sku != lines[j].sku
  }

  /** A name on one line is ordered in that line's quantity. */
  lemma {:induction false} OrderedOnOneLine(lines: seq<Line>, k: nat)
    requires k < |lines| && forall j | 0 <= j < |lines| && j != k :: Key(lines[j].sku) != Key(lines[k].sku)
    ensures OrderedQty(lines, Key(lines[k].sku)) == lines[k].qty
  {
    var init := lines[..|lines| - 1];
    if k < |init| {
      assert Key(lines[|lines| - 1].sku) != Key(lines[k].sku);
      OrderedOnOneLine(init, k);
    } else {
      assert forall j | 0 <= j < |init| :: init[j] == lines[j];
      OrderedQtyMisses(init, Key(lines[k].sku));
    }
  }

  /** A priced name has its line. */
  lemma {:induction false} PricedNameHasLine(p: Policy, skus: seq<string>, items: seq<Item>, trusted: map<string, Row>, a: nat)
      returns (k: nat)
    requires a < |skus| && skus[a] in trusted
    ensures k < |LinesFor(p, skus, items, trusted)|
    ensures LinesFor(p, skus, items, trusted)[k] == PriceLine(p, TotalQty(p, items, skus[a]), trusted[skus[a]])
  {
    if a < |skus| - 1 {
      k := PricedNameHasLine(p, skus[..|skus| - 1], items, trusted, a);
    } else {
      k := |LinesFor(p, skus[..|skus| - 1], items, trusted)|;
    }
  }

  /** Two spellings of one product are two lines. */
  lemma {:induction false} TwoSpellingsTwoLines(p: Policy, skus: seq<string>, items: seq<Item>, trusted: map<string, Row>, a: nat, b: nat)
    requires a < b < |skus| && skus[a] in trusted && skus[b] in trusted && trusted[skus[a]].name == trusted[skus[b]].name
    ensures !OneLineAProduct(LinesFor(p, skus, items, trusted))
  {
    var init := skus[..|skus| - 1];
    if b < |init| {
      TwoSpellingsTwoLines(p, init, items, trusted, a, b);
      var before, lines := LinesFor(p, init, items, trusted), LinesFor(p, skus, items, trusted);
      var i, j :| 0 <= i < j < |before| && before[i].sku == before[j].sku;
      assert lines[i] == before[i] && lines[j] == before[j];
    } else {
      var k := PricedNameHasLine(p, init, items, trusted, a);
      var lines := LinesFor(p, skus, items, trusted);
      assert lines[k] == LinesFor(p, init, items, trusted)[k] && lines[|lines| - 1].sku == trusted[skus[b]].name;
    }
  }

  /** What a proposal asks for under one spelling. */
  function AskedAs(items: seq<Item>, sku: string): int {
    if items == [] then 0
    else
      var item := items[|items| - 1];
      AskedAs(items[..|items| - 1], sku) + (if Trim(item.sku) == sku then (if item.qty == 0 then 1 else item.qty) else 0)
  }

  lemma {:induction false} OneSpellingAsksAll(items: seq<Item>, key: string, sku: string)
    requires forall i | 0 <= i < |items| :: Key(items[i].sku) == key <==> Trim(items[i].sku) == sku
    ensures AskedAs(items, sku) == ProposedQty(items, key)
  {
    if items != [] {
      OneSpellingAsksAll(items[..|items| - 1], key, sku);
      var item := items[|items| - 1];
      assert Key(item.sku) == key <==> Trim(item.sku) == sku;
    }
  }

  lemma OneMention(p: Policy, total: int, asked: int, qty: int)
    requires 1 <= p.maxQty && total >= 0 && (total >= p.maxQty || total >= asked)
    ensures total + ClampQty(p, qty) >= p.maxQty || total + ClampQty(p, qty) >= asked + (if qty == 0 then 1 else qty)
  {
  }

  /** What one spelling asks for, mention by mention, is priced in full or reaches the cap. */
  lemma {:induction false} MentionsReachTheCap(p: Policy, items: seq<Item>, sku: string)
    requires 1 <= p.maxQty
    ensures TotalQty(p, items, sku) >= 0
    ensures TotalQty(p, items, sku) >= p.maxQty || TotalQty(p, items, sku) >= AskedAs(items, sku)
  {
    if items != [] {
      var init, item := items[..|items| - 1], items[|items| - 1];
      MentionsReachTheCap(p, init, sku);
      OneMention(p, TotalQty(p, init, sku), AskedAs(init, sku), item.qty);
    }
  }

  /** Each mention of a name adds what it asks for, at least one and at most the cap. */
  lemma {:induction false} TotalAppends(p: Policy, items: seq<Item>, item: Item, sku: string)
    ensures
      TotalQty(p, items + [item], sku) - TotalQty(p, items, sku) ==
      if Trim(item.sku) != sku then 0 else if item.qty < 1 then 1 else if item.qty > p.maxQty then p.maxQty else item.qty
  {
    assert (items + [item])[..|items|] == items;
  }

  lemma StrippedTotal(p: Policy, before: seq<Item>, item: Item, sku: string)
    requires sku != ""
    ensures TotalQty(p, if item.sku != "" then before + [Item(Trim(item.sku), item.qty)] else before, sku) ==
            TotalQty(p, before, sku) + (if Trim(item.sku) == sku then ClampQty(p, item.qty) else 0)
  {
    TrimIdempotent(item.sku);
    if item.sku != "" {
      TotalAppends(p, before, Item(Trim(item.sku), item.qty), sku);
    } else {
      assert Trim("") == "";
    }
  }

  lemma {:induction false} RawStep(items: seq<Item>)
    requires items != []
    ensures
      var before, item := RawItems(items[..|items| - 1]), items[|items| - 1];
      RawItems(items) == if item.sku != "" then before + [Item(Trim(item.sku), item.qty)] else before
  {
  }

  /** Stripping names and dropping blank ones changes no total. */
  lemma {:induction false} RawTotals(p: Policy, items: seq<Item>, sku: string)
    requires sku != ""
    ensures TotalQty(p, RawItems(items), sku) == TotalQty(p, items, sku)
  {
    if items != [] {
      RawTotals(p, items[..|items| - 1], sku);
      StrippedTotal(p, RawItems(items[..|items| - 1]), items[|items| - 1], sku);
      RawStep(items);
    }
  }

  /** The named items, stripped, are what line pricing is given. */
  lemma {:induction false} RawNames(items: seq<Item>, i: nat)
    requires i < |items| && Trim(items[i].sku) != ""
    ensures exists k :: 0 <= k < |RawItems(items)| && RawItems(items)[k].sku == Trim(items[i].sku)
  {
    var init, last := items[..|items| - 1], items[|items| - 1];
    var raw := RawItems(items);
    if i < |init| {
      RawNames(init, i);
      var k :| 0 <= k < |RawItems(init)| && RawItems(init)[k].sku == Trim(init[i].sku);
      assert raw[k] == RawItems(init)[k];
    } else {
      assert last.sku != "" by {
        assert Trim("") == "";
      }
      assert raw[|raw| - 1].sku == Trim(items[i].sku);
    }
  }

  lemma NamedIsAsked(pr: Proposal, i: nat)
    requires i < |pr.items| && Trim(pr.items[i].sku) != ""
    ensures Trim(pr.items[i].sku) in ProposedNames(pr) && Trim(pr.items[i].sku) in Distinct(RawItems(pr.items))
  {
    RawNames(pr.items, i);
    var raw := RawItems(pr.items);
    var k :| 0 <= k < |raw| && raw[k].sku == Trim(pr.items[i].sku);
    assert raw[k] in raw;
    TrimIdempotent(pr.items[i].sku);
    DistinctAreTheNames(raw);
  }

  /** Two mentions that fold alike, one of them spelled out, are priced from the same row. */
  lemma MentionsShareTheirRow(cat: seq<Row>, pr: Proposal, i: nat, j: nat)
    requires CleanCatalogue(cat) && NormsDiffer(cat) && i < |pr.items| && j < |pr.items|
    requires SpelledOut(cat, pr.items[i].sku) && Key(pr.items[i].sku) != "" && Key(pr.items[j].sku) == Key(pr.items[i].sku)
    ensures
      var trusted := TrustedFor(cat, ProposedNames(pr));
      var s, t := Trim(pr.items[i].sku), Trim(pr.items[j].sku);
      && s in trusted && t in trusted && trusted[s] == trusted[t]
      && s in Distinct(RawItems(pr.items)) && t in Distinct(RawItems(pr.items))
  {
    BlankKey(pr.items[i].sku);
    BlankKey(pr.items[j].sku);
    NamedIsAsked(pr, i);
    NamedIsAsked(pr, j);
    var s := Trim(pr.items[i].sku);
    ResolveIsUnambiguous(cat, s);
    var k :| 0 <= k < |cat| && cat[k] == Resolve(cat, s).value;
    SpelledNameResolves(cat, pr.items[j].sku, k);
  }

  lemma {:induction false} OneLineOneName(p: Policy, names: seq<string>, items: seq<Item>, trusted: map<string, Row>, s: string, t: string)
    requires OneLineAProduct(LinesFor(p, names, items, trusted))
    requires s in names && t in names && s in trusted && t in trusted && trusted[s] == trusted[t]
    ensures s == t
  {
    var a :| 0 <= a < |names| && names[a] == s;
    var b :| 0 <= b < |names| && names[b] == t;
    if a < b {
      TwoSpellingsTwoLines(p, names, items, trusted, a, b);
    } else if b < a {
      TwoSpellingsTwoLines(p, names, items, trusted, b, a);
    }
  }

  /** On an order with each product on one line, every mention of a line's product is spelled the same. */
  lemma OneSpelling(p: Policy, cat: seq<Row>, pr: Proposal, i: nat, j: nat)
    requires CleanCatalogue(cat) && NormsDiffer(cat) && i < |pr.items| && j < |pr.items|
    requires OneLineAProduct(PricedLines(p, RawItems(pr.items), TrustedFor(cat, ProposedNames(pr))))
    requires SpelledOut(cat, pr.items[i].sku) && Key(pr.items[i].sku) != "" && Key(pr.items[j].sku) == Key(pr.items[i].sku)
    ensures Trim(pr.items[j].sku) == Trim(pr.items[i].sku)
  {
    MentionsShareTheirRow(cat, pr, i, j);
    var raw := RawItems(pr.items);
    OneLineOneName(p, Distinct(raw), raw, TrustedFor(cat, ProposedNames(pr)), Trim(pr.items[i].sku), Trim(pr.items[j].sku));
  }

  /** The order holds a spelled-out name as often as all its mentions ask, each clamped, at the cap. */
  lemma {:induction false} OrderedAtTheCap(p: Policy, cat: seq<Row>, pr: Proposal, i: nat)
    requires SoundPolicy(p) && i < |pr.items| && SpelledOut(cat, pr.items[i].sku) && Key(pr.items[i].sku) != ""
    requires var lines := PricedLines(p, RawItems(pr.items), TrustedFor(cat, ProposedNames(pr)));
             OneLineAProduct(lines) && Ordinary(lines)
    ensures
      var total := TotalQty(p, RawItems(pr.items), Trim(pr.items[i].sku));
      OrderedQty(PricedLines(p, RawItems(pr.items), TrustedFor(cat, ProposedNames(pr))), Key(pr.items[i].sku))
      == if total > p.maxQty then p.maxQty else total
  {
    var raw, trusted := RawItems(pr.items), TrustedFor(cat, ProposedNames(pr));
    var s := Trim(pr.items[i].sku);
    BlankKey(pr.items[i].sku);
    NamedIsAsked(pr, i);
    var names := Distinct(raw);
    var a :| 0 <= a < |names| && names[a] == s;
    var k := PricedNameHasLine(p, names, raw, trusted, a);
    OneLineHolds(PricedLines(p, raw, trusted), k, Key(pr.items[i].sku));
  }

  lemma {:induction false} OneLineHolds(lines: seq<Line>, k: nat, key: string)
    requires OneLineAProduct(lines) && Ordinary(lines) && k < |lines| && Key(lines[k].sku) == key
    ensures OrderedQty(lines, key) == lines[k].qty
  {
    OrderedOnOneLine(lines, k);
  }

  /** Then the order holds a spelled-out name as often as it was asked for, or at the cap. */
  lemma CapDecides(p: Policy, cat: seq<Row>, pr: Proposal, i: nat)
    requires SoundPolicy(p) && CleanCatalogue(cat) && NormsDiffer(cat) && i < |pr.items|
    requires var lines := PricedLines(p, RawItems(pr.items), TrustedFor(cat, ProposedNames(pr)));
             OneLineAProduct(lines) && Ordinary(lines)
    requires SpelledOut(cat, pr.items[i].sku) && Key(pr.items[i].sku) != ""
    ensures
      var lines := PricedLines(p, RawItems(pr.items), TrustedFor(cat, ProposedNames(pr)));
      var key := Key(pr.items[i].sku);
      ProposedQty(pr.items, key) <= OrderedQty(lines, key) <==> ProposedQty(pr.items, key) <= p.maxQty
  {
    var s, key := Trim(pr.items[i].sku), Key(pr.items[i].sku);
    BlankKey(pr.items[i].sku);
    OrderedAtTheCap(p, cat, pr, i);
    forall j | 0 <= j < |pr.items|
      ensures Key(pr.items[j].sku) == key <==> Trim(pr.items[j].sku) == s
    {
      if Key(pr.items[j].sku) == key {
        OneSpelling(p, cat, pr, i, j);
      }
    }
    OneSpellingAsksAll(pr.items, key, s);
    RawTotals(p, pr.items, s);
    MentionsReachTheCap(p, pr.items, s);
  }

  /** For an order with each product on one line: recognised exactly when every name asked for is spelled
      out and asked for within the cap. */
  lemma PaidProposalIsRecognisedWithinTheCap(p: Policy, cat: seq<Row>, pr: Proposal, order: Order)
    requires SoundPolicy(p) && CleanCatalogue(cat) && NormsDiffer(cat) && Built(p, cat, true, pr) == Some(order)
    requires OneLineAProduct(order.lines)
    ensures
      Reproposes(pr.items, PaidLineItems(AsItems(order.lines))) <==>
      forall i | 0 <= i < |pr.items| && Key(pr.items[i].sku) != "" :: WithinCap(p, cat, pr.items, pr.items[i].sku)
  {
    PaidProposalIsRecognisedExactly(p, cat, pr, order);
    BuiltOrderIsPayable(p, cat, true, pr);
    PayableLinesAreRounded(p, cat, order);
    BuiltLinesAreOrdinary(p, cat, order.lines);
    BuiltLines(p, cat, pr);
    forall i | 0 <= i < |pr.items| && Key(pr.items[i].sku) != ""
      ensures Restates(cat, pr.items, order.lines, pr.items[i].sku) <==> WithinCap(p, cat, pr.items, pr.items[i].sku)
    {
      if SpelledOut(cat, pr.items[i].sku) {
        CapDecides(p, cat, pr, i);
      }
    }
  }

  /** Nothing is asked for under this name, or it is spelled out and asked for within the cap. */
  predicate WithinCap(p: Policy, cat: seq<Row>, items: seq<Item>, sku: string) {
    || ProposedQty(items, Key(sku)) <= 0
    || (SpelledOut(cat, sku) && ProposedQty(items, Key(sku)) <= p.maxQty)
  }

  lemma BuiltLines(p: Policy, cat: seq<Row>, pr: Proposal)
    ensures Built(p, cat, true, pr).Some? ==>
      Built(p, cat, true, pr).value.lines == PricedLines(p, RawItems(pr.items), TrustedFor(cat, ProposedNames(pr)))
  {
  }

  // ---- Two paid orders that are not recognised ----------------------------------------------

  /** Proposed under a spelling that folds otherwise than the name it was paid under: the same product, and
      it is quoted again. */
  lemma RespelledIsNotRecognised(alias: string, name: string, qty: int)
    requires qty >= 1 && Key(alias) != "" && Key(alias) != Key(name)
    ensures !Reproposes([Item(alias, qty)], PaidLineItems([Item(name, qty)]))
  {
    var paid := PaidLineItems([Item(name, qty)]);
    DistinctAreTheNames([Item(name, qty)]);
    forall j | 0 <= j < |paid|
      ensures Key(paid[j].sku) == Key(name)
    {
      assert paid[j].sku in Distinct([Item(name, qty)]);
      TrimIdempotent(name);
    }
    PaidQtyMisses(paid, Key(alias));
    OneItemIsWithinPaid(Item(alias, qty), paid);
  }

  lemma SolidEndsStay(s: string)
    requires s != "" && !IsSpace(s[0]) && !IsSpace(s[|s| - 1])
    ensures Trim(s) == s
  {
  }

  /** A space between two words leaves no trace in the tolerant match. */
  lemma {:induction false} SpaceFoldsAway(a: string, b: string)
    ensures Norm(a + " " + b) == Norm(a + b)
  {
    if a == [] {
      assert ([] + " " + b)[1..] == b && [] + b == b;
    } else {
      SpaceFoldsAway(a[1..], b);
      assert (a + " " + b)[1..] == a[1..] + " " + b && (a + b)[1..] == a[1..] + b;
      SameHeadSameNorm(a + " " + b, a + b);
    }
  }

  lemma {:induction false} SameHeadSameNorm(x: string, y: string)
    requires x != [] && y != [] && x[0] == y[0] && Norm(x[1..]) == Norm(y[1..])
    ensures Norm(x) == Norm(y)
  {
  }

  lemma {:induction false} SoleRowResolves(row: Row, alias: string)
    requires alias != row.name && Norm(alias) == Norm(row.name)
    ensures Resolve([row], alias) == Some(row)
  {
    assert [row][..0] == [];
    assert ExactMatch([row][..0], alias) == None && RowsUnder([row][..0], Norm(alias)) == [];
    assert RowsUnder([row], Norm(alias)) == [row];
  }

  lemma ClosedUpFoldsOtherwise(a: string, b: string)
    requires a != "" && b != "" && !IsSpace(a[0]) && !IsSpace(b[|b| - 1])
    ensures Key(a + b) != "" && Key(a + b) != Key(a + " " + b)
  {
    SolidEndsStay(a + b);
    SolidEndsStay(a + " " + b);
    assert |Key(a + b)| == |a| + |b| && |Key(a + " " + b)| == |a| + |b| + 1;
  }

  /** Closing up a two-word name is such a spelling: it resolves to the name, and folds otherwise. A product
      sold as "6 SW" and proposed as "6SW" is one. */
  lemma ClosedUpNameResolves(a: string, b: string, row: Row)
    requires a != "" && b != "" && !IsSpace(a[0]) && !IsSpace(b[|b| - 1]) && row.name == a + " " + b
    ensures Resolve([row], a + b) == Some(row)
    ensures Key(a + b) != "" && Key(a + b) != Key(row.name)
  {
    SpaceFoldsAway(a, b);
    ClosedUpFoldsOtherwise(a, b);
    assert |a + b| != |row.name|;
    SoleRowResolves(row, a + b);
  }

  /** Asked for one over the cap, built and paid at the cap: the same words ask for more than was paid. */
  lemma OverCapIsNotRecognised(p: Policy, name: string, row: Row)
    requires 1 <= p.maxQty && Clean(name) && row.name == name
    ensures PricedLines(p, [Item(name, p.maxQty + 1)], map[name := row]) == [PriceLine(p, p.maxQty, row)]
    ensures !Reproposes([Item(name, p.maxQty + 1)], PaidLineItems(AsItems([PriceLine(p, p.maxQty, row)])))
  {
    OneItemOneLine(p, name, p.maxQty + 1, row);
    AtTheCapIsPaid(p, name, row);
    BlankKey(name);
    OneItemIsWithinPaid(Item(name, p.maxQty + 1), PaidLineItems(AsItems([PriceLine(p, p.maxQty, row)])));
  }

  /** A proposal of one thing is recognised only if so many of it were paid for. */
  lemma {:induction false} OneItemIsWithinPaid(item: Item, paid: seq<Item>)
    requires Key(item.sku) != "" && item.qty > 0
    ensures Reproposes([item], paid) ==> item.qty <= PaidQty(paid, Key(item.sku))
  {
    var items := [item];
    assert items[..0] == [] && items[0] == item;
    assert ProposedQty(items[..0], Key(item.sku)) == 0;
  }

  lemma AtTheCapIsPaid(p: Policy, name: string, row: Row)
    requires 1 <= p.maxQty && Clean(name) && row.name == name
    ensures PaidQty(PaidLineItems(AsItems([PriceLine(p, p.maxQty, row)])), Key(name)) == p.maxQty
  {
    var lines := [PriceLine(p, p.maxQty, row)];
    assert lines[..0] == [];
    PaidQtyIsOrdered(lines, Key(name));
    OrderedOnOneLine(lines, 0);
  }
}
