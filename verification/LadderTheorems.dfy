/** The offer ladder rung by rung: what naming an offer buys, which offer is the best, and which is the nearest
    better one, said of the registry's own figures. */
module LadderTheorems {
  import opened Text
  import opened Rounding
  import opened Catalogue
  import opened Discounts
  import opened Money

  // ---- Naming an offer ----------------------------------------------------------------------

  /** An offer named by its id, in any case and with any spaces around it, buys its percentage or the ceiling,
      whichever is less, where the order has the products and the spend it asks for; and nothing where not. */
  lemma NamedOfferIsGrantedExactly(p: Policy, lines: seq<Line>, o: Offer, id: string)
    requires SoundPolicy(p) && o in p.offers && OfferId(id) == o.id
    ensures
      GrantedPct(p, lines, id) ==
      if o.pct <= 0.0 || |lines| < o.minLines || Subtotal(lines) < o.minSubtotal then 0.0
      else if o.pct <= p.ceiling then o.pct else p.ceiling
  {
    FindOfferFinds(p.offers, o.id);
    OfferFoundById(p, o);
  }

  /** A name the registry lacks buys nothing. */
  lemma UnknownOfferBuysNothing(p: Policy, lines: seq<Line>, id: string)
    requires forall o | o in p.offers :: o.id != OfferId(id)
    ensures GrantedPct(p, lines, id) == 0.0
  {
    FindOfferFinds(p.offers, OfferId(id));
  }

  lemma {:induction false} UpperTrimsLeft(s: string)
    ensures TrimLeft(Upper(s)) == Upper(TrimLeft(s))
  {
    if s != [] && IsSpace(s[0]) {
      UpperTrimsLeft(s[1..]);
      assert Upper(s)[1..] == Upper(s[1..]);
    }
  }

  lemma {:induction false} UpperTrimsRight(s: string)
    ensures TrimRight(Upper(s)) == Upper(TrimRight(s))
  {
    if s != [] && IsSpace(s[|s| - 1]) {
      UpperTrimsRight(s[..|s| - 1]);
      assert Upper(s)[..|s| - 1] == Upper(s[..|s| - 1]);
    }
  }

  lemma UpperTwice(s: string)
    ensures Upper(Upper(s)) == Upper(s) && Upper(Lower(s)) == Upper(s)
  {
  }

  lemma UpperTrims(s: string)
    ensures Trim(Upper(s)) == Upper(Trim(s))
  {
    UpperTrimsLeft(s);
    UpperTrimsRight(TrimLeft(s));
  }

  /** Spelling an id in other cases names the same offer. */
  lemma OfferIdIgnoresCase(id: string)
    ensures OfferId(Upper(id)) == OfferId(id) && OfferId(Lower(id)) == OfferId(id)
  {
    UpperTrims(id);
    UpperTrims(Lower(id));
    UpperTwice(id);
    UpperTwice(Trim(id));
    UpperTwice(Trim(Lower(id)));
  }

  /** A space before or after an id makes no difference, and a blank one names the empty choice. */
  lemma OfferIdIgnoresSpaces(id: string, c: char)
    requires IsSpace(c)
    ensures OfferId([c] + id) == OfferId(id)
    ensures Trim(id) == "" ==> OfferId(id) == "NONE"
  {
    assert ([c] + id)[1..] == id;
  }

  /** What the order's notes say of the offer named, and when: it is unknown, or the order has too few products
      for it or, with enough, too little spend, or the ceiling cut it; and installation was left out of it. */
  lemma OfferNotesSayWhy(p: Policy, lines: seq<Line>, id: string, o: Offer)
    requires SoundPolicy(p) && o in p.offers && OfferId(id) == o.id
    ensures
      var notes := ApplyNotes(p, lines, id);
      && UnknownOffer !in notes
      && (TooFewProducts in notes <==> o.pct > 0.0 && |lines| < o.minLines)
      && (SubtotalTooLow in notes <==> o.pct > 0.0 && |lines| >= o.minLines && Subtotal(lines) < o.minSubtotal)
      && (CeilingClamped in notes <==> o.pct > 0.0 && o.pct > p.ceiling && Qualifies(o, lines))
      && (InstallationExcluded in notes <==> InstallTotal(lines) > 0.0 && GrantedPct(p, lines, id) > 0.0)
  {
    FindOfferFinds(p.offers, o.id);
    OfferFoundById(p, o);
  }

  lemma UnknownOfferIsNoted(p: Policy, lines: seq<Line>, id: string)
    requires forall o | o in p.offers :: o.id != OfferId(id)
    ensures ApplyNotes(p, lines, id) == [UnknownOffer]
  {
    FindOfferFinds(p.offers, OfferId(id));
  }

  lemma {:induction false} ClampNotesSayWhich(p: Policy, items: seq<Item>, sku: string)
    ensures QtyClamped(sku) in ClampNotes(p, items) <==>
      sku != "" && exists i :: 0 <= i < |items| && Trim(items[i].sku) == sku && items[i].qty > p.maxQty
    ensures forall note | note in ClampNotes(p, items) :: note.QtyClamped?
  {
    if items != [] {
      var init := items[..|items| - 1];
      ClampNotesSayWhich(p, init, sku);
      assert items == init + [items[|items| - 1]];
    }
  }

  lemma {:induction false} MergeNotesSayWhich(p: Policy, skus: seq<string>, items: seq<Item>, trusted: map<string, Row>, sku: string)
    ensures MergedQtyClamped(sku) in MergeNotes(p, skus, items, trusted) <==>
      sku in skus && sku in trusted && TotalQty(p, items, sku) > p.maxQty
    ensures forall note | note in MergeNotes(p, skus, items, trusted) :: note.MergedQtyClamped?
  {
    if skus != [] {
      MergeNotesSayWhich(p, skus[..|skus| - 1], items, trusted, sku);
      assert skus == skus[..|skus| - 1] + [skus[|skus| - 1]];
    }
  }

  /** And of the quantities: which names had a mention over the cap, which came to more than it, and whether any
      name was dropped for want of a price. */
  lemma {:induction false} PricingNotesSayWhich(p: Policy, items: seq<Item>, trusted: map<string, Row>, sku: string)
    ensures
      var notes := PricingNotes(p, items, trusted);
      && (QtyClamped(sku) in notes <==>
            sku != "" && exists i :: 0 <= i < |items| && Trim(items[i].sku) == sku && items[i].qty > p.maxQty)
      && (MergedQtyClamped(sku) in notes <==> sku in Distinct(items) && sku in trusted && TotalQty(p, items, sku) > p.maxQty)
      && (UnpricedDropped in notes <==> exists name :: name in Distinct(items) && name !in trusted)
  {
    ClampNotesSayWhich(p, items, sku);
    MergeNotesSayWhich(p, Distinct(items), items, trusted, sku);
  }

  // ---- The best offer -----------------------------------------------------------------------

  /** The best offer is the first in the registry of those the order qualifies for at the highest percentage:
      an earlier one buys less, a later one no more. */
  lemma BestIsTheFirstOfTheHighest(p: Policy, lines: seq<Line>, k: nat)
    requires lines != [] && k < |p.offers| && Eligible(p, p.offers[k], lines)
    requires forall i | 0 <= i < |p.offers| && Eligible(p, p.offers[i], lines) ::
      EffectivePct(p, p.offers[i]) <= EffectivePct(p, p.offers[k])
    requires forall i | 0 <= i < k && Eligible(p, p.offers[i], lines) ::
      EffectivePct(p, p.offers[i]) < EffectivePct(p, p.offers[k])
    ensures Best(p, lines) == Some(p.offers[k])
  {
    assert p.offers[..|p.offers|] == p.offers;
    FirstHighestIsBest(p, p.offers, lines, k);
  }

  lemma {:induction false} FirstHighestIsBest(p: Policy, offers: seq<Offer>, lines: seq<Line>, k: nat)
    requires k < |offers| && Eligible(p, offers[k], lines)
    requires forall i | 0 <= i < |offers| && Eligible(p, offers[i], lines) ::
      EffectivePct(p, offers[i]) <= EffectivePct(p, offers[k])
    requires forall i | 0 <= i < k && Eligible(p, offers[i], lines) ::
      EffectivePct(p, offers[i]) < EffectivePct(p, offers[k])
    ensures BestOf(p, offers, lines) == Some(offers[k])
  {
    var init, last := offers[..|offers| - 1], offers[|offers| - 1];
    if k < |init| {
      assert forall i | 0 <= i < |init| :: init[i] == offers[i];
      FirstHighestIsBest(p, init, lines, k);
      assert offers[|offers| - 1] == last;
    } else {
      BestOfIsHighest(p, init, lines);
      if BestOf(p, init, lines).Some? {
        var i :| 0 <= i < |init| && init[i] == BestOf(p, init, lines).value;
        assert offers[i] == init[i];
      }
    }
  }

  /** When an order qualifies for an offer, in the registry's own figures. */
  lemma EligibleMeans(p: Policy, o: Offer, lines: seq<Line>)
    ensures Eligible(p, o, lines) <==>
      && o.id != "NONE" && o.pct > 0.0 && p.ceiling > 0.0
      && o.minLines <= |lines| && o.minSubtotal <= Subtotal(lines)
  {
  }

  // ---- The nearest better offer -------------------------------------------------------------

  /** What an offer would buy. */
  function Worth(p: Policy, o: Offer): real {
    if o.pct < p.ceiling then o.pct else p.ceiling
  }

  /** Some products short of the offer, no more than the order already has, and not short of spend by as much
      as the rounding shows. */
  predicate ProductsAway(o: Offer, lines: seq<Line>) {
    |lines| < o.minLines <= 2 * |lines| && o.minSubtotal - Subtotal(lines) < 0.5
  }

  /** Short of spend alone, by no more than the order already comes to or, on the smallest orders, a rupee. */
  predicate SpendAway(o: Offer, lines: seq<Line>) {
    && o.minLines <= |lines| && o.minSubtotal - Subtotal(lines) >= 0.5
    && Round2(o.minSubtotal - Subtotal(lines)) <= (if Subtotal(lines) < 100.0 then 100.0 else Subtotal(lines))
  }

  /** An offer the pairing and spend cards may hold out: better than what the order has, and within reach in
      one dimension. */
  predicate Reachable(p: Policy, o: Offer, lines: seq<Line>) {
    o.id != "NONE" && Worth(p, o) > CurrentPct(p, lines) && (ProductsAway(o, lines) || SpendAway(o, lines))
  }

  /** How far off it is, as a share of the order. */
  function Distance(o: Offer, lines: seq<Line>): real
    requires lines != []
  {
    if |lines| < o.minLines then (o.minLines - |lines|) as real / |lines| as real
    else Round2(o.minSubtotal - Subtotal(lines)) / (if Subtotal(lines) < 100.0 then 100.0 else Subtotal(lines))
  }

  /** The card's words for one offer. */
  function HintFor(p: Policy, o: Offer, lines: seq<Line>): Hint
    requires lines != []
  {
    var short := |lines| < o.minLines;
    Hint(o.id, Worth(p, o), if short then o.minLines - |lines| else 0,
         if short then 0.0 else Round2(o.minSubtotal - Subtotal(lines)), Distance(o, lines))
  }

  lemma Ratio(x: real, y: real)
    requires y > 0.0
    ensures x / y <= 1.0 <==> x <= y
  {
  }

  lemma SpendGap(o: Offer, lines: seq<Line>)
    ensures SubtotalGap(o, lines) != 0.0 <==> o.minSubtotal - Subtotal(lines) >= 0.5
    ensures o.minSubtotal - Subtotal(lines) >= 0.5 ==> SubtotalGap(o, lines) == Round2(o.minSubtotal - Subtotal(lines))
  {
    var gap := o.minSubtotal - Subtotal(lines);
    RoundWhole(0.0);
    RoundWhole(1.0);
    if gap >= 0.5 {
      assert (gap + 0.5).Floor >= 1;
    } else if gap > 0.0 {
      FloorIs(gap + 0.5, 0);
    }
  }

  lemma CandidateExactly(p: Policy, o: Offer, lines: seq<Line>)
    requires lines != []
    ensures Candidate(p, o, lines) == if Reachable(p, o, lines) then Some(HintFor(p, o, lines)) else None
  {
    SpendGap(o, lines);
    Ratio(ProductGap(o, lines) as real, |lines| as real);
    Ratio(SubtotalGap(o, lines), Max(Subtotal(lines), 100.0));
  }

  /** The order is told of a better offer exactly when the registry has one within reach, and it is the nearest:
      none within reach is nearer, and of those as near none is worth more. */
  lemma HintIsTheNearestReachable(p: Policy, lines: seq<Line>)
    ensures
      var hint := NextHint(p, lines);
      && (hint.Some? <==> lines != [] && exists o :: o in p.offers && Reachable(p, o, lines))
      && (hint.Some? ==>
            && (exists o :: o in p.offers && Reachable(p, o, lines) && hint.value == HintFor(p, o, lines))
            && (forall o | o in p.offers && Reachable(p, o, lines) ::
                  hint.value.effort < Distance(o, lines) ||
                  (hint.value.effort == Distance(o, lines) && hint.value.pct >= Worth(p, o))))
  {
    if lines != [] {
      HintOfIsNearest(p, p.offers, lines);
      forall o | o in p.offers
        ensures Candidate(p, o, lines) == if Reachable(p, o, lines) then Some(HintFor(p, o, lines)) else None
      {
        CandidateExactly(p, o, lines);
      }
    }
  }
}
