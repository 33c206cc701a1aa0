/** What a stored suggestion is: a step-up registered for a product on the order, and a product the order
    lacks that takes it nearer a better offer. Nothing else the model names is kept. */
module SuggestionTheorems {
  import opened Text
  import opened Rounding
  import opened Catalogue
  import opened Discounts
  import opened Orders
  import opened OrderTheorems
  import opened Conversation
  import opened Runs
  import opened RunTheorems
  import opened PaymentTheorems
  import opened TapTheorems
  import opened CardTheorems

  // ---- The step-up a proposal leaves on its order -------------------------------------------

  /** The catalogue's name for a name, or the name itself where the catalogue has none. */
  function Meant(cat: seq<Row>, name: string): string {
    if Resolve(cat, name).Some? then Resolve(cat, name).value.name else name
  }

  /** Some line is under this folded name. */
  predicate OnLine(lines: seq<Line>, key: string) {
    exists i :: 0 <= i < |lines| && Key(lines[i].sku) == key
  }

  /** The last line under this folded name. */
  predicate LastUnder(lines: seq<Line>, key: string, k: int) {
    && 0 <= k < |lines| && Key(lines[k].sku) == key
    && forall i | k < i < |lines| :: Key(lines[i].sku) != key
  }

  /** The line a replaced name stands for: under the catalogue's name for it or, with none there, under the
      name as given. */
  predicate StandsFor(cat: seq<Row>, lines: seq<Line>, name: string, k: int) {
    var meant := Key(Meant(cat, name));
    LastUnder(lines, meant, k) || (!OnLine(lines, meant) && LastUnder(lines, Lower(name), k))
  }

  /** The policy registers this step-up for this product. */
  predicate Registered(p: Policy, name: string, target: string) {
    Trim(name) in p.upgrades && p.upgrades[Trim(name)] == target
  }

  /** A row registered for the product meant and dearer than the line it would replace, with a benefit to lead on
      and its card unseen. */
  predicate Offerable(p: Policy, pr: Proposal, meant: string, row: Row, li: Line) {
    && Registered(p, meant, row.name) && row.base + row.install > li.unit + li.install
    && pr.benefitUsable && !pr.cardAlreadyShown
  }

  /** The proposal's step-up is the catalogue's `row`, on no line, and may be offered over line `k`, which its
      replaced name stands for. */
  predicate StepsUp(p: Policy, cat: seq<Row>, pr: Proposal, lines: seq<Line>, row: Row, k: int) {
    var name, replaced := Trim(pr.stepUp), Trim(pr.replaced);
    && name != "" && replaced != ""
    && Resolve(cat, name) == Some(row) && !OnLine(lines, Key(row.name)) && !OnLine(lines, Lower(name))
    && StandsFor(cat, lines, replaced, k)
    && Offerable(p, pr, Meant(cat, replaced), row, lines[k])
  }

  /** The card's words: the dearer model, the product it replaces, and the difference over the whole line. */
  function StepUpOver(row: Row, li: Line): StepUp {
    StepUp(row.name, li.sku, Times(row.base + row.install - (li.unit + li.install), li.qty), true)
  }

  lemma {:induction false} LineUnderFinds(lines: seq<Line>, key: string)
    ensures LineUnder(lines, key).Some? <==> OnLine(lines, key)
  {
    if lines != [] {
      var init := lines[..|lines| - 1];
      LineUnderFinds(init, key);
      if OnLine(init, key) {
        var i :| 0 <= i < |init| && Key(init[i].sku) == key;
        assert Key(lines[i].sku) == key;
      }
    }
  }

  lemma {:induction false} LineUnderIsLast(lines: seq<Line>, key: string, k: int)
    requires LastUnder(lines, key, k)
    ensures LineUnder(lines, key) == Some(lines[k])
    decreases |lines|
  {
    if k < |lines| - 1 {
      var init := lines[..|lines| - 1];
      assert forall i | 0 <= i < |init| :: init[i] == lines[i];
      LineUnderIsLast(init, key, k);
    }
  }

  lemma {:induction false} SomeLineIsLast(lines: seq<Line>, key: string) returns (k: int)
    requires OnLine(lines, key)
    ensures LastUnder(lines, key, k)
  {
    k := |lines| - 1;
    var i :| 0 <= i < |lines| && Key(lines[i].sku) == key;
    if Key(lines[k].sku) != key {
      var init := lines[..k];
      assert Key(init[i].sku) == key;
      k := SomeLineIsLast(init, key);
      assert forall j | 0 <= j < |init| :: init[j] == lines[j];
    }
  }

  /** The line the validation works on. */
  function Current(cat: seq<Row>, lines: seq<Line>, name: string): Option<Line> {
    var byName := LineUnder(lines, Key(Meant(cat, name)));
    if byName.Some? then byName else LineUnder(lines, Lower(name))
  }

  /** It is the one the replaced name stands for. */
  lemma CurrentLine(cat: seq<Row>, lines: seq<Line>, name: string) returns (k: int)
    ensures Current(cat, lines, name).Some? ==> StandsFor(cat, lines, name, k)
    ensures forall j | StandsFor(cat, lines, name, j) :: Current(cat, lines, name) == Some(lines[j])
  {
    var meant := Key(Meant(cat, name));
    LineUnderFinds(lines, meant);
    LineUnderFinds(lines, Lower(name));
    k := -1;
    if OnLine(lines, meant) {
      k := SomeLineIsLast(lines, meant);
      LineUnderIsLast(lines, meant, k);
    } else if OnLine(lines, Lower(name)) {
      k := SomeLineIsLast(lines, Lower(name));
      LineUnderIsLast(lines, Lower(name), k);
    }
    forall j | StandsFor(cat, lines, name, j)
      ensures j == k
    {
      assert LastUnder(lines, if OnLine(lines, meant) then meant else Lower(name), j);
    }
  }

  lemma TrustedIsResolved(cat: seq<Row>, pr: Proposal, name: string)
    requires name in {Trim(pr.complement), Trim(pr.stepUp), Trim(pr.replaced)} && name != ""
    ensures
      var trusted := TrustedFor(cat, ProposedNames(pr));
      if Resolve(cat, name).Some? then name in trusted && trusted[name] == Resolve(cat, name).value else name !in trusted
  {
  }

  /** As the validation writes it. */
  function OverTrimmed(row: Row, li: Line): StepUp {
    StepUp(row.name, Trim(li.sku), Times(row.base + row.install - (li.unit + li.install), if li.qty < 1 then 1 else li.qty), true)
  }

  lemma OverCleanLine(row: Row, li: Line)
    requires Clean(li.sku) && li.qty >= 1
    ensures OverTrimmed(row, li) == StepUpOver(row, li)
  {
  }

  /** The validation, in terms of the rows it was given. */
  lemma {:induction false} ValidStepUpOver(p: Policy, lines: seq<Line>, trusted: map<string, Row>, pr: Proposal, row: Row, meant: string)
    requires Trim(pr.stepUp) != "" && Trim(pr.replaced) != ""
    requires Trim(pr.stepUp) in trusted && trusted[Trim(pr.stepUp)] == row
    requires meant == if Trim(pr.replaced) in trusted then trusted[Trim(pr.replaced)].name else Trim(pr.replaced)
    ensures
      var byName := LineUnder(lines, Key(meant));
      var current := if byName.Some? then byName else LineUnder(lines, Lower(Trim(pr.replaced)));
      var stepUp := ValidStepUp(p, lines, trusted, pr);
      if LineUnder(lines, Key(row.name)).Some? || LineUnder(lines, Lower(Trim(pr.stepUp))).Some? then stepUp.None?
      else if current.None? || !Offerable(p, pr, meant, row, current.value) then stepUp.None?
      else stepUp == Some(OverTrimmed(row, current.value))
  {
  }

  /** The validation, in terms of the catalogue and the line it works on. */
  lemma {:induction false} ValidStepUpIs(p: Policy, cat: seq<Row>, lines: seq<Line>, pr: Proposal, row: Row, current: Option<Line>)
    requires Trim(pr.stepUp) != "" && Trim(pr.replaced) != "" && Resolve(cat, Trim(pr.stepUp)) == Some(row)
    requires current == Current(cat, lines, Trim(pr.replaced))
    ensures
      var stepUp := ValidStepUp(p, lines, TrustedFor(cat, ProposedNames(pr)), pr);
      if LineUnder(lines, Key(row.name)).Some? || LineUnder(lines, Lower(Trim(pr.stepUp))).Some? then stepUp.None?
      else if current.None? || !Offerable(p, pr, Meant(cat, Trim(pr.replaced)), row, current.value) then stepUp.None?
      else stepUp == Some(OverTrimmed(row, current.value))
  {
    TrustedIsResolved(cat, pr, Trim(pr.stepUp));
    TrustedIsResolved(cat, pr, Trim(pr.replaced));
    ValidStepUpOver(p, lines, TrustedFor(cat, ProposedNames(pr)), pr, row, Meant(cat, Trim(pr.replaced)));
  }

  lemma {:induction false} SteppingUpIsFound(p: Policy, cat: seq<Row>, lines: seq<Line>, pr: Proposal, row: Row, k: int)
    requires StepsUp(p, cat, pr, lines, row, k)
    ensures Trim(pr.stepUp) != "" && Trim(pr.replaced) != "" && Resolve(cat, Trim(pr.stepUp)) == Some(row)
    ensures LineUnder(lines, Key(row.name)).None? && LineUnder(lines, Lower(Trim(pr.stepUp))).None?
    ensures Current(cat, lines, Trim(pr.replaced)) == Some(lines[k])
    ensures Offerable(p, pr, Meant(cat, Trim(pr.replaced)), row, lines[k])
  {
    LineUnderFinds(lines, Key(row.name));
    LineUnderFinds(lines, Lower(Trim(pr.stepUp)));
    var _ := CurrentLine(cat, lines, Trim(pr.replaced));
  }

  /** What steps up is kept, and what is kept steps up, on the lines as priced. */
  lemma SteppingUpIsKept(p: Policy, cat: seq<Row>, lines: seq<Line>, pr: Proposal, row: Row, k: int)
    requires StepsUp(p, cat, pr, lines, row, k)
    ensures ValidStepUp(p, lines, TrustedFor(cat, ProposedNames(pr)), pr) == Some(OverTrimmed(row, lines[k]))
  {
    SteppingUpIsFound(p, cat, lines, pr, row, k);
    FoundIsKept(p, cat, lines, pr, row, lines[k]);
  }

  lemma {:induction false} FoundIsKept(p: Policy, cat: seq<Row>, lines: seq<Line>, pr: Proposal, row: Row, li: Line)
    requires Trim(pr.stepUp) != "" && Trim(pr.replaced) != "" && Resolve(cat, Trim(pr.stepUp)) == Some(row)
    requires LineUnder(lines, Key(row.name)).None? && LineUnder(lines, Lower(Trim(pr.stepUp))).None?
    requires Current(cat, lines, Trim(pr.replaced)) == Some(li)
    requires Offerable(p, pr, Meant(cat, Trim(pr.replaced)), row, li)
    ensures ValidStepUp(p, lines, TrustedFor(cat, ProposedNames(pr)), pr) == Some(OverTrimmed(row, li))
  {
    ValidStepUpIs(p, cat, lines, pr, row, Some(li));
  }

  lemma KeptStepsUp(p: Policy, cat: seq<Row>, lines: seq<Line>, pr: Proposal) returns (row: Row, k: int)
    requires ValidStepUp(p, lines, TrustedFor(cat, ProposedNames(pr)), pr).Some?
    ensures StepsUp(p, cat, pr, lines, row, k)
  {
    TrustedIsResolved(cat, pr, Trim(pr.stepUp));
    row := Resolve(cat, Trim(pr.stepUp)).value;
    LineUnderFinds(lines, Key(row.name));
    LineUnderFinds(lines, Lower(Trim(pr.stepUp)));
    k := CurrentLine(cat, lines, Trim(pr.replaced));
    ValidStepUpIs(p, cat, lines, pr, row, Current(cat, lines, Trim(pr.replaced)));
  }

  /** A built order carries a step-up exactly when the proposal steps up: the model's choice is in the closed
      registry for the product it replaces, and the order's own lines and the catalogue give the rest. */
  lemma StepUpIsKeptExactly(p: Policy, cat: seq<Row>, lookupOk: bool, pr: Proposal)
    requires SoundPolicy(p) && CleanCatalogue(cat) && Built(p, cat, lookupOk, pr).Some?
    ensures
      var order := Built(p, cat, lookupOk, pr).value;
      && (order.stepUp.Some? <==> exists row, k :: StepsUp(p, cat, pr, order.lines, row, k))
      && (forall row, k | StepsUp(p, cat, pr, order.lines, row, k) :: order.stepUp == Some(StepUpOver(row, order.lines[k])))
  {
    var order := Built(p, cat, lookupOk, pr).value;
    BuiltOrderIsPayable(p, cat, lookupOk, pr);
    PayableLinesAreRounded(p, cat, order);
    BuiltSuggestions(p, cat, lookupOk, pr);
    forall row, k | StepsUp(p, cat, pr, order.lines, row, k)
      ensures order.stepUp == Some(StepUpOver(row, order.lines[k]))
    {
      assert RoundedLine(p, order.lines[k]) && Clean(order.lines[k].sku);
      SteppingUpIsKept(p, cat, order.lines, pr, row, k);
      OverCleanLine(row, order.lines[k]);
    }
    if order.stepUp.Some? {
      var _, _ := KeptStepsUp(p, cat, order.lines, pr);
    }
  }

  lemma BuiltSuggestions(p: Policy, cat: seq<Row>, lookupOk: bool, pr: Proposal)
    requires Built(p, cat, lookupOk, pr).Some?
    ensures
      var order, trusted := Built(p, cat, lookupOk, pr).value, TrustedFor(cat, ProposedNames(pr));
      order.stepUp == ValidStepUp(p, order.lines, trusted, pr) && order.complement == ValidComplement(p, order.lines, trusted, pr)
  {
  }

  // ---- The complement -----------------------------------------------------------------------

  /** The nearest better offer is one or more products away. */
  predicate ProductsShort(p: Policy, lines: seq<Line>) {
    NextHint(p, lines).Some? && NextHint(p, lines).value.needsProducts > 0
  }

  /** The proposal's suggestion is the catalogue's `row`, on no line of an order some products short of a
      better offer. */
  predicate Complements(p: Policy, cat: seq<Row>, pr: Proposal, lines: seq<Line>, row: Row) {
    var name := Trim(pr.complement);
    && name != "" && Resolve(cat, name) == Some(row)
    && !OnLine(lines, Key(row.name)) && !OnLine(lines, Lower(name))
    && ProductsShort(p, lines)
  }

  /** A built order suggests a product exactly when the proposal complements it. */
  lemma ComplementIsKeptExactly(p: Policy, cat: seq<Row>, lookupOk: bool, pr: Proposal)
    requires Built(p, cat, lookupOk, pr).Some?
    ensures
      var order := Built(p, cat, lookupOk, pr).value;
      && (order.complement.Some? <==> exists row :: Complements(p, cat, pr, order.lines, row))
      && (forall row | Complements(p, cat, pr, order.lines, row) :: order.complement == Some(row.name))
  {
    var lines, name := Built(p, cat, lookupOk, pr).value.lines, Trim(pr.complement);
    BuiltSuggestions(p, cat, lookupOk, pr);
    if name != "" {
      TrustedIsResolved(cat, pr, name);
      LineUnderFinds(lines, Lower(name));
      if Resolve(cat, name).Some? {
        LineUnderFinds(lines, Key(Resolve(cat, name).value.name));
        assert Built(p, cat, lookupOk, pr).value.complement.Some? ==> Complements(p, cat, pr, lines, Resolve(cat, name).value);
      }
    }
  }

  /** Whatever suggestion is kept has a card to show for it: a step-up in a catalogue of clean names is dearer
      and leads on a benefit, a pairing names a better offer. */
  lemma KeptSuggestionsHaveTheirCards(p: Policy, cat: seq<Row>, lookupOk: bool, pr: Proposal)
    requires SoundPolicy(p) && CleanCatalogue(cat) && Built(p, cat, lookupOk, pr).Some?
    ensures
      var order := Built(p, cat, lookupOk, pr).value;
      && (order.stepUp.Some? ==> OffersStepUp(order)) && (order.complement.Some? ==> OffersPairing(p, order))
  {
    var order := Built(p, cat, lookupOk, pr).value;
    if order.stepUp.Some? {
      StepUpIsKeptExactly(p, cat, lookupOk, pr);
      var row, k :| StepsUp(p, cat, pr, order.lines, row, k);
      BuiltQuantities(p, cat, lookupOk, pr);
      RowIsClean(cat, Trim(pr.stepUp));
      StepUpHasItsCard(p, pr, order, Meant(cat, Trim(pr.replaced)), row, k);
    }
    if order.complement.Some? {
      ComplementIsKeptExactly(p, cat, lookupOk, pr);
      var row :| Complements(p, cat, pr, order.lines, row);
      RowIsClean(cat, Trim(pr.complement));
    }
  }

  lemma StepUpHasItsCard(p: Policy, pr: Proposal, order: Order, meant: string, row: Row, k: int)
    requires Rounded(p, order.lines) && 0 <= k < |order.lines| && Offerable(p, pr, meant, row, order.lines[k])
    requires Clean(row.name) && order.stepUp == Some(StepUpOver(row, order.lines[k]))
    ensures OffersStepUp(order)
  {
    assert RoundedLine(p, order.lines[k]);
    DearerOverTheLine(row.base + row.install - (order.lines[k].unit + order.lines[k].install), order.lines[k].qty);
  }

  lemma RowIsClean(cat: seq<Row>, name: string)
    requires CleanCatalogue(cat) && Resolve(cat, name).Some?
    ensures Clean(Resolve(cat, name).value.name)
  {
    ResolveIsUnambiguous(cat, name);
    var i :| 0 <= i < |cat| && cat[i] == Resolve(cat, name).value;
    assert Clean(cat[i].name);
  }

  lemma BuiltQuantities(p: Policy, cat: seq<Row>, lookupOk: bool, pr: Proposal)
    requires SoundPolicy(p) && CleanCatalogue(cat) && Built(p, cat, lookupOk, pr).Some?
    ensures Rounded(p, Built(p, cat, lookupOk, pr).value.lines)
  {
    BuiltOrderIsPayable(p, cat, lookupOk, pr);
    PayableLinesAreRounded(p, cat, Built(p, cat, lookupOk, pr).value);
  }

  /** With the catalogue out of reach nothing is built. */
  lemma NoCatalogueNoOrder(p: Policy, cat: seq<Row>, pr: Proposal)
    ensures Built(p, cat, false, pr).None?
  {
  }

  // ---- The step-up in state, over every run -------------------------------------------------

  /** The order's step-up is a catalogue row registered for the product on one of its lines, dearer than that
      line, and the difference is over the whole of it. */
  ghost predicate SteppedUp(p: Policy, cat: seq<Row>, lines: seq<Line>, su: StepUp) {
    exists row, k :: SteppedUpAt(p, cat, lines, su, row, k)
  }

  predicate SteppedUpAt(p: Policy, cat: seq<Row>, lines: seq<Line>, su: StepUp, row: Row, k: int) {
    && 0 <= k < |lines| && row in cat
    && su == StepUpOver(row, lines[k]) && su.lineDelta > 0.0
    && Registered(p, lines[k].sku, row.name)
  }

  ghost predicate SuggestsSoundly(p: Policy, cat: seq<Row>, order: Order) {
    order.stepUp.Some? ==> SteppedUp(p, cat, order.lines, order.stepUp.value)
  }

  /** Where no two products are spelled alike, the line a name stands for holds the product it means. */
  lemma StandsForItsOwn(cat: seq<Row>, lines: seq<Line>, name: string, k: int)
    requires CleanCatalogue(cat) && NormsDiffer(cat) && FromCatalogue(cat, lines)
    requires Trim(name) == name && StandsFor(cat, lines, name, k)
    ensures Meant(cat, name) == lines[k].sku
  {
    assert HasRow(cat, lines[k]);
    var r :| r in cat && LineOfRow(lines[k], r);
    var i :| 0 <= i < |cat| && cat[i] == r;
    var meant := Meant(cat, name);
    assert Clean(r.name);
    if Key(lines[k].sku) == Lower(name) {
      SpelledNameResolves(cat, name, i);
    } else {
      ResolveIsUnambiguousWhenFound(cat, name);
      assert Key(meant) == Key(r.name);
      KeyDecidesNorm(meant, r.name);
      if Resolve(cat, name).Some? {
        var j :| 0 <= j < |cat| && cat[j] == Resolve(cat, name).value;
        assert Clean(cat[j].name) && Norm(cat[j].name) == Norm(cat[i].name);
      }
    }
  }

  lemma ResolveIsUnambiguousWhenFound(cat: seq<Row>, name: string)
    ensures Resolve(cat, name).Some? ==> Resolve(cat, name).value in cat
  {
    if Resolve(cat, name).Some? {
      ResolveIsUnambiguous(cat, name);
    }
  }

  lemma BuiltSuggestsSoundly(p: Policy, cat: seq<Row>, lookupOk: bool, pr: Proposal)
    requires SoundPolicy(p) && CleanCatalogue(cat) && NormsDiffer(cat) && Built(p, cat, lookupOk, pr).Some?
    ensures SuggestsSoundly(p, cat, Built(p, cat, lookupOk, pr).value)
  {
    var order := Built(p, cat, lookupOk, pr).value;
    StepUpIsKeptExactly(p, cat, lookupOk, pr);
    if order.stepUp.Some? {
      var row, k :| StepsUp(p, cat, pr, order.lines, row, k);
      BuiltOrderIsPayable(p, cat, lookupOk, pr);
      PayableLinesAreRounded(p, cat, order);
      TrimIdempotent(pr.replaced);
      StandsForItsOwn(cat, order.lines, Trim(pr.replaced), k);
      ResolveIsUnambiguousWhenFound(cat, Trim(pr.stepUp));
      assert Offerable(p, pr, order.lines[k].sku, row, order.lines[k]);
      OfferedSoundly(p, cat, pr, order.lines, row, k);
    }
  }

  lemma OfferedSoundly(p: Policy, cat: seq<Row>, pr: Proposal, lines: seq<Line>, row: Row, k: int)
    requires Rounded(p, lines) && row in cat && 0 <= k < |lines| && Offerable(p, pr, lines[k].sku, row, lines[k])
    ensures SteppedUp(p, cat, lines, StepUpOver(row, lines[k]))
  {
    assert RoundedLine(p, lines[k]);
    DearerOverTheLine(row.base + row.install - (lines[k].unit + lines[k].install), lines[k].qty);
    assert SteppedUpAt(p, cat, lines, StepUpOver(row, lines[k]), row, k);
  }

  lemma DearerOverTheLine(delta: real, qty: int)
    requires delta > 0.0 && qty >= 1
    ensures Times(delta, qty) > 0.0
  {
  }

  /** A line kept, at its name, quantity and unit prices, keeps the step-up over it. */
  lemma KeptLineKeepsStepUp(p: Policy, cat: seq<Row>, lines: seq<Line>, next: seq<Line>, su: StepUp)
    requires SteppedUp(p, cat, lines, su) && |lines| <= |next|
    requires forall i | 0 <= i < |lines| :: next[i] == Relined(lines[i]) || next[i] == lines[i]
    ensures SteppedUp(p, cat, next, su)
  {
    var row, k :| SteppedUpAt(p, cat, lines, su, row, k);
    assert SteppedUpAt(p, cat, next, su, row, k);
  }

  lemma RepriceSuggestsSoundly(p: Policy, cat: seq<Row>, order: Order)
    requires SuggestsSoundly(p, cat, order)
    ensures Repriced(p, order).Some? ==> SuggestsSoundly(p, cat, Repriced(p, order).value)
  {
    if Repriced(p, order).Some? {
      RepriceKeepsLines(p, order);
    }
  }

  lemma AddSuggestsSoundly(p: Policy, cat: seq<Row>, lookupOk: bool, order: Order)
    requires SoundPolicy(p) && CleanCatalogue(cat) && Payable(p, cat, order) && SuggestsSoundly(p, cat, order)
    ensures SuggestsSoundly(p, cat, AfterAdd(p, cat, lookupOk, order))
  {
    if Added(p, cat, lookupOk, order).Some? {
      PayableLinesAreRounded(p, cat, order);
      AddedSuggestsSoundly(p, cat, lookupOk, order);
    }
  }

  lemma AddedSuggestsSoundly(p: Policy, cat: seq<Row>, lookupOk: bool, order: Order)
    requires SoundPolicy(p) && Rounded(p, order.lines) && CleanSkus(order.lines) && SuggestsSoundly(p, cat, order)
    requires Added(p, cat, lookupOk, order).Some?
    ensures SuggestsSoundly(p, cat, Added(p, cat, lookupOk, order).value)
  {
    AddTapAppendsOneLine(p, cat, lookupOk, order);
    AddTapKeepsTheStepUp(p, cat, lookupOk, order);
    if order.stepUp.Some? {
      KeptLineKeepsStepUp(p, cat, order.lines, Added(p, cat, lookupOk, order).value.lines, order.stepUp.value);
    }
  }

  lemma SwapSuggestsSoundly(p: Policy, cat: seq<Row>, lookupOk: bool, order: Order)
    ensures SuggestsSoundly(p, cat, AfterSwap(p, cat, lookupOk, order))
  {
  }

  ghost predicate SaleSuggestsSoundly(p: Policy, cat: seq<Row>, v: Sale) {
    v.pending.Some? ==> Payable(p, cat, v.pending.value) && SuggestsSoundly(p, cat, v.pending.value)
  }

  lemma TapSuggestsSoundly(p: Policy, cat: seq<Row>, v: Sale, t: Turn)
    requires SoundPolicy(p) && CleanCatalogue(cat) && t.cat == cat
    requires v.pending.Some? && v.taps != {} && Payable(p, cat, v.pending.value) && SuggestsSoundly(p, cat, v.pending.value)
    ensures var w := TapAnswered(p, v, t).sale; w.pending.Some? && SuggestsSoundly(p, cat, w.pending.value)
  {
    TapLeaves(p, v, t);
    RepriceSuggestsSoundly(p, cat, v.pending.value);
    AddSuggestsSoundly(p, cat, t.lookupOk, v.pending.value);
    SwapSuggestsSoundly(p, cat, t.lookupOk, v.pending.value);
  }

  lemma ModelSuggestsSoundly(p: Policy, cat: seq<Row>, v: Sale, t: Turn)
    requires SoundPolicy(p) && CleanCatalogue(cat) && NormsDiffer(cat) && t.cat == cat
    requires v.pending.Some? ==> SuggestsSoundly(p, cat, v.pending.value)
    ensures var w := ModelAnswered(p, v, t).sale; w.pending.Some? ==> SuggestsSoundly(p, cat, w.pending.value)
  {
    if ModelOrder(p, v, t).Some? {
      BuiltSuggestsSoundly(p, cat, t.lookupOk, t.reply.value.proposal);
    }
  }

  lemma SoldSuggestsSoundly(p: Policy, cat: seq<Row>, v: Sale, specsUnavailable: bool, t: Turn)
    requires SoundPolicy(p) && CleanCatalogue(cat) && NormsDiffer(cat) && t.cat == cat
    requires v.pending.Some? ==> Payable(p, cat, v.pending.value) && SuggestsSoundly(p, cat, v.pending.value)
    ensures var w := Sold(p, v, specsUnavailable, t).sale; w.pending.Some? ==> SuggestsSoundly(p, cat, w.pending.value)
  {
    match BranchOf(v, specsUnavailable, t.msg)
    case DetailsBranch => assert DetailsAnswered(v, t.msg).value.pending == v.pending;
    case ConfirmBranch =>
    case NoSpecsBranch =>
    case TapBranch => TapSuggestsSoundly(p, cat, v, t);
    case ModelBranch => ModelSuggestsSoundly(p, cat, v, t);
  }

  lemma StepSuggestsSoundly(s: Settings, cat: seq<Row>, c: Conv, e: Event)
    requires SoundPolicy(s.policy) && CleanCatalogue(cat) && NormsDiffer(cat) && UsesCatalogue(e, cat)
    requires c.sale.pending.Some? ==> Payable(s.policy, cat, c.sale.pending.value) && SuggestsSoundly(s.policy, cat, c.sale.pending.value)
    ensures var v := Step(s, c, e).0.sale; v.pending.Some? ==> SuggestsSoundly(s.policy, cat, v.pending.value)
  {
    if e.TurnEvent? {
      var d := Triage(s, c, e.turn);
      SoldSuggestsSoundly(s.policy, cat, d.sale, Retrieved(d, e.turn).specsUnavailable, e.turn);
      GateKeepsWalk(s.policy, NodeSaid(s.policy, d, e.turn).sale, e.turn);
    }
  }

  /** On every run over a catalogue whose names are spelled apart, whatever the model proposed: a step-up on
      the order in state is the one the registry gives for a product on that order, at the catalogue's
      difference in price. */
  lemma {:induction false} StepUpInStateIsRegistered(s: Settings, cat: seq<Row>, events: seq<Event>)
    requires SoundPolicy(s.policy) && CleanCatalogue(cat) && NormsDiffer(cat)
    requires forall e | e in events :: UsesCatalogue(e, cat)
    ensures
      var v := Run(s, START, events).conv.sale;
      v.pending.Some? ==> SuggestsSoundly(s.policy, cat, v.pending.value)
  {
    if events != [] {
      var init := events[..|events| - 1];
      StepUpInStateIsRegistered(s, cat, init);
      PendingOrderIsAlwaysPayable(s, cat, init);
      StepSuggestsSoundly(s, cat, Run(s, START, init).conv, events[|events| - 1]);
    }
  }

  /** So no swap ever puts a product in the place of another but its registered step-up: on every run, a turn
      with the swap button leaves the lines, replaces one by the model the registry gives for it, or serves
      an add request already standing. */
  lemma {:induction false} SwapsFollowTheRegistry(s: Settings, cat: seq<Row>, events: seq<Event>, t: Turn)
    requires SoundPolicy(s.policy) && CleanCatalogue(cat) && NormsDiffer(cat)
    requires (forall e | e in events :: UsesCatalogue(e, cat)) && t.cat == cat
    requires Run(s, START, events).conv.sale.pending.Some? && TapsSwap(t.msg)
    ensures
      var c := Run(s, START, events).conv;
      var before, after := c.sale.pending.value, TurnTaken(s, c, t).0.sale.pending;
      && after.Some?
      && (|| after.value.lines == before.lines
          || (AddTap in c.sale.taps && |after.value.lines| == |before.lines| + 1)
          || SwappedByRegistry(s.policy, before.lines, after.value.lines))
  {
    SwapTapOnEveryRun(s, cat, events, t);
    StepUpInStateIsRegistered(s, cat, events);
    PendingOrderIsAlwaysPayable(s, cat, events);
    var c := Run(s, START, events).conv;
    var before, after := c.sale.pending.value, TurnTaken(s, c, t).0.sale.pending;
    if PutsStepUp(s.policy, t, before, after.value) {
      StepUpIsByRegistry(s.policy, cat, t, before, after.value);
    }
  }

  /** Exactly one line differs, in the same quantity: it now names the step-up the registry gives for the
      product it named. */
  ghost predicate SwappedByRegistry(p: Policy, lines: seq<Line>, next: seq<Line>) {
    && |next| == |lines|
    && exists k :: 0 <= k < |lines| && Registered(p, lines[k].sku, next[k].sku) && next[k].qty == lines[k].qty
         && forall i | 0 <= i < |lines| && i != k :: next[i] == Relined(lines[i])
  }

  /** The replaced name folds to one line only: the line the step-up was stored for. */
  lemma SwapIsAtItsLine(lines: seq<Line>, j: int, k: int)
    requires Ordinary(lines)
    requires 0 <= j < |lines| && 0 <= k < |lines| && Key(lines[k].sku) == Lower(Trim(lines[j].sku))
    ensures lines[j].sku == lines[k].sku
  {
    assert Clean(lines[j].sku) && Clean(lines[k].sku);
  }

  lemma RowResolvesToItself(cat: seq<Row>, row: Row)
    requires CleanCatalogue(cat) && row in cat
    ensures Resolve(cat, Trim(row.name)) == Some(row)
  {
    var i :| 0 <= i < |cat| && cat[i] == row;
    assert Clean(cat[i].name);
    CanonicalNameResolvesToItself(cat, row);
  }

  lemma StepUpIsByRegistry(p: Policy, cat: seq<Row>, t: Turn, before: Order, after: Order)
    requires SoundPolicy(p) && CleanCatalogue(cat) && NormsDiffer(cat) && t.cat == cat
    requires Payable(p, cat, before) && SuggestsSoundly(p, cat, before) && PutsStepUp(p, t, before, after)
    ensures SwappedByRegistry(p, before.lines, after.lines)
  {
    PayableLinesAreRounded(p, cat, before);
    BuiltLinesAreOrdinary(p, cat, before.lines);
    var row, j :| SteppedUpAt(p, cat, before.lines, before.stepUp.value, row, j);
    RowResolvesToItself(cat, row);
    StepUpAtIsByRegistry(p, t, before, after, row, j);
  }

  lemma StepUpAtIsByRegistry(p: Policy, t: Turn, before: Order, after: Order, row: Row, j: int)
    requires Ordinary(before.lines) && Rounded(p, before.lines) && PutsStepUp(p, t, before, after)
    requires SteppedUpAt(p, t.cat, before.lines, before.stepUp.value, row, j) && Resolve(t.cat, Trim(row.name)) == Some(row)
    ensures SwappedByRegistry(p, before.lines, after.lines)
  {
    PutInPlaceIsByRegistry(p, before.lines, after.lines, row, j);
  }

  lemma PutInPlaceIsByRegistry(p: Policy, lines: seq<Line>, next: seq<Line>, row: Row, j: int)
    requires Ordinary(lines) && Rounded(p, lines) && 0 <= j < |lines| && Registered(p, lines[j].sku, row.name)
    requires PutInPlace(p, lines, next, Lower(Trim(lines[j].sku)), row)
    ensures SwappedByRegistry(p, lines, next)
  {
    var k :| 0 <= k < |lines| && Key(lines[k].sku) == Lower(Trim(lines[j].sku))
      && next == RelinedAll(lines)[k := PriceLine(p, lines[k].qty, row)];
    SwapIsAtItsLine(lines, j, k);
    LineIsSwapped(p, lines, row, k);
  }

  lemma LineIsSwapped(p: Policy, lines: seq<Line>, row: Row, k: int)
    requires Rounded(p, lines) && 0 <= k < |lines| && Registered(p, lines[k].sku, row.name)
    ensures SwappedByRegistry(p, lines, RelinedAll(lines)[k := PriceLine(p, lines[k].qty, row)])
  {
    var next := RelinedAll(lines)[k := PriceLine(p, lines[k].qty, row)];
    assert RoundedLine(p, lines[k]);
    assert Registered(p, lines[k].sku, next[k].sku) && next[k].qty == lines[k].qty;
    assert forall i | 0 <= i < |lines| && i != k :: next[i] == Relined(lines[i]);
  }
}
