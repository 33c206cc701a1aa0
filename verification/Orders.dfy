/** Building and editing the pending order: the model proposes names, quantities and an offer id; every
    amount comes from the catalogue and passes the money gate before it is kept. */
module Orders {
  import opened Text
  import opened Rounding
  import opened Catalogue
  import opened Discounts
  import opened Guardrails
  import opened Money

  /** Everything a model turn can say about an order. Any values at all are possible. */
  datatype Proposal = Proposal(
    items: seq<Item>, offer: string, complement: string,
    stepUp: string, replaced: string, benefitUsable: bool, cardAlreadyShown: bool,
    quoteRequested: bool)

  // ---- Trusted maps -------------------------------------------------------------------------

  /** The requested names that resolve, with the rows they resolve to. */
  function TrustedFor(cat: seq<Row>, names: set<string>): map<string, Row> {
    map n | n in names && Resolve(cat, n).Some? :: Resolve(cat, n).value
  }

  /** The unit prices already on the order, taken as the price list of a tap. */
  function SelfTrusted(lines: seq<Line>): map<string, Row> {
    if lines == [] then map[]
    else
      var li := lines[|lines| - 1];
      SelfTrusted(lines[..|lines| - 1])[li.sku := Row(li.sku, li.unit, li.install)]
  }

  lemma ResolvedRowsAreConsistent(cat: seq<Row>, names: set<string>)
    ensures Consistent(TrustedFor(cat, names))
  {
    var trusted := TrustedFor(cat, names);
    forall x, y | x in trusted && y in trusted && trusted[x].name == trusted[y].name
      ensures trusted[x] == trusted[y]
    {
      ResolveIsUnambiguous(cat, x);
      ResolveIsUnambiguous(cat, y);
      if x == trusted[x].name && y == trusted[y].name {
      } else if x == trusted[x].name {
        SameNormSameRow(cat, trusted[y], trusted[x]);
      } else {
        SameNormSameRow(cat, trusted[x], trusted[y]);
      }
    }
  }

  lemma SameNormSameRow(cat: seq<Row>, r: Row, other: Row)
    requires other in cat && other.name == r.name
    requires forall i | 0 <= i < |cat| && Norm(cat[i].name) == Norm(r.name) :: cat[i] == r
    ensures other == r
  {
  }

  /** The trusted rows keyed by their own names, which is what the gate looks lines up by. */
  ghost function Canonical(trusted: map<string, Row>): (canonical: map<string, Row>)
    requires Consistent(trusted)
    ensures KeyedByName(canonical, trusted)
  {
    map n | n in NamesIn(trusted) :: var x :| x in trusted && trusted[x].name == n; trusted[x]
  }

  function NamesIn(trusted: map<string, Row>): set<string> {
    set x | x in trusted :: trusted[x].name
  }

  method KeyByName(trusted: map<string, Row>) returns (canonical: map<string, Row>)
    requires Consistent(trusted)
    ensures canonical == Canonical(trusted)
  {
    canonical := map[];
    var left := trusted.Keys;
    while left != {}
      invariant left <= trusted.Keys
      invariant forall x | x in trusted && x !in left ::
        trusted[x].name in canonical && canonical[trusted[x].name] == trusted[x]
      invariant forall n | n in canonical :: exists x :: x in trusted && canonical[n] == trusted[x] && trusted[x].name == n
      decreases left
    {
      var x :| x in left;
      canonical := canonical[trusted[x].name := trusted[x]];
      left := left - {x};
    }
    KeyedByNameIsUnique(canonical, Canonical(trusted), trusted);
  }

  lemma KeyedByNameAgrees(a: map<string, Row>, b: map<string, Row>, trusted: map<string, Row>, n: string)
    requires Consistent(trusted) && KeyedByName(a, trusted) && KeyedByName(b, trusted) && n in a
    ensures n in b && a[n] == b[n]
  {
    var x :| x in trusted && a[n] == trusted[x] && trusted[x].name == n;
    assert trusted[x].name in b;
  }

  lemma KeyedByNameIsUnique(a: map<string, Row>, b: map<string, Row>, trusted: map<string, Row>)
    requires Consistent(trusted) && KeyedByName(a, trusted) && KeyedByName(b, trusted)
    ensures a == b
  {
    forall n | n in a
      ensures n in b && a[n] == b[n]
    {
      KeyedByNameAgrees(a, b, trusted, n);
    }
    forall n | n in b
      ensures n in a
    {
      KeyedByNameAgrees(b, a, trusted, n);
    }
  }

  // ---- Building an order from a proposal ----------------------------------------------------

  function Key(sku: string): string {
    Lower(Trim(sku))
  }

  /** The proposed lines that name something, names stripped. */
  function RawItems(items: seq<Item>): seq<Item> {
    if items == [] then []
    else
      var item := items[|items| - 1];
      RawItems(items[..|items| - 1]) + (if item.sku != "" then [Item(Trim(item.sku), item.qty)] else [])
  }

  function Skus(items: seq<Item>): set<string> {
    set item | item in items :: item.sku
  }

  function ProposedNames(pr: Proposal): set<string> {
    Skus(RawItems(pr.items)) + ({Trim(pr.complement), Trim(pr.stepUp), Trim(pr.replaced)} - {""})
  }

  /** The order's line under a lower-cased name; a repeated name keeps the last. */
  function LineUnder(lines: seq<Line>, key: string): Option<Line> {
    if lines == [] then None
    else if Key(lines[|lines| - 1].sku) == key then Some(lines[|lines| - 1])
    else LineUnder(lines[..|lines| - 1], key)
  }

  function UpgradeTarget(p: Policy, sku: string): Option<string> {
    if Trim(sku) in p.upgrades then Some(p.upgrades[Trim(sku)]) else None
  }

  /** The step-up as shown, or nothing: both sides must resolve, the pair must be registered, the card
      unseen, the difference positive and the benefit usable. */
  function ValidStepUp(p: Policy, lines: seq<Line>, trusted: map<string, Row>, pr: Proposal): Option<StepUp> {
    var sku, replaced := Trim(pr.stepUp), Trim(pr.replaced);
    if sku == "" || replaced == "" || sku !in trusted then None
    else
      var row := trusted[sku];
      var replacedName := if replaced in trusted then trusted[replaced].name else replaced;
      var byName := LineUnder(lines, Key(replacedName));
      var current := if byName.Some? then byName else LineUnder(lines, Lower(replaced));
      if LineUnder(lines, Key(row.name)).Some? || LineUnder(lines, Lower(sku)).Some? || current.None? then None
      else if UpgradeTarget(p, replacedName) != Some(row.name) || pr.cardAlreadyShown then None
      else
        var li := current.value;
        var delta := row.base + row.install - (li.unit + li.install);
        if delta <= 0.0 || !pr.benefitUsable then None
        else Some(StepUp(row.name, Trim(li.sku), Times(delta, if li.qty < 1 then 1 else li.qty), true))
  }

  /** A tier is one or more products away. */
  predicate TierByProducts(p: Policy, lines: seq<Line>) {
    NextHint(p, lines).Some? && NextHint(p, lines).value.needsProducts > 0
  }

  function ValidComplement(p: Policy, lines: seq<Line>, trusted: map<string, Row>, pr: Proposal): Option<string> {
    var sku := Trim(pr.complement);
    if sku == "" || LineUnder(lines, Lower(sku)).Some? || sku !in trusted then None
    else if LineUnder(lines, Key(trusted[sku].name)).Some? || !TierByProducts(p, lines) then None
    else Some(trusted[sku].name)
  }

  /** The order a proposal would become, before the gate. */
  function Drafted(p: Policy, trusted: map<string, Row>, pr: Proposal): Order {
    var raw := RawItems(pr.items);
    var lines := PricedLines(p, raw, trusted);
    var priced := OfferApplied(p, lines, pr.offer, "INR");
    priced.(notes := PricingNotes(p, raw, trusted) + priced.notes,
            stepUp := ValidStepUp(p, lines, trusted, pr),
            complement := ValidComplement(p, lines, trusted, pr))
  }

  ghost function Built(p: Policy, cat: seq<Row>, lookupOk: bool, pr: Proposal): Option<Order> {
    var trusted := TrustedFor(cat, ProposedNames(pr));
    ResolvedRowsAreConsistent(cat, ProposedNames(pr));
    var order := Drafted(p, trusted, pr);
    if lookupOk && order.lines != [] && Accepts(p, Some(order), Some(Canonical(trusted))) then Some(order) else None
  }

  method BuildPendingOrder(p: Policy, cat: seq<Row>, lookupOk: bool, pr: Proposal) returns (built: Option<Order>)
    requires SoundPolicy(p)
    ensures built == Built(p, cat, lookupOk, pr)
  {
    var raw: seq<Item> := [];
    for i := 0 to |pr.items|
      invariant raw == RawItems(pr.items[..i])
    {
      assert pr.items[..i + 1][..i] == pr.items[..i];
      if pr.items[i].sku != "" {
        raw := raw + [Item(Trim(pr.items[i].sku), pr.items[i].qty)];
      }
    }
    assert pr.items[..|pr.items|] == pr.items;
    if raw == [] {
      return None;
    }
    if !lookupOk {
      return None;
    }
    var trusted := LookUp(cat, ProposedNames(pr));
    ResolvedRowsAreConsistent(cat, ProposedNames(pr));
    if trusted == map[] {
      DistinctNames(p, raw);
      NothingTrustedNothingPriced(p, Distinct(raw), raw);
      return None;
    }
    var lines, _, notes := PriceLineItems(p, raw, trusted);
    if lines == [] {
      return None;
    }
    var order := ApplyOffer(p, lines, pr.offer, "INR");
    order := order.(notes := notes + order.notes);
    order := order.(stepUp := ValidStepUp(p, lines, trusted, pr));
    order := order.(complement := ValidComplement(p, lines, trusted, pr));
    var canonical := KeyByName(trusted);
    var ok, _ := ValidatePaymentRequest(p, Some(order), Some(canonical));
    built := if ok then Some(order) else None;
  }

  lemma {:induction false} NothingTrustedNothingPriced(p: Policy, skus: seq<string>, items: seq<Item>)
    ensures LinesFor(p, skus, items, map[]) == []
  {
    if skus != [] {
      NothingTrustedNothingPriced(p, skus[..|skus| - 1], items);
    }
  }

  /** The batch lookup with the misses left out. */
  method LookUp(cat: seq<Row>, names: set<string>) returns (trusted: map<string, Row>)
    ensures trusted == TrustedFor(cat, names)
  {
    var asked: seq<string> := [];
    var left := names;
    while left != {}
      invariant left <= names
      invariant forall n :: n in asked <==> n in names && n !in left
      decreases left
    {
      var n :| n in left;
      asked, left := asked + [n], left - {n};
    }
    var prices := GetProductPricesBatch(cat, asked);
    trusted := map n | n in prices && prices[n].Some? :: prices[n].value;
  }

  // ---- The three taps that change an order --------------------------------------------------

  function BestId(p: Policy, lines: seq<Line>): string {
    var best := Best(p, lines);
    if best.Some? then best.value.id else ""
  }

  /** The apply tap: the same lines at the best offer they qualify for. */
  function Repriced(p: Policy, order: Order): Option<Order> {
    if Best(p, order.lines).None? then None
    else
      var repriced := OfferApplied(p, order.lines, BestId(p, order.lines), order.currency)
                      .(complement := order.complement, stepUp := order.stepUp);
      if Accepts(p, Some(repriced), Some(SelfTrusted(order.lines))) then Some(repriced) else None
  }

  method RepriceWithBestOffer(p: Policy, order: Order) returns (repriced: Option<Order>)
    requires SoundPolicy(p)
    ensures repriced == Repriced(p, order)
  {
    var best := BestEligibleOffer(p, order.lines);
    if order.lines == [] || best.None? {
      return None;
    }
    var next := ApplyOffer(p, order.lines, best.value.id, order.currency);
    if order.complement.Some? {
      next := next.(complement := order.complement);
    }
    if order.stepUp.Some? {
      next := next.(stepUp := order.stepUp);
    }
    var trusted := PricesOnOrder(order.lines);
    var ok, _ := ValidatePaymentRequest(p, Some(next), Some(trusted));
    repriced := if ok then Some(next) else None;
  }

  method PricesOnOrder(lines: seq<Line>) returns (trusted: map<string, Row>)
    ensures trusted == SelfTrusted(lines)
  {
    trusted := map[];
    for i := 0 to |lines|
      invariant trusted == SelfTrusted(lines[..i])
    {
      assert lines[..i + 1][..i] == lines[..i];
      trusted := trusted[lines[i].sku := Row(lines[i].sku, lines[i].unit, lines[i].install)];
    }
    assert lines[..|lines|] == lines;
  }

  /** A line as the proposal it came from, for re-pricing. */
  function AsItem(li: Line): Item {
    Item(li.sku, li.qty)
  }

  function AsItems(lines: seq<Line>): seq<Item> {
    seq(|lines|, i requires 0 <= i < |lines| => AsItem(lines[i]))
  }

  function Stripped(o: Option<string>): string {
    if o.Some? then Trim(o.value) else ""
  }

  /** The enlarged order the add tap would store, before the gate. */
  function Grown(p: Policy, order: Order, sku: string, row: Row): Order {
    var trusted := SelfTrusted(order.lines)[sku := row];
    var items := AsItems(order.lines) + [Item(sku, 1)];
    var lines := PricedLines(p, items, trusted);
    var priced := OfferApplied(p, lines, BestId(p, lines), order.currency);
    priced.(notes := PricingNotes(p, items, trusted) + priced.notes, stepUp := order.stepUp)
  }

  /** The add tap, or nothing when it falls back. */
  function Added(p: Policy, cat: seq<Row>, lookupOk: bool, order: Order): Option<Order> {
    var sku := Stripped(order.complement);
    if order.lines == [] || sku == "" || !lookupOk || Resolve(cat, sku).None? then None
    else
      var grown := Grown(p, order, sku, Resolve(cat, sku).value);
      if |grown.lines| > |order.lines| && Accepts(p, Some(grown), Some(SelfTrusted(grown.lines)))
      then Some(grown) else None
  }

  method AddComplement(p: Policy, cat: seq<Row>, lookupOk: bool, order: Order) returns (added: Option<Order>)
    requires SoundPolicy(p)
    ensures added == Added(p, cat, lookupOk, order)
  {
    var sku := Stripped(order.complement);
    if order.lines == [] || sku == "" || !lookupOk {
      return None;
    }
    var prices := GetProductPricesBatch(cat, [sku]);
    assert sku in [sku];
    if prices[sku].None? {
      return None;
    }
    var trusted := PricesOnOrder(order.lines);
    trusted := trusted[sku := prices[sku].value];
    var items := AsItems(order.lines);
    items := items + [Item(sku, 1)];
    var lines, _, notes := PriceLineItems(p, items, trusted);
    if |lines| <= |order.lines| {
      return None;
    }
    var best := BestEligibleOffer(p, lines);
    var grown := ApplyOffer(p, lines, if best.Some? then best.value.id else "", order.currency);
    grown := grown.(notes := notes + grown.notes);
    if order.stepUp.Some? {
      grown := grown.(stepUp := order.stepUp);
    }
    var onOrder := PricesOnOrder(lines);
    var ok, _ := ValidatePaymentRequest(p, Some(grown), Some(onOrder));
    added := if ok then Some(grown) else None;
  }

  /** The order's lines as proposals, with every line of the replaced name naming the target instead. */
  function SwapItems(lines: seq<Line>, replaced: string, target: string): seq<Item> {
    seq(|lines|, i requires 0 <= i < |lines| =>
      if Key(lines[i].sku) == Lower(replaced) then Item(target, lines[i].qty) else AsItem(lines[i]))
  }

  predicate HasLine(lines: seq<Line>, replaced: string) {
    exists i :: 0 <= i < |lines| && Key(lines[i].sku) == Lower(replaced)
  }

  function SwappedOrder(p: Policy, order: Order, replaced: string, target: string, row: Row): Order {
    var trusted := SelfTrusted(order.lines)[target := row];
    var items := SwapItems(order.lines, replaced, target);
    var lines := PricedLines(p, items, trusted);
    var priced := OfferApplied(p, lines, BestId(p, lines), order.currency);
    priced.(notes := PricingNotes(p, items, trusted) + priced.notes, complement := order.complement)
  }

  /** The swap tap, or nothing when it falls back. */
  function Swapped(p: Policy, cat: seq<Row>, lookupOk: bool, order: Order): Option<Order> {
    if order.lines == [] || order.stepUp.None? then None
    else
      var target, replaced := Trim(order.stepUp.value.sku), Trim(order.stepUp.value.replaced);
      if target == "" || replaced == "" || !lookupOk || Resolve(cat, target).None? then None
      else if !HasLine(order.lines, replaced) then None
      else
        var swapped := SwappedOrder(p, order, replaced, target, Resolve(cat, target).value);
        if |swapped.lines| == |order.lines| && Accepts(p, Some(swapped), Some(SelfTrusted(swapped.lines)))
        then Some(swapped) else None
  }

  method SwapUpgrade(p: Policy, cat: seq<Row>, lookupOk: bool, order: Order) returns (swapped: Option<Order>)
    requires SoundPolicy(p)
    ensures swapped == Swapped(p, cat, lookupOk, order)
  {
    if order.lines == [] || order.stepUp.None? {
      return None;
    }
    var target, replaced := Trim(order.stepUp.value.sku), Trim(order.stepUp.value.replaced);
    if target == "" || replaced == "" || !lookupOk {
      return None;
    }
    var prices := GetProductPricesBatch(cat, [target]);
    assert target in [target];
    if prices[target].None? {
      return None;
    }
    var trusted := PricesOnOrder(order.lines);
    trusted := trusted[target := prices[target].value];

    var items, swappedAny := SwapIntoItems(order.lines, replaced, target);
    if !swappedAny {
      return None;
    }
    swapped := CheckSwap(p, order, items, trusted);
  }

  method SwapIntoItems(lines: seq<Line>, replaced: string, target: string)
    returns (items: seq<Item>, swappedAny: bool)
    ensures items == SwapItems(lines, replaced, target)
    ensures swappedAny <==> HasLine(lines, replaced)
  {
    items, swappedAny := [], false;
    for i := 0 to |lines|
      invariant items == SwapItems(lines, replaced, target)[..i]
      invariant swappedAny <==> exists k :: 0 <= k < i && Key(lines[k].sku) == Lower(replaced)
    {
      if Key(lines[i].sku) == Lower(replaced) {
        items, swappedAny := items + [Item(target, lines[i].qty)], true;
      } else {
        items := items + [AsItem(lines[i])];
      }
    }
  }

  method CheckSwap(p: Policy, order: Order, items: seq<Item>, trusted: map<string, Row>)
    returns (swapped: Option<Order>)
    requires SoundPolicy(p)
    ensures
      var lines := PricedLines(p, items, trusted);
      var priced := OfferApplied(p, lines, BestId(p, lines), order.currency);
      var next := priced.(notes := PricingNotes(p, items, trusted) + priced.notes, complement := order.complement);
      swapped == if |lines| == |order.lines| && Accepts(p, Some(next), Some(SelfTrusted(lines))) then Some(next) else None
  {
    var lines, _, notes := PriceLineItems(p, items, trusted);
    if |lines| != |order.lines| {
      return None;
    }
    var best := BestEligibleOffer(p, lines);
    var next := ApplyOffer(p, lines, if best.Some? then best.value.id else "", order.currency);
    next := next.(notes := notes + next.notes);
    if order.complement.Some? {
      next := next.(complement := order.complement);
    }
    var onOrder := PricesOnOrder(lines);
    var ok, _ := ValidatePaymentRequest(p, Some(next), Some(onOrder));
    swapped := if ok then Some(next) else None;
  }

  // ---- The price list read again at mint time -----------------------------------------------

  /** Fresh rows for the names on the order; nothing to compare with when the lookup fails or finds none. */
  function MintTrusted(cat: seq<Row>, lookupOk: bool, order: Order): Option<map<string, Row>> {
    var names := set li | li in order.lines && li.sku != "" :: li.sku;
    var trusted := TrustedFor(cat, names);
    if !lookupOk || trusted == map[] then None else Some(trusted)
  }
}
