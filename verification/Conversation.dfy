/** One customer thread as a state machine. A turn is triage, then the node it routes to, then the
    mint gate; payment webhooks and a colleague's release are separate events. The model is a source
    of arbitrary classifications, names and proposals, and any button may be tapped in any state. */
module Conversation {
  import opened Text
  import opened Catalogue
  import opened Discounts
  import opened Guardrails
  import opened Orders
  import opened Walkthrough

  datatype Settings = Settings(policy: Policy, maxHoldHours: real, maxFailures: int)

  datatype Archetype =
    | HighIntent | WindowShopper | ProblemSolver | Enterprise | PostSale | OutOfDomain
    | Greeting | Rewarm | Probe | Human | Malicious | Unlisted

  datatype Why = Requested | Upset | Safety | Technical | PaymentTrouble

  /** The order taps triage serves without a model. */
  datatype Tap = ApplyTap | AddTap | SwapTap | PassTap | QuoteTap

  /** The checkout fields. `taps` holds the request flags still standing. */
  datatype Sale = Sale(
    pending: Option<Order>, confirmed: bool, awaitingDetails: bool, linkSent: bool, taps: set<Tap>,
    stage: nat, saleKey: set<string>, name: string, paid: seq<Item>)

  /** Who owns the thread: this turn's decision, the sticky hold, whether the customer was told. */
  datatype Custody = Custody(needsHuman: bool, held: bool, notified: bool, heldSince: Option<real>, why: Option<Why>)

  datatype Chat = Chat(
    archetype: Option<Archetype>, technical: bool, humanAsks: int, lastSeen: Option<real>, specsUnavailable: bool)

  /** The fields of the conversation that code reads or writes to sell, charge or hand over. */
  datatype Conv = Conv(sale: Sale, custody: Custody, chat: Chat, failures: int)

  const FRESH: Conv := Conv(
    Sale(None, false, false, false, {}, 0, {}, "", []),
    Custody(false, false, false, None, None),
    Chat(None, false, 0, None, false), 0)

  // ---- What happens to a thread -------------------------------------------------------------

  type CustomerName = s: string | Trim(s) != "" witness "A"

  /** The reply to "what name should I put on the order?", read by code. */
  datatype Details = NameAndCity(name: CustomerName) | NameOnly(name: CustomerName) | NoDetails

  /** One inbound message: which of the button phrases it contains, whether it carries a postback, and
      what it says as an answer to the name question. Nothing stops a message containing several. */
  datatype Message = Message(
    confirm: bool, connectNow: bool, applyOffer: bool, addIt: bool, swapIt: bool, pass: bool, quoteNow: bool,
    bracket: bool, details: Details)

  /** A message that taps nothing and answers no question. */
  const PLAIN: Message := Message(false, false, false, false, false, false, false, false, NoDetails)

  datatype Classification = Classification(
    archetype: Archetype, frustrated: bool, wantsHuman: bool, affirmation: bool, technical: bool)

  datatype Reply = Reply(name: string, proposal: Proposal)

  /** A turn: the message, the clock, what each model call returned if anything, and how each call out
      of the system went. */
  datatype Turn = Turn(
    msg: Message, now: real, classified: Option<Classification>, specs: Option<bool>, reply: Option<Reply>,
    cat: seq<Row>, lookupOk: bool, mintCat: seq<Row>, mintLookupOk: bool,
    stateReadOk: bool, linkOk: bool, stateWriteOk: bool)

  datatype Event =
    | TurnEvent(turn: Turn)
    | PaidEvent(rowItems: seq<Item>)
    | DeclinedEvent(at: real)
    | ReleaseEvent(noteGiven: bool)

  datatype Node = Adversarial | Escalation | Sales(probe: bool)

  /** What one event did that the outside world can see. */
  datatype Log = Log(
    confirmTap: bool, taps: set<Tap>, node: Option<Node>, holdExpired: bool, announced: bool,
    shown: Option<Beat>, restarted: bool, unasked: bool,
    minted: bool, mintedName: string, mintedHeld: bool)

  const QUIET: Log := Log(false, {}, None, false, false, None, false, false, false, "", false)

  // ---- Triage -------------------------------------------------------------------------------

  function HeldHours(u: Custody, now: real): real {
    if u.heldSince.None? || u.heldSince.value == 0.0 then 0.0 else (now - u.heldSince.value) / 3600.0
  }

  predicate HoldExpired(s: Settings, u: Custody, now: real) {
    u.held && s.maxHoldHours > 0.0 && HeldHours(u, now) >= s.maxHoldHours
  }

  const UNHELD: Custody := Custody(false, false, false, None, None)

  /** The order-editing tap triage serves without a model, if the message carries one and there is an
      order for it to act on. The first match wins. */
  function ServedTap(v: Sale, m: Message): Option<Tap> {
    if m.confirm || m.connectNow || v.pending.None? then None
    else if m.applyOffer then Some(ApplyTap)
    else if m.addIt then Some(AddTap)
    else if m.swapIt then Some(SwapTap)
    else if m.pass then Some(PassTap)
    else if m.quoteNow then Some(QuoteTap)
    else None
  }

  function ServedTaps(v: Sale, m: Message): set<Tap> {
    if ServedTap(v, m).Some? then {ServedTap(v, m).value} else {}
  }

  predicate Resumable(a: Option<Archetype>) {
    a.Some? && a.value in {HighIntent, WindowShopper, ProblemSolver, Enterprise, PostSale}
  }

  predicate GhostReturn(h: Chat, now: real) {
    && h.lastSeen.Some? && now - h.lastSeen.value > 172800.0
    && h.archetype.Some? && h.archetype.value !in {Greeting, Human}
  }

  /** A bare greeting or affirmation resumes the thread it interrupts. */
  function Settle(h: Chat, k: Classification): Archetype {
    var resumed := if k.archetype == Greeting && Resumable(h.archetype) then h.archetype.value else k.archetype;
    if !k.affirmation then resumed
    else if Resumable(h.archetype) then h.archetype.value
    else if h.archetype.None? then Greeting
    else resumed
  }

  /** Escalate at once for anger or a critical classification, probe a first calm request for a
      person, escalate a second one in a row. */
  datatype Verdict = EscalateFor(why: Why) | ProbeFirst | Carry(archetype: Archetype)

  function Judge(u: Custody, h: Chat, k: Classification): Verdict {
    if k.frustrated then EscalateFor(Upset)
    else if Settle(h, k) == Human then EscalateFor(if u.held && u.why.Some? then u.why.value else Safety)
    else if !k.wantsHuman then Carry(Settle(h, k))
    else if h.humanAsks + 1 >= 2 then EscalateFor(Requested)
    else ProbeFirst
  }

  /** How triage disposes of a message. */
  datatype Disposal =
    | ButtonTap | ConnectTap | TriageFailed | GhostRewarm(technical: bool)
    | Judged(verdict: Verdict, technical: bool)

  /** The hold triage works from: an expired one has been let go. */
  function OpenCustody(s: Settings, u: Custody, now: real): Custody {
    if HoldExpired(s, u, now) then UNHELD else u
  }

  function Dispose(s: Settings, c: Conv, t: Turn): Disposal {
    if t.msg.confirm then ButtonTap
    else if t.msg.connectNow then ConnectTap
    else if ServedTap(c.sale, t.msg).Some? then ButtonTap
    else if t.classified.None? then TriageFailed
    else if GhostReturn(c.chat, t.now) then GhostRewarm(t.classified.value.technical)
    else Judged(Judge(OpenCustody(s, c.custody, t.now), c.chat, t.classified.value), t.classified.value.technical)
  }

  function TriagedSale(v: Sale, m: Message): Sale {
    v.(confirmed := m.confirm, taps := v.taps + ServedTaps(v, m))
  }

  /** Whom the message goes to and why, on top of the hold triage works from. */
  function Decided(u: Custody, d: Disposal): Custody {
    match d
    case ButtonTap => u.(needsHuman := false)
    case ConnectTap => u.(needsHuman := true, why := if u.why.Some? then u.why else Some(Requested))
    case TriageFailed => u.(needsHuman := true, why := Some(Technical))
    case GhostRewarm(_) => u.(needsHuman := false)
    case Judged(EscalateFor(why), _) => u.(needsHuman := true, why := Some(why))
    case Judged(_, _) => u.(needsHuman := false, why := if u.held then u.why else None)
  }

  /** The failed classification writes its own few fields, and not an expired hold's release. */
  function TriagedCustody(s: Settings, u: Custody, now: real, d: Disposal): Custody {
    Decided(if d.TriageFailed? then u else OpenCustody(s, u, now), d)
  }

  function TriagedChat(h: Chat, now: real, d: Disposal): Chat {
    var seen := h.(lastSeen := Some(now));
    match d
    case ButtonTap => seen.(archetype := Some(HighIntent), technical := false, humanAsks := 0)
    case ConnectTap => seen.(archetype := Some(Human), technical := false, humanAsks := 0)
    case TriageFailed => seen.(archetype := Some(Human))
    case GhostRewarm(technical) => seen.(archetype := Some(Rewarm), technical := technical)
    case Judged(EscalateFor(_), technical) => seen.(archetype := Some(Human), technical := technical, humanAsks := 0)
    case Judged(ProbeFirst, technical) =>
      seen.(archetype := Some(Probe), technical := technical, humanAsks := h.humanAsks + 1)
    case Judged(Carry(arch), technical) => seen.(archetype := Some(arch), technical := technical, humanAsks := 0)
  }

  function Triage(s: Settings, c: Conv, t: Turn): Conv {
    var d := Dispose(s, c, t);
    Conv(TriagedSale(c.sale, t.msg), TriagedCustody(s, c.custody, t.now, d), TriagedChat(c.chat, t.now, d), c.failures)
  }

  /** Whether this turn's triage lets an expired hold go. */
  predicate Expires(s: Settings, c: Conv, t: Turn) {
    HoldExpired(s, c.custody, t.now) && !Dispose(s, c, t).TriageFailed?
  }

  // ---- Routing ------------------------------------------------------------------------------

  predicate SellingArchetype(a: Archetype) {
    a in {HighIntent, WindowShopper, ProblemSolver, Enterprise, PostSale, OutOfDomain, Greeting, Rewarm}
  }

  /** Adversarial first, then a person's thread, then retrieval, then the archetype. */
  function Route(c: Conv): Node {
    var arch := c.chat.archetype;
    if arch == Some(Malicious) then Adversarial
    else if c.custody.needsHuman || c.custody.held then Escalation
    else if arch.Some? && SellingArchetype(arch.value) then Sales(false)
    else if arch == Some(Probe) && !c.chat.technical then Sales(true)
    else Escalation
  }

  /** Retrieval runs upstream of the archetype node and only ever writes whether specs were found. */
  predicate Retrieves(c: Conv) {
    c.chat.archetype != Some(Malicious) && !c.custody.needsHuman && !c.custody.held && c.chat.technical
  }

  function Retrieved(c: Conv, t: Turn): Chat {
    if Retrieves(c) && t.specs.Some? then c.chat.(specsUnavailable := t.specs.value) else c.chat
  }

  // ---- The nodes ----------------------------------------------------------------------------

  /** Announce the hand-over, or acknowledge while it lasts. A technical failure is announced but does
      not hold the thread. */
  function Escalated(u: Custody, now: real): Custody {
    if u.notified then u.(needsHuman := true, held := true)
    else
      var why := if u.why.Some? then u.why.value else Requested;
      var sticky := why != Technical;
      Custody(true, sticky, sticky, if sticky then Some(now) else None, Some(why))
  }

  /** Store an order and move the walkthrough to a beat: the only writer of the stage and the sale key.
      Every one of these is a re-pricing or a re-render, never an authorisation. */
  function Advanced(v: Sale, order: Order, stage: nat, beat: Beat): Sale {
    v.(pending := Some(order), stage := if stage < StageAfter(beat) then StageAfter(beat) else stage,
       saleKey := OrderKey(order), confirmed := false, linkSent := false, taps := {})
  }

  /** What a selling node did to the sale, and what it put on screen. */
  datatype Said = Said(sale: Sale, shown: Option<Beat>, restarted: bool, unasked: bool)

  function Silent(v: Sale): Said {
    Said(v, None, false, false)
  }

  function Show(v: Sale, order: Order, beat: Beat): Said {
    Said(Advanced(v, order, v.stage, beat), Some(beat), false, false)
  }

  predicate NamedOnFile(v: Sale) {
    Trim(v.name) != ""
  }

  /** The answer to the name question, then the city question: whichever way it completes, the link is
      authorised by the tap that asked. Nothing when the reply is not an answer. */
  function DetailsAnswered(v: Sale, m: Message): Option<Sale> {
    if NamedOnFile(v) then Some(v.(awaitingDetails := false, confirmed := true))
    else match m.details
      case NameAndCity(name) => Some(v.(name := name, awaitingDetails := false, confirmed := true))
      case NameOnly(name) => Some(v.(name := name, awaitingDetails := true, confirmed := true))
      case NoDetails => if m.bracket then Some(v.(awaitingDetails := true)) else None
  }

  function WithoutComplement(order: Order): Order {
    if order.lines != [] then order.(complement := None) else order
  }

  /** The standing tap the node answers: apply, add, swap, pass, quote, in that order. */
  function TapAnswered(p: Policy, v: Sale, t: Turn): Said
    requires v.pending.Some? && v.taps != {}
  {
    var order := v.pending.value;
    if ApplyTap in v.taps then
      var repriced := Repriced(p, order);
      if repriced.None? then Silent(v.(taps := v.taps - {ApplyTap})) else Show(v, repriced.value, Total)
    else if AddTap in v.taps then
      var added := Added(p, t.cat, t.lookupOk, order);
      if added.None? then Silent(v.(taps := v.taps - {AddTap}, pending := Some(WithoutComplement(order))))
      else Show(v, added.value, NextBeat(p, added.value, v.stage))
    else if SwapTap in v.taps then
      var swapped := Swapped(p, t.cat, t.lookupOk, order);
      var next := if swapped.Some? then swapped.value else order.(stepUp := None);
      Show(v, next, NextBeat(p, next, v.stage))
    else if PassTap in v.taps then Show(v, order, NextBeat(p, order, v.stage))
    else Show(v, order, Total)
  }

  /** The beat a model-built order is due. While the price question stands unanswered, a turn that did
      not ask in words holds the total back. */
  function ModelBeat(p: Policy, order: Order, stage: nat, asked: bool): Beat {
    var due := if asked then Total else NextBeat(p, order, stage);
    if due == Total && !asked && stage == StageAfter(PriceQuestion) then Hold else due
  }

  /** How much of one product the model proposes, case folded. */
  function ProposedQty(items: seq<Item>, key: string): int {
    if items == [] then 0
    else
      var item := items[|items| - 1];
      ProposedQty(items[..|items| - 1], key) +
      (if Key(item.sku) == key then (if item.qty == 0 then 1 else item.qty) else 0)
  }

  /** How much of one product was paid for; names differing only in case keep the last. */
  function PaidQty(paid: seq<Item>, key: string): int {
    if paid == [] then 0
    else if Key(paid[|paid| - 1].sku) == key then paid[|paid| - 1].qty
    else PaidQty(paid[..|paid| - 1], key)
  }

  predicate NamesSomething(items: seq<Item>) {
    exists i :: 0 <= i < |items| && Key(items[i].sku) != ""
  }

  /** Nothing proposed exceeds what was paid for, name by name. */
  predicate WithinPaid(items: seq<Item>, paid: seq<Item>) {
    forall i | 0 <= i < |items| && Key(items[i].sku) != "" ::
      ProposedQty(items, Key(items[i].sku)) <= PaidQty(paid, Key(items[i].sku))
  }

  predicate Reproposes(items: seq<Item>, paid: seq<Item>) {
    paid != [] && NamesSomething(items) && WithinPaid(items, paid)
  }

  /** The order a model turn builds, if it builds one. */
  ghost function ModelOrder(p: Policy, v: Sale, t: Turn): Option<Order> {
    if t.reply.None? then None
    else
      var pr := t.reply.value.proposal;
      if pr.items == [] || v.confirmed || Reproposes(pr.items, v.paid) then None
      else Built(p, t.cat, t.lookupOk, pr)
  }

  ghost function ModelAnswered(p: Policy, v: Sale, t: Turn): Said {
    if t.reply.None? then Silent(v)
    else
      var asked := t.reply.value.proposal.quoteRequested;
      var named := v.(name := if t.reply.value.name != "" then t.reply.value.name else v.name);
      var order := ModelOrder(p, v, t);
      if order.None? then Silent(named)
      else
        var restarted := IsNewSale(order.value, v.saleKey);
        var stage := if restarted then 0 else v.stage;
        var beat := ModelBeat(p, order.value, stage, asked);
        Said(Advanced(named, order.value, stage, beat), Some(beat), restarted, !asked)
  }

  predicate Asking(v: Sale) {
    v.awaitingDetails && v.pending.Some? && !v.linkSent
  }

  predicate ConfirmHeld(v: Sale) {
    v.confirmed && v.pending.Some? && !v.linkSent && !v.awaitingDetails
  }

  /** Which branch of the shared selling node answers: they are tried in this order. */
  datatype Branch = DetailsBranch | ConfirmBranch | TapBranch | NoSpecsBranch | ModelBranch

  function BranchOf(v: Sale, specsUnavailable: bool, m: Message): Branch {
    if Asking(v) && DetailsAnswered(v, m).Some? then DetailsBranch
    else if ConfirmHeld(v) then ConfirmBranch
    else if v.pending.Some? && v.taps != {} then TapBranch
    else if specsUnavailable then NoSpecsBranch
    else ModelBranch
  }

  ghost function Sold(p: Policy, v: Sale, specsUnavailable: bool, t: Turn): Said {
    match BranchOf(v, specsUnavailable, t.msg)
    case DetailsBranch => Silent(DetailsAnswered(v, t.msg).value)
    case ConfirmBranch => Silent(v.(awaitingDetails := !NamedOnFile(v)))
    case TapBranch => TapAnswered(p, v, t)
    case NoSpecsBranch => Silent(v)
    case ModelBranch => ModelAnswered(p, v, t)
  }

  /** A failed model call hands the thread over, except from the probe, which has its own reply. */
  predicate ModelFails(v: Sale, specsUnavailable: bool, t: Turn, probe: bool) {
    BranchOf(v, specsUnavailable, t.msg).ModelBranch? && t.reply.None? && !probe
  }

  ghost function NodeSaid(p: Policy, c: Conv, t: Turn): Said {
    if Route(c).Sales? then Sold(p, c.sale, Retrieved(c, t).specsUnavailable, t) else Silent(c.sale)
  }

  function NodeCustody(c: Conv, t: Turn): Custody {
    match Route(c)
    case Adversarial => c.custody.(needsHuman := false)
    case Escalation => Escalated(c.custody, t.now)
    case Sales(probe) =>
      if ModelFails(c.sale, Retrieved(c, t).specsUnavailable, t, probe)
      then c.custody.(needsHuman := true, why := Some(Technical)) else c.custody
  }

  function NodeChat(c: Conv, t: Turn): Chat {
    var chat := Retrieved(c, t);
    if Route(c).Sales? && BranchOf(c.sale, chat.specsUnavailable, t.msg).NoSpecsBranch?
    then chat.(specsUnavailable := false) else chat
  }

  // ---- The mint gate ------------------------------------------------------------------------

  predicate GateOpen(v: Sale, t: Turn) {
    t.stateReadOk && ConfirmHeld(v)
  }

  /** A link is made only for an order the gate accepts against freshly read prices. */
  predicate Mints(p: Policy, v: Sale, t: Turn) {
    && GateOpen(v, t)
    && Accepts(p, v.pending, MintTrusted(t.mintCat, t.mintLookupOk, v.pending.value))
    && t.linkOk
  }

  function AfterGate(p: Policy, v: Sale, t: Turn): Sale {
    if Mints(p, v, t) && t.stateWriteOk then v.(linkSent := true) else v
  }

  // ---- One event ----------------------------------------------------------------------------

  ghost function TurnTaken(s: Settings, c: Conv, t: Turn): (Conv, Log) {
    var d := Triage(s, c, t);
    var said := NodeSaid(s.policy, d, t);
    (Conv(AfterGate(s.policy, said.sale, t), NodeCustody(d, t), NodeChat(d, t), d.failures),
     Log(t.msg.confirm, ServedTaps(c.sale, t.msg), Some(Route(d)), Expires(s, c, t),
         Route(d) == Escalation && !d.custody.notified,
         said.shown, said.restarted, said.unasked,
         Mints(s.policy, said.sale, t), said.sale.name, d.custody.held))
  }

  /** What was bought, from the audit row: quantities of one name added up. */
  function PaidTotal(rowItems: seq<Item>, sku: string): int {
    if rowItems == [] then 0
    else
      var item := rowItems[|rowItems| - 1];
      PaidTotal(rowItems[..|rowItems| - 1], sku) +
      (if Trim(item.sku) == sku then (if item.qty < 1 then 1 else item.qty) else 0)
  }

  function PaidLineItems(rowItems: seq<Item>): seq<Item> {
    var names := Distinct(rowItems);
    seq(|names|, i requires 0 <= i < |names| => Item(names[i], PaidTotal(rowItems, names[i])))
  }

  /** A settled order stops being a pending one, whichever of its events arrives. */
  function Paid(c: Conv, rowItems: seq<Item>): Conv {
    c.(sale := c.sale.(pending := None, confirmed := false, paid := PaidLineItems(rowItems)), failures := 0)
  }

  /** Declines are nudged until the limit; then a person takes the thread. */
  function Declined(s: Settings, c: Conv, at: real): Conv {
    var count := c.failures + 1;
    if count < s.maxFailures then c.(failures := count)
    else c.(failures := count, custody := Custody(true, true, true, Some(at), Some(PaymentTrouble)))
  }

  function Released(c: Conv, noteGiven: bool): Conv {
    if !c.custody.held || !noteGiven then c else c.(custody := UNHELD, failures := 0)
  }

  ghost function Step(s: Settings, c: Conv, e: Event): (Conv, Log) {
    match e
    case TurnEvent(t) => TurnTaken(s, c, t)
    case PaidEvent(rowItems) => (Paid(c, rowItems), QUIET)
    case DeclinedEvent(at) => (Declined(s, c, at), QUIET)
    case ReleaseEvent(noteGiven) => (Released(c, noteGiven), QUIET)
  }
}
