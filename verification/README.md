# A WhatsApp sales agent: money, conversation and retrieval, modelled and proved

The agent sells over WhatsApp. A language model writes the words and proposes products, quantities, an
offer and suggestions; ordinary code prices the order, walks the customer to a total, asks for a name,
makes a payment link, hands the thread to a person and keeps the product documents searchable. This
project models that ordinary code and proves what it keeps, whatever the language model returns, whatever
button is tapped in whatever state, and however concurrent workers interleave. `dafny verify
dfyconfig.toml` checks all of it.

The model is a source of arbitrary values. A turn carries the message, what each model call returned (or
that it failed), the catalogue as read in that turn, and whether each call out of the system succeeded.
Amounts are real numbers of paise; `Round2` is the nearest paisa, half up, and where prices must be whole
paise for a law to hold the law says so. Offer registries, upgrade pairs, ceilings and amount limits are
parameters; `SHIPPED` holds the shipped ladder.

How the files fit together:

- `Text`, `Rounding`: stripping, case folding and product-name keys; rounding to the paisa.
- `Catalogue`, `Discounts`, `Guardrails`, `Orders`: resolving names, pricing lines, applying offers, the
  independent payment gate, and building and editing the pending order. Each loop of the program is a
  method proved against a specification function. `Money`, `LadderTheorems`, `CatalogueTheorems` and
  `OrderTheorems` say what those functions mean, on the figures, names and lines alone.
- `Walkthrough`, `Conversation`, `Runs`: the thread as a state machine: triage, routing, the nodes, the
  mint gate, payment events, a colleague's release; then histories and the invariants of every run.
  `RunTheorems`, `WalkTheorems`, `HoldTheorems` and `PaymentTheorems` hold the promises over runs,
  `TapTheorems` what each button does and when it goes through, `SuggestionTheorems` what a stored
  suggestion is, `CardTheorems` which card a sale is owed, `TurnTheorems` what one turn does on the fields
  it reads, and `Progress` that sales do get made. `Threads.Thread` is the conversation as the program keeps
  it, an object its handlers update in place: each handler is proved to take exactly the machine's step
  and to keep the invariants.
- `Redis`, `Mutex`, `Delivery`, `DeliveryTheorems`, `PaidSequence`: the commands workers coordinate by, the
  conversation mutex, the claim-before-send protocol and the two messages of a payment as interleaved steps.
- `Grouping`, `Chunking`, `Ingestion`, `IngestionTheorems`: cutting documents into parent and child
  chunks and re-ingesting them. `Fusion`, `FusionTheorems`, `SearchTheorems`, `LexicalTerms`,
  `TermTheorems`: ranking, what a search answers, and query concepts.

Where the code and its own text disagree, the code is followed. The pairing card says one more product
earns the tier: true exactly when the nearest tier is one product away (or a spend threshold is crossed).
The gate is described as exact to the paisa: each of its checks tolerates one, so the bound is a slack.
An add or swap tap is described as leaving the other lines alone: it re-prices them from their rounded unit
prices, which changes a total only where a catalogue price has a fraction of a paisa. A re-proposal of a
paid order is described as refused: it is compared as the model spells it with the catalogue's names and
capped quantities, so another spelling or a quantity over the cap is quoted again. A send is described as
recorded only when it happened: a reply other than a readable 200 to a message that got through, such as a
read that times out, is treated as a failure, and the message goes out again.

## Model

| member | source | states |
|---|---|---|
| Catalogue.GetProductPricesBatch | src/logic/pricing.py:80-165 | every requested name gets a result, and it is the resolution of that name: exact, then normalised, then longest contained name, never a guess between two rows |
| Catalogue.ResolveIsUnambiguous | src/logic/pricing.py:97-165 | a resolved row is a catalogue row and is the only row under its normalised name or its exact one |
| Catalogue.CanonicalNameResolvesToItself | src/logic/pricing.py:97-132 | with unique names, a catalogue row's own name resolves to that row |
| CatalogueTheorems.LookupGivesTheLongestName | src/logic/pricing.py:134-165 | a name no row carries, with some row's letters and digits inside its own, is given the row of the longest such name, the first of its length in row order; nothing when another row is spelled alike |
| CatalogueTheorems.LookupMissesTheRest | src/logic/pricing.py:134-165 | with no row's letters and digits inside it, a name is given nothing |
| CatalogueTheorems.LookupNeverGuesses | src/logic/pricing.py:134-165 | a name spelled as two rows alike is given nothing |
| CatalogueTheorems.VerbatimNameGivesItsLastRow | src/logic/pricing.py:97-132 | a name carried verbatim is given that row, the last of them if several carry it |
| CatalogueTheorems.DescribedNameResolves | src/logic/pricing.py:137-150 | words around a product name do not hide it |
| Discounts.MergeItems | src/logic/discounts.py:289-304 | mentions of one stripped name become one entry in first-mention order, each mention clamped on its own and added up |
| Discounts.PriceLineItems | src/logic/discounts.py:275-331 | one line per distinct priced name at catalogue prices, the unpriced names reported exactly, and the audit notes of clamping, merging and dropping |
| Money.NamesStandAsFirstMentioned | src/logic/discounts.py:289-304 | lines stand in the order their names are first mentioned |
| LadderTheorems.PricingNotesSayWhich | src/logic/discounts.py:289-331 | the notes name exactly the products with a mention over the cap, those that came to more than it, and whether any name had no price |
| Discounts.ApplyOffer | src/logic/discounts.py:334-409 | the order carries the granted percentage of the product value only, its totals, and its notes, for any offer id |
| LadderTheorems.OfferNotesSayWhy | src/logic/discounts.py:347-400 | the notes say exactly why an offer was not granted in full: too few products, else too little spend, or the ceiling; and when installation was left out of it |
| Discounts.BestEligibleOffer | src/logic/discounts.py:432-455 | the first offer of the highest clamped percentage among those the order qualifies for |
| Discounts.AvailableOfferPreview | src/logic/discounts.py:517-545 | the preview is what applying the best offer would give, and absent when it saves nothing |
| Discounts.NextOfferHint | src/logic/discounts.py:458-514 | the hint is the better tier that takes least effort |
| Guardrails.ValidatePaymentRequest | src/core/guardrails.py:93-208 | accepts exactly when the order has lines, every line is arithmetically right and agrees with the trusted price, totals re-derive, the percentage is within the ceiling and the amount within the window; refuses with at least one reason otherwise |
| Guardrails.AcceptedOrderAddsUp | src/core/guardrails.py:93-208 | an accepted order is in rupees or names no currency, has possible quantities and prices, and its line totals, subtotal, discount and amount are those of its lines, each to the paisa; its amount is in the window |
| Guardrails.AcceptedAmountIsNearCatalogue | src/core/guardrails.py:127-208 | any accepted order's amount is catalogue product value less its percentage plus full installation, within a slack linear in quantity and lines, and the percentage is within the ceiling up to the gate's own tolerance |
| Money.BuiltOrderAcceptedExactlyInWindow | src/logic/discounts.py:275-409 | in whole paise, an order built by line pricing and any offer id passes the gate if and only if it has a line and its amount is in the window; the amount lies between installation and subtotal |
| Money.FractionalPriceIsRefused | src/core/guardrails.py:127-165 | whole paise are needed: a price with a fraction of a paisa builds an order the gate refuses |
| Money.BestOfferIsGrantedAndUnbeaten | src/logic/discounts.py:334-455 | the best offer is at least every eligible one, its id is granted exactly that percentage and the previewed saving, and no other id buys more |
| Money.MoreLinesKeepTheOffer | src/logic/discounts.py:432-455 | adding lines never lowers the best percentage |
| Money.TierIsKeptOnEveryLadderExactly | src/logic/discounts.py:432-455 | an order with no fewer lines keeps its percentage on every ladder if and only if it is worth no less |
| LadderTheorems.NamedOfferIsGrantedExactly | src/logic/discounts.py:347-395 | an offer named by its id buys its percentage or the ceiling where the order has the products and spend it asks for, and nothing where not |
| LadderTheorems.OfferIdIgnoresCase | src/logic/discounts.py:347 | spelling an id in other cases names the same offer |
| LadderTheorems.BestIsTheFirstOfTheHighest | src/logic/discounts.py:432-455 | the best offer is the first in the registry of the highest percentage the order qualifies for |
| LadderTheorems.HintIsTheNearestReachable | src/logic/discounts.py:458-514 | on the registry's figures: a hint is given exactly when a better offer is short of products alone or spend alone by no more than the order has, and it is the nearest, then the best, of these |
| OrderTheorems.TrailIsSilentExactlyWhenAsAsked | src/logic/discounts.py:289-409 | a built order's audit trail is silent if and only if every name was priced, every quantity kept and the named offer granted in full on everything charged |
| Money.HintOfIsNearest | src/logic/discounts.py:458-514 | no candidate tier takes less effort than the hint |
| Money.PairingPromiseKeptExactly | src/logic/discounts.py:802-862 | one more product earns the promised percentage if and only if, the spend rising, the nearest tier is one product away or a spend threshold is crossed; the spend not rising, some offer as good already fits |
| Money.TwoShortIsPromisedAndBroken | src/logic/discounts.py:458-514 | a ladder and an order where the card promises ten percent for one more product and it earns nothing |
| Money.ShippedLadderKeepsItsPromise | src/logic/discounts.py:38-75 | on the shipped ladder the pairing card's promise is always kept |
| Orders.BuildPendingOrder | src/graph/nodes/sales.py:758-884 | a proposal becomes the priced, gated order with its validated suggestions, or nothing: no line, failed lookup, nothing priced, or refused |
| Orders.RepriceWithBestOffer | src/graph/nodes/sales.py:1073-1128 | the same lines at the best offer, gated against their own unit prices, or nothing |
| Orders.AddComplement | src/graph/nodes/sales.py:1131-1258 | the order enlarged by one unit of the suggestion at its catalogue price and the best offer, or nothing |
| Orders.SwapUpgrade | src/graph/nodes/sales.py:1261-1372 | the order with the dearer model in the named line, at the best offer, or nothing |
| OrderTheorems.PayableOrderMints | src/tasks/processing.py:309-321 | a payable order passes the gate again at mint time, whether the fresh lookup succeeds or not |
| OrderTheorems.BuiltOrderIsPayable | src/graph/nodes/sales.py:758-884 | whatever is proposed, a built order carries catalogue prices and passes the gate against the catalogue |
| OrderTheorems.RepricedOrderIsPayable | src/graph/nodes/sales.py:1073-1128 | the apply tap keeps the order payable |
| OrderTheorems.AddedOrderIsPayable | src/graph/nodes/sales.py:1131-1258 | the add tap keeps the order payable |
| OrderTheorems.SwappedOrderIsPayable | src/graph/nodes/sales.py:1261-1372 | the swap tap keeps the order payable |
| OrderTheorems.AddTapAppendsOneLine | src/graph/nodes/sales.py:1190-1258 | a successful add tap appends exactly one line, one unit at the catalogue price; every other line keeps name, quantity and unit prices, its total their exact product |
| OrderTheorems.RelinedExactlyWhenTight | src/graph/nodes/sales.py:1190-1258 | re-pricing leaves the stored lines as they were if and only if every total already was its unit prices times its quantity |
| OrderTheorems.FractionalLineIsRelined | src/core/guardrails.py:127-165 | a price with a fraction of a paisa builds a line the gate accepts and the next tap changes |
| OrderTheorems.AddTapEarnsThePromisedTier | src/graph/nodes/sales.py:1131-1258 | the add tap keeps the percentage where the spend does not fall, and earns the promised one exactly when the card's word can be kept |
| OrderTheorems.DearSuggestionRaisesSpend | src/graph/nodes/sales.py:1131-1258 | a suggestion that costs more than a paisa for each line on the order raises the spend |
| OrderTheorems.CheapSuggestionCostsTheTier | src/graph/nodes/sales.py:1131-1258 | fractional lines and a one-paisa suggestion with which the spend and the tier fall |
| OrderTheorems.SwapTapReplacesOneLine | src/graph/nodes/sales.py:1261-1372 | a successful swap changes exactly one line, at the same quantity; every other line keeps name, quantity and unit prices |
| SuggestionTheorems.StepUpIsKeptExactly | src/graph/nodes/sales.py:595-725 | a built order carries a step-up if and only if the model's choice is a catalogue row on no line, registered for the product its replaced name means, which an order line holds, dearer, unseen and with a benefit; and then the card's figure is the difference over that line |
| SuggestionTheorems.ComplementIsKeptExactly | src/graph/nodes/sales.py:533-592 | a built order suggests a product if and only if it is a catalogue row on no line and the nearest better offer is some products away |
| SuggestionTheorems.KeptSuggestionsHaveTheirCards | src/graph/nodes/sales.py:758-884 | whatever suggestion is kept has a card to show for it |
| SuggestionTheorems.StepUpInStateIsRegistered | src/logic/discounts.py:116-130 | on every run over names spelled apart, a step-up in state is the registry's for a product on the order, at the catalogue's difference |
| SuggestionTheorems.SwapsFollowTheRegistry | src/graph/nodes/sales.py:1261-1372 | on every run, a swap button never puts a product in the place of another but its registered step-up |
| TapTheorems.ApplyTapGoesThroughExactly | src/graph/nodes/sales.py:1073-1128 | in whole paise, the apply tap goes through if and only if some offer is earned and the amount may be charged |
| TapTheorems.ApplyTapChangesTheMoneyOnly | src/graph/nodes/sales.py:1073-1128 | the apply tap keeps lines and suggestions and leaves the best percentage earned |
| TapTheorems.AddTapGoesThroughExactly | src/graph/nodes/sales.py:1131-1258 | in whole paise, the add tap goes through if and only if the catalogue answers, the suggestion is its product and on no line, no product is on two, and the amount may be charged |
| TapTheorems.SwapTapGoesThroughExactly | src/graph/nodes/sales.py:1261-1372 | in whole paise, the swap tap goes through if and only if the catalogue has the model, one line alone is under the replaced name, no other names the model, and the amount may be charged |
| TapTheorems.SwapTapKeepsTheSuggestion | src/graph/nodes/sales.py:1261-1372 | a swap spends the step-up, keeps the suggestion and leaves the best percentage earned |
| Walkthrough.GrowingAnOrderIsTheSameSale | src/graph/nodes/sales.py:926-937 | an order sharing a product with the one being walked never restarts the walkthrough |
| Runs.EveryRunKeepsInv | src/graph/nodes/sales.py:906-1070 | on every run: links within confirm taps, stored key is the stored order's, beats climb and show once each per sale, held and notified agree, one announcement a hold |
| Runs.StepKeepsInv | src/graph/nodes/sales.py:1020-1070 | every event keeps all of those together, from any state that has them |
| Runs.TurnKeepsTapsCoverLinks | src/graph/nodes/sales.py:1754-1869 | the name and city questions pass one authorisation on and never make another |
| Runs.TurnKeepsWalkedInOrder | src/graph/nodes/sales.py:1874-1897 | step-up, pairing and price question are shown in that order, each at most once between restarts |
| Runs.TurnKeepsHoldAnnouncedOnce | src/graph/nodes/triage.py:418-472 | held and told stay one thing through triage and escalation |
| RunTheorems.LinksNeverOutnumberConfirmTaps | src/tasks/processing.py:637-647 | on every run, links never outnumber confirm taps, and none is made without a name on a thread nobody holds |
| RunTheorems.HeldThreadMintsWithoutName | src/graph/workflow.py:41-42 | the exception is real: a confirm tap on a held thread makes a link with no name on file |
| RunTheorems.PendingOrderIsAlwaysPayable | src/graph/nodes/sales.py:758-1372 | for a fixed catalogue with unique names, after every run the order in state is absent or payable |
| RunTheorems.ConfirmedOrderIsNeverRefused | src/tasks/processing.py:309-321 | after every run, an open gate and a working payment service always make the link |
| PaymentTheorems.NothingIsSoldTwice | src/tasks/processing.py:1071-1079 | after a payment no sequence of events makes a link until the model proposes a name, as it spells it, or a quantity beyond what was paid |
| PaymentTheorems.PaymentIsRememberedExactly | src/tasks/processing.py:817-841 | a payment is remembered if and only if its audit row kept a name |
| PaymentTheorems.MentionsCount | src/tasks/processing.py:817-841 | a mention on the audit row counts for what it says, at least one; in a proposal, none is read as one |
| PaymentTheorems.TurnAfterPayment | src/graph/nodes/sales.py:2013-2041 | the next plain turn puts the proposed order back exactly when it is not recognised as paid for, and a row that names nothing has nothing to recognise |
| PaymentTheorems.PaidOrderIsRecognised | src/graph/nodes/sales.py:728-755 | the lines of a paid order, proposed again as they were, are recognised as already bought |
| PaymentTheorems.PaidProposalIsRecognisedExactly | src/graph/nodes/sales.py:728-755 | over a catalogue in which no two names share their letters and digits, the proposal that built a paid order, made again, is recognised if and only if each name asked for is spelled as the catalogue spells it and asked for no more often than the order holds it |
| PaymentTheorems.PaidProposalIsRecognisedWithinTheCap | src/graph/nodes/sales.py:728-755 | with each product on one line: if and only if each name asked for is spelled out and asked for within the quantity cap |
| PaymentTheorems.RespelledIsNotRecognised | src/graph/nodes/sales.py:747-755 | a product proposed under a spelling that folds otherwise than the name it was paid under is not recognised |
| PaymentTheorems.ClosedUpNameResolves | src/logic/pricing.py:21-31 | a two-word name closed up is such a spelling, and resolves to the product |
| PaymentTheorems.OverCapIsNotRecognised | src/graph/nodes/sales.py:747-755 | a quantity over the cap, paid for at the cap, is not recognised on being asked for again |
| HoldTheorems.HeldTurnEscalates | src/graph/workflow.py:24-42 | a turn on a held thread goes to escalation unless adversarial, sells nothing and keeps the hold |
| HoldTheorems.HoldLastsUntilReleased | src/services/handoff_control.py:139-186 | a hold survives every turn, payment and decline until a release with a note or the limit, and is not announced again |
| HoldTheorems.HoldEndsExactly | src/graph/nodes/triage.py:41-60 | on every run a hold ends at an event if and only if it is a release with a note, or a turn past the limit that triage can place and that does not itself go to a person |
| HoldTheorems.SecondCalmAskEscalatesExactly | src/graph/nodes/triage.py:205-247 | on every run a calm request goes to a person if and only if it is the second, fourth and so on since the last turn that was anything else, failed classifications and ghost returns not counting |
| HoldTheorems.DeclinesEscalateExactlyAtTheLimit | src/tasks/processing.py:715-800 | on every run a decline hands the thread over if and only if it reaches the limit since the last payment or release |
| TurnTheorems.HoldRunsOutInHours | src/graph/nodes/triage.py:38-44 | a hold runs out when as many hours as the limit have passed since it began, and never without a limit or a beginning |
| TurnTheorems.HoldBeginsExactly | src/graph/nodes/triage.py:418-472 | a turn begins a hold if and only if it goes to a person for anything but a fault of the agent's own; the customer is told and the clock starts |
| TurnTheorems.TypedMessageIsPlaced | src/graph/nodes/triage.py:168-245 | anger, a critical matter and a second calm request go to a person; a first calm request is met with a question; the rest carries on, a greeting or plain ok as what was in progress |
| TurnTheorems.LongAbsenceIsTakenUpAgain | src/graph/nodes/triage.py:155-166 | more than two days away, a thread that had got somewhere is taken up warmly |
| TurnTheorems.WhoAnswers | src/graph/workflow.py:24-88 | adversarial first, then a person's thread and what no agent answers, a technical probe among them, then the agent |
| TurnTheorems.FailedReplyIsAFault | src/graph/nodes/sales.py:1745-2172 | a failed model call hands the turn over for a fault, except from the probe |
| TurnTheorems.MissingSpecsAreAdmittedOnce | src/graph/nodes/sales.py:1905-1928 | a question whose specifications cannot be found is answered without the model, once |
| TurnTheorems.NameAloneAsksForTheCity | src/graph/nodes/sales.py:1799-1807 | a name alone is kept and the city asked for, with no link yet |
| TurnTheorems.AnyReplyIsTheCity | src/graph/nodes/sales.py:1766-1779 | any reply after that is taken for the city, and a link is made if gate and service allow |
| TurnTheorems.LinkNeedsAllOfThis | src/tasks/processing.py:297-360 | a link needs an order confirmed and in state, no question open, no link before it, the state read and the service answering |
| TurnTheorems.LinkIsMadeAtFreshPrices | src/tasks/processing.py:309-321 | a link is made only while every line still costs what it says, unless the read failed or knew no name |
| WalkTheorems.FirstTotalIsAskedFor | src/graph/nodes/sales.py:2057-2078 | a sale's first total is shown only for a quote or apply tap, an explicit request, or a walkthrough tap while the price question stands |
| WalkTheorems.UnaskedTurnNeverShowsFirstTotal | src/graph/nodes/sales.py:2057-2078 | a model turn that was not asked shows a total only in a sale that already had one |
| WalkTheorems.QuoteTapShowsTotalUnlessDiverted | src/graph/nodes/sales.py:1889-1897 | the quote tap shows the total in its own turn exactly when nobody holds the thread and the name question does not take the message |
| WalkTheorems.StandingQuoteTapShowsTotalLater | src/graph/nodes/sales.py:1056-1070 | a request left standing is honoured by the next plain turn |
| WalkTheorems.PassTapShowsUnlessDiverted | src/graph/nodes/sales.py:1884-1897 | a pass tap is answered in its own turn exactly when nobody holds the thread and no open question takes the message |
| WalkTheorems.PassTapsReachTheTotalExactly | src/graph/nodes/sales.py:940-955 | on every run, no hold running out meanwhile, enough pass buttons reach the total if and only if nobody holds the thread and no name question is open; enough is one for each beat not reached and one for each apply or add request or city question standing |
| WalkTheorems.NameQuestionSwallowsEveryPass | src/graph/nodes/sales.py:1808-1822 | with the name question open no number of pass buttons reaches a total |
| WalkTheorems.CityQuestionTakesAPassForConsent | src/graph/nodes/sales.py:1766-1779 | with a name on file the same button is taken for the city: it confirms, and a link is made if the gate and the service allow |
| RunTheorems.AddTurnAppendsOrLeaves | src/graph/nodes/sales.py:1148-1258 | a turn with the add button appends exactly the suggested product or leaves the lines, and without a standing apply request the amount too |
| RunTheorems.AddTapOnEveryRun | src/graph/nodes/sales.py:1131-1258 | on every run over unique names, a turn with the add button appends exactly the suggested product or leaves the lines, and costs no tier where the spend does not fall |
| TapTheorems.EachButtonRaisesItsRequest | src/graph/nodes/triage.py:62-143 | on the message's own fields: with an order in state the first of apply, add, swap, pass and quote raises its request and no other; none with no order, or with confirm or connect; nothing else of the sale changes |
| TapTheorems.ButtonIsServed | src/graph/nodes/sales.py:1871-1897 | in its own turn the button leaves the re-priced, enlarged or swapped order, or the order with the suggestion it could not take put away |
| TapTheorems.ServedRequestIsSpent | src/graph/nodes/sales.py:1073-1372 | a request once served does not stand |
| TapTheorems.SwapTapOnEveryRun | src/graph/nodes/sales.py:1261-1372 | on every run, a turn with the swap button puts the dearer model in place of exactly one line or leaves the lines; a standing add comes first |
| TapTheorems.ApplyTurnChangesTheMoneyOnly | src/graph/nodes/sales.py:1073-1128 | a turn with the apply button changes no line or suggestion, and shows a total only at the best percentage earned |
| WalkTheorems.RestartsOnlyForANewSale | src/graph/nodes/sales.py:2041-2052 | on every run, the stage falls only at a restart, and a restart needs an order that shares no product with the one in state |
| CardTheorems.ModelTurnShowsWhatIsOwed | src/graph/nodes/sales.py:2041-2078 | on every run, a model turn shows the total if asked, nothing while the price question stands, and otherwise what the sale is owed: the step-up card while nothing has been shown, then the pairing card, the question when no card is owed |
| CardTheorems.PassTapShowsWhatIsOwed | src/graph/nodes/sales.py:940-955 | on every run, a pass button is answered with the very card, question or total the sale is owed |
| CardTheorems.EditTapShowsWhatIsOwed | src/graph/nodes/sales.py:1131-1372 | so is an add that goes through or a swap, on the order it leaves |
| CardTheorems.ShownOrderAwaitsItsConfirmation | src/graph/nodes/sales.py:1020-1070 | a turn that shows or stores an order leaves no confirmation, request or link standing, and makes none |
| ProgressTheorems.ProposalBecomesAnOrderExactly | src/graph/nodes/sales.py:758-884 | in a whole-paise catalogue, a proposal becomes an order if and only if something in it has a price and its total is in the window |
| ProgressTheorems.ConfirmTapMintsExactlyWhenNamed | src/graph/nodes/sales.py:1829-1869 | when all calls go well, a confirm tap on a payable order makes the link at once if and only if a name is on file, and otherwise asks and keeps order and tap |
| ProgressTheorems.NameAndCityCompleteTheTap | src/graph/nodes/sales.py:1781-1797 | name and city in one reply the agent answers complete the tap, whatever it is classified as: one link, in that name |
| ProgressTheorems.ASaleRunsToItsLink | src/tasks/processing.py:637-647 | ask, tap, answer: three turns make exactly one link, for the order built, in the customer's name |
| Threads.Thread.OnMessage | src/tasks/processing.py:430-647 | one inbound message takes exactly the machine's turn, in place, and keeps every invariant |
| Threads.Thread.TriageMessage | src/graph/nodes/triage.py:30-262 | triage's branches in order: hold release, taps, failed classification, ghost return, judgement |
| Threads.Thread.Answer | src/graph/workflow.py:24-102 | the routed node runs and changes what that node changes |
| Threads.Thread.Escalate | src/graph/nodes/triage.py:418-472 | full announcement once, acknowledgement after; a technical failure does not hold the thread |
| Threads.Thread.Sell | src/graph/nodes/sales.py:1745-2172 | the shared selling node's branches, in order |
| Threads.Thread.TakeDetails | src/graph/nodes/sales.py:1754-1822 | the name question, then the city question, on the same authorisation |
| Threads.Thread.AnswerTap | src/graph/nodes/sales.py:1871-1897 | the standing tap is answered: apply, add, swap, pass, quote |
| Threads.Thread.AnswerModel | src/graph/nodes/sales.py:2013-2079 | a model reply stores the order it builds and shows the beat that is due |
| Threads.Thread.MintGate | src/tasks/processing.py:297-360 | a link is made only for an accepted order, and marked only if the state write went through |
| Threads.Thread.OnPaid | src/tasks/processing.py:1060-1079 | a paid event clears the order and remembers what was bought |
| Threads.Thread.OnDeclined | src/tasks/processing.py:715-814 | declines count, and at the limit a person takes the thread |
| Threads.Thread.OnRelease | src/services/handoff_control.py:139-186 | a release needs a hold and a note, and clears the hold |
| Threads.ReproposesPaidOrder | src/graph/nodes/sales.py:728-755 | true exactly when something is named and nothing exceeds what was paid, name by name |
| Threads.CountPaid | src/tasks/processing.py:817-841 | the paid quantities of each stripped name, added up, at least one a mention |
| Redis.DistinctBubblesHaveDistinctKeys | src/storage/cache.py:75-77 | two messages never share a claim's text, though webhook ids may contain colons |
| Redis.CacheService.AcquireLock | src/storage/cache.py:24-35 | the lock is taken exactly when nobody has it, under a value never used before |
| Redis.CacheService.ReleaseLock | src/storage/cache.py:37-43 | compare and delete |
| Redis.CacheService.CheckAndSetIdempotency | src/storage/cache.py:45-54 | new exactly when no claim stands; the claim lasts a day |
| Redis.CacheService.ReleaseIdempotency | src/storage/cache.py:56-72 | the claim is deleted if the server could be reached |
| Redis.CacheService.KeepAlive | src/tasks/processing.py:252-260 | the lock's life is renewed whoever holds it |
| Mutexes.AtMostOneWorker | src/tasks/processing.py:465-479 | over every interleaving in which each holder refreshes within the lock's life, at most one worker per conversation |
| Mutexes.ExclusionIsLostExactly | src/tasks/processing.py:252-260 | a step loses exclusion if and only if it takes a lock that ran out under a worker still at work |
| Mutexes.StallLosesExclusion | src/tasks/processing.py:252-260 | a thirty-second stall is enough: a run that ends with two workers |
| Mutexes.LateReleaseFreesNobodyElse | src/storage/cache.py:37-43 | with no timing assumption, a late release leaves another worker's lock as it is |
| Mutexes.OnlyTheOwnerReleases | src/storage/cache.py:9-17 | with no timing assumption, only the owner's own release frees or re-assigns a live lock |
| Mutexes.AbandonedLockIsTakenOver | src/storage/cache.py:24-35 | a dead worker's lock is free after thirty seconds |
| Mutexes.PollForLock | src/tasks/processing.py:465-479 | the lock is had exactly when one of thirty attempts finds it free, at the first such |
| Delivery.PostWithRetries | src/services/whatsapp.py:252-298 | which attempt ended the loop and how: retried only while worth retrying, delivered only on a readable 200 |
| Delivery.FirstReplyDecides | src/services/whatsapp.py:252-298 | by status: a readable 200 delivers, an unreadable one and a refusal end the send, a timeout, a busy or failing server and any other success are tried again |
| Delivery.RaisedWasTakenExactlyInDoubt | src/services/whatsapp.py:272-298 | a send that raised was taken all the same if and only if one of its attempts was taken unknown to the sender |
| Delivery.DispatchMessage | src/services/whatsapp.py:144-250 | nothing is sent on a standing claim; the claim stays after a delivery and goes back after a failure if deletable |
| DeliveryTheorems.DispatchIsItsSteps | src/services/whatsapp.py:144-250 | what one dispatch does to the server is what its interleavable steps do |
| DeliveryTheorems.OneSenderAtATime | src/services/whatsapp.py:161-166 | whatever the responses, over every interleaving whose sends finish within a day no two workers send one message at once |
| DeliveryTheorems.TakenOnceADay | src/storage/cache.py:45-54 | where nothing is taken unknown to its sender, two taken sends of one message were claimed a day apart |
| DeliveryTheorems.TakenAtMostOnce | src/services/whatsapp.py:161-166 | from any state with no send in progress and for a day from then, no message is taken twice unless one is taken unknown to its sender; no timing assumption |
| DeliveryTheorems.FailedSendIsFreeAgain | src/services/whatsapp.py:241-250 | whatever the responses, after a failed send the next worker can send exactly when the deletion went through |
| DeliveryTheorems.RepeatsExactlyWhenDoubtful | src/services/whatsapp.py:20-26 | a taken message may be taken again within the day if and only if its sender could not tell: a timeout or dropped connection, an error status, another success code, an unreadable 200 |
| PaidSequence.PaymentIsToldInOrder | src/tasks/processing.py:923-974 | from any state in which a payment has not been told and for a day from then, over every interleaving of its events: celebration before receipt, each at most three times, at most once where nothing is taken unknown to its sender |
| PaidSequence.PaymentIsTold | src/tasks/processing.py:923-974 | and told it is: an event whose worker meets no fault tells the customer both, the celebration first |
| Grouping.GroupSmallSections | src/rag/embeddings.py:75-109 | the groups are the sections in order, allowed (one section, or short ones of one product line within budget), and no allowed grouping has fewer |
| Grouping.GreedyStaysAhead | src/rag/embeddings.py:92-109 | any other allowed grouping has more groups, or as many with a last group at least as long |
| Chunking.SharedMetadata | src/rag/embeddings.py:112-133 | the merged metadata, key by key |
| Chunking.SharedIsAgreement | src/rag/embeddings.py:112-133 | a merged parent says a key and value exactly when every section does |
| Chunking.SplitToParentChild | src/rag/embeddings.py:136-257 | the chunk list, parent before its children |
| Chunking.MergedParentFits | src/rag/embeddings.py:192-225 | merging never makes a parent that must be cut again |
| Chunking.DocumentChunksAreSound | src/rag/embeddings.py:227-257 | every child is a piece of a parent chunk in the list, and every chunk carries the document's file |
| Chunking.EverySectionIsIndexed | src/rag/embeddings.py:217-257 | a section that fits keeps its text whole in one parent and its pieces under its own headers |
| Chunking.OversizedSectionIsCut | src/rag/embeddings.py:192-257 | a section too large for a parent is never merged: each block is a parent under its headers, with that block's pieces beneath it |
| Ingestion.ChunkTable.Ingest | src/rag/ingestion.py:89-249 | the whole new table and count, or the old table when the database refuses |
| Ingestion.ChunkTable.DeleteStale | src/rag/ingestion.py:135-153 | stale children and children of stale parents go, then stale parents, of this file only |
| Ingestion.ChunkTable.InsertParents | src/rag/ingestion.py:175-191 | the missing parents inserted in order, and the id each text stands for |
| Ingestion.ChunkTable.MapExistingParents | src/rag/ingestion.py:193-208 | the ids of parents already stored, for the texts children need |
| Ingestion.ChunkTable.InsertChildren | src/rag/ingestion.py:210-239 | the missing children inserted under their parents, orphans skipped, and the count |
| IngestionTheorems.RefusedExactlyWhenStranding | src/rag/ingestion.py:113-153 | for any table and chunks, refused if and only if a doomed parent has a child in another file |
| IngestionTheorems.IngestionKeepsTheTable | src/rag/ingestion.py:113-249 | with no shared text: commits, every child under a parent of its file, other files untouched, every chunk stored, and nothing stale exactly when there was something to ingest or nothing was stale |
| IngestionTheorems.SurvivorsKeepTheirIds | src/rag/ingestion.py:155-249 | surviving rows keep id and content; each other row is one of the chunks whole, with its metadata, a child under the row of the very text it was cut from; and the count is theirs |
| IngestionTheorems.RowSurvivesExactly | src/rag/ingestion.py:135-153 | a row outlives an ingestion if and only if it is another file's, or its text is still in the document and, for a piece, so is its parent's |
| IngestionTheorems.SecondIngestionDoesNothing | src/rag/ingestion.py:158-172 | the same ingestion again deletes and inserts nothing |
| IngestionTheorems.EveryHistoryKeepsTheTable | src/rag/ingestion.py:113-249 | over any history of files that share no text, nothing is refused and every link is whole |
| LexicalTerms.LexicalTermGroups | src/rag/search.py:78-130 | the concept groups of a query, with distinct leading terms |
| LexicalTerms.NoConceptIsLost | src/rag/search.py:97-103 | dropping repeats loses no concept and adds none |
| TermTheorems.ConceptsAreExactly | src/rag/search.py:105-130 | a query's concepts are exactly its codes in both spellings, written in one word or two, the longer units besides, and its other words that are no stopwords |
| LexicalTerms.SpellingsReadAlikeExactly | src/rag/search.py:105-130 | the two spellings of a code make the same concepts in every query if and only if the unit has at most two letters and is no stopword |
| LexicalTerms.SpacingACodeChangesNothing | src/rag/search.py:78-130 | in the text of any query, spacing such a code changes no concept group |
| LexicalTerms.StopwordsAreWords | src/rag/search.py:40-50 | the agent's own stopwords all start with a letter, so no code is one |
| Fusion.FuseRankings | src/rag/search.py:192-313 | each chunk's dense and lexical shares, closest distance and most concepts, in first-seen order |
| Fusion.SelectParents | src/rag/search.py:362-376 | the first chunk of each parent down the ranking, up to the limit |
| Fusion.HybridSearch | src/rag/search.py:192-380 | the selected parents when the gate passes, nothing otherwise |
| FusionTheorems.SearchReturnsTheBestParents | src/rag/search.py:319-376 | distinct parents, at most the limit, each by its best chunk; an omitted parent outscores none returned and is omitted only when the list is full |
| FusionTheorems.ByScoreIsStable | src/rag/search.py:333-335 | chunks of one score keep the order they were first hit in |
| SearchTheorems.AsManyParentsAsAskedFor | src/rag/search.py:362-376 | a search that answers returns as many parents as its hits have, or as asked for, whichever is fewer; one when asked for none |
| SearchTheorems.RankedByPlaces | src/rag/search.py:277-331 | a chunk is ranked by one part in sixty and its place for each list by meaning, one in thirty and its place for each by keyword |
| FusionTheorems.RankedScoreIsTotal | src/rag/search.py:319-331 | the score a chunk is ranked by is the sum of its shares |
| FusionTheorems.KeywordsOutrankExactlyUpToThirty | src/rag/search.py:277-313 | a chunk hit by keyword in m queries outranks every purely dense chunk in at most m, for all queries, if and only if lists hold at most thirty rows |
| FusionTheorems.GateOpensExactly | src/rag/search.py:336-360 | for a positive threshold, the gate opens exactly when some hit is close enough or some chunk meets two concepts of one query |

## Left out

- The wording of prompts, quotes, receipts, button labels and translations, and the filters on what the model writes: text, not state.
- The `explore_hook`, brochure, memory and lead e-mail parts of a turn: they touch no order, hold or claim.
- Razorpay, WhatsApp, SMTP, embedding and language-model clients: only whether they succeeded, and what the model returned.
- Whether a message contains a button's phrase or postback is given with the message; so is what the name and city parser read in it (name and city, name only, or neither).
- `AGENT_FULL_AUTONOMY` is on throughout; with it off the agent neither prices nor sells.
- A task retry or a replayed message is another turn, and its confirm tap counts as another tap.
- Each webhook handler and each turn is one step of the conversation; the mutex and the claims, which interleave, are modelled on their own.
- Ambiguous look-ups by the single-name path (`get_product_price`) and regions: only the batch look-up prices orders.
- Non-numeric fields in an order or an audit row: quantities and prices are numbers.
- The sale key is a set of folded names; the program joins them with `|`, so a name containing `|` is not captured.
- Text is ASCII: no Unicode folding. Product-name comparison is otherwise character for character.
- Binary floating point: amounts are exact, and rounding is where the program rounds.
- The audit table and its statuses, expired-link events and payment-link text: no chat or charge follows from them.
- Staff command parsing and thread look-up in the hand-back tool: a release reaches the thread it names, with or without a note.
- LangChain's splitters: arbitrary functions; where a law needs it, that every piece is a substring of its source. What a splitter drops from an oversized section is not modelled.
- MD5 and SHA-256 hashes are the text they are taken of, role included.
- The ingestion transaction is one step, rows come back in id order, and embeddings always come back one per text.
- SQL filters and the ranking inside the database: a query's result lists are given, best first; a parent id is taken to have its row.
- Threads.Thread.MintGate: the failure messages and audit rows of a refused or failed link are not modelled.
- Mutexes.PollForLock: the pauses between attempts are the states the server is found in, not a clock.
- Delivery.DispatchMessage: the payload, the 24-hour template rule and the document send are not modelled; the document send never gives its claim back.
- Guardrails.AcceptedAmountIsNearCatalogue: the percentage bound carries the gate's own tolerance above the ceiling, which is what the code allows.
- TapTheorems.AddTapGoesThroughExactly: for prices in whole paise, like its apply and swap counterparts; with a fraction of a paisa the gate can refuse an order besides, as `Money.FractionalPriceIsRefused` shows.
- SuggestionTheorems.StepUpInStateIsRegistered: for a catalogue that does not change during the run; each tap reads it again, and a row renamed or re-priced in between is not followed.
