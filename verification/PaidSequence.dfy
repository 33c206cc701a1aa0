/** The two messages of a payment. Several events report one payment, each to a worker of its own; a claim
    over the whole sequence lets one of them tell the customer. */
module PaidSequence {
  import opened Text
  import opened Redis
  import opened Delivery
  import opened DeliveryTheorems

  /** The claim over the whole sequence, and the two messages under it. */
  datatype Paid = Paid(guard: string, celebration: string, receipt: string)

  function PaidKeys(thread: string, payment: string): Paid {
    Paid(BubbleText(thread, "paid-notify:" + payment, "payment_confirm_sequence", 0),
         BubbleText(thread, "paid:" + payment, "payment_confirm", 0),
         BubbleText(thread, "paid:" + payment, "payment_confirm", 1))
  }

  predicate Distinct(p: Paid) {
    p.guard != p.celebration && p.guard != p.receipt && p.celebration != p.receipt
  }

  lemma PaidKeysAreDistinct(thread: string, payment: string)
    requires ':' !in thread
    ensures Distinct(PaidKeys(thread, payment))
  {
    var p := PaidKeys(thread, payment);
    var paid, confirm := "paid:" + payment, "payment_confirm";
    assert |p.guard| != |p.celebration| && |p.guard| != |p.receipt|;
    if p.celebration == p.receipt {
      DistinctBubblesHaveDistinctKeys(thread, paid, confirm, 0, thread, paid, confirm, 1);
    }
  }

  /** A worker on one of this payment's events. */
  predicate OnPayment(p: Paid, guard: Option<string>, bubbles: seq<string>) {
    guard == Some(p.guard) && bubbles == [p.celebration, p.receipt]
  }

  /** A worker with other business. */
  predicate Elsewhere(p: Paid, guard: Option<string>, bubbles: seq<string>) {
    && guard != Some(p.guard) && guard != Some(p.celebration) && guard != Some(p.receipt)
    && p.guard !in bubbles && p.celebration !in bubbles && p.receipt !in bubbles
  }

  predicate Sorted(p: Paid, a: Act) {
    a.Arrive? ==> OnPayment(p, a.guard, a.bubbles) || Elsewhere(p, a.guard, a.bubbles)
  }

  /** What was taken of a payment's two messages, in order. */
  function PaidAcks(p: Paid, acks: seq<Ack>): seq<string> {
    if acks == [] then []
    else
      var text := acks[|acks| - 1].text;
      PaidAcks(p, acks[..|acks| - 1]) + (if text == p.celebration || text == p.receipt then [text] else [])
  }

  function Repeated(text: string, n: nat): seq<string> {
    if n == 0 then [] else Repeated(text, n - 1) + [text]
  }

  /** The celebration so many times, then the receipt so many. */
  function Told(p: Paid, a: nat, b: nat): seq<string> {
    Repeated(p.celebration, a) + Repeated(p.receipt, b)
  }

  // ---- The invariant ------------------------------------------------------------------------

  /** A payment watched from a moment on: what had been said of it by then, and whether every response is
      certain. */
  datatype Watch = Watch(p: Paid, from: real, said: seq<string>, sure: bool)

  /** No claim taken in the watch is on record for this text. */
  predicate Lapsed(c: Watch, s: System, text: string) {
    Claim(text) in s.redis.keys ==> s.redis.keys[Claim(text)].expires <= c.from
  }

  predicate GuardStands(c: Watch, s: System) {
    Claim(c.p.guard) in s.redis.keys && s.redis.keys[Claim(c.p.guard)].expires >= c.from + CLAIM_TTL
  }

  /** A worker that won the sequence. */
  predicate Owner(p: Paid, s: System, id: nat) {
    id in s.workers && s.workers[id].guard == Some(p.guard) && !s.workers[id].phase.Guarding? && !s.workers[id].phase.TurnedAway?
  }

  predicate WorkerSorted(p: Paid, w: Worker) {
    || Elsewhere(p, w.guard, w.bubbles)
    || (OnPayment(p, w.guard, w.bubbles) && (w.phase.Guarding? ==> w.at == 0))
  }

  ghost predicate WorkersSorted(p: Paid, s: System) {
    forall id | id in s.workers :: WorkerSorted(p, s.workers[id])
  }

  /** How often the message in hand can have been taken so far. */
  function Tries(w: Worker): int {
    if w.phase.Posting? then w.phase.attempt - 1 else if w.phase.Ready? then 0 else SEND_ATTEMPTS
  }

  /** How often each message can have been taken, from the owner's place in its list. */
  predicate Fits(w: Worker, a: nat, b: nat, sure: bool) {
    && (w.at == 0 ==> a <= Tries(w) && b == 0 && (sure ==> a == 0))
    && (w.at == 1 ==> 1 <= a <= SEND_ATTEMPTS && b <= Tries(w) && (sure ==> a == 1 && b == 0))
    && (w.at == 2 ==> 1 <= a <= SEND_ATTEMPTS && 1 <= b <= SEND_ATTEMPTS && (sure ==> a == 1 && b == 1))
  }

  ghost predicate Follows(c: Watch, s: System, w: Worker) {
    && w.at <= 2 && (w.phase.Posting? ==> 1 <= w.phase.attempt <= SEND_ATTEMPTS)
    && (exists a: nat, b: nat :: Fits(w, a, b, c.sure) && PaidAcks(c.p, s.acks) == c.said + Told(c.p, a, b))
    && (w.at == 0 ==> Lapsed(c, s, c.p.receipt) && (w.phase.Ready? ==> Lapsed(c, s, c.p.celebration)))
    && (w.at == 1 && w.phase.Ready? ==> Lapsed(c, s, c.p.receipt))
  }

  ghost predicate HasOwner(p: Paid, s: System) {
    exists id :: Owner(p, s, id)
  }

  predicate NothingSaid(c: Watch, s: System) {
    Lapsed(c, s, c.p.celebration) && Lapsed(c, s, c.p.receipt) && PaidAcks(c.p, s.acks) == c.said
  }

  ghost predicate OneSequence(c: Watch, s: System) {
    && c.from <= s.redis.now
    && WorkersSorted(c.p, s)
    && (forall i, j | Owner(c.p, s, i) && Owner(c.p, s, j) :: i == j)
    && (forall i | Owner(c.p, s, i) :: Follows(c, s, s.workers[i]) && GuardStands(c, s))
    && (HasOwner(c.p, s) || NothingSaid(c, s))
  }

  predicate WithinDay(c: Watch, s: System) {
    s.redis.now < c.from + CLAIM_TTL
  }

  // ---- Every step keeps it ------------------------------------------------------------------

  /** Only worker `id` moved. */
  ghost predicate OnlyMoves(s: System, n: System, id: nat) {
    && n.workers.Keys == s.workers.Keys && n.redis.now == s.redis.now
    && id in s.workers
    && !n.workers[id].phase.Guarding?
    && n.workers[id].guard == s.workers[id].guard && n.workers[id].bubbles == s.workers[id].bubbles
    && forall i | i in s.workers && i != id :: n.workers[i] == s.workers[i]
  }

  predicate SameKey(s: System, n: System, text: string) {
    && (Claim(text) in s.redis.keys <==> Claim(text) in n.redis.keys)
    && (Claim(text) in s.redis.keys ==> s.redis.keys[Claim(text)] == n.redis.keys[Claim(text)])
  }

  /** A step of a worker that did not win the sequence, and does not now. */
  lemma OthersKeepOneSequence(c: Watch, s: System, n: System, id: nat)
    requires OneSequence(c, s) && OnlyMoves(s, n, id) && !Owner(c.p, s, id) && !Owner(c.p, n, id)
    requires SameKey(s, n, c.p.guard) && SameKey(s, n, c.p.celebration) && SameKey(s, n, c.p.receipt)
    requires PaidAcks(c.p, n.acks) == PaidAcks(c.p, s.acks)
    ensures OneSequence(c, n)
  {
    assert forall i :: Owner(c.p, n, i) == Owner(c.p, s, i);
    if HasOwner(c.p, s) {
      var i :| Owner(c.p, s, i);
      assert Owner(c.p, n, i) && Follows(c, s, s.workers[i]);
    }
  }

  /** A step of the worker that won the sequence, or wins it now. */
  lemma OwnerKeepsOneSequence(c: Watch, s: System, n: System, id: nat)
    requires OneSequence(c, s) && OnlyMoves(s, n, id) && Owner(c.p, n, id)
    requires Owner(c.p, s, id) || !HasOwner(c.p, s)
    requires Follows(c, n, n.workers[id]) && GuardStands(c, n)
    ensures OneSequence(c, n)
  {
    assert forall i | i != id :: Owner(c.p, n, i) == Owner(c.p, s, i);
  }

  /** What is said stays said while the owner's place allows it. */
  lemma SaidStillFits(c: Watch, s: System, n: System, w: Worker, v: Worker)
    requires Follows(c, s, w) && PaidAcks(c.p, n.acks) == PaidAcks(c.p, s.acks)
    requires forall a: nat, b: nat | Fits(w, a, b, c.sure) :: Fits(v, a, b, c.sure)
    ensures exists a: nat, b: nat :: Fits(v, a, b, c.sure) && PaidAcks(c.p, n.acks) == c.said + Told(c.p, a, b)
  {
    var a: nat, b: nat :| Fits(w, a, b, c.sure) && PaidAcks(c.p, s.acks) == c.said + Told(c.p, a, b);
  }

  lemma GuardKeepsOneSequence(c: Watch, s: System, id: nat)
    requires Distinct(c.p) && OneSequence(c, s) && WithinDay(c, s)
    ensures OneSequence(c, Do(s, Guard(id)))
  {
    var n := Do(s, Guard(id));
    if id in s.workers && s.workers[id].phase.Guarding? {
      var w := s.workers[id];
      if OnPayment(c.p, w.guard, w.bubbles) && !Live(s.redis, Claim(c.p.guard)) {
        assert Told(c.p, 0, 0) == [] && c.said + [] == c.said;
        assert Fits(n.workers[id], 0, 0, c.sure) && PaidAcks(c.p, n.acks) == c.said + Told(c.p, 0, 0);
        OwnerKeepsOneSequence(c, s, n, id);
      } else {
        OthersKeepOneSequence(c, s, n, id);
      }
    }
  }

  lemma OwnerTakes(c: Watch, s: System, id: nat)
    requires Distinct(c.p) && OneSequence(c, s) && Owner(c.p, s, id) && s.workers[id].phase.Ready?
    ensures Follows(c, Do(s, Take(id)), Do(s, Take(id)).workers[id]) && GuardStands(c, Do(s, Take(id)))
    ensures Owner(c.p, Do(s, Take(id)), id)
  {
    var w := s.workers[id];
    var n := Do(s, Take(id));
    assert Follows(c, s, w);
    SaidStillFits(c, s, n, w, n.workers[id]);
  }

  lemma TakeKeepsOneSequence(c: Watch, s: System, id: nat)
    requires Distinct(c.p) && OneSequence(c, s)
    ensures OneSequence(c, Do(s, Take(id)))
  {
    var n := Do(s, Take(id));
    if id in s.workers && s.workers[id].phase.Ready? {
      if Owner(c.p, s, id) {
        OwnerTakes(c, s, id);
        OwnerKeepsOneSequence(c, s, n, id);
      } else {
        var w := s.workers[id];
        assert w.at < |w.bubbles| ==> w.bubbles[w.at] in w.bubbles;
        OthersKeepOneSequence(c, s, n, id);
      }
    }
  }

  lemma PostMovesOnlyItsWorker(s: System, id: nat, r: Response)
    requires id in s.workers && Holding(s.workers[id]) && s.workers[id].phase.Posting?
    ensures OnlyMoves(s, Do(s, Post(id, r)), id) && Do(s, Post(id, r)).redis == s.redis
    ensures !Do(s, Post(id, r)).workers[id].phase.TurnedAway?
  {
  }

  lemma {:induction false} PostAppends(p: Paid, s: System, id: nat, r: Response)
    requires id in s.workers && Holding(s.workers[id]) && s.workers[id].phase.Posting?
    ensures var text := s.workers[id].bubbles[s.workers[id].at];
            && PaidAcks(p, Do(s, Post(id, r)).acks) ==
               (if Accepted(r) && (text == p.celebration || text == p.receipt) then PaidAcks(p, s.acks) + [text] else PaidAcks(p, s.acks))
            && text in s.workers[id].bubbles
  {
    var w := s.workers[id];
    var ack := Ack(w.bubbles[w.at], w.phase.since);
    PaidAcksAppends(p, s.acks, ack);
    assert Do(s, Post(id, r)).acks == if Accepted(r) then s.acks + [ack] else s.acks;
  }

  lemma {:induction false} PaidAcksAppends(p: Paid, acks: seq<Ack>, ack: Ack)
    ensures PaidAcks(p, acks + [ack]) ==
            (if ack.text == p.celebration || ack.text == p.receipt then PaidAcks(p, acks) + [ack.text] else PaidAcks(p, acks))
  {
    assert (acks + [ack])[..|acks|] == acks;
  }

  lemma {:induction false} OthersPost(p: Paid, s: System, id: nat, r: Response)
    requires WorkersSorted(p, s) && !Owner(p, s, id)
    requires id in s.workers && Holding(s.workers[id]) && s.workers[id].phase.Posting?
    ensures PaidAcks(p, Do(s, Post(id, r)).acks) == PaidAcks(p, s.acks)
    ensures s.workers[id].guard != Some(p.guard)
  {
    PostAppends(p, s, id, r);
  }

  lemma ToldAppends(p: Paid, said: seq<string>, a: nat, b: nat)
    ensures b == 0 ==> said + Told(p, a, b) + [p.celebration] == said + Told(p, a + 1, b)
    ensures said + Told(p, a, b) + [p.receipt] == said + Told(p, a, b + 1)
  {
    assert Repeated(p.celebration, a + 1) == Repeated(p.celebration, a) + [p.celebration];
    assert Repeated(p.receipt, b + 1) == Repeated(p.receipt, b) + [p.receipt];
  }

  /** One more of the message in hand, if the other side took it. */
  lemma OwnerPosts(c: Watch, s: System, id: nat, r: Response)
    requires OneSequence(c, s) && Owner(c.p, s, id) && (c.sure ==> !Doubtful(r))
    requires Holding(s.workers[id]) && s.workers[id].phase.Posting?
    ensures Follows(c, Do(s, Post(id, r)), Do(s, Post(id, r)).workers[id])
  {
    var w := s.workers[id];
    var n := Do(s, Post(id, r));
    OnePost(s, id, r);
    PostAppends(c.p, s, id, r);
    assert Follows(c, s, w);
    var a: nat, b: nat :| Fits(w, a, b, c.sure) && PaidAcks(c.p, s.acks) == c.said + Told(c.p, a, b);
    ToldAppends(c.p, c.said, a, b);
    var a', b' := if Accepted(r) && w.at == 0 then a + 1 else a, if Accepted(r) && w.at == 1 then b + 1 else b;
    assert PaidAcks(c.p, n.acks) == c.said + Told(c.p, a', b');
    assert Fits(n.workers[id], a', b', c.sure);
  }

  lemma PostKeepsOneSequence(c: Watch, s: System, id: nat, r: Response)
    requires Distinct(c.p) && OneSequence(c, s) && (c.sure ==> !Doubtful(r))
    ensures OneSequence(c, Do(s, Post(id, r)))
  {
    var n := Do(s, Post(id, r));
    if id in s.workers && Holding(s.workers[id]) && s.workers[id].phase.Posting? {
      PostMovesOnlyItsWorker(s, id, r);
      if Owner(c.p, s, id) {
        OwnerPosts(c, s, id, r);
        OwnerKeepsOneSequence(c, s, n, id);
      } else {
        OthersPost(c.p, s, id, r);
        OthersKeepOneSequence(c, s, n, id);
      }
    }
  }

  lemma OwnerEnds(c: Watch, s: System, a: Act)
    requires Distinct(c.p) && OneSequence(c, s) && (a.GiveBack? || a.Vanish?)
    requires Owner(c.p, s, a.id) && Do(s, a) != s
    ensures Follows(c, Do(s, a), Do(s, a).workers[a.id]) && GuardStands(c, Do(s, a))
  {
    var w := s.workers[a.id];
    var n := Do(s, a);
    assert Follows(c, s, w);
    SaidStillFits(c, s, n, w, n.workers[a.id]);
  }

  lemma EndKeepsOneSequence(c: Watch, s: System, a: Act)
    requires Distinct(c.p) && OneSequence(c, s) && (a.GiveBack? || a.Vanish?)
    ensures OneSequence(c, Do(s, a))
  {
    var n := Do(s, a);
    if n != s {
      var w := s.workers[a.id];
      assert w.bubbles[w.at] in w.bubbles;
      if Owner(c.p, s, a.id) {
        OwnerEnds(c, s, a);
        OwnerKeepsOneSequence(c, s, n, a.id);
      } else {
        OthersKeepOneSequence(c, s, n, a.id);
      }
    }
  }

  lemma QuietKeepsOneSequence(c: Watch, s: System, a: Act)
    requires OneSequence(c, s) && Sorted(c.p, a) && (a.Pass? || a.Arrive?)
    ensures OneSequence(c, Do(s, a))
  {
    var n := Do(s, a);
    assert forall i :: Owner(c.p, n, i) == Owner(c.p, s, i);
    forall i | Owner(c.p, n, i)
      ensures Follows(c, n, n.workers[i]) && GuardStands(c, n)
    {
      assert Owner(c.p, s, i) && Follows(c, s, s.workers[i]) && n.workers[i] == s.workers[i];
    }
    if HasOwner(c.p, s) {
      var i :| Owner(c.p, s, i);
      assert Owner(c.p, n, i);
    }
  }

  lemma StepKeepsOneSequence(c: Watch, s: System, a: Act)
    requires Distinct(c.p) && OneSequence(c, s) && WithinDay(c, s) && (c.sure ==> Certain(a)) && Sorted(c.p, a)
    ensures OneSequence(c, Do(s, a))
  {
    match a
    case Guard(id) => GuardKeepsOneSequence(c, s, id);
    case Take(id) => TakeKeepsOneSequence(c, s, id);
    case Post(id, r) => PostKeepsOneSequence(c, s, id, r);
    case GiveBack(_, _) => EndKeepsOneSequence(c, s, a);
    case Vanish(_) => EndKeepsOneSequence(c, s, a);
    case Pass(_) => QuietKeepsOneSequence(c, s, a);
    case Arrive(_, _, _) => QuietKeepsOneSequence(c, s, a);
  }

  lemma {:induction false} DayKeepsOneSequence(c: Watch, s: System, acts: seq<Act>)
    requires Distinct(c.p) && OneSequence(c, s) && WithinDay(c, Ran(s, acts))
    requires forall a | a in acts :: (c.sure ==> Certain(a)) && Sorted(c.p, a)
    ensures OneSequence(c, Ran(s, acts))
  {
    if acts != [] {
      var before := acts[..|acts| - 1];
      ClockNeverRunsBack(s, acts, |acts| - 1);
      DayKeepsOneSequence(c, s, before);
      StepKeepsOneSequence(c, Ran(s, before), acts[|acts| - 1]);
    }
  }

  // ---- What the customer is told ------------------------------------------------------------

  /** None of the payment's three claims is live, and every worker has other business or has yet to ask
      for the sequence. */
  ghost predicate Untold(p: Paid, s: System) {
    && !Live(s.redis, Claim(p.guard)) && !Live(s.redis, Claim(p.celebration)) && !Live(s.redis, Claim(p.receipt))
    && WorkersSorted(p, s) && forall id :: !Owner(p, s, id)
  }

  /** However many events report one payment, and however their workers interleave, fail or die, from any
      state in which it has not been told and for a day from then: the celebration comes before the
      receipt, each at most as often as one send has attempts, and at most once each unless one was taken
      unknown to its sender. */
  lemma {:induction false} PaymentIsToldInOrder(thread: string, payment: string, s: System, acts: seq<Act>)
    requires ':' !in thread && Untold(PaidKeys(thread, payment), s)
    requires Ran(s, acts).redis.now < s.redis.now + 86400.0
    requires forall a | a in acts :: Sorted(PaidKeys(thread, payment), a)
    ensures
      var p := PaidKeys(thread, payment);
      exists a: nat, b: nat ::
        && PaidAcks(p, Ran(s, acts).acks) == PaidAcks(p, s.acks) + Told(p, a, b)
        && a <= 3 && b <= 3 && (b > 0 ==> a > 0)
        && ((forall act | act in acts :: Certain(act)) ==> a <= 1 && b <= 1)
  {
    var p := PaidKeys(thread, payment);
    var c := Watch(p, s.redis.now, PaidAcks(p, s.acks), forall act | act in acts :: Certain(act));
    PaidKeysAreDistinct(thread, payment);
    DayKeepsOneSequence(c, s, acts);
    var n := Ran(s, acts);
    if HasOwner(p, n) {
      var id :| Owner(p, n, id);
      var w := n.workers[id];
      assert Follows(c, n, w);
      var a: nat, b: nat :| Fits(w, a, b, c.sure) && PaidAcks(p, n.acks) == c.said + Told(p, a, b);
      assert w.at == 0 || w.at == 1 || w.at == 2;
    } else {
      assert Told(p, 0, 0) == [] && c.said + [] == c.said;
      assert PaidAcks(p, n.acks) == PaidAcks(p, s.acks) + Told(p, 0, 0);
    }
  }

  /** One event's worker with nothing going wrong: it wins the sequence, and both messages are posted. */
  function WonAndCelebrated(p: Paid, s: System, id: nat): System {
    Do(Do(Do(Do(s, Arrive(id, Some(p.guard), [p.celebration, p.receipt])), Guard(id)), Take(id)), Post(id, FINE))
  }

  function ToldByOne(p: Paid, s: System, id: nat): System {
    Do(Do(WonAndCelebrated(p, s, id), Take(id)), Post(id, FINE))
  }

  lemma {:induction false} OneCelebrates(p: Paid, s: System, id: nat)
    requires Distinct(p) && Untold(p, s) && id !in s.workers
    ensures
      var n := WonAndCelebrated(p, s, id);
      && n.workers == s.workers[id := Worker(Some(p.guard), [p.celebration, p.receipt], 1, Ready)]
      && PaidAcks(p, n.acks) == PaidAcks(p, s.acks) + [p.celebration]
      && !Live(n.redis, Claim(p.receipt))
  {
    var claimed := Do(Do(Do(s, Arrive(id, Some(p.guard), [p.celebration, p.receipt])), Guard(id)), Take(id));
    assert claimed.workers[id] == Worker(Some(p.guard), [p.celebration, p.receipt], 0, Posting(s.redis.now, 1));
    PostAppends(p, claimed, id, FINE);
  }

  /** And it is told: from any state in which it has not been, an event whose worker meets no fault tells the
      customer both, the celebration first, whatever the other workers are in the middle of. */
  lemma PaymentIsTold(thread: string, payment: string, s: System, id: nat)
    requires ':' !in thread && Untold(PaidKeys(thread, payment), s) && id !in s.workers
    ensures
      var p := PaidKeys(thread, payment);
      PaidAcks(p, ToldByOne(p, s, id).acks) == PaidAcks(p, s.acks) + [p.celebration, p.receipt]
  {
    var p := PaidKeys(thread, payment);
    PaidKeysAreDistinct(thread, payment);
    OneCelebrates(p, s, id);
    ReceiptFollows(p, WonAndCelebrated(p, s, id), id);
    assert PaidAcks(p, s.acks) + [p.celebration] + [p.receipt] == PaidAcks(p, s.acks) + [p.celebration, p.receipt];
  }

  lemma {:induction false} ReceiptFollows(p: Paid, s: System, id: nat)
    requires id in s.workers && s.workers[id] == Worker(Some(p.guard), [p.celebration, p.receipt], 1, Ready)
    requires !Live(s.redis, Claim(p.receipt))
    ensures PaidAcks(p, Do(Do(s, Take(id)), Post(id, FINE)).acks) == PaidAcks(p, s.acks) + [p.receipt]
  {
    PostAppends(p, Do(s, Take(id)), id, FINE);
  }
}
