/** What the claims guarantee over every interleaving of workers. */
module DeliveryTheorems {
  import opened Text
  import opened Redis
  import opened Delivery

  predicate Holds(s: System, id: nat) {
    id in s.workers && Holding(s.workers[id])
  }

  function KeyOf(s: System, id: nat): Key
    requires Holds(s, id)
  {
    InHand(s.workers[id])
  }

  function ClaimedAt(s: System, id: nat): real
    requires Holds(s, id)
  {
    Since(s.workers[id])
  }

  /** Every send in progress began within its claim's day. */
  ghost predicate Prompt(s: System) {
    forall id | Holds(s, id) :: s.redis.now < ClaimedAt(s, id) + CLAIM_TTL
  }

  predicate Certain(a: Act) {
    a.Post? ==> !Doubtful(a.response)
  }

  // ---- One sender at a time -----------------------------------------------------------------

  /** A send in progress has its claim on record, and nobody else is sending the same message. */
  ghost predicate ClaimsHeld(s: System) {
    && (forall id | Holds(s, id) :: ClaimStands(s, id))
    && (forall i, j | Holds(s, i) && Holds(s, j) && KeyOf(s, i) == KeyOf(s, j) :: i == j)
  }

  predicate ClaimStands(s: System, id: nat)
    requires Holds(s, id)
  {
    && KeyOf(s, id) in s.redis.keys && s.redis.keys[KeyOf(s, id)].expires == ClaimedAt(s, id) + CLAIM_TTL
    && ClaimedAt(s, id) <= s.redis.now
  }

  /** The workers holding a claim held the same one before. */
  ghost predicate NoNewHolder(s: System, n: System) {
    forall i | Holds(n, i) :: Holds(s, i) && KeyOf(n, i) == KeyOf(s, i) && ClaimedAt(n, i) == ClaimedAt(s, i)
  }

  lemma OnlyTakingHolds(s: System, a: Act)
    requires !a.Take?
    ensures NoNewHolder(s, Do(s, a))
  {
  }

  lemma TakeKeepsClaims(s: System, id: nat)
    requires ClaimsHeld(s) && Prompt(s)
    ensures ClaimsHeld(Do(s, Take(id)))
  {
    var n := Do(s, Take(id));
    assert forall i | Holds(n, i) && i != id :: Holds(s, i) && KeyOf(n, i) == KeyOf(s, i) && ClaimedAt(n, i) == ClaimedAt(s, i);
    if Holds(n, id) && !Holds(s, id) {
      assert !Live(s.redis, KeyOf(n, id));
      assert forall i | Holds(s, i) :: ClaimStands(s, i) && KeyOf(s, i) != KeyOf(n, id);
    }
  }

  lemma GuardKeepsClaims(s: System, id: nat)
    requires ClaimsHeld(s) && Prompt(s)
    ensures ClaimsHeld(Do(s, Guard(id)))
  {
    var n := Do(s, Guard(id));
    OnlyTakingHolds(s, Guard(id));
    forall i | Holds(n, i)
      ensures ClaimStands(n, i)
    {
      assert ClaimStands(s, i) && Live(s.redis, KeyOf(s, i));
    }
  }

  lemma GiveBackKeepsClaims(s: System, id: nat, deletable: bool)
    requires ClaimsHeld(s)
    ensures ClaimsHeld(Do(s, GiveBack(id, deletable)))
  {
    var n := Do(s, GiveBack(id, deletable));
    OnlyTakingHolds(s, GiveBack(id, deletable));
    forall i | Holds(n, i)
      ensures ClaimStands(n, i)
    {
      assert ClaimStands(s, i);
      assert n != s ==> Holds(s, id) && i != id && KeyOf(s, i) != KeyOf(s, id);
    }
  }

  lemma StepKeepsClaims(s: System, a: Act)
    requires ClaimsHeld(s) && Prompt(s)
    ensures ClaimsHeld(Do(s, a))
  {
    match a
    case Guard(id) => GuardKeepsClaims(s, id);
    case Take(id) => TakeKeepsClaims(s, id);
    case GiveBack(id, deletable) => GiveBackKeepsClaims(s, id, deletable);
    case _ =>
      var n := Do(s, a);
      OnlyTakingHolds(s, a);
      forall i | Holds(n, i)
        ensures ClaimStands(n, i)
      {
        assert ClaimStands(s, i);
      }
  }

  ghost predicate PromptThroughout(s: System, acts: seq<Act>) {
    forall n | 0 <= n < |acts| :: Prompt(Ran(s, acts[..n]))
  }

  lemma {:induction false} PromptRunKeepsClaims(s: System, acts: seq<Act>)
    requires ClaimsHeld(s) && PromptThroughout(s, acts)
    ensures ClaimsHeld(Ran(s, acts))
  {
    if acts != [] {
      var before := acts[..|acts| - 1];
      assert forall n | 0 <= n < |before| :: before[..n] == acts[..n];
      PromptRunKeepsClaims(s, before);
      StepKeepsClaims(Ran(s, before), acts[|acts| - 1]);
    }
  }

  /** Whatever the responses, and over any interleaving whose sends finish within their claims' day: no two
      workers are ever sending the same message. */
  lemma {:induction false} OneSenderAtATime(acts: seq<Act>, i: nat, j: nat)
    requires PromptThroughout(IDLE, acts)
    requires Holds(Ran(IDLE, acts), i) && Holds(Ran(IDLE, acts), j) && KeyOf(Ran(IDLE, acts), i) == KeyOf(Ran(IDLE, acts), j)
    ensures i == j
  {
    PromptRunKeepsClaims(IDLE, acts);
  }

  // ---- At most one taken send a day ---------------------------------------------------------

  /** A taken message's claim stands for a day, so the next claim on it is a day later. */
  ghost predicate Remembered(s: System, ack: Ack) {
    || s.redis.now >= ack.since + CLAIM_TTL
    || (Claim(ack.text) in s.redis.keys && s.redis.keys[Claim(ack.text)].expires == ack.since + CLAIM_TTL)
  }

  ghost predicate AcksRemembered(s: System) {
    && (forall ack | ack in s.acks :: Remembered(s, ack))
    && (forall ack, id | ack in s.acks && Holds(s, id) && KeyOf(s, id) == Claim(ack.text) ::
         ClaimedAt(s, id) >= ack.since + CLAIM_TTL)
  }

  ghost predicate Spaced(acks: seq<Ack>) {
    forall i, j | 0 <= i < j < |acks| && acks[i].text == acks[j].text :: acks[j].since >= acks[i].since + 86400.0
  }

  ghost predicate Inv(s: System) {
    ClaimsHeld(s) && AcksRemembered(s) && Spaced(s.acks)
  }

  lemma TakeKeepsMemory(s: System, id: nat)
    requires ClaimsHeld(s) && AcksRemembered(s)
    ensures AcksRemembered(Do(s, Take(id)))
  {
    var n := Do(s, Take(id));
    assert forall i | Holds(n, i) && i != id :: Holds(s, i) && KeyOf(n, i) == KeyOf(s, i) && ClaimedAt(n, i) == ClaimedAt(s, i);
    if Holds(n, id) && !Holds(s, id) {
      assert !Live(s.redis, KeyOf(n, id)) && ClaimedAt(n, id) == s.redis.now;
    }
  }

  lemma GuardKeepsMemory(s: System, id: nat)
    requires AcksRemembered(s)
    ensures AcksRemembered(Do(s, Guard(id)))
  {
    OnlyTakingHolds(s, Guard(id));
  }

  lemma PostKeepsMemory(s: System, id: nat, r: Response)
    requires Inv(s) && !Doubtful(r)
    ensures AcksRemembered(Do(s, Post(id, r))) && Spaced(Do(s, Post(id, r)).acks)
  {
    var n := Do(s, Post(id, r));
    OnlyTakingHolds(s, Post(id, r));
    if n != s && Settles(r) {
      var ack := Ack(s.workers[id].bubbles[s.workers[id].at], ClaimedAt(s, id));
      assert n.acks == s.acks + [ack] && ClaimStands(s, id) && !Holds(n, id);
    }
  }

  lemma GiveBackKeepsMemory(s: System, id: nat, deletable: bool)
    requires ClaimsHeld(s) && AcksRemembered(s)
    ensures AcksRemembered(Do(s, GiveBack(id, deletable)))
  {
    var n := Do(s, GiveBack(id, deletable));
    OnlyTakingHolds(s, GiveBack(id, deletable));
    assert n != s ==> Holds(s, id) && ClaimStands(s, id) && !Holds(n, id);
  }

  lemma BystandersKeepMemory(s: System, n: System)
    requires AcksRemembered(s) && NoNewHolder(s, n)
    requires n.redis.keys == s.redis.keys && n.redis.now >= s.redis.now && n.acks == s.acks
    ensures AcksRemembered(n)
  {
  }

  lemma StepKeepsInv(s: System, a: Act)
    requires Inv(s) && Prompt(s) && Certain(a)
    ensures Inv(Do(s, a))
  {
    StepKeepsClaims(s, a);
    match a
    case Guard(id) => GuardKeepsMemory(s, id);
    case Take(id) => TakeKeepsMemory(s, id);
    case Post(id, r) => PostKeepsMemory(s, id, r);
    case GiveBack(id, deletable) => GiveBackKeepsMemory(s, id, deletable);
    case _ =>
      OnlyTakingHolds(s, a);
      BystandersKeepMemory(s, Do(s, a));
  }

  /** Prompt throughout, and no doubtful response, from a state on. */
  ghost predicate Orderly(s: System, acts: seq<Act>) {
    forall n | 0 <= n < |acts| :: Prompt(Ran(s, acts[..n])) && Certain(acts[n])
  }

  lemma {:induction false} OrderlyRunKeepsInv(s: System, acts: seq<Act>)
    requires Inv(s) && Orderly(s, acts)
    ensures Inv(Ran(s, acts))
  {
    if acts != [] {
      var before := acts[..|acts| - 1];
      assert forall n | 0 <= n < |before| :: before[..n] == acts[..n] && before[n] == acts[n];
      OrderlyRunKeepsInv(s, before);
      StepKeepsInv(Ran(s, before), acts[|acts| - 1]);
    }
  }

  /** Over any interleaving in which nothing is taken unknown to its sender: two taken sends of one message
      were claimed at least a day apart. */
  lemma {:induction false} TakenOnceADay(acts: seq<Act>)
    requires Orderly(IDLE, acts)
    ensures Spaced(Ran(IDLE, acts).acks)
  {
    OrderlyRunKeepsInv(IDLE, acts);
  }

  // ---- Within any day, with no timing assumption --------------------------------------------

  lemma {:induction false} ClockNeverRunsBack(s: System, acts: seq<Act>, n: nat)
    requires n <= |acts|
    ensures Ran(s, acts[..n]).redis.now <= Ran(s, acts).redis.now
    decreases |acts|
  {
    if n < |acts| {
      assert acts[..|acts| - 1][..n] == acts[..n];
      ClockNeverRunsBack(s, acts[..|acts| - 1], n);
    } else {
      assert acts[..n] == acts;
    }
  }

  /** Every claim in progress or accounted for was taken from this moment on. */
  ghost predicate ClaimedFrom(s: System, from: real) {
    && from <= s.redis.now
    && (forall id | Holds(s, id) :: ClaimedAt(s, id) >= from)
    && (forall ack | ack in s.acks :: from <= ack.since <= s.redis.now)
  }

  lemma StepKeepsClaimedFrom(s: System, a: Act, from: real)
    requires ClaimsHeld(s) && ClaimedFrom(s, from)
    ensures ClaimedFrom(Do(s, a), from)
  {
    var n := Do(s, a);
    if a.Take? {
      assert forall i | Holds(n, i) && i != a.id :: Holds(s, i) && ClaimedAt(n, i) == ClaimedAt(s, i);
    } else {
      OnlyTakingHolds(s, a);
    }
    if a.Post? && n != s {
      assert ClaimStands(s, a.id);
    }
  }

  lemma {:induction false} DayKeepsInv(s: System, acts: seq<Act>)
    requires Inv(s) && ClaimedFrom(s, s.redis.now)
    requires Ran(s, acts).redis.now < s.redis.now + 86400.0
    requires forall a | a in acts :: Certain(a)
    ensures Inv(Ran(s, acts)) && ClaimedFrom(Ran(s, acts), s.redis.now) && Prompt(Ran(s, acts))
  {
    if acts != [] {
      var before := acts[..|acts| - 1];
      ClockNeverRunsBack(s, acts, |acts| - 1);
      DayKeepsInv(s, before);
      StepKeepsInv(Ran(s, before), acts[|acts| - 1]);
      StepKeepsClaimedFrom(Ran(s, before), acts[|acts| - 1], s.redis.now);
    }
  }

  lemma {:induction false} EarlierAcksAreInert(s: System, earlier: seq<Ack>, acts: seq<Act>)
    requires s.acks == []
    ensures Ran(s.(acks := earlier), acts) == Ran(s, acts).(acks := earlier + Ran(s, acts).acks)
  {
    if acts == [] {
      assert earlier + [] == earlier;
    } else {
      var before, a := acts[..|acts| - 1], acts[|acts| - 1];
      EarlierAcksAreInert(s, earlier, before);
      var n := Ran(s, before);
      OneStepAppends(n, earlier, a);
    }
  }

  lemma OneStepAppends(s: System, earlier: seq<Ack>, a: Act)
    ensures Do(s.(acks := earlier + s.acks), a) == Do(s, a).(acks := earlier + Do(s, a).acks)
  {
    if a.Post? && Do(s, a) != s {
      var w := s.workers[a.id];
      var more := if Accepted(a.response) then [Ack(w.bubbles[w.at], w.phase.since)] else [];
      assert (earlier + s.acks) + more == earlier + (s.acks + more);
    }
  }

  /** From any state of the server in which no send is in progress, and for a day from then: no message is
      taken twice, however workers and clocks run, unless one is taken unknown to its sender. */
  lemma {:induction false} TakenAtMostOnce(s: System, acts: seq<Act>)
    requires forall id :: !Holds(s, id)
    requires Ran(s, acts).redis.now < s.redis.now + 86400.0
    requires forall a | a in acts :: Certain(a)
    ensures |s.acks| <= |Ran(s, acts).acks|
    ensures var later := Ran(s, acts).acks[|s.acks|..];
            forall i, j | 0 <= i < j < |later| :: later[i].text != later[j].text
  {
    var start := s.(acks := []);
    assert forall id :: Holds(start, id) == Holds(s, id);
    EarlierAcksAreInert(start, s.acks, acts);
    assert start.(acks := s.acks) == s;
    DayKeepsInv(start, acts);
    var later := Ran(start, acts).acks;
    assert Ran(s, acts).acks[|s.acks|..] == later;
    forall i, j | 0 <= i < j < |later|
      ensures later[i].text != later[j].text
    {
      assert later[i] in later && later[j] in later;
    }
  }

  // ---- The sender's code is the machine's steps ---------------------------------------------

  lemma {:induction false} RanConcat(s: System, a: seq<Act>, b: seq<Act>)
    ensures Ran(s, a + b) == Ran(Ran(s, a), b)
  {
    if b == [] {
      assert a + b == a;
    } else {
      assert (a + b)[..|a + b| - 1] == a + b[..|b| - 1];
      RanConcat(s, a, b[..|b| - 1]);
    }
  }

  function PostActs(id: nat, responses: seq<Response>, attempt: nat): seq<Act>
    requires 1 <= attempt <= SEND_ATTEMPTS <= |responses|
    decreases SEND_ATTEMPTS - attempt
  {
    var r := responses[attempt - 1];
    [Post(id, r)] +
    (if !Settles(r) && TryAgain(r) && attempt < SEND_ATTEMPTS then PostActs(id, responses, attempt + 1) else [])
  }

  /** The worker after its send came to this. */
  function Sender(w: Worker, o: Outcome): Worker
    requires Holding(w)
  {
    if o == Delivered then w.(at := w.at + 1, phase := Ready) else w.(phase := Failing(Since(w)))
  }

  lemma OnePost(s: System, id: nat, r: Response)
    requires Holds(s, id) && s.workers[id].phase.Posting?
    ensures var n, w := Do(s, Post(id, r)), s.workers[id];
            && n.redis == s.redis && id in n.workers
            && n.workers[id] == if Settles(r) then Sender(w, Delivered)
                                else if TryAgain(r) && w.phase.attempt < SEND_ATTEMPTS
                                then w.(phase := Posting(Since(w), w.phase.attempt + 1))
                                else Sender(w, Raised)
  {
  }

  lemma {:induction false} OneAct(s: System, a: Act)
    ensures Ran(s, [a]) == Do(s, a)
  {
    RanAppends(s, [], a);
    assert [] + [a] == [a];
  }

  lemma {:induction false} PostActsRun(s: System, id: nat, responses: seq<Response>, attempt: nat)
    requires 1 <= attempt <= SEND_ATTEMPTS <= |responses|
    requires Holds(s, id) && s.workers[id].phase.Posting? && s.workers[id].phase.attempt == attempt
    ensures var n := Ran(s, PostActs(id, responses, attempt));
            && n.redis == s.redis && id in n.workers
            && n.workers[id] == Sender(s.workers[id], PostOutcome(responses, attempt).0)
    decreases SEND_ATTEMPTS - attempt
  {
    var r := responses[attempt - 1];
    OnePost(s, id, r);
    OneAct(s, Post(id, r));
    if !Settles(r) && TryAgain(r) && attempt < SEND_ATTEMPTS {
      var n := Do(s, Post(id, r));
      PostActsRun(n, id, responses, attempt + 1);
      RanConcat(s, [Post(id, r)], PostActs(id, responses, attempt + 1));
      assert Sender(n.workers[id], Raised) == Sender(s.workers[id], Raised);
    } else {
      assert PostActs(id, responses, attempt) == [Post(id, r)];
    }
  }

  function DispatchActs(id: nat, responses: seq<Response>, claimed: bool, deletable: bool): seq<Act>
    requires |responses| == SEND_ATTEMPTS
  {
    if claimed then [Take(id)]
    else [Take(id)] + PostActs(id, responses, 1) +
         (if PostOutcome(responses, 1).0 == Raised then [GiveBack(id, deletable)] else [])
  }

  /** What the dispatch method does to the server is what its steps do, one at a time. */
  lemma {:induction false} DispatchIsItsSteps(s: System, id: nat, k: Key, responses: seq<Response>, deletable: bool)
    requires ReadyFor(s, id, k) && |responses| == SEND_ATTEMPTS
    ensures var claimed := SetIfAbsent(s.redis, k, Sent, CLAIM_TTL);
            Ran(s, DispatchActs(id, responses, Live(s.redis, k), deletable)).redis ==
            if !Live(s.redis, k) && PostOutcome(responses, 1).0 == Raised && deletable then Delete(claimed, k) else claimed
  {
    OneAct(s, Take(id));
    if !Live(s.redis, k) {
      var taken := Do(s, Take(id));
      PostActsRun(taken, id, responses, 1);
      RanConcat(s, [Take(id)], PostActs(id, responses, 1));
      var sent := [Take(id)] + PostActs(id, responses, 1);
      if PostOutcome(responses, 1).0 == Raised {
        RanAppends(s, sent, GiveBack(id, deletable));
      } else {
        assert sent + [] == sent;
      }
    }
  }

  // ---- A failed send ------------------------------------------------------------------------

  /** Whatever the responses: when a send has failed, the message is free for the next worker to send
      exactly when the deletion went through. */
  lemma {:induction false} FailedSendIsFreeAgain(acts: seq<Act>, id: nat, deletable: bool, next: nat)
    requires PromptThroughout(IDLE, acts) && Prompt(Ran(IDLE, acts))
    requires Fails(Ran(IDLE, acts), id) && next != id && ReadyFor(Ran(IDLE, acts), next, KeyOf(Ran(IDLE, acts), id))
    ensures Holds(Do(Do(Ran(IDLE, acts), GiveBack(id, deletable)), Take(next)), next) <==> deletable
  {
    PromptRunKeepsClaims(IDLE, acts);
    GivenBackIsFree(Ran(IDLE, acts), id, deletable, next);
  }

  predicate Fails(s: System, id: nat) {
    Holds(s, id) && s.workers[id].phase.Failing?
  }

  lemma GivenBackIsFree(s: System, id: nat, deletable: bool, next: nat)
    requires ClaimsHeld(s) && Prompt(s) && Fails(s, id) && next != id && ReadyFor(s, next, KeyOf(s, id))
    ensures Holds(Do(Do(s, GiveBack(id, deletable)), Take(next)), next) <==> deletable
  {
    var given := Do(s, GiveBack(id, deletable));
    assert ClaimStands(s, id) && given.workers[next] == s.workers[next];
    assert Live(given.redis, KeyOf(s, id)) <==> !deletable;
  }

  predicate ReadyFor(s: System, id: nat, k: Key) {
    id in s.workers && s.workers[id].phase.Ready? && s.workers[id].at < |s.workers[id].bubbles| && InHand(s.workers[id]) == k
  }

  // ---- Doubtful responses -------------------------------------------------------------------

  /** Some orderly continuation has a message taken twice within a day. */
  ghost predicate MayRepeat(s: System) {
    exists more :: Orderly(s, more) && !Spaced(Ran(s, more).acks)
  }

  lemma {:induction false} RanAppends(s: System, acts: seq<Act>, a: Act)
    ensures Ran(s, acts + [a]) == Do(Ran(s, acts), a)
  {
    assert (acts + [a])[..|acts|] == acts;
  }

  lemma {:induction false} OrderlyAppends(s: System, acts: seq<Act>, a: Act)
    requires Orderly(s, acts) && Prompt(Ran(s, acts)) && Certain(a)
    ensures Orderly(s, acts + [a])
  {
    var all := acts + [a];
    assert all[..|acts|] == acts;
    assert forall n | 0 <= n < |acts| :: all[..n] == acts[..n] && all[n] == acts[n];
  }

  const FINE: Response := Response(Status(200, true), true)

  /** One more post by a worker with a recent claim on a taken message repeats it. */
  lemma PostRepeats(s: System, id: nat, ack: Ack)
    requires Holds(s, id) && s.workers[id].phase.Posting? && KeyOf(s, id) == Claim(ack.text)
    requires ack in s.acks && ClaimedAt(s, id) < ack.since + CLAIM_TTL
    ensures !Spaced(Do(s, Post(id, FINE)).acks)
  {
    var n := Do(s, Post(id, FINE));
    var i :| 0 <= i < |s.acks| && s.acks[i] == ack;
    assert n.acks[i] == ack && n.acks[|s.acks|] == Ack(ack.text, ClaimedAt(s, id));
  }

  lemma FreshId(ids: set<nat>) returns (id: nat)
    ensures forall i | i in ids :: i < id
  {
    if ids == {} {
      id := 0;
    } else {
      var i :| i in ids;
      var rest := FreshId(ids - {i});
      id := if i < rest then rest else i + 1;
      assert forall j | j in ids :: j == i || j in ids - {i};
    }
  }

  lemma Repeats(s: System, id: nat, r: Response)
    requires Prompt(s) && Holds(s, id) && s.workers[id].phase.Posting? && Doubtful(r)
    ensures MayRepeat(Do(s, Post(id, r)))
  {
    var n := Do(s, Post(id, r));
    var ack := Ack(s.workers[id].bubbles[s.workers[id].at], ClaimedAt(s, id));
    assert ack in n.acks;
    PromptStays(s, n);
    if n.workers[id].phase.Posting? {
      PostRepeats(n, id, ack);
      OrderlyAppends(n, [], Post(id, FINE));
      RanAppends(n, [], Post(id, FINE));
      assert Orderly(n, [] + [Post(id, FINE)]);
    } else {
      ResendRepeats(n, id, ack);
    }
  }

  /** Nobody new holds a claim, so nobody is late who was not. */
  lemma PromptStays(s: System, n: System)
    requires Prompt(s) && n.redis.now == s.redis.now
    requires forall i | Holds(n, i) ::
      ClaimedAt(n, i) == s.redis.now || (Holds(s, i) && ClaimedAt(n, i) == ClaimedAt(s, i))
    ensures Prompt(n)
  {
  }

  lemma {:induction false} Continues(s: System, acts: seq<Act>, a: Act)
    requires Orderly(s, acts) && Prompt(Ran(s, acts)) && Certain(a)
    ensures Orderly(s, acts + [a]) && Ran(s, acts + [a]) == Do(Ran(s, acts), a)
  {
    OrderlyAppends(s, acts, a);
    RanAppends(s, acts, a);
  }

  /** After the claim is given back, another worker comes for the same message. */
  lemma AnotherComes(s: System, id: nat, text: string) returns (other: nat, more: seq<Act>)
    requires Prompt(s) && Fails(s, id) && KeyOf(s, id) == Claim(text)
    ensures Orderly(s, more) && Prompt(Ran(s, more)) && ReadyFor(Ran(s, more), other, Claim(text))
    ensures Ran(s, more).acks == s.acks && Ran(s, more).redis.now == s.redis.now && !Live(Ran(s, more).redis, Claim(text))
  {
    other := FreshId(s.workers.Keys);
    var back, come, start := GiveBack(id, true), Arrive(other, None, [text]), Guard(other);
    var s1 := Do(s, back);
    var s2 := Do(s1, come);
    PromptStays(s, s1);
    PromptStays(s1, s2);
    PromptStays(s2, Do(s2, start));
    Continues(s, [], back);
    Continues(s, [] + [back], come);
    Continues(s, [] + [back] + [come], start);
    more := [] + [back] + [come] + [start];
  }

  /** Give the claim back and let another worker send the same message. */
  lemma ResendRepeats(s: System, id: nat, ack: Ack)
    requires Prompt(s) && Fails(s, id)
    requires ack in s.acks && KeyOf(s, id) == Claim(ack.text) && s.redis.now < ack.since + CLAIM_TTL
    ensures MayRepeat(s)
  {
    var other, more := AnotherComes(s, id, ack.text);
    var ready := Ran(s, more);
    var taken := Do(ready, Take(other));
    PromptStays(ready, taken);
    PostRepeats(taken, other, ack);
    Continues(s, more, Take(other));
    Continues(s, more + [Take(other)], Post(other, FINE));
  }

  /** A message the other side took can be taken again within the day exactly when its sender could not
      tell: a timeout or a dropped connection after the message got through, an error status or another
      success code behind which it was taken, a 200 whose body does not parse. */
  lemma RepeatsExactlyWhenDoubtful(s: System, id: nat, r: Response)
    requires Inv(s) && Prompt(s) && Holds(s, id) && s.workers[id].phase.Posting? && Accepted(r)
    ensures MayRepeat(Do(s, Post(id, r))) <==> Doubtful(r)
  {
    var n := Do(s, Post(id, r));
    if Doubtful(r) {
      Repeats(s, id, r);
    } else {
      StepKeepsInv(s, Post(id, r));
      forall more | Orderly(n, more)
        ensures Spaced(Ran(n, more).acks)
      {
        OrderlyRunKeepsInv(n, more);
      }
    }
  }
}
