/** Sending each message once: the claim is taken before the send and given back when the send fails.
    Workers interleave freely, and any of them may die anywhere. A worker works through a list of messages,
    the paid events' two among them, whose whole sequence is claimed first. */
module Delivery {
  import opened Text
  import opened Redis

  // ---- One send -----------------------------------------------------------------------------

  const SEND_ATTEMPTS: nat := 3

  /** What the sender sees of one POST: a status, with or without a body that parses; a timeout or a
      dropped connection, worth another try; any other error. */
  datatype Reply = Status(code: int, readable: bool) | Transient | Broken

  /** One POST: what the sender saw, and whether the other side took the message whatever the sender saw.
      A read that times out, a connection that drops, an error status, another success code: behind any
      of them the message may have been taken. */
  datatype Response = Response(reply: Reply, taken: bool)

  /** The only reply the sender takes for success. */
  predicate Settles(r: Response) {
    r.reply.Status? && r.reply.code == 200 && r.reply.readable
  }

  /** The other side took the message: it says so, or it did without saying. */
  predicate Accepted(r: Response) {
    Settles(r) || r.taken
  }

  /** Taken, and not known to be. */
  predicate Doubtful(r: Response) {
    r.taken && !Settles(r)
  }

  predicate TryAgain(r: Response) {
    || r.reply.Transient?
    || (r.reply.Status? && (r.reply.code in {429, 500, 502, 503, 504} || (200 <= r.reply.code < 300 && r.reply.code != 200)))
  }

  datatype Outcome = Delivered | Raised

  /** What `attempt` and the ones after it come to. */
  function PostOutcome(responses: seq<Response>, attempt: nat): (o: (Outcome, nat))
    requires 1 <= attempt <= SEND_ATTEMPTS <= |responses|
    ensures attempt <= o.1 <= SEND_ATTEMPTS
    decreases SEND_ATTEMPTS - attempt
  {
    var r := responses[attempt - 1];
    if Settles(r) then (Delivered, attempt)
    else if TryAgain(r) && attempt < SEND_ATTEMPTS then PostOutcome(responses, attempt + 1)
    else (Raised, attempt)
  }

  /** `responses[i]` answers attempt `i + 1`. */
  method PostWithRetries(responses: seq<Response>) returns (outcome: Outcome, attempts: nat)
    requires |responses| == SEND_ATTEMPTS
    ensures (outcome, attempts) == PostOutcome(responses, 1)
    ensures 1 <= attempts <= SEND_ATTEMPTS
    ensures forall i | 0 <= i < attempts - 1 :: TryAgain(responses[i]) && !Settles(responses[i])
    ensures outcome == Delivered <==> Settles(responses[attempts - 1])
    ensures outcome == Raised ==> attempts == SEND_ATTEMPTS || !TryAgain(responses[attempts - 1])
  {
    attempts := 0;
    while attempts < SEND_ATTEMPTS
      invariant attempts <= SEND_ATTEMPTS
      invariant forall i | 0 <= i < attempts :: TryAgain(responses[i]) && !Settles(responses[i])
      invariant attempts < SEND_ATTEMPTS ==> PostOutcome(responses, 1) == PostOutcome(responses, attempts + 1)
      invariant attempts == SEND_ATTEMPTS ==> PostOutcome(responses, 1) == (Raised, SEND_ATTEMPTS)
    {
      attempts := attempts + 1;
      match responses[attempts - 1].reply {
        case Status(code, readable) =>
          if code == 200 {
            outcome := if readable then Delivered else Raised;
            return;
          }
          if code !in {429, 500, 502, 503, 504} && !(200 <= code < 300) {
            outcome := Raised;
            return;
          }
        case Transient =>
        case Broken =>
          outcome := Raised;
          return;
      }
    }
    outcome := Raised;
  }

  /** What the first reply settles, by its status: a readable 200 is a delivery; an unreadable one, any other
      error and every refusal but "too many requests" end the send; a timeout, a busy or failing server and
      any other success are tried again. */
  lemma {:induction false} FirstReplyDecides(responses: seq<Response>)
    requires |responses| == 3
    ensures
      var reply, (outcome, attempts) := responses[0].reply, PostOutcome(responses, 1);
      && (reply == Status(200, true) <==> outcome == Delivered && attempts == 1)
      && (reply.Status? && reply.code == 200 ==> attempts == 1)
      && (reply.Status? && 300 <= reply.code < 500 && reply.code != 429 ==> attempts == 1)
      && (reply.Status? && (reply.code == 429 || reply.code == 500 || 502 <= reply.code <= 504) ==> attempts > 1)
      && (reply.Status? && 200 < reply.code < 300 ==> attempts > 1)
      && (reply.Broken? ==> attempts == 1) && (reply.Transient? ==> attempts > 1)
  {
  }

  /** A send that raised was taken all the same exactly when one of the attempts it made was doubtful. */
  lemma {:induction false} RaisedWasTakenExactlyInDoubt(responses: seq<Response>, attempt: nat)
    requires |responses| == SEND_ATTEMPTS && 1 <= attempt <= SEND_ATTEMPTS
    requires PostOutcome(responses, attempt).0 == Raised
    ensures var made := responses[attempt - 1..PostOutcome(responses, attempt).1];
            (exists r :: r in made && Accepted(r)) <==> (exists r :: r in made && Doubtful(r))
    decreases SEND_ATTEMPTS - attempt
  {
    var r := responses[attempt - 1];
    var made := responses[attempt - 1..PostOutcome(responses, attempt).1];
    assert made[0] == r && !Settles(r);
    if TryAgain(r) && attempt < SEND_ATTEMPTS {
      RaisedWasTakenExactlyInDoubt(responses, attempt + 1);
      assert made == [r] + responses[attempt..PostOutcome(responses, attempt).1];
    } else {
      assert made == [r];
    }
  }

  /** Claim the message, send it, give the claim back if the send raised. Nothing is sent on a claim
      somebody else holds. */
  method DispatchMessage(cache: CacheService, thread: string, message: string, node: string, index: nat,
                         responses: seq<Response>, deletable: bool) returns (outcome: Option<Outcome>)
    requires |responses| == SEND_ATTEMPTS
    modifies cache
    ensures var k := Claim(BubbleText(thread, message, node, index));
            var claimed := SetIfAbsent(old(cache.redis), k, Sent, CLAIM_TTL);
            && (outcome.None? <==> Live(old(cache.redis), k))
            && (outcome.Some? ==> outcome.value == PostOutcome(responses, 1).0)
            && cache.redis == if outcome == Some(Raised) && deletable then Delete(claimed, k) else claimed
  {
    var isNew := cache.CheckAndSetIdempotency(thread, message, node, index);
    if !isNew {
      return None;
    }
    var sent, _ := PostWithRetries(responses);
    if sent == Raised {
      cache.ReleaseIdempotency(thread, message, node, index, deletable);
    }
    outcome := Some(sent);
  }

  // ---- Workers ------------------------------------------------------------------------------

  /** `since` is when the claim on the message in hand was taken. */
  datatype Phase =
    | Guarding | Ready | Posting(since: real, attempt: nat) | Failing(since: real) | Stopped | TurnedAway

  /** A worker's messages in order, and the claim over the whole list if it takes one. */
  datatype Worker = Worker(guard: Option<string>, bubbles: seq<string>, at: nat, phase: Phase)

  /** One message taken by the other side, with the claim it was sent under. */
  datatype Ack = Ack(text: string, since: real)

  datatype System = System(redis: Server, workers: map<nat, Worker>, acks: seq<Ack>)

  datatype Act =
    | Pass(dt: real) | Arrive(id: nat, guard: Option<string>, bubbles: seq<string>)
    | Guard(id: nat) | Take(id: nat) | Post(id: nat, response: Response) | GiveBack(id: nat, deletable: bool)
    | Vanish(id: nat)

  const IDLE: System := System(Server(map[], 0.0), map[], [])

  function Moved(s: System, id: nat, phase: Phase): System
    requires id in s.workers
  {
    s.(workers := s.workers[id := s.workers[id].(phase := phase)])
  }

  function MovedOn(s: System, id: nat): System
    requires id in s.workers
  {
    s.(workers := s.workers[id := s.workers[id].(at := s.workers[id].at + 1, phase := Ready)])
  }

  function InHand(w: Worker): Key
    requires w.at < |w.bubbles|
  {
    Claim(w.bubbles[w.at])
  }

  predicate Holding(w: Worker) {
    w.at < |w.bubbles| && (w.phase.Posting? || w.phase.Failing?)
  }

  function Since(w: Worker): real
    requires Holding(w)
  {
    if w.phase.Posting? then w.phase.since else w.phase.since
  }

  function Guarded(s: System, id: nat): System
    requires id in s.workers
  {
    match s.workers[id].guard
    case None => Moved(s, id, Ready)
    case Some(text) =>
      if Live(s.redis, Claim(text)) then Moved(s, id, TurnedAway)
      else Moved(s, id, Ready).(redis := SetIfAbsent(s.redis, Claim(text), Sent, CLAIM_TTL))
  }

  /** Claim the next message, or step over one already claimed. */
  function Taken(s: System, id: nat): System
    requires id in s.workers
  {
    var w := s.workers[id];
    if w.at >= |w.bubbles| then Moved(s, id, Stopped)
    else if Live(s.redis, InHand(w)) then MovedOn(s, id)
    else Moved(s, id, Posting(s.redis.now, 1)).(redis := SetIfAbsent(s.redis, InHand(w), Sent, CLAIM_TTL))
  }

  function Posted(s: System, id: nat, r: Response): System
    requires id in s.workers && s.workers[id].phase.Posting? && s.workers[id].at < |s.workers[id].bubbles|
  {
    var w := s.workers[id];
    var since, attempt := w.phase.since, w.phase.attempt;
    var moved := if Settles(r) then MovedOn(s, id)
                 else if TryAgain(r) && attempt < SEND_ATTEMPTS then Moved(s, id, Posting(since, attempt + 1))
                 else Moved(s, id, Failing(since));
    moved.(acks := s.acks + (if Accepted(r) then [Ack(w.bubbles[w.at], since)] else []))
  }

  /** One step of one worker, or of the clock. A step its worker is not ready for does nothing. A worker
      that dies while it holds nothing is one that takes no further step. */
  function Do(s: System, a: Act): System {
    match a
    case Pass(dt) => s.(redis := Later(s.redis, dt))
    case Arrive(id, guard, bubbles) =>
      if id in s.workers then s else s.(workers := s.workers[id := Worker(guard, bubbles, 0, Guarding)])
    case Guard(id) => if id in s.workers && s.workers[id].phase.Guarding? then Guarded(s, id) else s
    case Take(id) => if id in s.workers && s.workers[id].phase.Ready? then Taken(s, id) else s
    case Post(id, r) =>
      if id in s.workers && Holding(s.workers[id]) && s.workers[id].phase.Posting? then Posted(s, id, r) else s
    case GiveBack(id, deletable) =>
      if id in s.workers && Holding(s.workers[id]) && s.workers[id].phase.Failing? then
        Moved(s, id, Stopped).(redis := if deletable then Delete(s.redis, InHand(s.workers[id])) else s.redis)
      else s
    case Vanish(id) => if id in s.workers && Holding(s.workers[id]) then Moved(s, id, Stopped) else s
  }

  function Ran(s: System, acts: seq<Act>): System {
    if acts == [] then s else Do(Ran(s, acts[..|acts| - 1]), acts[|acts| - 1])
  }
}
