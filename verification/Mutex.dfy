/** The conversation mutex as interleaved workers: poll for the lock, keep it alive while working, release
    it by compare-and-delete. Any worker may stall for any time, or vanish without releasing. */
module Mutexes {
  import opened Text
  import opened Redis

  const ATTEMPTS: nat := 30

  /** `touched` is when the worker last took or refreshed the lock. */
  datatype Phase = Waiting(tries: nat) | Working(lock: nat, touched: real) | Gone

  datatype Worker = Worker(thread: string, phase: Phase)

  datatype System = System(redis: Server, workers: map<nat, Worker>, tokens: nat)

  datatype Act =
    | Pass(dt: real) | Arrive(id: nat, thread: string) | Try(id: nat) | Refresh(id: nat) | Finish(id: nat) | Vanish(id: nat)

  const IDLE: System := System(Server(map[], 0.0), map[], 0)

  predicate Busy(s: System, id: nat) {
    id in s.workers && s.workers[id].phase.Working?
  }

  function LockOf(s: System, id: nat): Key
    requires id in s.workers
  {
    Mutex(s.workers[id].thread)
  }

  function Moved(s: System, id: nat, phase: Phase): System
    requires id in s.workers
  {
    s.(workers := s.workers[id := s.workers[id].(phase := phase)])
  }

  function Tried(s: System, id: nat): System
    requires id in s.workers && s.workers[id].phase.Waiting?
  {
    var k, tries := LockOf(s, id), s.workers[id].phase.tries + 1;
    var next := if !Live(s.redis, k) then Working(s.tokens, s.redis.now)
                else if tries >= ATTEMPTS then Gone else Waiting(tries);
    Moved(s, id, next).(redis := SetIfAbsent(s.redis, k, Token(s.tokens), LOCK_TTL), tokens := s.tokens + 1)
  }

  /** One step of one worker, or of the clock. A step its worker is not ready for does nothing. */
  function Do(s: System, a: Act): System {
    match a
    case Pass(dt) => s.(redis := Later(s.redis, dt))
    case Arrive(id, thread) =>
      if id in s.workers then s else s.(workers := s.workers[id := Worker(thread, Waiting(0))])
    case Try(id) => if id in s.workers && s.workers[id].phase.Waiting? then Tried(s, id) else s
    case Refresh(id) =>
      if !Busy(s, id) then s
      else Moved(s, id, Working(s.workers[id].phase.lock, s.redis.now))
           .(redis := Expire(s.redis, LockOf(s, id), LOCK_TTL))
    case Finish(id) =>
      if !Busy(s, id) then s
      else Moved(s, id, Gone).(redis := DeleteIfOwn(s.redis, LockOf(s, id), Token(s.workers[id].phase.lock)))
    case Vanish(id) => if !Busy(s, id) then s else Moved(s, id, Gone)
  }

  function Ran(acts: seq<Act>): System {
    if acts == [] then IDLE else Do(Ran(acts[..|acts| - 1]), acts[|acts| - 1])
  }

  /** Every worker holding a lock refreshed it within the last thirty seconds. */
  ghost predicate Timely(s: System) {
    forall id | Busy(s, id) :: s.redis.now < s.workers[id].phase.touched + LOCK_TTL
  }

  ghost predicate TimelyThroughout(acts: seq<Act>) {
    forall n | 0 <= n < |acts| :: Timely(Ran(acts[..n]))
  }

  /** At most one worker at work on each conversation. */
  ghost predicate Exclusive(s: System) {
    forall i, j | Busy(s, i) && Busy(s, j) && s.workers[i].thread == s.workers[j].thread :: i == j
  }

  /** The lock on record is this worker's. */
  predicate HasLock(s: System, id: nat)
    requires Busy(s, id)
  {
    LockOf(s, id) in s.redis.keys && s.redis.keys[LockOf(s, id)].value == Token(s.workers[id].phase.lock)
  }

  // ---- With no timing assumption ------------------------------------------------------------

  /** No lock value is used twice, and no lock outlives its thirty seconds unrefreshed. */
  ghost predicate Fresh(s: System) {
    && (forall i | Busy(s, i) :: s.workers[i].phase.lock < s.tokens)
    && (forall i, j | Busy(s, i) && Busy(s, j) && s.workers[i].phase.lock == s.workers[j].phase.lock :: i == j)
    && (forall k | k in s.redis.keys :: s.redis.keys[k].expires <= s.redis.now + LOCK_TTL)
  }

  lemma TryKeepsFresh(s: System, id: nat)
    requires Fresh(s)
    ensures Fresh(Do(s, Try(id)))
  {
    var n := Do(s, Try(id));
    assert forall i | Busy(n, i) && i != id :: Busy(s, i) && n.workers[i] == s.workers[i];
  }

  lemma RefreshKeepsFresh(s: System, id: nat)
    requires Fresh(s)
    ensures Fresh(Do(s, Refresh(id)))
  {
    var n := Do(s, Refresh(id));
    assert forall i | Busy(n, i) :: Busy(s, i) && n.workers[i].phase.lock == s.workers[i].phase.lock;
  }

  lemma LeavingKeepsFresh(s: System, a: Act)
    requires Fresh(s) && (a.Finish? || a.Vanish?)
    ensures Fresh(Do(s, a))
  {
    var n := Do(s, a);
    assert forall i | Busy(n, i) :: Busy(s, i) && n.workers[i] == s.workers[i];
  }

  lemma StepKeepsFresh(s: System, a: Act)
    requires Fresh(s)
    ensures Fresh(Do(s, a))
  {
    match a
    case Try(id) => TryKeepsFresh(s, id);
    case Refresh(id) => RefreshKeepsFresh(s, id);
    case Finish(_) => LeavingKeepsFresh(s, a);
    case Vanish(_) => LeavingKeepsFresh(s, a);
    case Pass(_) =>
      assert forall i | Busy(Do(s, a), i) :: Busy(s, i);
    case Arrive(_, _) =>
      assert forall i | Busy(Do(s, a), i) :: Busy(s, i) && Do(s, a).workers[i] == s.workers[i];
  }

  lemma {:induction false} EveryRunIsFresh(acts: seq<Act>)
    ensures Fresh(Ran(acts))
  {
    if acts != [] {
      EveryRunIsFresh(acts[..|acts| - 1]);
      StepKeepsFresh(Ran(acts[..|acts| - 1]), acts[|acts| - 1]);
    }
  }

  /** Whoever releases, and however late: a lock another working worker owns is not touched. */
  lemma {:induction false} LateReleaseFreesNobodyElse(acts: seq<Act>, late: nat, owner: nat)
    requires Busy(Ran(acts), owner) && owner != late && HasLock(Ran(acts), owner)
    ensures var s, n := Ran(acts), Do(Ran(acts), Finish(late));
            LockOf(s, owner) in n.redis.keys && n.redis.keys[LockOf(s, owner)] == s.redis.keys[LockOf(s, owner)]
  {
    EveryRunIsFresh(acts);
  }

  /** The only step that frees or re-assigns a live lock is its owner's own release. Not even a stale
      worker's keepalive changes hands: it can only lengthen. */
  lemma {:induction false} OnlyTheOwnerReleases(acts: seq<Act>, a: Act, k: Key)
    requires Live(Ran(acts).redis, k)
    requires var n := Do(Ran(acts), a).redis; k !in n.keys || n.keys[k].value != Ran(acts).redis.keys[k].value
    ensures a.Finish? && Busy(Ran(acts), a.id) && k == LockOf(Ran(acts), a.id)
    ensures Ran(acts).redis.keys[k].value == Token(Ran(acts).workers[a.id].phase.lock)
  {
  }

  /** A worker that dies with the lock blocks its conversation for thirty seconds and no longer. */
  lemma {:induction false} AbandonedLockIsTakenOver(acts: seq<Act>, wait: real, id: nat)
    requires wait >= 30.0
    requires id in Ran(acts).workers && Ran(acts).workers[id].phase.Waiting?
    ensures Busy(Do(Do(Ran(acts), Pass(wait)), Try(id)), id)
  {
    EveryRunIsFresh(acts);
  }

  // ---- With timely refreshing ---------------------------------------------------------------

  /** Every worker at work is the owner on record, until thirty seconds after its last touch. */
  ghost predicate Owns(s: System) {
    forall id | Busy(s, id) :: OwnsLock(s, id)
  }

  /** This worker is the owner on record. */
  predicate OwnsLock(s: System, id: nat)
    requires Busy(s, id)
  {
    HasLock(s, id) && s.redis.keys[LockOf(s, id)].expires >= s.workers[id].phase.touched + LOCK_TTL
  }

  lemma TryKeepsOwner(s: System, id: nat, owner: nat)
    requires Busy(s, owner) && OwnsLock(s, owner) && Live(s.redis, LockOf(s, owner))
    ensures Busy(Do(s, Try(id)), owner) && OwnsLock(Do(s, Try(id)), owner)
  {
  }

  lemma FinishKeepsOwner(s: System, id: nat, owner: nat)
    requires Fresh(s) && Busy(s, owner) && OwnsLock(s, owner) && owner != id
    ensures Busy(Do(s, Finish(id)), owner) && OwnsLock(Do(s, Finish(id)), owner)
  {
  }

  lemma StepKeepsOwns(s: System, a: Act)
    requires Fresh(s) && Owns(s) && Timely(s)
    ensures Owns(Do(s, a))
  {
    var n := Do(s, a);
    forall id | Busy(n, id)
      ensures OwnsLock(n, id)
    {
      if Busy(s, id) {
        assert OwnsLock(s, id) && Live(s.redis, LockOf(s, id));
        match a
        case Try(other) => TryKeepsOwner(s, other, id);
        case Finish(other) => FinishKeepsOwner(s, other, id);
        case _ =>
      }
    }
  }

  lemma {:induction false} TimelyRunOwns(acts: seq<Act>)
    requires TimelyThroughout(acts)
    ensures Owns(Ran(acts))
  {
    if acts != [] {
      var before := acts[..|acts| - 1];
      assert forall n | 0 <= n < |before| :: before[..n] == acts[..n];
      TimelyRunOwns(before);
      EveryRunIsFresh(before);
      assert Timely(Ran(acts[..|acts| - 1]));
      StepKeepsOwns(Ran(before), acts[|acts| - 1]);
    }
  }

  /** While every holder refreshes within the lock's life, at most one worker is at work on a
      conversation, over every interleaving. */
  lemma {:induction false} AtMostOneWorker(acts: seq<Act>)
    requires TimelyThroughout(acts)
    ensures Exclusive(Ran(acts))
  {
    TimelyRunOwns(acts);
    EveryRunIsFresh(acts);
  }

  const ASKED: Worker := Worker("t", Waiting(0))
  const AT_WORK: Worker := Worker("t", Working(0, 0.0))
  const STALLED: System := System(Server(map[Mutex("t") := Entry(Token(0), 30.0)], 30.0), map[1 := AT_WORK, 2 := ASKED], 1)

  lemma StalledIsReached() returns (acts: seq<Act>)
    ensures Ran(acts) == STALLED
  {
    acts := [];
    RanAppends(acts, Arrive(1, "t"));
    acts := acts + [Arrive(1, "t")];
    RanAppends(acts, Arrive(2, "t"));
    acts := acts + [Arrive(2, "t")];
    assert Ran(acts) == System(Server(map[], 0.0), map[1 := ASKED, 2 := ASKED], 0);
    RanAppends(acts, Try(1));
    acts := acts + [Try(1)];
    assert Ran(acts) == STALLED.(redis := STALLED.redis.(now := 0.0));
    RanAppends(acts, Pass(30.0));
    acts := acts + [Pass(30.0)];
  }

  /** A stall of thirty seconds is enough to lose exclusion: the assumption is not idle. */
  lemma StallLosesExclusion() returns (acts: seq<Act>)
    ensures !TimelyThroughout(acts) && !Exclusive(Ran(acts))
  {
    var before := StalledIsReached();
    RanAppends(before, Try(2));
    acts := before + [Try(2)];
    assert acts[..|before|] == before;
    assert Busy(STALLED, 1) && !Timely(STALLED);
    assert Busy(Do(STALLED, Try(2)), 1) && Busy(Do(STALLED, Try(2)), 2);
  }

  lemma {:induction false} RanAppends(acts: seq<Act>, a: Act)
    ensures Ran(acts + [a]) == Do(Ran(acts), a)
  {
    assert (acts + [a])[..|acts|] == acts;
  }

  /** The one way to lose exclusion: a worker takes a lock that ran out under another still at work. */
  lemma ExclusionIsLostExactly(s: System, a: Act)
    requires Exclusive(s)
    ensures !Exclusive(Do(s, a)) <==> TakesFromTheLiving(s, a)
  {
    var n := Do(s, a);
    if TakesFromTheLiving(s, a) {
      var id :| Busy(s, id) && s.workers[id].thread == s.workers[a.id].thread;
      assert Busy(n, id) && Busy(n, a.id);
    }
  }

  ghost predicate TakesFromTheLiving(s: System, a: Act) {
    && a.Try? && a.id in s.workers && s.workers[a.id].phase.Waiting?
    && !Live(s.redis, LockOf(s, a.id))
    && exists id :: Busy(s, id) && s.workers[id].thread == s.workers[a.id].thread
  }

  // ---- One worker's own loops ---------------------------------------------------------------

  /** The acquire loop: thirty attempts, a pause after each, while others do as they please in between. */
  method PollForLock(cache: CacheService, thread: string, seen: seq<Server>) returns (lock: Option<nat>, attempts: nat)
    requires |seen| == ATTEMPTS
    modifies cache
    ensures lock.Some? <==> exists i :: 0 <= i < 30 && !Live(seen[i], Mutex(thread))
    ensures lock.Some? ==>
      && 1 <= attempts <= ATTEMPTS && !Live(seen[attempts - 1], Mutex(thread))
      && (forall i | 0 <= i < attempts - 1 :: Live(seen[i], Mutex(thread)))
      && cache.redis == SetIfAbsent(seen[attempts - 1], Mutex(thread), Token(lock.value), LOCK_TTL)
    ensures lock.Some? ==> old(cache.tokens) <= lock.value < cache.tokens
    ensures lock.None? ==> attempts == ATTEMPTS
  {
    lock, attempts := None, 0;
    while attempts < ATTEMPTS
      invariant attempts <= ATTEMPTS && old(cache.tokens) <= cache.tokens
      invariant forall i | 0 <= i < attempts :: Live(seen[i], Mutex(thread))
      invariant lock.None?
    {
      cache.redis := seen[attempts];
      lock := cache.AcquireLock(thread, LOCK_TTL);
      attempts := attempts + 1;
      if lock.Some? {
        return;
      }
    }
  }
}
