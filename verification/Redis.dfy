/** The few Redis commands the program coordinates its workers with, and the service that issues them. */
module Redis {
  import opened Text

  datatype Value = Token(id: nat) | Sent

  /** A conversation's mutex, or the claim on one outgoing message. */
  datatype Key = Mutex(thread: string) | Claim(text: string)

  datatype Entry = Entry(value: Value, expires: real)

  datatype Server = Server(keys: map<Key, Entry>, now: real)

  const LOCK_TTL: real := 30.0
  const CLAIM_TTL: real := 86400.0

  predicate Live(r: Server, k: Key) {
    k in r.keys && r.now < r.keys[k].expires
  }

  /** SET with NX and EX. */
  function SetIfAbsent(r: Server, k: Key, v: Value, ttl: real): Server {
    if Live(r, k) then r else r.(keys := r.keys[k := Entry(v, r.now + ttl)])
  }

  /** EXPIRE does not ask who owns the key. */
  function Expire(r: Server, k: Key, ttl: real): Server {
    if Live(r, k) then r.(keys := r.keys[k := Entry(r.keys[k].value, r.now + ttl)]) else r
  }

  function Delete(r: Server, k: Key): Server {
    r.(keys := r.keys - {k})
  }

  /** The release script: delete the key only while it still holds the caller's value. */
  function DeleteIfOwn(r: Server, k: Key, v: Value): Server {
    if Live(r, k) && r.keys[k].value == v then Delete(r, k) else r
  }

  function Later(r: Server, dt: real): Server {
    if dt > 0.0 then r.(now := r.now + dt) else r
  }

  // ---- Which message a claim is on ----------------------------------------------------------

  function Digit(n: nat): char
    requires n < 10
  {
    '0' + n as char
  }

  function Decimal(n: nat): string {
    if n < 10 then [Digit(n)] else Decimal(n / 10) + [Digit(n % 10)]
  }

  /** The text a claim's key is the hash of. */
  function BubbleText(thread: string, message: string, node: string, index: nat): string {
    thread + ":" + message + ":" + node + ":" + Decimal(index)
  }

  lemma {:induction false} DecimalIsInjective(m: nat, n: nat)
    requires Decimal(m) == Decimal(n)
    ensures m == n
  {
    var a, b := Decimal(m), Decimal(n);
    assert a[|a| - 1] == b[|b| - 1];
    if m >= 10 && n >= 10 {
      assert Decimal(m / 10) == a[..|a| - 1] == b[..|b| - 1] == Decimal(n / 10);
      DecimalIsInjective(m / 10, n / 10);
    }
  }

  lemma {:induction false} DecimalHasNoColon(n: nat)
    ensures ':' !in Decimal(n) && Decimal(n) != []
  {
    if n >= 10 {
      DecimalHasNoColon(n / 10);
    }
  }

  lemma FirstColon(a: string, x: string, b: string, y: string)
    requires ':' !in a && ':' !in b && a + ":" + x == b + ":" + y
    ensures a == b && x == y
  {
    var s := a + ":" + x;
    assert s[|a|] == ':' && s[|b|] == ':';
    assert forall i | 0 <= i < |a| :: s[i] == a[i];
    assert forall i | 0 <= i < |b| :: s[i] == (b + ":" + y)[i] == b[i];
    assert a == s[..|a|] && b == s[..|b|];
    assert x == s[|a| + 1..] && y == s[|b| + 1..];
  }

  lemma LastColon(a: string, x: string, b: string, y: string)
    requires ':' !in x && ':' !in y && a + ":" + x == b + ":" + y
    ensures a == b && x == y
  {
    var s := a + ":" + x;
    assert s[|a|] == ':' && (b + ":" + y)[|b|] == ':';
    assert forall i | |a| < i < |s| :: s[i] == x[i - |a| - 1];
    assert forall i | |b| < i < |s| :: s[i] == (b + ":" + y)[i] == y[i - |b| - 1];
    assert a == s[..|a|] && b == s[..|b|];
    assert x == s[|a| + 1..] && y == s[|b| + 1..];
  }

  /** Two messages never share a claim, though a webhook id may itself contain colons: the number and the
      node's name, on either side of it, do not. */
  lemma DistinctBubblesHaveDistinctKeys(
      t: string, m: string, n: string, i: nat, t': string, m': string, n': string, i': nat)
    requires ':' !in t && ':' !in t' && ':' !in n && ':' !in n'
    requires BubbleText(t, m, n, i) == BubbleText(t', m', n', i')
    ensures t == t' && m == m' && n == n' && i == i'
  {
    DecimalHasNoColon(i);
    DecimalHasNoColon(i');
    LastColon(t + ":" + m + ":" + n, Decimal(i), t' + ":" + m' + ":" + n', Decimal(i'));
    DecimalIsInjective(i, i');
    LastColon(t + ":" + m, n, t' + ":" + m', n');
    FirstColon(t, m, t', m');
  }

  // ---- The service --------------------------------------------------------------------------

  /** Issues the commands of one worker, and draws the values no other lock ever had. */
  class CacheService {
    var redis: Server
    var tokens: nat

    constructor (redis: Server)
      ensures this.redis == redis && tokens == 0
    {
      this.redis, tokens := redis, 0;
    }

    /** The lock's new value, or nothing when somebody has it. */
    method AcquireLock(thread: string, timeout: real) returns (lock: Option<nat>)
      modifies this
      ensures redis == SetIfAbsent(old(redis), Mutex(thread), Token(old(tokens)), timeout)
      ensures lock == if Live(old(redis), Mutex(thread)) then None else Some(old(tokens))
      ensures tokens == old(tokens) + 1
    {
      var value := tokens;
      tokens := tokens + 1;
      var acquired := SetNx(Mutex(thread), Token(value), timeout);
      lock := if acquired then Some(value) else None;
    }

    method SetNx(k: Key, v: Value, ttl: real) returns (isNew: bool)
      modifies this`redis
      ensures redis == SetIfAbsent(old(redis), k, v, ttl) && isNew == !Live(old(redis), k)
    {
      isNew := !Live(redis, k);
      if isNew {
        redis := redis.(keys := redis.keys[k := Entry(v, redis.now + ttl)]);
      }
    }

    method ReleaseLock(thread: string, lock: nat)
      modifies this`redis
      ensures redis == DeleteIfOwn(old(redis), Mutex(thread), Token(lock))
    {
      if Live(redis, Mutex(thread)) && redis.keys[Mutex(thread)].value == Token(lock) {
        redis := redis.(keys := redis.keys - {Mutex(thread)});
      }
    }

    /** Whether this message may go out now; claims it if so. */
    method CheckAndSetIdempotency(thread: string, message: string, node: string, index: nat) returns (isNew: bool)
      modifies this`redis
      ensures var k := Claim(BubbleText(thread, message, node, index));
              redis == SetIfAbsent(old(redis), k, Sent, CLAIM_TTL) && isNew == !Live(old(redis), k)
    {
      isNew := SetNx(Claim(BubbleText(thread, message, node, index)), Sent, CLAIM_TTL);
    }

    /** Give a claim back. The deletion may fail, and then nothing is said. */
    method ReleaseIdempotency(thread: string, message: string, node: string, index: nat, reachable: bool)
      modifies this`redis
      ensures redis == if reachable then Delete(old(redis), Claim(BubbleText(thread, message, node, index))) else old(redis)
    {
      if reachable {
        redis := redis.(keys := redis.keys - {Claim(BubbleText(thread, message, node, index))});
      }
    }

    /** One beat of the keepalive. */
    method KeepAlive(thread: string)
      modifies this`redis
      ensures redis == Expire(old(redis), Mutex(thread), LOCK_TTL)
    {
      if Live(redis, Mutex(thread)) {
        redis := redis.(keys := redis.keys[Mutex(thread) := redis.keys[Mutex(thread)].(expires := redis.now + LOCK_TTL)]);
      }
    }
  }
}
