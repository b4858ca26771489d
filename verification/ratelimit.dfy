/** The per-key token bucket of internal/gateway/ratelimit.go: what one call does to
    one bucket, histories of calls and sweeps, and the limiter object itself. */
module RateLimiting {

  import opened Wrappers

  /** Tokens per interval, bucket capacity and refill interval. */
  datatype Config = Config(rate: int, burst: int, interval: int)

  datatype BucketState = BucketState(tokens: int, lastFill: int)

  /** Integer division that truncates toward zero, also for negative elapsed times. */
  function Quotient(a: int, b: int): int
    requires b > 0
  {
    if a >= 0 then a / b else -((-a) / b)
  }

  function Refill(c: Config, b: BucketState, now: int): BucketState
    requires c.interval > 0
  {
    var refill := Quotient(now - b.lastFill, c.interval) * c.rate;
    if refill > 0 then
      BucketState(if b.tokens + refill > c.burst then c.burst else b.tokens + refill, now)
    else
      b
  }

  /** The bucket a call works on: the stored one, or a full one created on first use. */
  function Before(c: Config, b: Option<BucketState>, now: int): BucketState
    requires c.interval > 0
  {
    Refill(c, if b.Some? then b.value else BucketState(c.burst, now), now)
  }

  predicate Admits(c: Config, b: Option<BucketState>, now: int)
    requires c.interval > 0
  {
    Before(c, b, now).tokens > 0
  }

  function After(c: Config, b: Option<BucketState>, now: int): BucketState
    requires c.interval > 0
  {
    var r := Before(c, b, now);
    if r.tokens > 0 then r.(tokens := r.tokens - 1) else r
  }

  /** A bucket created on first use behaves as one stored full at that instant. */
  lemma NewBucket(c: Config, now: int)
    requires c.interval > 0
    ensures Admits(c, None, now) == Admits(c, Some(BucketState(c.burst, now)), now)
    ensures After(c, None, now) == After(c, Some(BucketState(c.burst, now)), now)
  {
  }

  // ----- histories

  type Buckets = map<string, BucketState>

  datatype Op = Call(key: string, at: int) | Sweep(maxAge: int, at: int)

  datatype Answer = Answer(key: string, at: int, ok: bool)

  function Lookup(s: Buckets, key: string): Option<BucketState> {
    if key in s then Some(s[key]) else None
  }

  function Swept(s: Buckets, maxAge: int, now: int): Buckets {
    map k | k in s && s[k].lastFill >= now - maxAge :: s[k]
  }

  function Step(c: Config, s: Buckets, op: Op): Buckets
    requires c.interval > 0
  {
    match op
    case Call(key, at) => s[key := After(c, Lookup(s, key), at)]
    case Sweep(maxAge, at) => Swept(s, maxAge, at)
  }

  /** The answers given to the calls of a history, in order. */
  function Trace(c: Config, s: Buckets, ops: seq<Op>): seq<Answer>
    requires c.interval > 0
    decreases |ops|
  {
    if ops == [] then []
    else
      (match ops[0]
       case Call(key, at) => [Answer(key, at, Admits(c, Lookup(s, key), at))]
       case Sweep(_, _) => [])
      + Trace(c, Step(c, s, ops[0]), ops[1..])
  }

  /** The clock never runs backwards. */
  predicate Timed(from: int, ops: seq<Op>)
    decreases |ops|
  {
    ops == [] || (from <= ops[0].at && Timed(ops[0].at, ops[1..]))
  }

  // ----- the limiter object

  class Bucket {
    var tokens: int
    var lastFill: int

    constructor (tokens: int, lastFill: int)
      ensures this.tokens == tokens && this.lastFill == lastFill
    {
      this.tokens, this.lastFill := tokens, lastFill;
    }

    function State(): BucketState
      reads this
    {
      BucketState(tokens, lastFill)
    }

    /** Refills for the time passed, then takes one token if there is one. */
    method Take(c: Config, now: int) returns (ok: bool)
      requires c.interval > 0
      modifies this
      ensures ok == Admits(c, Some(old(State())), now)
      ensures State() == After(c, Some(old(State())), now)
    {
      var elapsed := now - lastFill;
      var refill := Quotient(elapsed, c.interval) * c.rate;
      if refill > 0 {
        tokens := tokens + refill;
        if tokens > c.burst {
          tokens := c.burst;
        }
        lastFill := now;
      }
      if tokens <= 0 {
        return false;
      }
      tokens := tokens - 1;
      return true;
    }
  }

  class RateLimiter {
    var buckets: map<string, Bucket>
    const rate: int
    const burst: int
    const interval: int

    /** No two keys share a bucket. */
    ghost predicate Valid()
      reads this
    {
      && interval > 0
      && forall k, l :: k in buckets && l in buckets && k != l ==> buckets[k] != buckets[l]
    }

    function Cfg(): Config { Config(rate, burst, interval) }

    ghost function View(): Buckets
      reads this, buckets.Values
    {
      map k | k in buckets :: buckets[k].State()
    }

    constructor (rate: int, burst: int, interval: int)
      requires interval > 0
      ensures Valid() && View() == map[] && Cfg() == Config(rate, burst, interval)
      ensures fresh(buckets.Values)
    {
      buckets := map[];
      this.rate, this.burst, this.interval := rate, burst, interval;
    }

    method Allow(key: string, now: int) returns (ok: bool)
      requires Valid()
      modifies this, buckets.Values
      ensures Valid() && fresh(buckets.Values - old(buckets.Values))
      ensures ok == Admits(Cfg(), Lookup(old(View()), key), now)
      ensures View() == Step(Cfg(), old(View()), Call(key, now))
    {
      hide After, Admits, View;
      NewBucket(Cfg(), now);
      ghost var was := View();
      ViewAt();
      var b: Bucket;
      if key in buckets {
        b := buckets[key];
      } else {
        b := new Bucket(burst, now);
        buckets := buckets[key := b];
      }
      assert forall k :: k in was && k != key ==> k in buckets && buckets[k] != b && buckets[k].State() == was[k];
      ok := b.Take(Cfg(), now);
      ViewIs(was, key, After(Cfg(), Lookup(was, key), now));
    }

    lemma ViewAt()
      ensures View().Keys == buckets.Keys && forall k :: k in buckets ==> View()[k] == buckets[k].State()
    {
    }

    /** All buckets as they were, but for one key's. */
    lemma ViewIs(was: Buckets, key: string, b: BucketState)
      requires buckets.Keys == was.Keys + {key} && buckets[key].State() == b
      requires forall k :: k in was && k != key ==> buckets[k].State() == was[k]
      ensures View() == was[key := b]
    {
    }

    method Cleanup(maxAge: int, now: int)
      requires Valid()
      modifies this`buckets
      ensures Valid() && buckets.Values <= old(buckets.Values)
      ensures View() == Step(Cfg(), old(View()), Sweep(maxAge, now))
    {
      var cutoff := now - maxAge;
      var todo := buckets.Keys;
      while todo != {}
        invariant todo <= buckets.Keys <= old(buckets.Keys)
        invariant forall k :: k in buckets ==> buckets[k] == old(buckets)[k]
        invariant forall k :: k in old(buckets) && k !in todo ==>
                    (k in buckets <==> old(buckets)[k].lastFill >= cutoff)
      {
        var key :| key in todo;
        todo := todo - {key};
        if buckets[key].lastFill < cutoff {
          buckets := buckets - {key};
        }
      }
    }
  }
}
