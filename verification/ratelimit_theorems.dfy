/** What the limiter guarantees over whole histories: keys do not interfere, safe
    sweeps are invisible (and only those), and the exact worst case of any window. */
module RateLimitTheorems {

  import opened Wrappers
  import opened Arith
  import opened RateLimiting

  // ----- bucket facts

  /** What every reachable bucket satisfies at time `now`. */
  predicate Sane(c: Config, b: BucketState, now: int) {
    0 <= b.tokens <= c.burst && b.lastFill <= now
  }

  lemma RefillSane(c: Config, b: BucketState, now: int)
    requires c.interval > 0 && c.burst >= 1
    requires 0 <= b.tokens <= c.burst && b.lastFill <= now
    ensures Sane(c, Refill(c, b, now), now)
    ensures Sane(c, After(c, Some(b), now), now) && After(c, Some(b), now).tokens <= c.burst - 1
  {
  }

  /** Tokens stay between zero and the burst, at every key, over every history. */
  lemma {:induction false} TokensInRange(c: Config, s: Buckets, op: Op)
    requires c.interval > 0 && c.burst >= 1
    requires forall k :: k in s ==> Sane(c, s[k], op.at)
    ensures forall k :: k in Step(c, s, op) ==> Sane(c, Step(c, s, op)[k], op.at)
    ensures op.Call? ==> Step(c, s, op)[op.key].tokens <= c.burst - 1
  {
    if op.Call? {
      var b := if op.key in s then s[op.key] else BucketState(c.burst, op.at);
      RefillSane(c, b, op.at);
    }
  }

  lemma {:induction false} TokensInRangeRun(c: Config, s: Buckets, now: int, ops: seq<Op>)
    requires c.interval > 0 && c.burst >= 1 && Timed(now, ops)
    requires forall k :: k in s ==> Sane(c, s[k], now)
    ensures forall k :: k in Run(c, s, ops) ==> 0 <= Run(c, s, ops)[k].tokens <= c.burst
    decreases |ops|
  {
    if ops != [] {
      TokensInRange(c, s, ops[0]);
      TokensInRangeRun(c, Step(c, s, ops[0]), ops[0].at, ops[1..]);
    }
  }

  // ----- keys do not interfere

  function OnlyKey(ops: seq<Op>, key: string): seq<Op> {
    if ops == [] then []
    else (if ops[0].Call? && ops[0].key != key then [] else [ops[0]]) + OnlyKey(ops[1..], key)
  }

  function AnswersFor(trace: seq<Answer>, key: string): seq<Answer> {
    if trace == [] then []
    else (if trace[0].key == key then [trace[0]] else []) + AnswersFor(trace[1..], key)
  }

  lemma {:induction false} AnswersForCons(a: Answer, rest: seq<Answer>, key: string)
    ensures AnswersFor([a] + rest, key) == (if a.key == key then [a] else []) + AnswersFor(rest, key)
  {
    assert ([a] + rest)[1..] == rest;
  }

  /** The answers key k gets in any history are those of the history without the other
      keys' calls, from any two starts that agree on k. */
  lemma {:induction false} NonInterference(c: Config, s: Buckets, t: Buckets, ops: seq<Op>, key: string)
    requires c.interval > 0
    requires Lookup(s, key) == Lookup(t, key)
    ensures AnswersFor(Trace(c, s, ops), key) == Trace(c, t, OnlyKey(ops, key))
    decreases |ops|
  {
    if ops != [] {
      var rest := Trace(c, Step(c, s, ops[0]), ops[1..]);
      if ops[0].Call? && ops[0].key != key {
        NonInterference(c, Step(c, s, ops[0]), t, ops[1..], key);
        AnswersForCons(Answer(ops[0].key, ops[0].at, Admits(c, Lookup(s, ops[0].key), ops[0].at)), rest, key);
        assert OnlyKey(ops, key) == OnlyKey(ops[1..], key);
      } else {
        NonInterference(c, Step(c, s, ops[0]), Step(c, t, ops[0]), ops[1..], key);
        var only := OnlyKey(ops, key);
        assert only[0] == ops[0] && only[1..] == OnlyKey(ops[1..], key);
        if ops[0].Call? {
          AnswersForCons(Answer(key, ops[0].at, Admits(c, Lookup(s, key), ops[0].at)), rest, key);
        } else {
          assert Trace(c, s, ops) == rest;
          assert Trace(c, t, only) == Trace(c, Step(c, t, ops[0]), only[1..]);
        }
      }
    }
  }

  // ----- sweeps

  function WithoutSweeps(ops: seq<Op>): seq<Op> {
    if ops == [] then []
    else (if ops[0].Sweep? then [] else [ops[0]]) + WithoutSweeps(ops[1..])
  }

  /** Long enough for the refill to reach the burst by the time a bucket can be swept. */
  predicate Safe(c: Config, maxAge: int)
    requires c.interval > 0
  {
    c.burst <= 0 || (if maxAge < 0 then 0 else maxAge + 1) / c.interval * c.rate >= c.burst
  }

  predicate SafeSweeps(c: Config, ops: seq<Op>)
    requires c.interval > 0
  {
    forall i :: 0 <= i < |ops| && ops[i].Sweep? ==> Safe(c, ops[i].maxAge)
  }

  /** A bucket that any later call finds refilled to the brim, as a new one would be. */
  predicate Recovered(c: Config, b: BucketState, now: int)
    requires c.interval > 0
  {
    b.lastFill <= now && (now - b.lastFill) / c.interval * c.rate >= c.burst
  }

  /** A product with a positive bound and a non-negative factor grows with that factor. */
  lemma RefillGrows(n: int, m: int, rate: int, burst: int)
    requires 0 <= n <= m && burst >= 1 && n * rate >= burst
    ensures m * rate >= burst && m * rate > 0
  {
    if rate <= 0 {
      MulMonotone(rate, 0, n);
    } else {
      MulMonotone(n, m, rate);
    }
  }

  lemma RecoveredLasts(c: Config, b: BucketState, now: int, later: int)
    requires c.interval > 0 && c.burst >= 1 && 0 <= b.tokens && now <= later
    requires Recovered(c, b, now)
    ensures Recovered(c, b, later)
    ensures Refill(c, b, later) == BucketState(c.burst, later)
  {
    var n, m := (now - b.lastFill) / c.interval, (later - b.lastFill) / c.interval;
    DivMonotone(now - b.lastFill, later - b.lastFill, c.interval);
    RefillGrows(n, m, c.rate, c.burst);
  }

  lemma SweptIsRecovered(c: Config, b: BucketState, maxAge: int, now: int)
    requires c.interval > 0 && c.burst >= 1 && Safe(c, maxAge)
    requires b.lastFill <= now && b.lastFill < now - maxAge
    ensures Recovered(c, b, now)
  {
    var least := if maxAge < 0 then 0 else maxAge + 1;
    var n, m := least / c.interval, (now - b.lastFill) / c.interval;
    DivMonotone(least, now - b.lastFill, c.interval);
    RefillGrows(n, m, c.rate, c.burst);
  }

  /** s is t with some buckets missing that nobody could tell from new ones. */
  predicate Covers(c: Config, s: Buckets, t: Buckets, now: int)
    requires c.interval > 0
  {
    && (forall k :: k in s ==> k in t && s[k] == t[k])
    && (forall k :: k in t ==> Sane(c, t[k], now))
    && (forall k :: k in t && k !in s ==> Recovered(c, t[k], now))
  }

  lemma CoversCall(c: Config, s: Buckets, t: Buckets, now: int, op: Op)
    requires c.interval > 0 && c.burst >= 1 && op.Call? && now <= op.at
    requires Covers(c, s, t, now)
    ensures Admits(c, Lookup(s, op.key), op.at) == Admits(c, Lookup(t, op.key), op.at)
    ensures Covers(c, Step(c, s, op), Step(c, t, op), op.at)
  {
    TokensInRange(c, t, op);
    forall k | k in t && k !in s
      ensures Recovered(c, t[k], op.at) && Refill(c, t[k], op.at) == BucketState(c.burst, op.at)
    {
      RecoveredLasts(c, t[k], now, op.at);
    }
  }

  lemma CoversSweep(c: Config, s: Buckets, t: Buckets, now: int, op: Op)
    requires c.interval > 0 && c.burst >= 1 && op.Sweep? && Safe(c, op.maxAge) && now <= op.at
    requires Covers(c, s, t, now)
    ensures Covers(c, Step(c, s, op), t, op.at)
  {
    forall k | k in t && k !in Step(c, s, op)
      ensures Recovered(c, t[k], op.at)
    {
      if k in s {
        SweptIsRecovered(c, t[k], op.maxAge, op.at);
      } else {
        RecoveredLasts(c, t[k], now, op.at);
      }
    }
  }

  lemma {:induction false} CoveredRun(c: Config, s: Buckets, t: Buckets, now: int, ops: seq<Op>)
    requires c.interval > 0 && c.burst >= 1 && Timed(now, ops) && SafeSweeps(c, ops)
    requires Covers(c, s, t, now)
    ensures Trace(c, s, ops) == Trace(c, t, WithoutSweeps(ops))
    decreases |ops|
  {
    if ops != [] {
      var op, rest := ops[0], ops[1..];
      assert SafeSweeps(c, rest) by {
        forall i | 0 <= i < |rest| && rest[i].Sweep? ensures Safe(c, rest[i].maxAge) {
          assert rest[i] == ops[i + 1];
        }
      }
      if op.Call? {
        CoversCall(c, s, t, now, op);
        CoveredRun(c, Step(c, s, op), Step(c, t, op), op.at, rest);
        var clean := WithoutSweeps(ops);
        assert clean[0] == op && clean[1..] == WithoutSweeps(rest);
      } else {
        CoversSweep(c, s, t, now, op);
        CoveredRun(c, Step(c, s, op), t, op.at, rest);
        assert WithoutSweeps(ops) == WithoutSweeps(rest);
      }
    }
  }

  lemma {:induction false} NothingAdmitted(c: Config, s: Buckets, t: Buckets, ops: seq<Op>)
    requires c.interval > 0 && c.burst <= 0
    requires forall k :: k in s ==> s[k].tokens <= c.burst
    requires forall k :: k in t ==> t[k].tokens <= c.burst
    ensures Trace(c, s, ops) == Trace(c, t, WithoutSweeps(ops))
    decreases |ops|
  {
    if ops != [] {
      var op, rest := ops[0], ops[1..];
      if op.Call? {
        NothingAdmitted(c, Step(c, s, op), Step(c, t, op), rest);
        var clean := WithoutSweeps(ops);
        assert clean[0] == op && clean[1..] == WithoutSweeps(rest);
      } else {
        NothingAdmitted(c, Step(c, s, op), t, rest);
        assert WithoutSweeps(ops) == WithoutSweeps(rest);
      }
    }
  }

  /** Sweeping with a long enough age changes no answer of any history. */
  lemma SafeSweepsInvisible(c: Config, from: int, ops: seq<Op>)
    requires c.interval > 0 && Timed(from, ops) && SafeSweeps(c, ops)
    ensures Trace(c, map[], ops) == Trace(c, map[], WithoutSweeps(ops))
  {
    if c.burst >= 1 {
      CoveredRun(c, map[], map[], from, ops);
    } else {
      NothingAdmitted(c, map[], map[], ops);
    }
  }

  // ----- counting admissions

  predicate InWindow(a: Answer, key: string, t1: int, t2: int) {
    a.ok && a.key == key && t1 <= a.at <= t2
  }

  function Admitted(trace: seq<Answer>, key: string, t1: int, t2: int): nat {
    if trace == [] then 0
    else (if InWindow(trace[0], key, t1, t2) then 1 else 0) + Admitted(trace[1..], key, t1, t2)
  }

  lemma {:induction false} AdmittedConcat(a: seq<Answer>, b: seq<Answer>, key: string, t1: int, t2: int)
    ensures Admitted(a + b, key, t1, t2) == Admitted(a, key, t1, t2) + Admitted(b, key, t1, t2)
  {
    if a == [] {
      assert a + b == b;
    } else {
      assert (a + b)[1..] == a[1..] + b;
      AdmittedConcat(a[1..], b, key, t1, t2);
    }
  }

  function Run(c: Config, s: Buckets, ops: seq<Op>): Buckets
    requires c.interval > 0
    decreases |ops|
  {
    if ops == [] then s else Run(c, Step(c, s, ops[0]), ops[1..])
  }

  lemma {:induction false} TraceConcat(c: Config, s: Buckets, a: seq<Op>, b: seq<Op>)
    requires c.interval > 0
    ensures Trace(c, s, a + b) == Trace(c, s, a) + Trace(c, Run(c, s, a), b)
    ensures Run(c, s, a + b) == Run(c, Run(c, s, a), b)
    decreases |a|
  {
    if a == [] {
      assert a + b == b;
    } else {
      assert (a + b)[1..] == a[1..] + b;
      TraceConcat(c, Step(c, s, a[0]), a[1..], b);
    }
  }

  lemma {:induction false} TimedConcat(from: int, a: seq<Op>, mid: int, b: seq<Op>)
    requires Timed(from, a) && Timed(mid, b) && from <= mid
    requires forall i :: 0 <= i < |a| ==> a[i].at <= mid
    ensures Timed(from, a + b)
    decreases |a|
  {
    if a == [] {
      assert a + b == b;
    } else {
      assert (a + b)[1..] == a[1..] + b;
      TimedConcat(a[0].at, a[1..], mid, b);
    }
  }

  // ----- the sliding window

  /** Tokens one interval can add: never more than the bucket holds. */
  function Gain(c: Config): nat {
    if c.rate <= 0 || c.burst <= 0 then 0 else if c.rate < c.burst then c.rate else c.burst
  }

  /** The most calls of one key that any window of length w can admit. */
  function WorstCase(c: Config, w: int): int
    requires c.interval > 0 && c.burst >= 1
  {
    var late := c.burst - 1 + Gain(c) * CeilDiv(w, c.interval);
    var early := c.burst + Gain(c) * (w / c.interval);
    if late > early then late else early
  }

  lemma WorstCaseGrows(c: Config, w: int, e: int)
    requires c.interval > 0 && c.burst >= 1 && w >= 0 && e >= 0
    ensures WorstCase(c, w) + Gain(c) * (e / c.interval) <= WorstCase(c, w + e)
    ensures c.burst <= WorstCase(c, w) <= WorstCase(c, w + e)
  {
    DivSuper(w, e, c.interval);
    var g := Gain(c);
    MulDistributes(g, CeilDiv(w, c.interval), e / c.interval);
    MulDistributes(g, w / c.interval, e / c.interval);
    MulMonotone(CeilDiv(w, c.interval) + e / c.interval, CeilDiv(w + e, c.interval), g);
    MulMonotone(w / c.interval + e / c.interval, (w + e) / c.interval, g);
    MulMonotone(0, w / c.interval, g);
    MulMonotone(0, e / c.interval, g);
  }

  /** A refill adds at most Gain for each whole interval, and only after a whole one. */
  lemma RefillBound(c: Config, b: BucketState, now: int)
    requires c.interval > 0 && c.burst >= 1
    requires 0 <= b.tokens <= c.burst && b.lastFill <= now
    ensures var r, n := Refill(c, b, now), (now - b.lastFill) / c.interval;
            if c.rate <= 0 || n == 0 then r == b
            else r.lastFill == now && r.tokens <= c.burst && r.tokens <= b.tokens + Gain(c) * n
  {
    var n := (now - b.lastFill) / c.interval;
    if c.rate <= 0 {
      MulMonotone(c.rate, 0, n);
    } else if n > 0 {
      MulMonotone(1, n, c.rate);
      MulMonotone(1, n, c.burst);
    }
  }

  /** The account kept for one key while a window opened at t1 is running: `a` calls
      admitted in it so far, and what its bucket may still hold. */
  predicate Account(c: Config, b: Option<BucketState>, t1: int, a: int)
    requires c.interval > 0 && c.burst >= 1
  {
    match b
    case None => a == 0
    case Some(b) =>
      && 0 <= b.tokens <= c.burst - 1
      && if b.lastFill < t1 then
           && a + b.tokens <= c.burst - 1
           && (a > 0 && c.rate > 0 ==> t1 - b.lastFill < c.interval)
         else
           a + b.tokens <= WorstCase(c, b.lastFill - t1)
  }

  /** First refill inside the window of a bucket last filled before it. */
  lemma LateRefill(c: Config, lastFill: int, t1: int, now: int, a: int, tokens: int)
    requires c.interval > 0 && c.burst >= 1 && lastFill < t1 <= now
    requires a + tokens <= c.burst - 1 && t1 - lastFill < c.interval
    ensures a + tokens + Gain(c) * ((now - lastFill) / c.interval) <= WorstCase(c, now - t1)
  {
    var n := (now - lastFill) / c.interval;
    LeCeilDiv(now - t1, n, c.interval);
    MulMonotone(n, CeilDiv(now - t1, c.interval), Gain(c));
  }

  lemma AccountNoRefill(c: Config, o: BucketState, t1: int, now: int, a: nat)
    requires c.interval > 0 && c.burst >= 1 && t1 <= now && o.lastFill <= now
    requires Account(c, Some(o), t1, a)
    requires Refill(c, o, now) == o && (c.rate <= 0 || (now - o.lastFill) / c.interval == 0)
    ensures Account(c, Some(After(c, Some(o), now)), t1, a + if Admits(c, Some(o), now) then 1 else 0)
  {
    if now - o.lastFill >= c.interval {
      LeDiv(1, now - o.lastFill, c.interval);
    }
  }

  lemma AccountRefill(c: Config, o: BucketState, t1: int, now: int, a: nat)
    requires c.interval > 0 && c.burst >= 1 && t1 <= now && o.lastFill <= now
    requires Account(c, Some(o), t1, a)
    requires c.rate > 0 && (now - o.lastFill) / c.interval > 0
    ensures Account(c, Some(After(c, Some(o), now)), t1, a + if Admits(c, Some(o), now) then 1 else 0)
  {
    var r := Refill(c, o, now);
    RefillBound(c, o, now);
    RefillSane(c, o, now);
    assert a + r.tokens <= WorstCase(c, now - t1) by {
      if o.lastFill >= t1 {
        WorstCaseGrows(c, o.lastFill - t1, now - o.lastFill);
      } else if a > 0 {
        LateRefill(c, o.lastFill, t1, now, a, o.tokens);
      } else {
        WorstCaseGrows(c, now - t1, 0);
      }
    }
  }

  lemma AccountNew(c: Config, t1: int, now: int)
    requires c.interval > 0 && c.burst >= 1 && t1 <= now
    ensures Account(c, Some(After(c, None, now)), t1, if Admits(c, None, now) then 1 else 0)
  {
    WorstCaseGrows(c, now - t1, 0);
  }

  lemma AccountCall(c: Config, b: Option<BucketState>, t1: int, now: int, a: nat)
    requires c.interval > 0 && c.burst >= 1 && t1 <= now
    requires b.Some? ==> b.value.lastFill <= now
    requires Account(c, b, t1, a)
    ensures Account(c, Some(After(c, b, now)), t1, a + if Admits(c, b, now) then 1 else 0)
  {
    hide Refill, After, Admits, WorstCase, Gain;
    if b.None? {
      AccountNew(c, t1, now);
    } else {
      var o := b.value;
      RefillBound(c, o, now);
      if c.rate > 0 && (now - o.lastFill) / c.interval != 0 {
        AccountRefill(c, o, t1, now, a);
      } else {
        AccountNoRefill(c, o, t1, now, a);
      }
    }
  }

  lemma {:induction false} NothingLater(c: Config, s: Buckets, now: int, ops: seq<Op>, key: string, t1: int, t2: int)
    requires c.interval > 0 && Timed(now, ops) && t2 < now
    ensures Admitted(Trace(c, s, ops), key, t1, t2) == 0
    decreases |ops|
  {
    if ops != [] {
      NothingLater(c, Step(c, s, ops[0]), ops[0].at, ops[1..], key, t1, t2);
      AdmittedConcat(Trace(c, s, ops)[..if ops[0].Call? then 1 else 0],
                     Trace(c, Step(c, s, ops[0]), ops[1..]), key, t1, t2);
    }
  }

  /** From any point of a history without sweeps, with the account kept so far. */
  lemma {:induction false} WindowFrom(c: Config, s: Buckets, now: int, ops: seq<Op>, key: string,
                                      t1: int, t2: int, a: nat)
    requires c.interval > 0 && c.burst >= 1 && t1 <= t2 && now <= t2
    requires Timed(now, ops) && forall i :: 0 <= i < |ops| ==> ops[i].Call?
    requires key in s ==> s[key].lastFill <= now
    requires Account(c, Lookup(s, key), t1, a)
    requires a > 0 ==> t1 <= now
    ensures a + Admitted(Trace(c, s, ops), key, t1, t2) <= WorstCase(c, t2 - t1)
    decreases |ops|
  {
    if ops == [] || ops[0].at > t2 {
      if ops != [] {
        NothingLater(c, s, ops[0].at, ops, key, t1, t2);
      }
      WorstCaseGrows(c, t2 - t1, 0);
      if key in s && s[key].lastFill >= t1 {
        WorstCaseGrows(c, s[key].lastFill - t1, t2 - s[key].lastFill);
      }
    } else {
      var op := ops[0];
      var ok := Admits(c, Lookup(s, op.key), op.at);
      var counted := if op.key == key && op.at >= t1 && ok then 1 else 0;
      if op.key == key {
        if op.at >= t1 {
          AccountCall(c, Lookup(s, key), t1, op.at, a);
        } else {
          RefillSane(c, if key in s then s[key] else BucketState(c.burst, op.at), op.at);
        }
      }
      WindowFrom(c, Step(c, s, op), op.at, ops[1..], key, t1, t2, a + counted);
    }
  }

  lemma {:induction false} CallsOnly(from: int, ops: seq<Op>)
    requires Timed(from, ops)
    ensures var calls := WithoutSweeps(ops);
            Timed(from, calls) && forall i :: 0 <= i < |calls| ==> calls[i].Call?
    decreases |ops|
  {
    if ops != [] {
      CallsOnly(ops[0].at, ops[1..]);
      var calls, rest := WithoutSweeps(ops), WithoutSweeps(ops[1..]);
      if ops[0].Call? {
        assert calls[0] == ops[0] && calls[1..] == rest;
      } else {
        assert calls == rest;
        TimedEarlier(from, ops[0].at, rest);
      }
    }
  }

  lemma TimedEarlier(from: int, later: int, ops: seq<Op>)
    requires from <= later && Timed(later, ops)
    ensures Timed(from, ops)
  {
  }

  /** Over any history of calls and safe sweeps on any number of keys, no window
      [t1, t2] admits more than the worst case for one key. */
  lemma WindowBound(c: Config, from: int, ops: seq<Op>, key: string, t1: int, t2: int)
    requires c.interval > 0 && c.burst >= 1 && t1 <= t2
    requires Timed(from, ops) && SafeSweeps(c, ops)
    ensures Admitted(Trace(c, map[], ops), key, t1, t2) <= WorstCase(c, t2 - t1)
  {
    SafeSweepsInvisible(c, from, ops);
    CallsOnly(from, ops);
    var calls := WithoutSweeps(ops);
    if from <= t2 {
      WindowFrom(c, map[], from, calls, key, t1, t2, 0);
    } else {
      NothingLater(c, map[], from, calls, key, t1, t2);
      WorstCaseGrows(c, t2 - t1, 0);
    }
  }

  /** A limiter without a burst admits nobody, ever. */
  lemma {:induction false} NoBurstAdmitsNone(c: Config, s: Buckets, ops: seq<Op>, key: string, t1: int, t2: int)
    requires c.interval > 0 && c.burst <= 0
    requires forall k :: k in s ==> s[k].tokens <= c.burst
    ensures Admitted(Trace(c, s, ops), key, t1, t2) == 0
    decreases |ops|
  {
    if ops != [] {
      var rest := Trace(c, Step(c, s, ops[0]), ops[1..]);
      NoBurstAdmitsNone(c, Step(c, s, ops[0]), ops[1..], key, t1, t2);
      if ops[0].Call? {
        assert Trace(c, s, ops)[1..] == rest;
      } else {
        assert Trace(c, s, ops) == rest;
      }
    }
  }

  /** The worst case in closed form, and the looser bound usually quoted for it. */
  lemma WorstCaseClosedForm(c: Config, w: int)
    requires c.interval > 0 && c.burst >= 1 && w >= 0 && c.rate >= 1
    ensures WorstCase(c, w) ==
            c.burst + Gain(c) * CeilDiv(w, c.interval) - (if w % c.interval == 0 then 0 else 1)
    ensures WorstCase(c, w) <= c.burst + c.rate * CeilDiv(w, c.interval)
  {
    hide CeilDiv;
    CeilDivIs(w, c.interval);
    MulDistributes(Gain(c), w / c.interval, 1);
    LeCeilDiv(w, 0, c.interval);
    MulMonotone(Gain(c), c.rate, CeilDiv(w, c.interval));
  }

  lemma {:induction false} CreatedFrom(c: Config, s: Buckets, now: int, ops: seq<Op>, key: string,
                                       t0: int, t2: int, a: nat)
    requires c.interval > 0 && c.burst >= 1 && t0 <= now <= t2
    requires Timed(now, ops) && forall i :: 0 <= i < |ops| ==> ops[i].Call?
    requires key in s && Sane(c, s[key], now) && t0 <= s[key].lastFill
    requires a + s[key].tokens <= c.burst + Gain(c) * ((s[key].lastFill - t0) / c.interval)
    ensures a + Admitted(Trace(c, s, ops), key, t0, t2) <= c.burst + Gain(c) * ((t2 - t0) / c.interval)
    decreases |ops|
  {
    var b := s[key];
    if ops == [] || ops[0].at > t2 {
      if ops != [] {
        NothingLater(c, s, ops[0].at, ops, key, t0, t2);
      }
      DivMonotone(b.lastFill - t0, t2 - t0, c.interval);
      MulMonotone((b.lastFill - t0) / c.interval, (t2 - t0) / c.interval, Gain(c));
    } else {
      var op := ops[0];
      if op.key == key {
        RefillSane(c, b, op.at);
        RefillBound(c, b, op.at);
        DivSuper(b.lastFill - t0, op.at - b.lastFill, c.interval);
        MulDistributes(Gain(c), (b.lastFill - t0) / c.interval, (op.at - b.lastFill) / c.interval);
        MulMonotone((b.lastFill - t0) / c.interval + (op.at - b.lastFill) / c.interval,
                    (op.at - t0) / c.interval, Gain(c));
      }
      var counted := if op.key == key && Admits(c, Lookup(s, key), op.at) then 1 else 0;
      CreatedFrom(c, Step(c, s, op), op.at, ops[1..], key, t0, t2, a + counted);
    }
  }

  lemma {:induction false} AdmittedFor(trace: seq<Answer>, key: string, t1: int, t2: int)
    ensures Admitted(AnswersFor(trace, key), key, t1, t2) == Admitted(trace, key, t1, t2)
  {
    if trace != [] {
      AdmittedFor(trace[1..], key, t1, t2);
      var first := if trace[0].key == key then [trace[0]] else [];
      AdmittedConcat(first, AnswersFor(trace[1..], key), key, t1, t2);
    }
  }

  /** What other keys hold at the start does not matter to a key without a bucket. */
  lemma FromNothing(c: Config, s: Buckets, ops: seq<Op>, key: string, t1: int, t2: int)
    requires c.interval > 0 && key !in s
    ensures Admitted(Trace(c, s, ops), key, t1, t2) == Admitted(Trace(c, map[], ops), key, t1, t2)
  {
    hide Trace, Admitted, AnswersFor, OnlyKey;
    NonInterference(c, s, map[], ops, key);
    NonInterference(c, map[], map[], ops, key);
    AdmittedFor(Trace(c, s, ops), key, t1, t2);
    AdmittedFor(Trace(c, map[], ops), key, t1, t2);
  }

  /** Counted from the call that creates the bucket, only whole intervals add tokens,
      whatever else the limiter holds and whatever safe sweeps come later. */
  lemma CreationBound(c: Config, s: Buckets, ops: seq<Op>, key: string, t2: int)
    requires c.interval > 0 && c.burst >= 1 && ops != [] && key !in s
    requires ops[0].Call? && ops[0].key == key && ops[0].at <= t2
    requires Timed(ops[0].at, ops) && SafeSweeps(c, ops)
    ensures Admitted(Trace(c, s, ops), key, ops[0].at, t2)
            <= c.burst + Gain(c) * ((t2 - ops[0].at) / c.interval)
  {
    var t0, calls := ops[0].at, WithoutSweeps(ops);
    FromNothing(c, s, ops, key, t0, t2);
    SafeSweepsInvisible(c, t0, ops);
    CallsOnly(t0, ops);
    assert calls[0] == ops[0];
    CreatedFrom(c, Step(c, map[], calls[0]), t0, calls[1..], key, t0, t2, 1);
  }
}
