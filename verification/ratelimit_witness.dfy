/** Histories that reach the limits the theorems give: the window bound is attained, an
    unsafe sweep is visible, and a refill never wastes half of what it was owed. */
module RateLimitWitnesses {

  import opened Wrappers
  import opened Arith
  import opened RateLimiting
  import opened RateLimitTheorems

  const KEY: string := "k"

  /** n calls at one instant. */
  function Burst(at: int, n: nat): seq<Op> {
    if n == 0 then [] else [Call(KEY, at)] + Burst(at, n - 1)
  }

  /** n rounds of m calls, one interval apart. */
  function Waves(at: int, gap: int, m: nat, n: nat): seq<Op>
    decreases n
  {
    if n == 0 then [] else Burst(at, m) + Waves(at + gap, gap, m, n - 1)
  }

  lemma {:induction false} BurstTimed(at: int, n: nat)
    ensures Timed(at, Burst(at, n)) && forall i :: 0 <= i < |Burst(at, n)| ==> Burst(at, n)[i].at == at
    ensures forall i :: 0 <= i < |Burst(at, n)| ==> Burst(at, n)[i].Call?
  {
    if n > 0 {
      BurstTimed(at, n - 1);
    }
  }

  lemma {:induction false} WavesTimed(at: int, gap: int, m: nat, n: nat)
    requires gap > 0
    ensures Timed(at, Waves(at, gap, m, n))
    ensures forall i :: 0 <= i < |Waves(at, gap, m, n)| ==> Waves(at, gap, m, n)[i].Call?
    decreases n
  {
    if n > 0 {
      BurstTimed(at, m);
      WavesTimed(at + gap, gap, m, n - 1);
      TimedConcat(at, Burst(at, m), at + gap, Waves(at + gap, gap, m, n - 1));
    }
  }

  lemma NothingElapsed(c: Config, tokens: int, now: int)
    requires c.interval > 0
    ensures Refill(c, BucketState(tokens, now), now) == BucketState(tokens, now)
  {
    assert Quotient(0, c.interval) == 0;
  }

  /** A second call at the same instant finds nothing more to add. */
  lemma RefillOnce(c: Config, b: BucketState, now: int)
    requires c.interval > 0
    ensures Refill(c, After(c, Some(b), now), now) == After(c, Some(b), now)
  {
    hide Quotient;
    NothingElapsed(c, After(c, Some(b), now).tokens, now);
  }

  /** A bucket holding enough tokens admits them all at one instant, and no more. */
  lemma {:induction false} Drain(c: Config, s: Buckets, at: int, n: nat, t1: int, t2: int)
    requires c.interval > 0
    ensures var held := Before(c, Lookup(s, KEY), at).tokens;
            Admitted(Trace(c, s, Burst(at, n)), KEY, t1, t2)
            == if at < t1 || at > t2 || held <= 0 then 0 else if n <= held then n else held
    ensures n > 0 && n <= Before(c, Lookup(s, KEY), at).tokens ==>
              Lookup(Run(c, s, Burst(at, n)), KEY)
              == Some(Before(c, Lookup(s, KEY), at).(tokens := Before(c, Lookup(s, KEY), at).tokens - n))
    decreases n
  {
    if n > 0 {
      var op := Call(KEY, at);
      var next := Step(c, s, op);
      var b := if KEY in s then s[KEY] else BucketState(c.burst, at);
      RefillOnce(c, b, at);
      Drain(c, next, at, n - 1, t1, t2);
      assert Burst(at, n)[1..] == Burst(at, n - 1);
      var a := [Answer(KEY, at, Admits(c, Lookup(s, KEY), at))];
      assert Trace(c, s, Burst(at, n)) == a + Trace(c, next, Burst(at, n - 1));
      AdmittedConcat(a, Trace(c, next, Burst(at, n - 1)), KEY, t1, t2);
      assert a[1..] == [];
    }
  }

  lemma WaveFill(c: Config, at: int)
    requires c.interval > 0 && c.burst >= 1 && c.rate >= 1
    ensures Before(c, Some(BucketState(0, at - c.interval)), at) == BucketState(Gain(c), at)
    ensures Gain(c) >= 1
  {
    DivUnique(c.interval, 1, c.interval);
  }

  lemma NoCalls(c: Config, s: Buckets, t1: int, t2: int)
    requires c.interval > 0
    ensures Admitted(Trace(c, s, []), KEY, t1, t2) == 0
  {
  }

  /** Each later round finds exactly one interval's worth of tokens. */
  lemma {:induction false} WavesAdmitted(c: Config, s: Buckets, at: int, n: nat, t1: int, t2: int)
    requires c.interval > 0 && c.burst >= 1 && c.rate >= 1
    requires Lookup(s, KEY) == Some(BucketState(0, at - c.interval))
    requires t1 <= at && at + c.interval * n <= t2 + c.interval
    ensures Admitted(Trace(c, s, Waves(at, c.interval, Gain(c), n)), KEY, t1, t2) == Gain(c) * n
    decreases n
  {
    hide Before, Gain, Burst, Run, Trace, Admitted;
    if n == 0 {
      NoCalls(c, s, t1, t2);
    } else {
      var g := Gain(c);
      var head, tail := Burst(at, g), Waves(at + c.interval, c.interval, g, n - 1);
      MulDistributes(c.interval, n - 1, 1);
      MulMonotone(0, n - 1, c.interval);
      WaveFill(c, at);
      Drain(c, s, at, g, t1, t2);
      WavesAdmitted(c, Run(c, s, head), at + c.interval, n - 1, t1, t2);
      TraceConcat(c, s, head, tail);
      AdmittedConcat(Trace(c, s, head), Trace(c, Run(c, s, head), tail), KEY, t1, t2);
      MulDistributes(g, n - 1, 1);
    }
  }

  /** A full bucket spent at the window's opening, then one round per interval. */
  lemma EarlyRun(c: Config, w: nat) returns (ops: seq<Op>)
    requires c.interval > 0 && c.burst >= 1 && c.rate >= 1
    ensures Timed(0, ops) && forall i :: 0 <= i < |ops| ==> ops[i].Call?
    ensures Admitted(Trace(c, map[], ops), KEY, 0, w) == c.burst + Gain(c) * (w / c.interval)
  {
    hide Admitted, Trace, Run, Burst, Waves, Timed, Gain;
    var n := w / c.interval;
    var head, tail := Burst(0, c.burst), Waves(c.interval, c.interval, Gain(c), n);
    ops := head + tail;
    BurstTimed(0, c.burst);
    WavesTimed(c.interval, c.interval, Gain(c), n);
    TimedConcat(0, head, c.interval, tail);
    Drain(c, map[], 0, c.burst, 0, w);
    WavesAdmitted(c, Run(c, map[], head), c.interval, n, 0, w);
    TraceConcat(c, map[], head, tail);
    AdmittedConcat(Trace(c, map[], head), Trace(c, Run(c, map[], head), tail), KEY, 0, w);
  }

  /** Three stretches run one after the other. */
  lemma ThreeParts(c: Config, a: seq<Op>, b: seq<Op>, d: seq<Op>, t1: int, t2: int)
    requires c.interval > 0
    ensures var s, t := Run(c, map[], a), Run(c, map[], a + b);
            && t == Run(c, s, b)
            && Admitted(Trace(c, map[], a + b + d), KEY, t1, t2)
               == Admitted(Trace(c, map[], a), KEY, t1, t2) + Admitted(Trace(c, s, b), KEY, t1, t2)
                  + Admitted(Trace(c, t, d), KEY, t1, t2)
  {
    var s, t := Run(c, map[], a), Run(c, map[], a + b);
    TraceConcat(c, map[], a, b);
    TraceConcat(c, map[], a + b, d);
    AdmittedConcat(Trace(c, map[], a), Trace(c, s, b), KEY, t1, t2);
    AdmittedConcat(Trace(c, map[], a + b), Trace(c, t, d), KEY, t1, t2);
  }

  lemma LateTimed(c: Config, n: nat)
    requires c.interval > 1 && c.burst >= 1
    ensures var t1 := c.interval - 1;
            var ops := Burst(0, 1) + Burst(t1, c.burst - 1) + Waves(c.interval, c.interval, Gain(c), n);
            Timed(0, ops) && forall i :: 0 <= i < |ops| ==> ops[i].Call?
  {
    var t1 := c.interval - 1;
    BurstTimed(0, 1);
    BurstTimed(t1, c.burst - 1);
    WavesTimed(c.interval, c.interval, Gain(c), n);
    TimedConcat(0, Burst(0, 1), t1, Burst(t1, c.burst - 1));
    TimedConcat(0, Burst(0, 1) + Burst(t1, c.burst - 1), c.interval, Waves(c.interval, c.interval, Gain(c), n));
  }

  /** The bucket's state just before the rounds of a late run. */
  lemma LateOpening(c: Config, w: nat)
    requires c.interval > 1 && c.burst >= 1 && c.rate >= 1
    ensures var t1 := c.interval - 1;
            var s := Run(c, map[], Burst(0, 1));
            && Lookup(Run(c, s, Burst(t1, c.burst - 1)), KEY) == Some(BucketState(0, 0))
            && Admitted(Trace(c, map[], Burst(0, 1)), KEY, t1, t1 + w) == 0
            && Admitted(Trace(c, s, Burst(t1, c.burst - 1)), KEY, t1, t1 + w) == c.burst - 1
  {
    hide Trace, Admitted, Burst, Run;
    var t1 := c.interval - 1;
    Drain(c, map[], 0, 1, t1, t1 + w);
    var s := Run(c, map[], Burst(0, 1));
    DivUnique(t1, 0, c.interval);
    assert Before(c, Lookup(s, KEY), t1) == BucketState(c.burst - 1, 0);
    Drain(c, s, t1, c.burst - 1, t1, t1 + w);
    NoBurst(c, s, t1);
  }

  lemma NoBurst(c: Config, s: Buckets, at: int)
    requires c.interval > 0
    ensures Run(c, s, Burst(at, 0)) == s
  {
  }

  /** A window opening just before a refill falls due: one call long before it keeps the
      refill clock behind, the rest of the burst is spent at its opening. */
  lemma LateRun(c: Config, w: nat) returns (ops: seq<Op>)
    requires c.interval > 1 && c.burst >= 1 && c.rate >= 1
    ensures Timed(0, ops) && forall i :: 0 <= i < |ops| ==> ops[i].Call?
    ensures Admitted(Trace(c, map[], ops), KEY, c.interval - 1, c.interval - 1 + w)
            == c.burst - 1 + Gain(c) * CeilDiv(w, c.interval)
  {
    hide Admitted, Trace, Run, Burst, Waves, Timed, CeilDiv, Gain;
    var t1 := c.interval - 1;
    CeilDivBounds(w, c.interval);
    LeCeilDiv(w, 0, c.interval);
    var n: nat := CeilDiv(w, c.interval);
    var first, head, tail := Burst(0, 1), Burst(t1, c.burst - 1), Waves(c.interval, c.interval, Gain(c), n);
    ops := first + head + tail;
    LateTimed(c, n);
    LateOpening(c, w);
    ThreeParts(c, first, head, tail, t1, t1 + w);
    WavesAdmitted(c, Run(c, map[], first + head), c.interval, n, t1, t1 + w);
  }

  /** Without refills, the burst is all there is. */
  lemma FlatRun(c: Config, w: nat) returns (ops: seq<Op>)
    requires c.interval > 0 && c.burst >= 1 && c.rate <= 0
    ensures Timed(0, ops) && forall i :: 0 <= i < |ops| ==> ops[i].Call?
    ensures Admitted(Trace(c, map[], ops), KEY, 0, w) == WorstCase(c, w)
  {
    hide Admitted, Trace, Run, Burst, Timed;
    ops := Burst(0, c.burst);
    BurstTimed(0, c.burst);
    Drain(c, map[], 0, c.burst, 0, w);
  }

  /** With an interval of one, waiting for the due refill gains nothing. */
  lemma EveryInstant(c: Config, w: nat)
    requires c.interval == 1 && c.burst >= 1
    ensures Gain(c) * CeilDiv(w, c.interval) <= Gain(c) * (w / c.interval)
  {
    hide CeilDiv, Gain;
    LeDiv(w, w, 1);
    CeilDivLe(w, w, 1);
    MulMonotone(CeilDiv(w, 1), w / 1, Gain(c));
  }

  /** The window bound is the best possible: for every configuration and window length
      some history of plain calls reaches it. */
  lemma WorstCaseAttained(c: Config, w: nat) returns (ops: seq<Op>, t1: int)
    requires c.interval > 0 && c.burst >= 1
    ensures Timed(0, ops) && forall i :: 0 <= i < |ops| ==> ops[i].Call?
    ensures Admitted(Trace(c, map[], ops), KEY, t1, t1 + w) == WorstCase(c, w)
  {
    hide Admitted, Trace, Timed, CeilDiv, Gain;
    if c.rate <= 0 {
      ops := FlatRun(c, w);
      t1 := 0;
    } else if c.interval == 1 || c.burst + Gain(c) * (w / c.interval) >= c.burst - 1 + Gain(c) * CeilDiv(w, c.interval) {
      ops := EarlyRun(c, w);
      t1 := 0;
      if c.interval == 1 {
        EveryInstant(c, w);
      }
    } else {
      ops := LateRun(c, w);
      t1 := c.interval - 1;
    }
  }

  // ----- unsafe sweeps

  /** The first instant a bucket filled at 0 is old enough to be swept. */
  function SweepTime(maxAge: int): nat {
    if maxAge < 0 then 0 else maxAge + 1
  }

  /** Spend the burst, sweep as soon as that can remove the bucket, spend again. */
  function SweepRun(c: Config, maxAge: int): seq<Op>
    requires c.burst >= 1
  {
    Burst(0, c.burst) + [Sweep(maxAge, SweepTime(maxAge))] + Burst(SweepTime(maxAge), c.burst)
  }

  lemma {:induction false} WithoutSweepsConcat(a: seq<Op>, b: seq<Op>)
    ensures WithoutSweeps(a + b) == WithoutSweeps(a) + WithoutSweeps(b)
  {
    if a == [] {
      assert a + b == b;
    } else {
      assert (a + b)[1..] == a[1..] + b;
      WithoutSweepsConcat(a[1..], b);
    }
  }

  lemma {:induction false} BurstHasNoSweeps(at: int, n: nat)
    ensures WithoutSweeps(Burst(at, n)) == Burst(at, n)
    decreases n
  {
    if n > 0 {
      assert Burst(at, n)[1..] == Burst(at, n - 1);
      BurstHasNoSweeps(at, n - 1);
    }
  }

  lemma SweepRunTimed(c: Config, maxAge: int)
    requires c.burst >= 1
    ensures Timed(0, SweepRun(c, maxAge)) && SweepsWith(SweepRun(c, maxAge), maxAge)
  {
    var at := SweepTime(maxAge);
    var head, mid, tail := Burst(0, c.burst), [Sweep(maxAge, at)], Burst(at, c.burst);
    BurstTimed(0, c.burst);
    BurstTimed(at, c.burst);
    TimedConcat(0, head, at, mid);
    TimedConcat(0, head + mid, at, tail);
  }

  lemma SweepDropped(op: Op)
    requires op.Sweep?
    ensures WithoutSweeps([op]) == []
  {
    assert [op][1..] == [];
  }

  lemma SweepRunWithout(c: Config, maxAge: int)
    requires c.burst >= 1
    ensures WithoutSweeps(SweepRun(c, maxAge)) == Burst(0, c.burst) + Burst(SweepTime(maxAge), c.burst)
  {
    hide Burst, WithoutSweeps;
    var at := SweepTime(maxAge);
    var head, mid, tail := Burst(0, c.burst), [Sweep(maxAge, at)], Burst(at, c.burst);
    calc {
      WithoutSweeps(head + mid + tail);
    == { WithoutSweepsConcat(head + mid, tail); }
      WithoutSweeps(head + mid) + WithoutSweeps(tail);
    == { WithoutSweepsConcat(head, mid); SweepDropped(mid[0]); }
      WithoutSweeps(head) + [] + WithoutSweeps(tail);
    == { BurstHasNoSweeps(0, c.burst); BurstHasNoSweeps(at, c.burst); }
      head + tail;
    }
  }

  /** With the sweep, the second burst is admitted in full. */
  lemma SweptAdmits(c: Config, maxAge: int)
    requires c.interval > 0 && c.burst >= 1
    ensures var at := SweepTime(maxAge);
            Admitted(Trace(c, map[], SweepRun(c, maxAge)), KEY, at, at)
            == Admitted(Trace(c, map[], Burst(0, c.burst)), KEY, at, at) + c.burst
  {
    var at := SweepTime(maxAge);
    var head, mid, tail := Burst(0, c.burst), [Sweep(maxAge, at)], Burst(at, c.burst);
    Drain(c, map[], 0, c.burst, at, at);
    var s := Run(c, map[], head);
    ThreeParts(c, head, mid, tail, at, at);
    var swept := Run(c, s, mid);
    assert swept == Step(c, s, mid[0]);
    assert Lookup(swept, KEY) == None;
    Drain(c, swept, at, c.burst, at, at);
  }

  /** Without it, an unsafe age leaves the bucket short and some of them are refused. */
  lemma UnsweptRefuses(c: Config, maxAge: int)
    requires c.interval > 0 && c.burst >= 1 && !Safe(c, maxAge)
    ensures var at := SweepTime(maxAge);
            Admitted(Trace(c, map[], Burst(0, c.burst) + Burst(at, c.burst)), KEY, at, at)
            < Admitted(Trace(c, map[], Burst(0, c.burst)), KEY, at, at) + c.burst
  {
    var at := SweepTime(maxAge);
    var head, tail := Burst(0, c.burst), Burst(at, c.burst);
    Drain(c, map[], 0, c.burst, at, at);
    var s := Run(c, map[], head);
    Drain(c, s, at, c.burst, at, at);
    TraceConcat(c, map[], head, tail);
    AdmittedConcat(Trace(c, map[], head), Trace(c, s, tail), KEY, at, at);
  }

  predicate SweepsWith(ops: seq<Op>, maxAge: int) {
    forall i :: 0 <= i < |ops| && ops[i].Sweep? ==> ops[i].maxAge == maxAge
  }

  /** Sweeping with maxAge never changes an answer exactly when maxAge is safe; for an
      unsafe one SweepRun(c, maxAge) is a history whose answers change. */
  lemma CleanupInvisibleIff(c: Config, maxAge: int)
    requires c.interval > 0
    ensures (forall ops :: Timed(0, ops) && SweepsWith(ops, maxAge) ==>
              Trace(c, map[], ops) == Trace(c, map[], WithoutSweeps(ops)))
            <==> Safe(c, maxAge)
  {
    if Safe(c, maxAge) {
      forall ops | Timed(0, ops) && SweepsWith(ops, maxAge)
        ensures Trace(c, map[], ops) == Trace(c, map[], WithoutSweeps(ops))
      {
        SafeSweepsInvisible(c, 0, ops);
      }
    } else {
      var ops := SweepRun(c, maxAge);
      SweepRunTimed(c, maxAge);
      SweepRunWithout(c, maxAge);
      SweptAdmits(c, maxAge);
      UnsweptRefuses(c, maxAge);
      assert Trace(c, map[], ops) != Trace(c, map[], WithoutSweeps(ops));
    }
  }

  // ----- progress

  /** With rate and burst at least one, waiting one interval after the last fill is enough. */
  lemma WaitingIsEnough(c: Config, s: Buckets, key: string, now: int)
    requires c.interval > 0 && c.burst >= 1 && c.rate >= 1
    requires key in s ==> 0 <= s[key].tokens <= c.burst && s[key].lastFill + c.interval <= now
    ensures Admits(c, Lookup(s, key), now)
  {
    if key in s {
      var n := (now - s[key].lastFill) / c.interval;
      LeDiv(1, now - s[key].lastFill, c.interval);
      MulMonotone(1, n, c.rate);
    }
  }

  /** Tokens the refills of one key's bucket were computed to add, before capping. */
  function Computed(c: Config, s: Buckets, ops: seq<Op>, key: string): int
    requires c.interval > 0
    decreases |ops|
  {
    if ops == [] then 0
    else
      (if ops[0].Call? && ops[0].key == key && key in s && Refill(c, s[key], ops[0].at) != s[key]
       then (ops[0].at - s[key].lastFill) / c.interval * c.rate
       else 0)
      + Computed(c, Step(c, s, ops[0]), ops[1..], key)
  }

  lemma OneRefill(c: Config, elapsed: int)
    requires c.interval > 0 && c.rate >= 1 && elapsed >= c.interval
    ensures c.rate * elapsed < 2 * c.interval * (elapsed / c.interval * c.rate)
  {
    var n := elapsed / c.interval;
    LeDiv(1, elapsed, c.interval);
    MulMonotone(1, n, c.interval);
    assert elapsed < 2 * (c.interval * n);
    assert elapsed + 1 <= 2 * (c.interval * n);
    MulMonotone(elapsed + 1, 2 * (c.interval * n), c.rate);
    assert c.rate * (2 * (c.interval * n)) == 2 * c.interval * (n * c.rate);
  }

  /** A refill takes a whole interval, and restarts the clock. */
  lemma RefillWorth(c: Config, b: BucketState, now: int)
    requires c.interval > 0 && b.lastFill <= now
    ensures Refill(c, b, now) != b ==> now - b.lastFill >= c.interval && Refill(c, b, now).lastFill == now
  {
    if now - b.lastFill < c.interval {
      DivUnique(now - b.lastFill, 0, c.interval);
    }
  }

  lemma Together(d: int, a: int, b: int, rate: int, elapsed: int, spent: int)
    requires rate * elapsed < d * a && (if spent == 0 then b == 0 else rate * spent < d * b)
    ensures rate * (elapsed + spent) < d * (a + b)
  {
    MulDistributes(d, a, b);
    MulDistributes(rate, elapsed, spent);
  }

  /** Restarting the clock at each refill discards less than half of the time: twice what
      the refills added is worth more than the time that passed between fills. */
  lemma {:induction false} DiscardedFraction(c: Config, s: Buckets, now: int, ops: seq<Op>, key: string)
    requires c.interval > 0 && c.rate >= 1 && c.burst >= 1
    requires Timed(now, ops) && forall i :: 0 <= i < |ops| ==> ops[i].Call?
    requires key in s && Sane(c, s[key], now)
    ensures key in Run(c, s, ops) && Run(c, s, ops)[key].lastFill >= s[key].lastFill
    ensures var spent := Run(c, s, ops)[key].lastFill - s[key].lastFill;
            if spent == 0 then Computed(c, s, ops, key) == 0
            else 2 * c.interval * Computed(c, s, ops, key) > c.rate * spent
    decreases |ops|
  {
    hide Refill, Quotient;
    if ops != [] {
      var next := Step(c, s, ops[0]);
      if ops[0].key == key {
        RefillSane(c, s[key], ops[0].at);
        RefillWorth(c, s[key], ops[0].at);
      }
      DiscardedFraction(c, next, ops[0].at, ops[1..], key);
      var later := Computed(c, next, ops[1..], key);
      var spent := Run(c, next, ops[1..])[key].lastFill - next[key].lastFill;
      if ops[0].key == key && Refill(c, s[key], ops[0].at) != s[key] {
        var elapsed := ops[0].at - s[key].lastFill;
        OneRefill(c, elapsed);
        Together(2 * c.interval, elapsed / c.interval * c.rate, later, c.rate, elapsed, spent);
      }
    }
  }
}
