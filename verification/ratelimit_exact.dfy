/** Every answer the limiter gives, from the times of the calls alone. */
module RateLimitExact {

  import opened Wrappers
  import opened Arith
  import opened RateLimiting
  import opened RateLimitTheorems
  import opened RateLimitWitnesses

  // ----- epochs: the calls between one fill of a bucket and the next

  /** Calls of one key, none of them a whole interval after the first. */
  predicate OneEpoch(c: Config, e: seq<int>) {
    e != [] && forall i :: 0 <= i < |e| ==> e[0] <= e[i] < e[0] + c.interval
  }

  /** Each epoch opens with the first call at least an interval after the last opening. */
  predicate Epochs(c: Config, es: seq<seq<int>>) {
    && (forall i :: 0 <= i < |es| ==> OneEpoch(c, es[i]))
    && forall i :: 0 < i < |es| ==> es[i - 1][0] + c.interval <= es[i][0]
  }

  function Flat(es: seq<seq<int>>): seq<int> {
    if es == [] then [] else Flat(es[..|es| - 1]) + es[|es| - 1]
  }

  /** The tokens there are when the last epoch opens: the burst at first; then what the epoch
      before left over, and the rate for each whole interval between the two openings, up to
      the burst. */
  function Held(c: Config, es: seq<seq<int>>): int
    requires c.interval > 0 && es != [] && forall i :: 0 <= i < |es| ==> es[i] != []
  {
    var n := |es|;
    if n == 1 then c.burst
    else
      var before := Held(c, es[..n - 1]);
      Min(c.burst, before - Min(|es[n - 2]|, before) + (es[n - 1][0] - es[n - 2][0]) / c.interval * c.rate)
  }

  /** Each epoch admits its first so many calls. */
  function Expected(c: Config, es: seq<seq<int>>): seq<bool>
    requires c.interval > 0 && forall i :: 0 <= i < |es| ==> es[i] != []
  {
    if es == [] then []
    else Expected(c, es[..|es| - 1]) + FirstOnes(|es[|es| - 1]|, Held(c, es))
  }

  function FirstOnes(n: nat, held: int): seq<bool> {
    seq(n, i => i < held)
  }

  function CallsAt(key: string, times: seq<int>): seq<Op> {
    seq(|times|, i requires 0 <= i < |times| => Call(key, times[i]))
  }

  function Oks(trace: seq<Answer>): seq<bool> {
    seq(|trace|, i requires 0 <= i < |trace| => trace[i].ok)
  }

  lemma CallsAtConcat(key: string, a: seq<int>, b: seq<int>)
    ensures CallsAt(key, a + b) == CallsAt(key, a) + CallsAt(key, b)
  {
  }

  lemma OksConcat(a: seq<Answer>, b: seq<Answer>)
    ensures Oks(a + b) == Oks(a) + Oks(b)
  {
  }

  /** One more call of the key. */
  lemma OneMore(c: Config, s: Buckets, key: string, times: seq<int>, t: int)
    requires c.interval > 0
    ensures var mid := Run(c, s, CallsAt(key, times));
            && Run(c, s, CallsAt(key, times + [t])) == mid[key := After(c, Lookup(mid, key), t)]
            && Oks(Trace(c, s, CallsAt(key, times + [t])))
               == Oks(Trace(c, s, CallsAt(key, times))) + [Admits(c, Lookup(mid, key), t)]
  {
    hide After, Admits;
    var a, b := CallsAt(key, times), [Call(key, t)];
    CallsAtConcat(key, times, [t]);
    assert CallsAt(key, [t]) == b;
    TraceConcat(c, s, a, b);
    var mid := Run(c, s, a);
    assert b[1..] == [];
    assert Run(c, mid, b) == Run(c, Step(c, mid, b[0]), []);
    assert Trace(c, mid, b) == [Answer(key, t, Admits(c, Lookup(mid, key), t))] + Trace(c, Step(c, mid, b[0]), []);
    OksConcat(Trace(c, s, a), Trace(c, mid, b));
  }

  lemma NotDue(c: Config, b: BucketState, now: int)
    requires c.interval > 0 && b.lastFill <= now && (now < b.lastFill + c.interval || c.rate <= 0)
    ensures Refill(c, b, now) == b
  {
    if now < b.lastFill + c.interval {
      DivUnique(now - b.lastFill, 0, c.interval);
    } else {
      LeDiv(0, now - b.lastFill, c.interval);
      MulMonotone(c.rate, 0, (now - b.lastFill) / c.interval);
    }
  }

  /** While no refill falls due, the calls that find tokens are the first ones. */
  lemma {:induction false} Spend(c: Config, s: Buckets, key: string, e: seq<int>, m: nat)
    requires c.interval > 0 && 1 <= m <= |e|
    requires forall i :: 0 <= i < |e| ==> e[0] <= e[i] && (e[i] < e[0] + c.interval || c.rate <= 0)
    requires Before(c, Lookup(s, key), e[0]).lastFill == e[0] && Before(c, Lookup(s, key), e[0]).tokens >= 0
    ensures var held := Before(c, Lookup(s, key), e[0]).tokens;
            && Lookup(Run(c, s, CallsAt(key, e[..m])), key) == Some(BucketState(held - Min(m, held), e[0]))
            && Oks(Trace(c, s, CallsAt(key, e[..m]))) == FirstOnes(m, held)
    decreases m
  {
    hide Run, Trace, CallsAt, Oks, Refill;
    var held := Before(c, Lookup(s, key), e[0]).tokens;
    OneMore(c, s, key, e[..m - 1], e[m - 1]);
    assert e[..m] == e[..m - 1] + [e[m - 1]];
    if m == 1 {
      NoneYet(c, s, key);
      assert e[..0] == [];
      assert FirstOnes(1, held) == [] + [held > 0];
    } else {
      Spend(c, s, key, e, m - 1);
      var b := BucketState(held - Min(m - 1, held), e[0]);
      NotDue(c, b, e[m - 1]);
      assert FirstOnes(m, held) == FirstOnes(m - 1, held) + [m - 1 < held];
    }
  }

  lemma NoneYet(c: Config, s: Buckets, key: string)
    requires c.interval > 0
    ensures Run(c, s, CallsAt(key, [])) == s && Oks(Trace(c, s, CallsAt(key, []))) == []
  {
  }

  /** What an epoch finds when it opens, on what the epoch before left. */
  lemma Opens(c: Config, left: int, filled: int, now: int)
    requires c.interval > 0 && c.rate >= 1 && 0 <= left <= c.burst && filled + c.interval <= now
    ensures Before(c, Some(BucketState(left, filled)), now)
            == BucketState(Min(c.burst, left + (now - filled) / c.interval * c.rate), now)
    ensures (now - filled) / c.interval * c.rate >= 0
  {
    var k := (now - filled) / c.interval;
    LeDiv(1, now - filled, c.interval);
    MulMonotone(1, k, c.rate);
  }

  lemma {:induction false} HeldInRange(c: Config, es: seq<seq<int>>)
    requires c.interval > 0 && c.burst >= 1 && c.rate >= 1 && Epochs(c, es) && es != []
    ensures 0 <= Held(c, es) <= c.burst
    decreases |es|
  {
    if |es| > 1 {
      var n := |es|;
      EarlierEpochs(c, es);
      HeldInRange(c, es[..n - 1]);
      var before := Held(c, es[..n - 1]);
      Opens(c, before - Min(|es[n - 2]|, before), es[n - 2][0], es[n - 1][0]);
    }
  }

  lemma EarlierEpochs(c: Config, es: seq<seq<int>>)
    requires Epochs(c, es) && es != []
    ensures Epochs(c, es[..|es| - 1])
  {
  }

  lemma LastFlat(c: Config, es: seq<seq<int>>)
    requires c.interval > 0 && es != [] && forall i :: 0 <= i < |es| ==> es[i] != []
    ensures Flat(es) == Flat(es[..|es| - 1]) + es[|es| - 1]
    ensures Expected(c, es) == Expected(c, es[..|es| - 1]) + FirstOnes(|es[|es| - 1]|, Held(c, es))
  {
  }

  /** One epoch after some calls. */
  lemma EpochStep(c: Config, key: string, before: seq<int>, e: seq<int>, held: int)
    requires c.interval > 0 && OneEpoch(c, e) && held >= 0
    requires Before(c, Lookup(Run(c, map[], CallsAt(key, before)), key), e[0]) == BucketState(held, e[0])
    ensures Oks(Trace(c, map[], CallsAt(key, before + e)))
            == Oks(Trace(c, map[], CallsAt(key, before))) + FirstOnes(|e|, held)
    ensures Lookup(Run(c, map[], CallsAt(key, before + e)), key) == Some(BucketState(held - Min(|e|, held), e[0]))
  {
    hide Run, Trace, CallsAt, Oks, Before, FirstOnes;
    var a, b := CallsAt(key, before), CallsAt(key, e);
    CallsAtConcat(key, before, e);
    TraceConcat(c, map[], a, b);
    var s := Run(c, map[], a);
    OksConcat(Trace(c, map[], a), Trace(c, s, b));
    Spend(c, s, key, e, |e|);
    assert e[..|e|] == e;
  }

  /** All answers of one key, epoch by epoch. */
  lemma {:induction false} EpochsExact(c: Config, key: string, es: seq<seq<int>>)
    requires c.interval > 0 && c.burst >= 1 && c.rate >= 1 && Epochs(c, es)
    ensures Oks(Trace(c, map[], CallsAt(key, Flat(es)))) == Expected(c, es)
    ensures es != [] ==>
              var held := Held(c, es);
              Lookup(Run(c, map[], CallsAt(key, Flat(es))), key)
              == Some(BucketState(held - Min(|es[|es| - 1]|, held), es[|es| - 1][0]))
    decreases |es|
  {
    hide Run, Trace, CallsAt, Oks, Before, OneEpoch, Flat, Held, Expected, FirstOnes;
    if es == [] {
      NoneYet(c, map[], key);
      NothingFlat(c);
    } else {
      EpochsOpen(c, es);
      EarlierEpochs(c, es);
      EpochsExact(c, key, es[..|es| - 1]);
      HeldInRange(c, es);
      LastFlat(c, es);
      if |es| == 1 {
        NothingFlat(c);
        NoneYet(c, map[], key);
        assert es[..0] == [];
      }
      var before := Flat(es[..|es| - 1]);
      OpensLast(c, Run(c, map[], CallsAt(key, before)), key, es);
      EpochStep(c, key, before, es[|es| - 1], Held(c, es));
    }
  }

  lemma EpochsOpen(c: Config, es: seq<seq<int>>)
    requires Epochs(c, es)
    ensures forall i :: 0 <= i < |es| ==> es[i] != []
  {
  }

  lemma NothingFlat(c: Config)
    requires c.interval > 0
    ensures Flat([]) == [] && Expected(c, []) == []
  {
  }

  lemma OpensLast(c: Config, s: Buckets, key: string, es: seq<seq<int>>)
    requires c.interval > 0 && c.burst >= 1 && c.rate >= 1 && Epochs(c, es) && es != []
    requires var n := |es|;
             if n == 1 then s == map[]
             else
               var held := Held(c, es[..n - 1]);
               Lookup(s, key) == Some(BucketState(held - Min(|es[n - 2]|, held), es[n - 2][0]))
    ensures Before(c, Lookup(s, key), es[|es| - 1][0]) == BucketState(Held(c, es), es[|es| - 1][0])
  {
    hide Refill;
    var n := |es|;
    if n == 1 {
      NotDue(c, BucketState(c.burst, es[0][0]), es[0][0]);
    } else {
      EarlierEpochs(c, es);
      HeldInRange(c, es[..n - 1]);
      var held := Held(c, es[..n - 1]);
      Opens(c, held - Min(|es[n - 2]|, held), es[n - 2][0], es[n - 1][0]);
    }
  }

  // ----- any history

  predicate Ascending(times: seq<int>) {
    forall i, j :: 0 <= i < j < |times| ==> times[i] <= times[j]
  }

  lemma FlatMore(es: seq<seq<int>>, e: seq<int>)
    ensures Flat(es + [e]) == Flat(es) + e
  {
    assert (es + [e])[..|es|] == es;
  }

  /** One call more belongs to the last epoch, or opens a new one. */
  lemma Place(c: Config, es: seq<seq<int>>, t: int) returns (more: seq<seq<int>>)
    requires c.interval > 0 && Epochs(c, es) && (es != [] ==> es[|es| - 1][0] <= t)
    ensures Epochs(c, more) && Flat(more) == Flat(es) + [t]
    ensures more != [] && more[|more| - 1] != [] && more[|more| - 1][0] <= t
  {
    hide Flat;
    if es == [] || es[|es| - 1][0] + c.interval <= t {
      more := es + [[t]];
      FlatMore(es, [t]);
    } else {
      var init, last := es[..|es| - 1], es[|es| - 1];
      more := init + [last + [t]];
      assert es == init + [last];
      FlatMore(init, last);
      FlatMore(init, last + [t]);
      assert Flat(init) + (last + [t]) == Flat(init) + last + [t];
    }
  }

  /** The calls of a key fall into epochs. */
  lemma {:induction false} Cut(c: Config, times: seq<int>) returns (es: seq<seq<int>>)
    requires c.interval > 0 && Ascending(times)
    ensures Epochs(c, es) && Flat(es) == times
    ensures es == [] <==> times == []
    ensures es != [] ==> es[|es| - 1] != [] && es[|es| - 1][0] <= times[|times| - 1]
    decreases |times|
  {
    hide Flat, Epochs;
    if times == [] {
      es := [];
      NothingFlat(c);
      NoEpochs(c);
    } else {
      es := Cut(c, times[..|times| - 1]);
      es := Place(c, es, times[|times| - 1]);
      assert times == times[..|times| - 1] + [times[|times| - 1]];
    }
  }

  lemma NoEpochs(c: Config)
    ensures Epochs(c, [])
  {
  }

  /** When a key called, in a history. */
  function TimesOf(ops: seq<Op>, key: string): seq<int> {
    if ops == [] then []
    else (if ops[0].Call? && ops[0].key == key then [ops[0].at] else []) + TimesOf(ops[1..], key)
  }

  lemma {:induction false} TimesAscend(from: int, ops: seq<Op>, key: string)
    requires Timed(from, ops)
    ensures Ascending(TimesOf(ops, key)) && forall t :: t in TimesOf(ops, key) ==> from <= t
    decreases |ops|
  {
    if ops != [] {
      TimesAscend(ops[0].at, ops[1..], key);
      var rest := TimesOf(ops[1..], key);
      assert forall j :: 0 <= j < |rest| ==> rest[j] in rest;
    }
  }

  /** Without sweeps and other keys, a history is the calls at those times. */
  lemma {:induction false} OnlyCalls(ops: seq<Op>, key: string)
    ensures OnlyKey(WithoutSweeps(ops), key) == CallsAt(key, TimesOf(ops, key))
    decreases |ops|
  {
    if ops != [] {
      OnlyCalls(ops[1..], key);
      var calls := WithoutSweeps(ops);
      if ops[0].Sweep? {
        assert calls == WithoutSweeps(ops[1..]);
        assert TimesOf(ops, key) == TimesOf(ops[1..], key);
      } else {
        assert calls[0] == ops[0] && calls[1..] == WithoutSweeps(ops[1..]);
        if ops[0].key != key {
          assert TimesOf(ops, key) == TimesOf(ops[1..], key);
        }
      }
    }
  }

  /** Every answer a key gets in any history of calls and safe sweeps on any keys: its calls
      fall into epochs, and each epoch admits its first so many calls. */
  lemma AnswersExact(c: Config, from: int, ops: seq<Op>, key: string) returns (es: seq<seq<int>>)
    requires c.interval > 0 && c.burst >= 1 && c.rate >= 1 && Timed(from, ops) && SafeSweeps(c, ops)
    ensures Epochs(c, es) && Flat(es) == TimesOf(ops, key)
    ensures Oks(AnswersFor(Trace(c, map[], ops), key)) == Expected(c, es)
  {
    hide Trace, Oks, Expected, Epochs, Flat, CallsAt, TimesOf;
    TimesAscend(from, ops, key);
    es := Cut(c, TimesOf(ops, key));
    OnlyCalls(ops, key);
    SafeSweepsInvisible(c, from, ops);
    NonInterference(c, map[], map[], WithoutSweeps(ops), key);
    EpochsExact(c, key, es);
    assert forall i :: 0 <= i < |es| ==> es[i] != [] by { EpochsOpen(c, es); }
  }

  /** Without a rate nothing is ever added: a key's first calls are admitted, as many as the
      burst, and no other. */
  lemma NoRateExact(c: Config, key: string, times: seq<int>)
    requires c.interval > 0 && c.burst >= 1 && c.rate <= 0 && Ascending(times)
    ensures Oks(Trace(c, map[], CallsAt(key, times))) == FirstOnes(|times|, c.burst)
  {
    hide Trace, Run, Oks, CallsAt, Refill;
    if times == [] {
      NoneYet(c, map[], key);
    } else {
      NotDue(c, BucketState(c.burst, times[0]), times[0]);
      Spend(c, map[], key, times, |times|);
      assert times[..|times|] == times;
    }
  }

  // ----- two bursts

  /** The tokens of a bucket from which j were taken at time 0, at another time. */
  function Refilled(c: Config, j: nat, at: int): int
    requires c.interval > 0
  {
    if j > 0 && c.rate > 0 && at >= c.interval then
      Min(c.burst, c.burst - j + at / c.interval * c.rate)
    else if j > 0 && c.rate < 0 && at <= -c.interval then
      Min(c.burst, c.burst - j + (-at) / c.interval * (-c.rate))
    else
      c.burst - j
  }

  /** After j calls at time 0, a burst at any other time, earlier ones by a clock set back
      included, is admitted as far as the tokens go that were left then or added since. */
  lemma BurstAfterBurst(c: Config, j: nat, at: int, m: nat)
    requires c.interval > 0 && 0 <= j <= c.burst && c.burst >= 1 && at != 0
    ensures Admitted(Trace(c, map[], Burst(0, j) + Burst(at, m)), KEY, at, at) == Min(m, Refilled(c, j, at))
  {
    hide Trace, Run, Admitted, Burst, Refill;
    Drain(c, map[], 0, j, at, at);
    var s := Run(c, map[], Burst(0, j));
    TraceConcat(c, map[], Burst(0, j), Burst(at, m));
    AdmittedConcat(Trace(c, map[], Burst(0, j)), Trace(c, s, Burst(at, m)), KEY, at, at);
    Drain(c, s, at, m, at, at);
    NothingElapsed(c, c.burst, 0);
    NothingElapsed(c, c.burst, at);
    if j == 0 {
      NoBurst(c, map[], 0);
    } else {
      TokensAt(c, j, at);
    }
  }

  lemma TokensAt(c: Config, j: nat, at: int)
    requires c.interval > 0 && 1 <= j <= c.burst
    ensures Refill(c, BucketState(c.burst - j, 0), at).tokens == Refilled(c, j, at)
  {
    if 0 <= at && (at < c.interval || c.rate <= 0) {
      NotDue(c, BucketState(c.burst - j, 0), at);
    } else if 0 <= at {
      LeDiv(1, at, c.interval);
      MulMonotone(1, at / c.interval, c.rate);
    } else {
      TokensBack(c, j, at);
    }
  }

  /** The clock set back: whole intervals, rounded toward zero, count with the rate's sign
      turned. */
  lemma TokensBack(c: Config, j: nat, at: int)
    requires c.interval > 0 && 1 <= j <= c.burst && at < 0
    ensures Refill(c, BucketState(c.burst - j, 0), at).tokens == Refilled(c, j, at)
  {
    var q := (-at) / c.interval;
    LeDiv(0, -at, c.interval);
    assert Quotient(at, c.interval) * c.rate == q * (-c.rate);
    if c.rate >= 0 {
      MulMonotone(0, q, c.rate);
    } else if -at < c.interval {
      DivUnique(-at, 0, c.interval);
    } else {
      LeDiv(1, -at, c.interval);
      MulMonotone(1, q, -c.rate);
    }
  }

  /** The same with a sweep just before the second burst: a bucket last filled longer ago
      than the age is gone, tokens or no tokens, and the key starts over. */
  lemma BurstAfterSweep(c: Config, j: nat, maxAge: int, at: int, m: nat)
    requires c.interval > 0 && 0 <= j <= c.burst && c.burst >= 1 && at != 0
    ensures Admitted(Trace(c, map[], Burst(0, j) + [Sweep(maxAge, at)] + Burst(at, m)), KEY, at, at)
            == Min(m, if at > maxAge then c.burst else Refilled(c, j, at))
  {
    hide Trace, Run, Admitted, Burst, Refill;
    Drain(c, map[], 0, j, at, at);
    var s := Run(c, map[], Burst(0, j));
    ThreeParts(c, Burst(0, j), [Sweep(maxAge, at)], Burst(at, m), at, at);
    OneSweep(c, s, maxAge, at);
    Drain(c, Swept(s, maxAge, at), at, m, at, at);
    NothingElapsed(c, c.burst, 0);
    NothingElapsed(c, c.burst, at);
    if j == 0 {
      NoBurst(c, map[], 0);
    } else {
      TokensAt(c, j, at);
    }
  }

  lemma OneSweep(c: Config, s: Buckets, maxAge: int, at: int)
    requires c.interval > 0
    ensures Run(c, s, [Sweep(maxAge, at)]) == Swept(s, maxAge, at)
    ensures forall t1, t2 :: Admitted(Trace(c, s, [Sweep(maxAge, at)]), KEY, t1, t2) == 0
  {
    var ops := [Sweep(maxAge, at)];
    assert ops[1..] == [];
    assert Run(c, s, ops) == Run(c, Step(c, s, ops[0]), []);
    assert Trace(c, s, ops) == [] + Trace(c, Step(c, s, ops[0]), []);
  }
}
