/** Processing the same event again after a failed enqueue, as the ingest consumer's retries
    do: what is stored twice and what is sent twice. */
module Retries {

  import opened Arith
  import opened Contract
  import opened Preferences
  import opened Queues
  import opened Subscribers
  import opened Fanout
  import opened FanoutTheorems
  import opened Audiences
  import Services
  import T = Tables

  // ----- one attempt

  /** How far an attempt gets. */
  function Got(s: Service, t: T.Table, p: Params, env: Env): (k: nat)
    ensures k <= |FullPlan(s, t, p, env)|
  {
    Reach(0, |FullPlan(s, t, p, env)|, env.enqueueFails)
  }

  /** The messages an attempt leaves on the queues. */
  function Sent(s: Service, t: T.Table, p: Params, env: Env): seq<Outgoing> {
    FullPlan(s, t, p, env)[..Got(s, t, p, env)]
  }

  predicate Fails(s: Service, t: T.Table, p: Params, env: Env) {
    Got(s, t, p, env) < |FullPlan(s, t, p, env)|
  }

  function Jobs(s: Service, t: T.Table, p: Params, env: Env): seq<Item<PushMessage>> {
    if PUSH !in ChannelsOf(p.identity) then []
    else PushJobs(PushStage(s, Filled(t, p, env), env), WithTokens(PushStage(s, Filled(t, p, env), env)))
  }

  /** An attempt at a personal event sends the first so many in-app messages, then the first
      so many push jobs. */
  lemma AttemptSends(s: Service, t: T.Table, p: Params, env: Env)
    requires s.dispatchers == BOTH && p.channel == ""
    ensures var users, jobs, k := InAppUsers(s, p, env), Jobs(s, t, p, env), Got(s, t, p, env);
            && |FullPlan(s, t, p, env)| == |users| + |jobs|
            && WsOf(Sent(s, t, p, env)) == UserMessages(Filled(t, p, env), users[..Min(k, |users|)])
            && PushOf(Sent(s, t, p, env)) == jobs[..k - Min(k, |users|)]
  {
    hide FullPlan, WsOf, PushOf, InAppUsers, PushStage, WithTokens, Filled, ChannelsOf, UserMessage, PushJob, Reach;
    ExactFanout(s, t, p, env);
    FilledSame(t, p, env);
    SameAudience(s, p, Filled(t, p, env), env, env);
    FailureLeavesPrefix(s, t, p, env, Got(s, t, p, env));
    if InAppUsers(s, p, env) == [] {
      UserMessagesNone(Filled(t, p, env));
    }
  }

  // ----- the retry's jobs

  lemma {:induction false} SameTokens(subs: Rows, users: seq<string>, a: Env, b: Env, c: nat, n: nat)
    requires (forall c, i :: a.subsFails(c, i) <==> b.subsFails(c, i)) && n <= |users|
    ensures TokenMap(subs, users, b, c, n) == TokenMap(subs, users, a, c, n)
    decreases n
  {
    if n > 0 {
      SameTokens(subs, users, a, b, c, n - 1);
    }
  }

  lemma SameStage(s: Service, p: Params, q: Params, a: Env, b: Env)
    requires SameEvent(p, q) && SameAnswers(s, p, a, b) && PUSH in ChannelsOf(p.identity)
    ensures SameEvent(PushStage(s, p, a), PushStage(s, q, b))
  {
    hide ChannelsOf, Gated, TokenMap;
    var c := |ChannelsOf(p.identity)| - 1;
    SameGated(s, p, q, PUSH, a, b, c);
    if s.subs.Some? {
      SameTokens(s.subs.value, Gated(s.prefs, p, PUSH, a, c).userIDs, a, b, c, |Gated(s.prefs, p, PUSH, a, c).userIDs|);
    }
  }

  lemma {:induction false} SamePick(s: seq<string>, f: nat -> bool, g: nat -> bool, n: nat)
    requires n <= |s| && forall i: nat :: i < n ==> f(i) == g(i)
    ensures Pick(s, f, n) == Pick(s, g, n)
    decreases n
  {
    if n > 0 {
      SamePick(s, f, g, n - 1);
    }
  }

  lemma SameJobs(e: Params, f: Params)
    requires SameEvent(e, f)
    ensures PushJobs(f, WithTokens(f)) == PushJobs(e, WithTokens(e))
  {
    SamePick(e.userIDs, TokenKeeps(e), TokenKeeps(f), |e.userIDs|);
    forall u ensures PushJob(f, u) == PushJob(e, u) {}
  }

  lemma FilledAnswers(s: Service, t: T.Table, p: Params, a: Env, b: Env)
    requires SameAnswers(s, p, a, b)
    ensures SameAnswers(s, Filled(t, p, a), a, b)
  {
    hide Allowed, PrefOf, PersistMap, CountMap;
    var q := Filled(t, p, a);
    if s.prefs.Some? {
      forall ch, c: nat, i: nat | i < |q.userIDs|
        ensures Passes(s.prefs.value, q, ch, a, c, i) <==> Passes(s.prefs.value, q, ch, b, c, i)
      {
        assert Passes(s.prefs.value, p, ch, a, c, i) <==> Passes(s.prefs.value, p, ch, b, c, i);
      }
    }
  }

  /** Push jobs do not name rows or counts: a retry's are the same jobs. */
  lemma JobsRepeat(s: Service, t1: T.Table, t2: T.Table, p: Params, a: Env, b: Env)
    requires SameAnswers(s, p, a, b)
    ensures Jobs(s, t2, p, b) == Jobs(s, t1, p, a)
  {
    hide Filled, PushStage, PushJobs, WithTokens, ChannelsOf;
    FilledSame(t1, p, a);
    FilledSame(t2, p, b);
    if PUSH in ChannelsOf(p.identity) {
      FilledAnswers(s, t1, p, a, b);
      SameStage(s, Filled(t1, p, a), Filled(t2, p, b), a, b);
      SameJobs(PushStage(s, Filled(t1, p, a), a), PushStage(s, Filled(t2, p, b), b));
    }
  }

  // ----- a failed attempt and its retry

  /** A failed attempt at a personal event, then a retry that works: the queues hold a prefix
      of the in-app messages and then one for every recipient past the gate, and a prefix of
      the push jobs and then all of them, the very same jobs. */
  lemma RetryRepeats(s: Service, t: T.Table, p: Params, a: Env, b: Env)
    requires s.dispatchers == BOTH && p.channel == "" && SameAnswers(s, p, a, b)
    requires Fails(s, t, p, a) && !Fails(s, StoreAfter(t, p, a), p, b)
    ensures var t1, users, jobs, k := StoreAfter(t, p, a), InAppUsers(s, p, a), Jobs(s, t, p, a), Got(s, t, p, a);
            && k < |users| + |jobs|
            && WsOf(Sent(s, t, p, a)) + WsOf(Sent(s, t1, p, b))
               == UserMessages(Filled(t, p, a), users[..Min(k, |users|)]) + UserMessages(Filled(t1, p, b), users)
            && PushOf(Sent(s, t, p, a)) + PushOf(Sent(s, t1, p, b)) == jobs[..k - Min(k, |users|)] + jobs
  {
    hide FullPlan, WsOf, PushOf, InAppUsers, Filled, StoreAfter, UserMessages, Jobs;
    var t1 := StoreAfter(t, p, a);
    AttemptSends(s, t, p, a);
    AttemptSends(s, t1, p, b);
    SameAudience(s, p, p, a, b);
    JobsRepeat(s, t, t1, p, a, b);
    var users, jobs := InAppUsers(s, p, a), Jobs(s, t, p, a);
    assert users[..|users|] == users && jobs[..|jobs|] == jobs;
  }

  /** A recipient reached by both attempts gets two messages that name two different rows,
      both in the store, so a client cannot tell the second for a repeat. */
  lemma RepeatsLookNew(s: Service, t: T.Table, p: Params, a: Env, b: Env, u: string)
    requires !IsTransient(p.identity)
    requires Services.FreshIDs(t, p, a) && Services.FreshIDs(StoreAfter(t, p, a), p, b)
    requires u in Filled(t, p, a).persisted && u in Filled(StoreAfter(t, p, a), p, b).persisted
    ensures var t1 := StoreAfter(t, p, a);
            var first, again := UserMessage(Filled(t, p, a), u), UserMessage(Filled(t1, p, b), u);
            && first.roomID == again.roomID && first.event == again.event
            && "id" in first.payload && "id" in again.payload && first.payload["id"] != again.payload["id"]
            && exists i: nat, j: nat ::
                 && LastStored(p, a, |p.userIDs|, u, i) && LastStored(p, b, |p.userIDs|, u, j)
                 && first.payload["id"] == Str(a.ids(i)) && again.payload["id"] == Str(b.ids(j))
                 && RowFor(p, a, i) in T.Get(StoreAfter(t1, p, b), u) && RowFor(p, b, j) in T.Get(StoreAfter(t1, p, b), u)
  {
    hide PersistTable, PersistMap, CountMap, T.Known, BasePayload;
    var t1, n := StoreAfter(t, p, a), |p.userIDs|;
    PersistedLast(t, p, a, n, u);
    PersistedLast(t1, p, b, n, u);
    var i: nat :| LastStored(p, a, n, u, i) && PersistMap(p, a, n)[u] == Stored(a.ids(i), a.now(i))
                  && RowFor(p, a, i) in T.Get(t1, u);
    var j: nat :| LastStored(p, b, n, u, j) && PersistMap(p, b, n)[u] == Stored(b.ids(j), b.now(j))
                  && RowFor(p, b, j) in T.Get(PersistTable(t1, p, b, n), u);
    PersistAppends(t1, p, b, n, u);
    RowKnown(t1, u, RowFor(p, a, i));
    assert a.ids(i) != b.ids(j);
  }

  lemma RowKnown(t: T.Table, u: string, row: T.Row)
    requires row in T.Get(t, u)
    ensures T.Known(t, row.id)
  {
    var i :| 0 <= i < |T.Get(t, u)| && T.Get(t, u)[i] == row;
    assert T.HasID(t[u], row.id);
  }

  // ----- any number of attempts

  /** The store after some attempts, each on what the one before left. */
  function AfterAll(t: T.Table, p: Params, envs: seq<Env>): T.Table
    decreases |envs|
  {
    if envs == [] then t else AfterAll(StoreAfter(t, p, envs[0]), p, envs[1..])
  }

  function AllCreated(p: Params, envs: seq<Env>, u: string): nat
    decreases |envs|
  {
    if envs == [] then 0 else Created(p, envs[0], |p.userIDs|, u) + AllCreated(p, envs[1..], u)
  }

  /** Every attempt at a stored event adds its rows again: however often it is retried, each
      user's list and unread count grow by all attempts' rows, and nothing else changes. When
      storing works each time, that is one row for each attempt and each listing. */
  lemma {:induction false} RetriesStore(t: T.Table, p: Params, envs: seq<Env>, u: string)
    requires !IsTransient(p.identity)
    ensures T.Get(t, u) <= T.Get(AfterAll(t, p, envs), u)
    ensures |T.Get(AfterAll(t, p, envs), u)| == |T.Get(t, u)| + AllCreated(p, envs, u)
    ensures T.CountUnread(AfterAll(t, p, envs), u) == T.CountUnread(t, u) + AllCreated(p, envs, u)
    ensures (forall e, i :: 0 <= e < |envs| && 0 <= i < |p.userIDs| ==> !envs[e].createFails(i)) ==>
              AllCreated(p, envs, u) == |envs| * Times(p.userIDs, u)
    decreases |envs|
  {
    hide T.Get, T.CountUnread, Created, PersistTable, Times;
    if envs != [] {
      var n := |p.userIDs|;
      RetriesStore(StoreAfter(t, p, envs[0]), p, envs[1..], u);
      PersistAppends(t, p, envs[0], n, u);
      PersistRaisesUnread(t, p, envs[0], n, u);
      if forall e, i :: 0 <= e < |envs| && 0 <= i < n ==> !envs[e].createFails(i) {
        CreatedTimes(p, envs[0], n, u);
        assert p.userIDs[..n] == p.userIDs;
        assert forall e :: 0 <= e < |envs[1..]| ==> envs[1..][e] == envs[e + 1];
      }
    }
  }

  /** A retried live update stores nothing, however often. */
  lemma {:induction false} LiveStoresNothing(t: T.Table, p: Params, envs: seq<Env>)
    requires IsTransient(p.identity)
    ensures AfterAll(t, p, envs) == t
    decreases |envs|
  {
    if envs != [] {
      LiveStoresNothing(t, p, envs[1..]);
    }
  }
}
