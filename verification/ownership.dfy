/** Whose device tokens travel where, over whole runs of registrations, events and
    deliveries. */
module TokenOwnership {

  import opened Wrappers
  import opened Contract
  import opened Queues
  import opened Subscribers
  import opened Fanout
  import opened FanoutTheorems
  import opened PushDelivery
  import T = Tables

  /** Every token of a job is registered to the job's user. */
  predicate Owned(subs: Rows, job: PushMessage) {
    forall t :: t in job.deviceTokens ==> Registered(subs, job.userID, t)
  }

  /** Whatever the recipients (listed twice or not) and whatever fails, each push job an
      event plans carries tokens registered to its user at that moment, at least one, none
      empty. */
  lemma JobsOwned(s: Service, t: T.Table, p: Params, env: Env, job: Item<PushMessage>)
    requires s.dispatchers == BOTH && s.subs.Some?
    requires job in PushOf(FullPlan(s, t, p, env))
    ensures job.Good? && Owned(s.subs.value, job.msg)
    ensures job.msg.deviceTokens != [] && "" !in job.msg.deviceTokens
  {
    hide FullPlan, PushOf, Registered, ChannelsOf, Gated, TokenMap, Filled;
    var u := PlannedJob(s, t, p, env, job);
    var q := Filled(t, p, env);
    var e, c := PushStage(s, q, env), |ChannelsOf(q.identity)| - 1;
    HasTokens(e, u);
    forall tok | tok in job.msg.deviceTokens ensures tok != "" && Registered(s.subs.value, u, tok) {
      TokensRegistered(s.subs.value, e.userIDs, env, c, |e.userIDs|, u, tok);
    }
  }

  /** Of a planned job it can be said beforehand whether its three counts will add up
      whatever Firebase answers: exactly when one device lookup of its user worked. With no
      recipient listed twice they always do. */
  lemma PlannedJobAddsUp(s: Service, t: T.Table, p: Params, env: Env, job: Item<PushMessage>)
    requires s.dispatchers == BOTH && s.subs.Some? && UniquePairs(s.subs.value)
    requires job in PushOf(FullPlan(s, t, p, env))
    ensures job.Good? && PUSH in ChannelsOf(p.identity)
    ensures var e := PushStage(s, Filled(t, p, env), env);
            (forall m :: LinedUp(job.msg.deviceTokens, m) ==> AddsUp(job.msg.deviceTokens, m)) <==>
            Lookups(e.userIDs, env, |ChannelsOf(p.identity)| - 1, |e.userIDs|, job.msg.userID) == 1
    ensures NoRepeats(p.userIDs) ==>
              forall m :: LinedUp(job.msg.deviceTokens, m) ==> AddsUp(job.msg.deviceTokens, m)
  {
    hide FullPlan, PushOf, ChannelsOf, PushStage, Filled, Lookups, UniquePairs, NoRepeats, LinedUp, AddsUp;
    JobTokensDistinct(s, t, p, env, job);
    AlwaysAddsUpIff(job.msg.deviceTokens);
  }

  /** When no recipient is listed twice, handling a planned job, later and on whatever rows
      there are by then, never removes a device whose delivery merely failed. */
  lemma FailedDevicesStay(s: Service, t: T.Table, p: Params, env: Env, job: Item<PushMessage>,
                          rows: Rows, reply: Multicast, token: string)
    requires s.dispatchers == BOTH && s.subs.Some? && UniquePairs(s.subs.value) && NoRepeats(p.userIDs)
    requires job in PushOf(FullPlan(s, t, p, env)) && UniquePairs(rows)
    ensures job.Good?
    ensures var r := Outcome(job.msg, Some(reply));
            var after := Pruned(rows, job.msg.userID, r.unregistered, NeverFails, |r.unregistered|);
            token in r.failed && Registered(rows, job.msg.userID, token) ==> Registered(after, job.msg.userID, token)
  {
    hide FullPlan, PushOf, ChannelsOf, PushStage, Filled, Lookups, UniquePairs, NoRepeats, Outcome, Pruned, Registered;
    JobTokensDistinct(s, t, p, env, job);
    HandledTokens(rows, job.msg, Some(reply), token);
  }

  // ----- runs

  /** A waiting job, and the collection as it stood when the job was enriched. */
  datatype Job = Job(item: Item<PushMessage>, rows: Rows)

  datatype State = State(subs: Rows, waiting: seq<Job>)

  datatype Op =
    | Register(s: Subscriber)
    | Unregister(u: string, t: string)
    | Event(prefs: Option<PrefRows>, p: Params, env: Env, table: T.Table, k: nat)
    | Deliver(reply: Option<Multicast>, deleteFails: nat -> bool)

  function Jobs(items: seq<Item<PushMessage>>, rows: Rows): seq<Job> {
    seq(|items|, i requires 0 <= i < |items| => Job(items[i], rows))
  }

  /** An event may stop after its first k messages; a delivery handles the oldest job. */
  function Step(x: State, op: Op): State {
    match op
    case Register(s) => x.(subs := Upserted(x.subs, s))
    case Unregister(u, t) => x.(subs := Deleted(x.subs, u, t))
    case Event(prefs, p, env, table, k) =>
      var plan := FullPlan(Service(prefs, Some(x.subs), BOTH), table, p, env);
      x.(waiting := x.waiting + Jobs(PushOf(plan[..if k < |plan| then k else |plan|]), x.subs))
    case Deliver(reply, deleteFails) =>
      if x.waiting == [] then x
      else x.(waiting := x.waiting[1..], subs := AfterJob(x.subs, x.waiting[0].item, reply, deleteFails))
  }

  function AfterJob(subs: Rows, job: Item<PushMessage>, reply: Option<Multicast>, deleteFails: nat -> bool): Rows {
    if job.Malformed? || (job.msg.deviceTokens != [] && reply.None?) then subs
    else
      var dead := Outcome(job.msg, reply).unregistered;
      Pruned(subs, job.msg.userID, dead, deleteFails, |dead|)
  }

  /** The tokens of a waiting job were its user's when it was enriched, and it has some. */
  predicate RightlyWaiting(j: Job) {
    j.item.Good? ==>
      Owned(j.rows, j.item.msg) && j.item.msg.deviceTokens != [] && "" !in j.item.msg.deviceTokens
  }

  ghost predicate Sound(x: State) {
    && UniquePairs(x.subs)
    && forall i :: 0 <= i < |x.waiting| ==> RightlyWaiting(x.waiting[i])
  }

  lemma {:induction false} PushOfPrefix(out: seq<Outgoing>, k: nat)
    requires k <= |out|
    ensures forall m :: m in PushOf(out[..k]) ==> m in PushOf(out)
  {
    SplitConcat(out[..k], out[k..]);
    assert out == out[..k] + out[k..];
  }

  lemma AfterJobExact(subs: Rows, job: Item<PushMessage>, reply: Option<Multicast>, deleteFails: nat -> bool)
    requires UniquePairs(subs)
    ensures var after := AfterJob(subs, job, reply, deleteFails);
            && UniquePairs(after)
            && (forall v, t :: Registered(after, v, t) ==> Registered(subs, v, t))
            && (forall v :: job.Malformed? || v != job.msg.userID ==> Matching(after, v) == Matching(subs, v))
  {
    hide UniquePairs, Registered, Matching, Pruned, Deleted;
    if !(job.Malformed? || (job.msg.deviceTokens != [] && reply.None?)) {
      var dead := Outcome(job.msg, reply).unregistered;
      PrunedExact(subs, job.msg.userID, dead, deleteFails, |dead|);
    }
  }

  /** Every step keeps it that waiting jobs carry only tokens that were their user's at
      enrichment. */
  lemma StepSound(x: State, op: Op)
    requires Sound(x)
    ensures Sound(Step(x, op))
  {
    hide UniquePairs, Owned, Registered, Matching, FullPlan, PushOf, AfterJob, Upserted, Deleted;
    var y := Step(x, op);
    match op
    case Register(s) => UpsertedExact(x.subs, s);
    case Unregister(u, t) => DeletedExact(x.subs, u, t);
    case Event(prefs, p, env, table, k) =>
      var s := Service(prefs, Some(x.subs), BOTH);
      var plan := FullPlan(s, table, p, env);
      var n := if k < |plan| then k else |plan|;
      PushOfPrefix(plan, n);
      var more := PushOf(plan[..n]);
      forall i | 0 <= i < |y.waiting| ensures RightlyWaiting(y.waiting[i]) {
        if i >= |x.waiting| {
          assert y.waiting[i] == Job(more[i - |x.waiting|], x.subs);
          assert y.waiting[i].item in more;
          JobsOwned(s, table, p, env, y.waiting[i].item);
        }
      }
    case Deliver(reply, deleteFails) =>
      if x.waiting != [] {
        AfterJobExact(x.subs, x.waiting[0].item, reply, deleteFails);
        assert forall i :: 0 <= i < |y.waiting| ==> y.waiting[i] == x.waiting[i + 1];
      }
  }

  /** The operations that may change user v's rows: v's own registrations, and handling a
      job addressed to v. */
  predicate Touches(x: State, op: Op, v: string) {
    match op
    case Register(s) => s.userID == v
    case Unregister(u, _) => u == v
    case Event(_, _, _, _, _) => false
    case Deliver(_, _) => x.waiting != [] && x.waiting[0].item.Good? && x.waiting[0].item.msg.userID == v
  }

  function Run(x: State, ops: seq<Op>): State
    decreases |ops|
  {
    if ops == [] then x else Run(Step(x, ops[0]), ops[1..])
  }

  predicate NeverTouches(x: State, ops: seq<Op>, v: string)
    decreases |ops|
  {
    ops != [] ==> !Touches(x, ops[0], v) && NeverTouches(Step(x, ops[0]), ops[1..], v)
  }

  lemma UntouchedStep(x: State, op: Op, v: string)
    requires Sound(x) && !Touches(x, op, v)
    ensures Matching(Step(x, op).subs, v) == Matching(x.subs, v)
  {
    hide UniquePairs, Registered, Matching, AfterJob, Upserted, Deleted, FullPlan;
    match op
    case Register(s) => UpsertedExact(x.subs, s);
    case Unregister(u, t) => DeletedExact(x.subs, u, t);
    case Event(_, _, _, _, _) =>
    case Deliver(reply, deleteFails) =>
      if x.waiting != [] {
        AfterJobExact(x.subs, x.waiting[0].item, reply, deleteFails);
      }
  }

  /** Over any run: each waiting job carries only tokens registered to its user in the
      collection as it was when the job was enriched, whatever has changed since; and a
      user none of the operations is about keeps every row, even when another user's copy
      of the same token is pruned. */
  lemma {:induction false} OwnershipOverRuns(x: State, ops: seq<Op>, v: string)
    requires Sound(x)
    ensures Sound(Run(x, ops))
    ensures NeverTouches(x, ops, v) ==> Matching(Run(x, ops).subs, v) == Matching(x.subs, v)
    decreases |ops|
  {
    hide Sound, Step, Touches, Matching;
    if ops != [] {
      StepSound(x, ops[0]);
      OwnershipOverRuns(Step(x, ops[0]), ops[1..], v);
      if NeverTouches(x, ops, v) {
        UntouchedStep(x, ops[0], v);
      }
    }
  }
}
