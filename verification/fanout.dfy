/** What one event turns into: the pure specification of internal/service. The service
    objects in service.dfy are proved to deliver exactly this. */
module Fanout {

  import opened Wrappers
  import opened Contract
  import opened Preferences
  import opened Queues
  import opened Channels
  import opened Subscribers
  import T = Tables

  /** What a dispatcher uses of a stored notification. */
  datatype Stored = Stored(id: string, createdAt: int)

  datatype Params = Params(
    identity: string,
    title: string,
    body: string,
    link: string,
    extra: Fields,
    userIDs: seq<string>,
    channel: string,
    persisted: map<string, Stored>,
    unread: map<string, nat>,
    tokens: map<string, seq<string>>)

  /** What the surroundings answer during one event: the IDs and times given to rows, the
      clock seen at each channel, and which call fails, by position. */
  datatype Env = Env(
    ids: nat -> string,
    now: nat -> int,
    createFails: nat -> bool,
    countFails: nat -> bool,
    clock: nat -> Clock,
    prefFails: (nat, nat) -> bool,
    subsFails: (nat, nat) -> bool,
    enqueueFails: nat -> bool)

  datatype Outgoing = ToWS(ws: WSMessage) | ToPush(push: PushMessage)

  datatype Dispatcher = InApp | PushOut

  function ChannelName(d: Dispatcher): string {
    match d
    case InApp => IN_APP
    case PushOut => PUSH
  }

  // ----- persisting and counting

  function RowFor(p: Params, env: Env, i: nat): T.Row
    requires i < |p.userIDs|
  {
    T.Row(env.ids(i), p.userIDs[i], p.identity, p.title, p.body, p.link, false, p.extra, env.now(i))
  }

  /** The store after the first n recipients. */
  function PersistTable(t: T.Table, p: Params, env: Env, n: nat): T.Table
    requires n <= |p.userIDs|
  {
    if n == 0 then t
    else
      var before := PersistTable(t, p, env, n - 1);
      if env.createFails(n - 1) then before else T.Create(before, RowFor(p, env, n - 1))
  }

  function PersistMap(p: Params, env: Env, n: nat): map<string, Stored>
    requires n <= |p.userIDs|
  {
    if n == 0 then map[]
    else
      var before := PersistMap(p, env, n - 1);
      if env.createFails(n - 1) then before
      else before[p.userIDs[n - 1] := Stored(env.ids(n - 1), env.now(n - 1))]
  }

  function CountMap(t: T.Table, users: seq<string>, env: Env, n: nat): map<string, nat>
    requires n <= |users|
  {
    if n == 0 then map[]
    else
      var before := CountMap(t, users, env, n - 1);
      if env.countFails(n - 1) then before else before[users[n - 1] := T.CountUnread(t, users[n - 1])]
  }

  function StoreAfter(t: T.Table, p: Params, env: Env): T.Table {
    if IsTransient(p.identity) then t else PersistTable(t, p, env, |p.userIDs|)
  }

  /** The parameters once Process has filled them in. */
  function Filled(t: T.Table, p: Params, env: Env): Params {
    if IsTransient(p.identity) then p
    else p.(persisted := PersistMap(p, env, |p.userIDs|),
            unread := CountMap(StoreAfter(t, p, env), p.userIDs, env, |p.userIDs|))
  }

  // ----- gates

  /** Recipient i passes the gate of channel number c: a failed lookup lets it through. */
  predicate Passes(prefs: PrefRows, p: Params, ch: string, env: Env, c: nat, i: nat)
    requires i < |p.userIDs|
  {
    env.prefFails(c, i) || Allowed(PrefOf(prefs, p.userIDs[i]), p.identity, ch, env.clock(c))
  }

  function Kept(prefs: PrefRows, p: Params, ch: string, env: Env, c: nat, n: nat): seq<string>
    requires n <= |p.userIDs|
  {
    if n == 0 then []
    else Kept(prefs, p, ch, env, c, n - 1) +
         if Passes(prefs, p, ch, env, c, n - 1) then [p.userIDs[n - 1]] else []
  }

  /** The recipients of one channel; without a preference store, all of them. */
  function Gated(prefs: Option<PrefRows>, p: Params, ch: string, env: Env, c: nat): Params {
    match prefs
    case None => p
    case Some(rows) => p.(userIDs := Kept(rows, p, ch, env, c, |p.userIDs|))
  }

  // ----- device tokens

  function Usable(subs: Rows): seq<string> {
    if subs == [] then []
    else
      var last := subs[|subs| - 1];
      Usable(subs[..|subs| - 1]) + if last.token != "" then [last.token] else []
  }

  function TokensOf(m: map<string, seq<string>>, u: string): seq<string> {
    if u in m then m[u] else []
  }

  function AddTokens(m: map<string, seq<string>>, u: string, toks: seq<string>): map<string, seq<string>> {
    if toks == [] then m else m[u := TokensOf(m, u) + toks]
  }

  function TokenMap(subs: Rows, users: seq<string>, env: Env, c: nat, n: nat): map<string, seq<string>>
    requires n <= |users|
  {
    if n == 0 then map[]
    else
      var before := TokenMap(subs, users, env, c, n - 1);
      if env.subsFails(c, n - 1) then before
      else AddTokens(before, users[n - 1], Usable(Matching(subs, users[n - 1])))
  }

  function Enriched(subs: Option<Rows>, p: Params, ch: string, env: Env, c: nat): Params {
    if ch != PUSH || subs.None? then p
    else p.(tokens := TokenMap(subs.value, p.userIDs, env, c, |p.userIDs|))
  }

  // ----- messages

  function BasePayload(p: Params): Fields {
    var base := (p.extra - {"device_tokens"})
                ["event_type" := Str(p.identity)]["title" := Str(p.title)]["body" := Str(p.body)];
    if p.link != "" then base["link" := Str(p.link)] else base
  }

  function UserPayload(p: Params, u: string): Fields {
    var base := BasePayload(p);
    var named := if u in p.persisted then
                   base["id" := Str(p.persisted[u].id)]["created_at" := Time(p.persisted[u].createdAt)]
                 else base;
    if u in p.unread then named["unread_count" := Int(p.unread[u])] else named
  }

  function UserMessage(p: Params, u: string): WSMessage {
    WSMessage(UserRoom(u), p.identity, UserPayload(p, u))
  }

  function Broadcast(p: Params): WSMessage {
    WSMessage(ChallengeRoom(p.channel), p.identity, BasePayload(p))
  }

  function PushData(p: Params): map<string, string> {
    var data := (map k | k in p.extra && p.extra[k].Str? :: p.extra[k].s)["event_type" := p.identity];
    if p.link != "" then data["link" := p.link] else data
  }

  function PushJob(p: Params, u: string): PushMessage {
    PushMessage(u, TokensOf(p.tokens, u), p.title, p.body, p.link, p.identity, PushData(p))
  }

  // ----- plans: what would be enqueued, in order, if nothing failed

  function InAppPlan(p: Params, n: nat): seq<Outgoing>
    requires n <= |p.userIDs|
  {
    if n == 0 then [] else InAppPlan(p, n - 1) + [ToWS(UserMessage(p, p.userIDs[n - 1]))]
  }

  function PushPlan(p: Params, n: nat): seq<Outgoing>
    requires n <= |p.userIDs|
  {
    if n == 0 then []
    else PushPlan(p, n - 1) +
         if TokensOf(p.tokens, p.userIDs[n - 1]) == [] then [] else [ToPush(PushJob(p, p.userIDs[n - 1]))]
  }

  function DispatchPlan(d: Dispatcher, p: Params): seq<Outgoing> {
    match d
    case InApp => if p.channel != "" then [ToWS(Broadcast(p))] else InAppPlan(p, |p.userIDs|)
    case PushOut => PushPlan(p, |p.userIDs|)
  }

  /** Every dispatcher registered for the channel, in order. */
  function DispatchersPlan(ds: seq<Dispatcher>, p: Params, ch: string, n: nat): seq<Outgoing>
    requires n <= |ds|
  {
    if n == 0 then []
    else DispatchersPlan(ds, p, ch, n - 1) +
         if ChannelName(ds[n - 1]) == ch then DispatchPlan(ds[n - 1], p) else []
  }

  datatype Service = Service(prefs: Option<PrefRows>, subs: Option<Rows>, dispatchers: seq<Dispatcher>)

  /** Channel number c of filled-in parameters. */
  function ChannelPlan(s: Service, p: Params, env: Env, c: nat): seq<Outgoing>
    requires c < |ChannelsOf(p.identity)|
  {
    var ch := ChannelsOf(p.identity)[c];
    var gated := Gated(s.prefs, p, ch, env, c);
    if gated.userIDs == [] then []
    else DispatchersPlan(s.dispatchers, Enriched(s.subs, gated, ch, env, c), ch, |s.dispatchers|)
  }

  function Plan(s: Service, p: Params, env: Env, n: nat): seq<Outgoing>
    requires n <= |ChannelsOf(p.identity)|
  {
    if n == 0 then [] else Plan(s, p, env, n - 1) + ChannelPlan(s, p, env, n - 1)
  }

  function FullPlan(s: Service, t: T.Table, p: Params, env: Env): seq<Outgoing> {
    Plan(s, Filled(t, p, env), env, |ChannelsOf(p.identity)|)
  }

  /** The first of the attempts numbered first..last that fails, or last. */
  function Reach(first: nat, last: nat, fails: nat -> bool): (r: nat)
    requires first <= last
    ensures first <= r <= last
    ensures forall j :: first <= j < r ==> !fails(j)
    ensures r < last ==> fails(r)
    decreases last - first
  {
    if first == last || fails(first) then first else Reach(first + 1, last, fails)
  }

  /** No other number fits that description. */
  lemma ReachIs(first: nat, last: nat, fails: nat -> bool, r: nat)
    requires first <= r <= last
    requires forall j :: first <= j < r ==> !fails(j)
    requires r < last ==> fails(r)
    ensures Reach(first, last, fails) == r
  {
  }

  function WsOf(out: seq<Outgoing>): seq<Item<WSMessage>> {
    if out == [] then []
    else
      var last := out[|out| - 1];
      WsOf(out[..|out| - 1]) + if last.ToWS? then [Good(last.ws)] else []
  }

  function PushOf(out: seq<Outgoing>): seq<Item<PushMessage>> {
    if out == [] then []
    else
      var last := out[|out| - 1];
      PushOf(out[..|out| - 1]) + if last.ToPush? then [Good(last.push)] else []
  }

  lemma {:induction false} SplitConcat(a: seq<Outgoing>, b: seq<Outgoing>)
    ensures WsOf(a + b) == WsOf(a) + WsOf(b) && PushOf(a + b) == PushOf(a) + PushOf(b)
    decreases |b|
  {
    if b == [] {
      assert a + b == a;
    } else {
      var n := |b| - 1;
      assert (a + b)[..|a + b| - 1] == a + b[..n];
      SplitConcat(a, b[..n]);
    }
  }

  lemma SplitNone()
    ensures WsOf([]) == [] && PushOf([]) == []
  {
  }

  lemma SplitStep(out: seq<Outgoing>, m: Outgoing)
    ensures WsOf(out + [m]) == if m.ToWS? then WsOf(out) + [Good(m.ws)] else WsOf(out)
    ensures PushOf(out + [m]) == if m.ToPush? then PushOf(out) + [Good(m.push)] else PushOf(out)
  {
    assert (out + [m])[..|out|] == out;
  }

  lemma AddTokensStep(m: map<string, seq<string>>, u: string, toks: seq<string>, t: string)
    ensures AddTokens(AddTokens(m, u, toks), u, [t]) == AddTokens(m, u, toks + [t])
  {
    assert TokensOf(m, u) + (toks + [t]) == TokensOf(m, u) + toks + [t];
    if toks == [] {
      assert toks + [t] == [t];
    } else {
      var more := TokensOf(m, u) + toks;
      assert m[u := more][u := more + [t]] == m[u := more + [t]];
    }
  }

  lemma SplitOne(m: Outgoing)
    ensures WsOf([m]) == (if m.ToWS? then [Good(m.ws)] else [])
    ensures PushOf([m]) == (if m.ToPush? then [Good(m.push)] else [])
  {
    assert [m][..0] == [];
  }

  /** The two queues, oldest message first. */
  datatype Queued = Queued(ws: seq<Item<WSMessage>>, push: seq<Item<PushMessage>>)

  /** Enqueueing a plan whose first attempt is number `first` got as far as attempt `next`:
      the queues grew by the messages before it, and it failed exactly if it stopped short. */
  ghost predicate Delivered(plan: seq<Outgoing>, first: nat, next: nat, err: bool, fails: nat -> bool,
                            before: Queued, after: Queued) {
    && next == Reach(first, first + |plan|, fails)
    && err == (next < first + |plan|)
    && after.ws == before.ws + WsOf(plan[..next - first])
    && after.push == before.push + PushOf(plan[..next - first])
  }

  lemma DeliveredNothing(first: nat, fails: nat -> bool, q: Queued)
    ensures Delivered([], first, first, false, fails, q, q)
  {
    assert q.ws + [] == q.ws && q.push + [] == q.push;
  }

  /** One plan after another. */
  lemma DeliveredThen(a: seq<Outgoing>, b: seq<Outgoing>, first: nat, mid: nat, next: nat, err: bool,
                      fails: nat -> bool, q0: Queued, q1: Queued, q2: Queued)
    requires Delivered(a, first, mid, false, fails, q0, q1) && Delivered(b, mid, next, err, fails, q1, q2)
    ensures Delivered(a + b, first, next, err, fails, q0, q2)
  {
    ReachIs(first, first + |a + b|, fails, next);
    assert a[..mid - first] == a;
    assert (a + b)[..next - first] == a + b[..next - mid];
    SplitConcat(a, b[..next - mid]);
    assert q0.ws + WsOf(a) + WsOf(b[..next - mid]) == q0.ws + (WsOf(a) + WsOf(b[..next - mid]));
    assert q0.push + PushOf(a) + PushOf(b[..next - mid]) == q0.push + (PushOf(a) + PushOf(b[..next - mid]));
  }

  /** A plan that failed stays failed at the same place when more was to follow. */
  lemma DeliveredShort(a: seq<Outgoing>, plan: seq<Outgoing>, first: nat, next: nat,
                       fails: nat -> bool, q0: Queued, q1: Queued)
    requires Delivered(a, first, next, true, fails, q0, q1) && a <= plan
    ensures Delivered(plan, first, next, true, fails, q0, q1)
  {
    ReachIs(first, first + |plan|, fails, next);
    assert plan[..next - first] == a[..next - first];
  }

  /** One message, enqueued or not. */
  lemma DeliveredOne(m: Outgoing, first: nat, fails: nat -> bool, q0: Queued, q1: Queued)
    requires if fails(first) then q1 == q0
             else q1 == Queued(if m.ToWS? then q0.ws + [Good(m.ws)] else q0.ws,
                               if m.ToPush? then q0.push + [Good(m.push)] else q0.push)
    ensures Delivered([m], first, if fails(first) then first else first + 1, fails(first), fails, q0, q1)
  {
    SplitOne(m);
    ReachIs(first, first + 1, fails, if fails(first) then first else first + 1);
    assert [m][..0] == [] && [m][..1] == [m];
    assert q0.ws + [] == q0.ws && q0.push + [] == q0.push;
  }

  lemma {:induction false} PlanPrefix(s: Service, p: Params, env: Env, n: nat, m: nat)
    requires n <= m <= |ChannelsOf(p.identity)|
    ensures Plan(s, p, env, n) <= Plan(s, p, env, m)
    decreases m
  {
    hide ChannelPlan;
    if n < m {
      PlanPrefix(s, p, env, n, m - 1);
    }
  }
}
