/** The delivery pipeline of internal/service/notification.go and dispatcher.go, working
    on the store and the two queues, proved to do what fanout.dfy specifies. */
module Services {

  import opened Wrappers
  import opened Contract
  import opened Preferences
  import opened Queues
  import opened Channels
  import opened Subscribers
  import opened Fanout
  import opened FanoutTheorems
  import opened MemoryStore
  import T = Tables

  /** The IDs handed out are new to the store and never handed out twice. */
  ghost predicate FreshIDs(t: T.Table, p: Params, env: Env) {
    && (forall i :: 0 <= i < |p.userIDs| ==> env.ids(i) != "" && !T.Known(t, env.ids(i)))
    && (forall i, j :: 0 <= i < j < |p.userIDs| ==> env.ids(i) != env.ids(j))
  }

  lemma {:induction false} StillFresh(t: T.Table, p: Params, env: Env, n: nat)
    requires FreshIDs(t, p, env) && n <= |p.userIDs|
    ensures forall i :: n <= i < |p.userIDs| ==> !T.Known(PersistTable(t, p, env, n), env.ids(i))
    decreases n
  {
    if n > 0 {
      StillFresh(t, p, env, n - 1);
      forall i | n <= i < |p.userIDs| ensures !T.Known(PersistTable(t, p, env, n), env.ids(i)) {
        T.KnownCreate(PersistTable(t, p, env, n - 1), RowFor(p, env, n - 1), env.ids(i));
      }
    }
  }

  // ----- payloads, built field by field in a map of their own

  /** Copies the event's extra fields, whose map is shared with every stored row, into a new
      map and sets the shared fields there. */
  method MakeBasePayload(p: Params, extra: FieldMap) returns (payload: FieldMap)
    requires extra.fields == p.extra
    ensures fresh(payload) && payload.fields == BasePayload(p)
  {
    payload := new FieldMap();
    payload.PutAll(extra.fields);
    assert payload.fields == p.extra;
    payload.Remove("device_tokens");
    payload.Put("event_type", Str(p.identity));
    payload.Put("title", Str(p.title));
    payload.Put("body", Str(p.body));
    if p.link != "" {
      payload.Put("link", Str(p.link));
    }
  }

  /** Adds what only this recipient's message says. */
  method MakeUserPayload(p: Params, u: string, extra: FieldMap) returns (payload: FieldMap)
    requires extra.fields == p.extra
    ensures fresh(payload) && payload.fields == UserPayload(p, u)
  {
    hide BasePayload;
    payload := MakeBasePayload(p, extra);
    if u in p.persisted {
      payload.Put("id", Str(p.persisted[u].id));
      payload.Put("created_at", Time(p.persisted[u].createdAt));
    }
    if u in p.unread {
      payload.Put("unread_count", Int(p.unread[u]));
    }
  }

  /** One map per message built so far, still saying what its message said. */
  ghost predicate Isolated(p: Params, payloads: seq<FieldMap>)
    reads payloads
  {
    && |payloads| <= |p.userIDs|
    && NoRepeats(payloads)
    && forall i :: 0 <= i < |payloads| ==> payloads[i].fields == UserPayload(p, p.userIDs[i])
  }

  /** The maps built for a plan's in-app messages so far, in order: all different, each still
      saying what its message says. */
  ghost predicate BuiltFor(messages: seq<Item<WSMessage>>, payloads: seq<FieldMap>)
    reads payloads
  {
    && |payloads| <= |messages| && NoRepeats(payloads)
    && forall i :: 0 <= i < |payloads| ==> messages[i].Good? && payloads[i].fields == messages[i].msg.payload
  }

  lemma BuiltThen(a: seq<Item<WSMessage>>, b: seq<Item<WSMessage>>, pa: seq<FieldMap>, pb: seq<FieldMap>)
    requires BuiltFor(a, pa) && |pa| == |a| && BuiltFor(b, pb) && forall m :: m in pb ==> m !in pa
    ensures BuiltFor(a + b, pa + pb)
  {
    assert forall i :: 0 <= i < |pb| ==> pb[i] in pb;
    assert forall i :: 0 <= i < |pa| ==> pa[i] in pa;
  }

  /** A plan carried out as far as its first `done` messages: each in-app message sent, and
      perhaps one that failed, was built in a map of its own. */
  ghost predicate Carried(plan: seq<Outgoing>, done: int, err: bool, payloads: seq<FieldMap>)
    reads payloads
  {
    && 0 <= done <= |plan| && BuiltFor(WsOf(plan), payloads)
    && |WsOf(plan[..done])| <= |payloads|
    && (!err ==> done == |plan| && |payloads| == |WsOf(plan)|)
  }

  lemma CarriedNothing()
    ensures Carried([], 0, false, [])
  {
  }

  lemma CarriedThen(a: seq<Outgoing>, b: seq<Outgoing>, done: int, err: bool, pa: seq<FieldMap>, pb: seq<FieldMap>)
    requires Carried(a, |a|, false, pa) && Carried(b, done, err, pb) && forall m :: m in pb ==> m !in pa
    ensures Carried(a + b, |a| + done, err, pa + pb)
  {
    hide WsOf, BuiltFor;
    SplitConcat(a, b);
    assert (a + b)[..|a| + done] == a + b[..done];
    SplitConcat(a, b[..done]);
    assert a[..|a|] == a;
    BuiltThen(WsOf(a), WsOf(b), pa, pb);
  }

  lemma CarriedShort(a: seq<Outgoing>, plan: seq<Outgoing>, done: int, payloads: seq<FieldMap>)
    requires Carried(a, done, true, payloads) && a <= plan
    ensures Carried(plan, done, true, payloads)
  {
    hide WsOf;
    assert plan == a + plan[|a|..];
    SplitConcat(a, plan[|a|..]);
    assert plan[..done] == a[..done];
  }

  lemma {:induction false} AtMostAll(out: seq<Outgoing>)
    ensures |WsOf(out)| <= |out|
  {
    if out != [] {
      AtMostAll(out[..|out| - 1]);
    }
  }

  /** What the in-app dispatcher builds is what its plan's messages say. */
  lemma InAppCarried(p: Params, done: nat, err: bool, payloads: seq<FieldMap>)
    requires if p.channel != "" then |payloads| == 1 && payloads[0].fields == BasePayload(p)
             else Isolated(p, payloads) && |payloads| == done + if err then 1 else 0
    requires done <= |DispatchPlan(InApp, p)| && (err <==> done < |DispatchPlan(InApp, p)|)
    requires p.channel == "" ==> |DispatchPlan(InApp, p)| == |p.userIDs|
    ensures Carried(DispatchPlan(InApp, p), done, err, payloads)
  {
    hide UserPayload, BasePayload, WsOf, UserRoom, DispatchPlan;
    var plan := DispatchPlan(InApp, p);
    ChannelParts(p);
    AtMostAll(plan[..done]);
    if p.channel == "" {
      forall i | 0 <= i < |payloads| ensures WsOf(plan)[i].Good? && payloads[i].fields == WsOf(plan)[i].msg.payload {
        assert WsOf(plan)[i] == Good(UserMessage(p, p.userIDs[i]));
      }
    } else {
      OneBroadcast(p);
    }
  }

  lemma OneBroadcast(p: Params)
    requires p.channel != ""
    ensures |DispatchPlan(InApp, p)| == 1
  {
  }

  lemma PushCarried(p: Params, done: nat, err: bool)
    requires done <= |DispatchPlan(PushOut, p)| && (err <==> done < |DispatchPlan(PushOut, p)|)
    ensures Carried(DispatchPlan(PushOut, p), done, err, [])
  {
    hide WsOf, DispatchPlan;
    ChannelParts(p);
    var plan := DispatchPlan(PushOut, p);
    WsOfPrefix(plan, done);
  }

  lemma WsOfPrefix(plan: seq<Outgoing>, k: nat)
    requires k <= |plan|
    ensures |WsOf(plan[..k])| <= |WsOf(plan)|
  {
    hide WsOf;
    assert plan == plan[..k] + plan[k..];
    SplitConcat(plan[..k], plan[k..]);
  }

  lemma IsolatedNone(p: Params)
    ensures Isolated(p, [])
  {
  }

  lemma IsolatedMore(p: Params, payloads: seq<FieldMap>, payload: FieldMap)
    requires Isolated(p, payloads) && |payloads| < |p.userIDs| && payload !in payloads
    requires payload.fields == UserPayload(p, p.userIDs[|payloads|])
    ensures Isolated(p, payloads + [payload])
  {
    hide UserPayload;
  }

  /** Keeps the string-valued extra fields; anything else is dropped. */
  method MakePushData(p: Params, extra: FieldMap) returns (data: map<string, string>)
    requires extra.fields == p.extra
    ensures data == PushData(p)
  {
    data := map[];
    var todo := extra.fields.Keys;
    while todo != {}
      invariant todo <= p.extra.Keys
      invariant data == map k | k in p.extra && k !in todo && p.extra[k].Str? :: p.extra[k].s
    {
      var k :| k in todo;
      if extra.fields[k].Str? {
        data := data[k := extra.fields[k].s];
      }
      todo := todo - {k};
    }
    assert data == map k | k in p.extra && p.extra[k].Str? :: p.extra[k].s;
    data := data["event_type" := p.identity];
    if p.link != "" {
      data := data["link" := p.link];
    }
  }

  class NotificationService {
    const store: NotificationStore
    const preferenceStore: PreferenceStore?
    const subscriberStore: SubscriberStore?
    const dispatchers: seq<Dispatcher>
    const ws: RedisList<Item<WSMessage>>
    const push: RedisList<Item<PushMessage>>

    constructor (store: NotificationStore, preferenceStore: PreferenceStore?, subscriberStore: SubscriberStore?,
                 dispatchers: seq<Dispatcher>, ws: RedisList<Item<WSMessage>>, push: RedisList<Item<PushMessage>>)
      ensures this.store == store && this.preferenceStore == preferenceStore
      ensures this.subscriberStore == subscriberStore && this.dispatchers == dispatchers
      ensures this.ws == ws && this.push == push
    {
      this.store, this.preferenceStore, this.subscriberStore := store, preferenceStore, subscriberStore;
      this.dispatchers, this.ws, this.push := dispatchers, ws, push;
    }

    /** What the collaborators hold now. */
    ghost function Setup(): Service
      reads preferenceStore, subscriberStore
    {
      Service(if preferenceStore == null then None else Some(preferenceStore.rows),
              if subscriberStore == null then None else Some(subscriberStore.rows),
              dispatchers)
    }

    /** Every row stored points to the event's own map of extra fields. */
    method PersistNotifications(p: Params, extra: FieldMap, env: Env) returns (persisted: map<string, Stored>)
      requires store.Valid() && FreshIDs(store.Contents, p, env) && extra.fields == p.extra
      modifies store
      ensures store.Valid() && fresh(store.Objects - old(store.Objects))
      ensures forall n :: n in store.Objects - old(store.Objects) ==> n.extra == extra
      ensures store.Contents == PersistTable(old(store.Contents), p, env, |p.userIDs|)
      ensures persisted == PersistMap(p, env, |p.userIDs|)
    {
      hide TwoIndexes, Shown, T.Create, T.Known;
      persisted := map[];
      for i := 0 to |p.userIDs|
        invariant store.Valid() && fresh(store.Objects - old(store.Objects))
        invariant forall n :: n in store.Objects - old(store.Objects) ==> n.extra == extra
        invariant store.Contents == PersistTable(old(store.Contents), p, env, i)
        invariant persisted == PersistMap(p, env, i)
      {
        StillFresh(old(store.Contents), p, env, i);
        var n := new Notification(RowFor(p, env, i), extra);
        if !env.createFails(i) {
          StoreNew(n);
          persisted := persisted[p.userIDs[i] := Stored(n.id, n.createdAt)];
        }
      }
    }

    /** Stores a notification whose ID is new. */
    method StoreNew(n: Notification)
      requires store.Valid() && n !in store.Objects && n.id != "" && !T.Known(store.Contents, n.id)
      modifies store, n`id
      ensures store.Valid() && fresh(store.Objects - old(store.Objects))
      ensures forall m :: m in store.Objects - old(store.Objects) ==> m.extra == n.extra
      ensures n.id == old(n.id) && store.Contents == T.Create(old(store.Contents), n.Row())
    {
      hide TwoIndexes, Shown, T.Create, T.Known, T.WellFormed;
      store.ValidView();
      store.Create(n);
    }

    method UnreadCounts(users: seq<string>, env: Env) returns (counts: map<string, nat>)
      requires store.Valid()
      ensures counts == CountMap(store.Contents, users, env, |users|)
    {
      counts := map[];
      for i := 0 to |users|
        invariant counts == CountMap(store.Contents, users, env, i)
      {
        if !env.countFails(i) {
          var n := store.CountUnread(users[i]);
          counts := counts[users[i] := n];
        }
      }
    }

    method FilterByPreference(p: Params, ch: string, env: Env, c: nat) returns (q: Params)
      ensures q == Gated(Setup().prefs, p, ch, env, c)
    {
      if preferenceStore == null {
        return p;
      }
      var filtered := [];
      for i := 0 to |p.userIDs|
        invariant filtered == Kept(preferenceStore.rows, p, ch, env, c, i)
      {
        var pref := preferenceStore.Get(p.userIDs[i], env.prefFails(c, i));
        if pref.None? {
          filtered := filtered + [p.userIDs[i]];
        } else if Allowed(pref.value, p.identity, ch, env.clock(c)) {
          filtered := filtered + [p.userIDs[i]];
        }
      }
      q := p.(userIDs := filtered);
    }

    method Enrich(p: Params, ch: string, env: Env, c: nat) returns (q: Params)
      ensures q == Enriched(Setup().subs, p, ch, env, c)
    {
      hide AddTokens, Usable, Matching;
      if ch != PUSH || subscriberStore == null {
        return p;
      }
      var tokens: map<string, seq<string>> := map[];
      for i := 0 to |p.userIDs|
        invariant tokens == TokenMap(subscriberStore.rows, p.userIDs, env, c, i)
      {
        var subs := subscriberStore.ByUserID(p.userIDs[i], env.subsFails(c, i));
        if subs.Some? {
          tokens := AppendUsable(tokens, p.userIDs[i], subs.value);
        }
      }
      q := p.(tokens := tokens);
    }

    /** Appends each usable token of a user to that user's list. */
    method AppendUsable(tokens0: map<string, seq<string>>, u: string, subs: Rows)
      returns (tokens: map<string, seq<string>>)
      ensures tokens == AddTokens(tokens0, u, Usable(subs))
    {
      tokens := tokens0;
      for i := 0 to |subs|
        invariant tokens == AddTokens(tokens0, u, Usable(subs[..i]))
      {
        assert subs[..i + 1][..i] == subs[..i];
        if subs[i].token != "" {
          tokens := tokens[u := TokensOf(tokens, u) + [subs[i].token]];
          AddTokensStep(tokens0, u, Usable(subs[..i]), subs[i].token);
        } else {
          assert Usable(subs[..i + 1]) == Usable(subs[..i]);
        }
      }
      assert subs[..|subs|] == subs;
    }

    /** What waits in the two queues. */
    ghost function Waiting(): Queued
      reads ws, push
    {
      Queued(ws.Fifo(), push.Fifo())
    }

    /** One broadcast message, or one message to each recipient. Each message is built in a
        map of its own, which later messages leave alone, and so is the event's own map. */
    method DispatchInApp(p: Params, extra: FieldMap, env: Env, first: nat)
      returns (err: bool, next: nat, ghost payloads: seq<FieldMap>)
      requires extra.fields == p.extra
      modifies ws
      ensures Delivered(DispatchPlan(InApp, p), first, next, err, env.enqueueFails, old(Waiting()), Waiting())
      ensures extra.fields == old(extra.fields)
      ensures forall m :: m in payloads ==> fresh(m)
      ensures if p.channel != "" then |payloads| == 1 && payloads[0].fields == BasePayload(p)
              else Isolated(p, payloads) && |payloads| == next - first + if err then 1 else 0
    {
      hide Delivered, Isolated, BasePayload, UserPayload, UserMessage, UserRoom;
      ghost var fails := env.enqueueFails;
      if p.channel != "" {
        var payload := MakeBasePayload(p, extra);
        var msg := WSMessage(ChallengeRoom(p.channel), p.identity, payload.fields);
        err := ws.Enqueue(Good(msg), env.enqueueFails(first));
        next := if err then first else first + 1;
        DeliveredOne(ToWS(msg), first, fails, old(Waiting()), Waiting());
        payloads := [payload];
        return;
      }
      next, err, payloads := first, false, [];
      DeliveredNothing(first, fails, Waiting());
      IsolatedNone(p);
      for i := 0 to |p.userIDs|
        invariant Delivered(InAppPlan(p, i), first, next, false, fails, old(Waiting()), Waiting())
        invariant next == first + i == first + |payloads|
        invariant Isolated(p, payloads) && forall m :: m in payloads ==> fresh(m)
      {
        ghost var sofar, from := Waiting(), next;
        ghost var payload;
        err, payload := SendTo(p, p.userIDs[i], extra, env.enqueueFails(next));
        IsolatedMore(p, payloads, payload);
        payloads := payloads + [payload];
        next := if err then next else next + 1;
        ghost var msg := ToWS(UserMessage(p, p.userIDs[i]));
        DeliveredOne(msg, from, fails, sofar, Waiting());
        DeliveredThen(InAppPlan(p, i), [msg], first, from, next, err, fails, old(Waiting()), sofar, Waiting());
        if err {
          InAppPlanPrefix(p, i + 1, |p.userIDs|);
          DeliveredShort(InAppPlan(p, i + 1), InAppPlan(p, |p.userIDs|), first, next, fails, old(Waiting()), Waiting());
          return;
        }
      }
      err := false;
    }

    /** The message to one recipient, marshalled into the list from a map made for it. */
    method SendTo(p: Params, u: string, extra: FieldMap, fails: bool) returns (err: bool, ghost built: FieldMap)
      requires extra.fields == p.extra
      modifies ws
      ensures err == fails && fresh(built) && built.fields == UserPayload(p, u)
      ensures Waiting() == if fails then old(Waiting())
                           else Queued(old(ws.Fifo()) + [Good(UserMessage(p, u))], old(push.Fifo()))
    {
      hide UserPayload;
      var payload := MakeUserPayload(p, u, extra);
      built := payload;
      err := ws.Enqueue(Good(WSMessage(UserRoom(u), p.identity, payload.fields)), fails);
    }

    /** One job for each recipient with a usable token. */
    method DispatchPush(p: Params, extra: FieldMap, env: Env, first: nat) returns (err: bool, next: nat)
      requires extra.fields == p.extra
      modifies push
      ensures Delivered(DispatchPlan(PushOut, p), first, next, err, env.enqueueFails, old(Waiting()), Waiting())
    {
      hide Delivered, PushData;
      ghost var fails := env.enqueueFails;
      next, err := first, false;
      DeliveredNothing(first, fails, Waiting());
      for i := 0 to |p.userIDs|
        invariant Delivered(PushPlan(p, i), first, next, false, fails, old(Waiting()), Waiting())
      {
        var u := p.userIDs[i];
        var tokens := TokensOf(p.tokens, u);
        if |tokens| > 0 {
          ghost var sofar, from := Waiting(), next;
          var data := MakePushData(p, extra);
          var msg := PushMessage(u, tokens, p.title, p.body, p.link, p.identity, data);
          err := push.Enqueue(Good(msg), env.enqueueFails(next));
          next := if err then next else next + 1;
          DeliveredOne(ToPush(msg), from, fails, sofar, Waiting());
          DeliveredThen(PushPlan(p, i), [ToPush(msg)], first, from, next, err, fails, old(Waiting()), sofar, Waiting());
          if err {
            PushPlanPrefix(p, i + 1, |p.userIDs|);
            DeliveredShort(PushPlan(p, i + 1), PushPlan(p, |p.userIDs|), first, next, fails, old(Waiting()), Waiting());
            return;
          }
        } else {
          assert PushPlan(p, i + 1) == PushPlan(p, i);
        }
      }
      err := false;
    }

    /** One dispatcher. */
    method Dispatch(d: Dispatcher, p: Params, extra: FieldMap, env: Env, first: nat)
      returns (err: bool, next: nat, ghost payloads: seq<FieldMap>)
      requires extra.fields == p.extra
      modifies ws, push
      ensures Delivered(DispatchPlan(d, p), first, next, err, env.enqueueFails, old(Waiting()), Waiting())
      ensures first <= next && Carried(DispatchPlan(d, p), next - first, err, payloads) && forall m :: m in payloads ==> fresh(m)
    {
      hide DispatchPlan, Isolated, Carried, BasePayload, Reach;
      match d {
        case InApp =>
          err, next, payloads := DispatchInApp(p, extra, env, first);
          if p.channel == "" {
            InAppLength(p);
          }
          InAppCarried(p, next - first, err, payloads);
        case PushOut =>
          err, next := DispatchPush(p, extra, env, first);
          payloads := [];
          PushCarried(p, next - first, err);
      }
    }

    /** Runs every dispatcher registered for the channel, until one fails. */
    method RunDispatchers(p: Params, extra: FieldMap, ch: string, env: Env, first: nat)
      returns (err: bool, next: nat, ghost payloads: seq<FieldMap>)
      requires extra.fields == p.extra
      modifies ws, push
      ensures Delivered(DispatchersPlan(dispatchers, p, ch, |dispatchers|), first, next, err, env.enqueueFails,
                        old(Waiting()), Waiting())
      ensures first <= next && Carried(DispatchersPlan(dispatchers, p, ch, |dispatchers|), next - first, err, payloads)
      ensures forall m :: m in payloads ==> fresh(m)
    {
      hide Delivered, DispatchPlan, DispatchersPlan, Carried, ChannelName;
      ghost var fails := env.enqueueFails;
      next, err, payloads := first, false, [];
      DeliveredNothing(first, fails, Waiting());
      CarriedNothing();
      NoDispatcherYet(dispatchers, p, ch);
      for i := 0 to |dispatchers|
        invariant !err
        invariant Delivered(DispatchersPlan(dispatchers, p, ch, i), first, next, false, fails, old(Waiting()), Waiting())
        invariant first <= next && Carried(DispatchersPlan(dispatchers, p, ch, i), next - first, false, payloads)
        invariant forall m :: m in payloads ==> fresh(m)
      {
        ghost var before := DispatchersPlan(dispatchers, p, ch, i);
        NextDispatcher(dispatchers, p, ch, i);
        if ChannelName(dispatchers[i]) == ch {
          ghost var sofar, from, more := Waiting(), next, [];
          CarriedAll(before, next - first, payloads);
          err, next, more := Dispatch(dispatchers[i], p, extra, env, next);
          DeliveredThen(before, DispatchPlan(dispatchers[i], p), first, from, next, err, fails,
                        old(Waiting()), sofar, Waiting());
          CarriedThen(before, DispatchPlan(dispatchers[i], p), next - from, err, payloads, more);
          payloads := payloads + more;
          if err {
            DispatchersPlanPrefix(dispatchers, p, ch, i + 1, |dispatchers|);
            DeliveredShort(DispatchersPlan(dispatchers, p, ch, i + 1), DispatchersPlan(dispatchers, p, ch, |dispatchers|),
                           first, next, fails, old(Waiting()), Waiting());
            CarriedShort(DispatchersPlan(dispatchers, p, ch, i + 1), DispatchersPlan(dispatchers, p, ch, |dispatchers|),
                         next - first, payloads);
            return;
          }
        }
      }
    }

    /** One channel: the gate, the tokens, the dispatchers; nothing if the gate stops all. */
    method RunChannel(p: Params, extra: FieldMap, env: Env, c: nat, first: nat)
      returns (err: bool, next: nat, ghost payloads: seq<FieldMap>)
      requires extra.fields == p.extra && c < |ChannelsOf(p.identity)|
      modifies ws, push
      ensures Delivered(ChannelPlan(Setup(), p, env, c), first, next, err, env.enqueueFails, old(Waiting()), Waiting())
      ensures first <= next && Carried(ChannelPlan(Setup(), p, env, c), next - first, err, payloads)
      ensures forall m :: m in payloads ==> fresh(m)
    {
      hide Delivered, Carried, ChannelsOf, Gated, Enriched, DispatchersPlan;
      var ch := ChannelsOf(p.identity)[c];
      var gated := FilterByPreference(p, ch, env, c);
      if |gated.userIDs| == 0 {
        DeliveredNothing(first, env.enqueueFails, Waiting());
        CarriedNothing();
        return false, first, [];
      }
      var enriched := Enrich(gated, ch, env, c);
      SameExtra(Setup(), p, ch, env, c);
      err, next, payloads := RunDispatchers(enriched, extra, ch, env, first);
    }

    /** The channels of the identity in table order; the first failing enqueue ends it. */
    method RunChannels(p: Params, extra: FieldMap, env: Env) returns (err: bool, ghost payloads: seq<FieldMap>)
      requires extra.fields == p.extra
      modifies ws, push
      ensures var plan := Plan(Setup(), p, env, |ChannelsOf(p.identity)|);
              var sent := Reach(0, |plan|, env.enqueueFails);
              && Delivered(plan, 0, sent, err, env.enqueueFails, old(Waiting()), Waiting())
              && Carried(plan, sent, err, payloads)
      ensures forall m :: m in payloads ==> fresh(m)
    {
      hide Delivered, Carried, ChannelsOf, ChannelPlan;
      ghost var s, fails := Setup(), env.enqueueFails;
      ghost var plan := Plan(s, p, env, |ChannelsOf(p.identity)|);
      var next := 0;
      err, payloads := false, [];
      DeliveredNothing(0, fails, Waiting());
      CarriedNothing();
      for c := 0 to |ChannelsOf(p.identity)|
        invariant !err
        invariant Delivered(Plan(s, p, env, c), 0, next, false, fails, old(Waiting()), Waiting())
        invariant Carried(Plan(s, p, env, c), next, false, payloads)
        invariant forall m :: m in payloads ==> fresh(m)
      {
        ghost var sofar, from, more := Waiting(), next, [];
        CarriedAll(Plan(s, p, env, c), next, payloads);
        err, next, more := RunChannel(p, extra, env, c, next);
        DeliveredThen(Plan(s, p, env, c), ChannelPlan(s, p, env, c), 0, from, next, err, fails,
                      old(Waiting()), sofar, Waiting());
        CarriedThen(Plan(s, p, env, c), ChannelPlan(s, p, env, c), next - from, err, payloads, more);
        payloads := payloads + more;
        if err {
          PlanPrefix(s, p, env, c + 1, |ChannelsOf(p.identity)|);
          DeliveredShort(Plan(s, p, env, c + 1), plan, 0, next, fails, old(Waiting()), Waiting());
          CarriedShort(Plan(s, p, env, c + 1), plan, next, payloads);
          DeliveredReach(plan, next, err, fails, old(Waiting()), Waiting());
          return;
        }
      }
      DeliveredReach(plan, next, err, fails, old(Waiting()), Waiting());
    }

    /** Persists and counts unless the identity is transient, then dispatches. The two
        queues grow by exactly the planned messages before the first failing enqueue. The
        stored rows all point to the event's own map of extra fields, and nothing writes it;
        each in-app message sent was built in a new map of its own. */
    method Process(p: Params, extra: FieldMap, env: Env)
      returns (err: bool, filled: Params, ghost payloads: seq<FieldMap>)
      requires extra.fields == p.extra
      requires store.Valid() && (!IsTransient(p.identity) ==> FreshIDs(store.Contents, p, env))
      modifies store, ws, push
      ensures store.Valid() && fresh(store.Objects - old(store.Objects))
      ensures forall n :: n in store.Objects - old(store.Objects) ==> n.extra == extra
      ensures extra.fields == old(extra.fields)
      ensures store.Contents == StoreAfter(old(store.Contents), p, env)
      ensures filled == Filled(old(store.Contents), p, env)
      ensures var plan := FullPlan(Setup(), old(store.Contents), p, env);
              var sent := Reach(0, |plan|, env.enqueueFails);
              && err == (sent < |plan|)
              && ws.Fifo() == old(ws.Fifo()) + WsOf(plan[..sent])
              && push.Fifo() == old(push.Fifo()) + PushOf(plan[..sent])
              && BuiltFor(WsOf(plan), payloads) && |WsOf(plan[..sent])| <= |payloads|
      ensures forall m :: m in payloads ==> fresh(m)
    {
      hide TwoIndexes, Shown, PersistTable, PersistMap, CountMap, Plan, WsOf, PushOf, Reach, BuiltFor;
      filled := p;
      if !IsTransient(p.identity) {
        var persisted := PersistNotifications(p, extra, env);
        filled := filled.(persisted := persisted);
        var counts := UnreadCounts(p.userIDs, env);
        filled := filled.(unread := counts);
      }
      err, payloads := RunChannels(filled, extra, env);
    }
  }

  lemma NoDispatcherYet(ds: seq<Dispatcher>, p: Params, ch: string)
    ensures DispatchersPlan(ds, p, ch, 0) == []
  {
  }

  lemma NextDispatcher(ds: seq<Dispatcher>, p: Params, ch: string, i: nat)
    requires i < |ds|
    ensures DispatchersPlan(ds, p, ch, i + 1) ==
            if ChannelName(ds[i]) == ch then DispatchersPlan(ds, p, ch, i) + DispatchPlan(ds[i], p)
            else DispatchersPlan(ds, p, ch, i)
  {
    hide DispatchPlan;
  }

  lemma CarriedAll(plan: seq<Outgoing>, done: int, payloads: seq<FieldMap>)
    requires Carried(plan, done, false, payloads)
    ensures done == |plan|
  {
  }

  lemma InAppLength(p: Params)
    requires p.channel == ""
    ensures |DispatchPlan(InApp, p)| == |p.userIDs|
  {
    InAppPlanPrefix(p, |p.userIDs|, |p.userIDs|);
  }

  /** Gating and enriching leave the extra fields alone. */
  lemma SameExtra(s: Service, p: Params, ch: string, env: Env, c: nat)
    ensures Enriched(s.subs, Gated(s.prefs, p, ch, env, c), ch, env, c).extra == p.extra
  {
  }

  lemma DeliveredReach(plan: seq<Outgoing>, next: nat, err: bool, fails: nat -> bool, before: Queued, after: Queued)
    requires Delivered(plan, 0, next, err, fails, before, after)
    ensures next == Reach(0, |plan|, fails)
  {
  }

  lemma {:induction false} DispatchersPlanPrefix(ds: seq<Dispatcher>, p: Params, ch: string, n: nat, m: nat)
    requires n <= m <= |ds|
    ensures DispatchersPlan(ds, p, ch, n) <= DispatchersPlan(ds, p, ch, m)
    decreases m
  {
    if n < m {
      DispatchersPlanPrefix(ds, p, ch, n, m - 1);
    }
  }

  lemma {:induction false} InAppPlanPrefix(p: Params, n: nat, m: nat)
    requires n <= m <= |p.userIDs|
    ensures InAppPlan(p, n) <= InAppPlan(p, m) && |InAppPlan(p, n)| == n && |InAppPlan(p, m)| == m
    decreases m
  {
    if n < m {
      InAppPlanPrefix(p, n, m - 1);
    } else if m > 0 {
      InAppPlanPrefix(p, n - 1, m - 1);
    }
  }

  lemma {:induction false} PushPlanPrefix(p: Params, n: nat, m: nat)
    requires n <= m <= |p.userIDs|
    ensures PushPlan(p, n) <= PushPlan(p, m)
    decreases m
  {
    if n < m {
      PushPlanPrefix(p, n, m - 1);
    }
  }
}
