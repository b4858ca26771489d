/** Who gets what, down to the stored fields and the fields of the event: the fan-out told
    without its own functions. */
module Audiences {

  import opened Wrappers
  import opened Contract
  import opened Preferences
  import opened Queues
  import opened Channels
  import opened Subscribers
  import opened Fanout
  import opened FanoutTheorems
  import T = Tables

  // ----- the gates

  lemma InAppAllowed(rows: PrefRows, u: string, identity: string, clock: Clock)
    ensures Allowed(PrefOf(rows, u), identity, "in_app", clock) <==>
            u !in rows || (rows[u].inApp && identity !in rows[u].muted)
  {
  }

  /** Not inside a window that can be worked out: minutes counted round the clock. */
  predicate OutsideQuietHours(quiet: Option<QuietHours>, clock: Clock) {
    var day: int := 1440;
    quiet.Some? && quiet.value.timezone != "" ==>
      match (clock.parse(quiet.value.start), clock.parse(quiet.value.end), clock.local(quiet.value.timezone))
      case (Some(s), Some(e), Some(m)) => (m - s) % day >= (e - s) % day
      case _ => true
  }

  lemma PushAllowed(rows: PrefRows, u: string, identity: string, clock: Clock)
    ensures Allowed(PrefOf(rows, u), identity, "push", clock) <==>
            u !in rows ||
            (rows[u].push && identity !in rows[u].muted && OutsideQuietHours(rows[u].quiet, clock))
  {
    PushGate(PrefOf(rows, u), identity, clock);
  }

  /** Who gets an in-app message: someone listed who has in-app switched on and the identity
      not muted, or never stored a preference, or whose preference could not be read; anyone
      listed when there is no preference store. */
  lemma InAppAudience(s: Service, p: Params, env: Env, u: string)
    ensures u in InAppUsers(s, p, env) <==>
            && "in_app" in ChannelsOf(p.identity)
            && exists i: nat :: && i < |p.userIDs| && p.userIDs[i] == u
                                && (s.prefs.None? || env.prefFails(0, i) || u !in s.prefs.value
                                    || (s.prefs.value[u].inApp && p.identity !in s.prefs.value[u].muted))
  {
    hide ChannelsOf, Gated, Allowed, PrefOf;
    InAppRecipients(s, p, env, u);
    if s.prefs.Some? {
      InAppAllowed(s.prefs.value, u, p.identity, env.clock(0));
      forall i: nat | i < |p.userIDs| && p.userIDs[i] == u
        ensures Passes(s.prefs.value, p, IN_APP, env, 0, i) <==>
                env.prefFails(0, i) || u !in s.prefs.value
                || (s.prefs.value[u].inApp && p.identity !in s.prefs.value[u].muted)
      {
      }
    }
  }

  /** Who gets past the push gate: the same with the push switch, outside quiet hours. */
  lemma PushAudience(s: Service, p: Params, env: Env, u: string)
    requires "push" in ChannelsOf(p.identity)
    ensures var c := |ChannelsOf(p.identity)| - 1;
            u in PushStage(s, p, env).userIDs <==>
            exists i: nat :: && i < |p.userIDs| && p.userIDs[i] == u
                             && (s.prefs.None? || env.prefFails(c, i) || u !in s.prefs.value
                                 || (&& s.prefs.value[u].push && p.identity !in s.prefs.value[u].muted
                                     && OutsideQuietHours(s.prefs.value[u].quiet, env.clock(c))))
  {
    hide ChannelsOf, Enriched, Allowed, PrefOf, OutsideQuietHours;
    var c := |ChannelsOf(p.identity)| - 1;
    SameRecipients(s, p, env, c);
    if s.prefs.Some? {
      KeptIsPick(s.prefs.value, p, PUSH, env, c, |p.userIDs|);
      PickMembers(p.userIDs, GateKeeps(s.prefs.value, p, PUSH, env, c), |p.userIDs|, u);
      PushAllowed(s.prefs.value, u, p.identity, env.clock(c));
      forall i: nat | i < |p.userIDs| && p.userIDs[i] == u
        ensures Passes(s.prefs.value, p, PUSH, env, c, i) <==>
                env.prefFails(c, i) || u !in s.prefs.value
                || (&& s.prefs.value[u].push && p.identity !in s.prefs.value[u].muted
                    && OutsideQuietHours(s.prefs.value[u].quiet, env.clock(c)))
      {
      }
    }
  }

  // ----- the messages

  lemma FilledKeeps(t: T.Table, p: Params, env: Env)
    ensures var q := Filled(t, p, env);
            && q.identity == p.identity && q.title == p.title && q.body == p.body && q.link == p.link
            && q.extra == p.extra && q.userIDs == p.userIDs && q.channel == p.channel
  {
  }

  predicate SameText(p: Params, q: Params) {
    q.identity == p.identity && q.title == p.title && q.body == p.body && q.link == p.link && q.extra == p.extra
  }

  lemma GatedKeeps(s: Service, q: Params, env: Env, c: nat)
    ensures SameText(q, Gated(s.prefs, q, PUSH, env, c))
  {
  }

  lemma EnrichedKeeps(s: Service, g: Params, env: Env, c: nat)
    ensures SameText(g, Enriched(s.subs, g, PUSH, env, c))
  {
  }

  lemma StageKeeps(s: Service, q: Params, env: Env)
    requires PUSH in ChannelsOf(q.identity)
    ensures SameText(q, PushStage(s, q, env))
  {
    hide ChannelsOf, Gated, Enriched;
    var c := |ChannelsOf(q.identity)| - 1;
    GatedKeeps(s, q, env, c);
    EnrichedKeeps(s, Gated(s.prefs, q, PUSH, env, c), env, c);
  }

  /** What every push job of an event says: its title, body, link and identity, each in its
      place, and the event's string fields beside identity and link. */
  lemma JobSays(s: Service, t: T.Table, p: Params, env: Env, job: Item<PushMessage>, k: string)
    requires s.dispatchers == BOTH && job in PushOf(FullPlan(s, t, p, env))
    ensures job.Good?
    ensures job.msg.title == p.title && job.msg.body == p.body && job.msg.link == p.link
    ensures job.msg.eventType == p.identity && job.msg.userID in p.userIDs
    ensures var data := job.msg.data;
            && "event_type" in data && data["event_type"] == p.identity
            && (k != "event_type" && (k != "link" || p.link == "") ==>
                  (k in data <==> k in p.extra && p.extra[k].Str?) && (k in data ==> Str(data[k]) == p.extra[k]))
            && (p.link != "" ==> "link" in data && data["link"] == p.link)
  {
    hide FullPlan, PushOf, ChannelsOf, PushStage, Filled, WithTokens;
    var u := PlannedJob(s, t, p, env, job);
    var q := Filled(t, p, env);
    FilledKeeps(t, p, env);
    StageKeeps(s, q, env);
    HasTokens(PushStage(s, q, env), u);
    StageListed(s, q, env, u);
  }

  lemma StageListed(s: Service, q: Params, env: Env, u: string)
    requires PUSH in ChannelsOf(q.identity) && u in PushStage(s, q, env).userIDs
    ensures u in q.userIDs
  {
    hide ChannelsOf, PushStage, OutsideQuietHours;
    PushAudience(s, q, env, u);
  }

  /** A field of a payload: the given value if there is one, else what the event's extra
      fields say, if anything. */
  predicate Carries(payload: Fields, k: string, given: Option<Value>, extra: Fields) {
    if given.Some? then k in payload && payload[k] == given.value
    else (k in payload <==> k in extra) && (k in extra ==> payload[k] == extra[k])
  }

  /** Every field of a recipient's payload. */
  lemma PayloadFields(p: Params, u: string, k: string)
    ensures var payload := UserPayload(p, u);
            if k == "device_tokens" then k !in payload
            else Carries(payload, k,
                         if k == "unread_count" && u in p.unread then Some(Int(p.unread[u]))
                         else if k == "id" && u in p.persisted then Some(Str(p.persisted[u].id))
                         else if k == "created_at" && u in p.persisted then Some(Time(p.persisted[u].createdAt))
                         else if k == "event_type" then Some(Str(p.identity))
                         else if k == "title" then Some(Str(p.title))
                         else if k == "body" then Some(Str(p.body))
                         else if k == "link" && p.link != "" then Some(Str(p.link))
                         else None, p.extra)
  {
  }

  /** Every field of a broadcast's payload: nothing about any one recipient is added. */
  lemma BroadcastFields(p: Params, k: string)
    ensures var payload := Broadcast(p).payload;
            if k == "device_tokens" then k !in payload
            else Carries(payload, k,
                         if k == "event_type" then Some(Str(p.identity))
                         else if k == "title" then Some(Str(p.title))
                         else if k == "body" then Some(Str(p.body))
                         else if k == "link" && p.link != "" then Some(Str(p.link))
                         else None, p.extra)
  {
  }

  /** Every in-app message of an event is published under its identity, with its title, body
      and link; a personal one in a recipient's own room, with the id and time of that
      recipient's row and its count, a broadcast in the challenge's. */
  lemma MessageSays(s: Service, t: T.Table, p: Params, env: Env, m: Item<WSMessage>)
    requires s.dispatchers == BOTH && m in WsOf(FullPlan(s, t, p, env))
    ensures m.Good? && m.msg.event == p.identity
    ensures "title" in m.msg.payload && m.msg.payload["title"] == Str(p.title)
    ensures "body" in m.msg.payload && m.msg.payload["body"] == Str(p.body)
    ensures "event_type" in m.msg.payload && m.msg.payload["event_type"] == Str(p.identity)
    ensures p.link != "" ==> "link" in m.msg.payload && m.msg.payload["link"] == Str(p.link)
    ensures p.channel != "" ==> m.msg.roomID == "challenge:" + p.channel
    ensures p.channel == "" ==>
              var q := Filled(t, p, env);
              exists u :: && u in p.userIDs && m.msg.roomID == "user:" + u
                          && (u in q.persisted ==>
                                && "id" in m.msg.payload && m.msg.payload["id"] == Str(q.persisted[u].id)
                                && "created_at" in m.msg.payload
                                && m.msg.payload["created_at"] == Time(q.persisted[u].createdAt))
                          && (u in q.unread ==>
                                "unread_count" in m.msg.payload && m.msg.payload["unread_count"] == Int(q.unread[u]))
  {
    hide FullPlan, WsOf, PushOf, ChannelsOf, Filled, InAppUsers, UserPayload;
    var q := Filled(t, p, env);
    FilledKeeps(t, p, env);
    ExactFanout(s, t, p, env);
    if p.channel != "" {
      BroadcastSays(q);
      WireNames(p.channel);
    } else {
      var users := InAppUsers(s, q, env);
      var i :| 0 <= i < |users| && UserMessages(q, users)[i] == m;
      UserSays(q, users[i]);
      WireNames(users[i]);
      InAppAudience(s, q, env, users[i]);
    }
  }

  lemma UserSays(q: Params, u: string)
    ensures var payload := UserPayload(q, u);
            && "title" in payload && payload["title"] == Str(q.title) && "body" in payload && payload["body"] == Str(q.body)
            && "event_type" in payload && payload["event_type"] == Str(q.identity)
            && (q.link != "" ==> "link" in payload && payload["link"] == Str(q.link))
            && (u in q.persisted ==>
                  && "id" in payload && payload["id"] == Str(q.persisted[u].id)
                  && "created_at" in payload && payload["created_at"] == Time(q.persisted[u].createdAt))
            && (u in q.unread ==> "unread_count" in payload && payload["unread_count"] == Int(q.unread[u]))
  {
    hide UserPayload;
    PayloadFields(q, u, "title");
    PayloadFields(q, u, "body");
    PayloadFields(q, u, "event_type");
    PayloadFields(q, u, "link");
    PayloadFields(q, u, "id");
    PayloadFields(q, u, "created_at");
    PayloadFields(q, u, "unread_count");
  }

  lemma BroadcastSays(q: Params)
    ensures var payload := Broadcast(q).payload;
            && "title" in payload && payload["title"] == Str(q.title) && "body" in payload && payload["body"] == Str(q.body)
            && "event_type" in payload && payload["event_type"] == Str(q.identity)
            && (q.link != "" ==> "link" in payload && payload["link"] == Str(q.link))
  {
  }

  // ----- the rows

  /** A row that says what the event says, created as number i. */
  predicate RowSays(row: T.Row, p: Params, env: Env, i: nat)
    requires i < |p.userIDs|
  {
    && row.id == env.ids(i) && row.userID == p.userIDs[i] && row.eventType == p.identity
    && row.title == p.title && row.body == p.body && row.link == p.link
    && row.extra == p.extra && row.createdAt == env.now(i) && !row.read
  }

  lemma RowForSays(p: Params, env: Env, i: nat)
    requires i < |p.userIDs|
    ensures RowSays(RowFor(p, env, i), p, env, i) && RowFor(p, env, i).userID == p.userIDs[i]
  {
  }

  lemma CreateAppends(t: T.Table, row: T.Row, u: string)
    ensures T.Get(T.Create(t, row), u) == T.Get(t, u) + if row.userID == u then [row] else []
  {
  }

  /** Storing an event adds, after a user's older rows, one row for each time the user is
      listed and the creation works, in that order, and says in each what the event says. */
  lemma {:induction false} RowsExact(t: T.Table, p: Params, env: Env, n: nat, i: nat)
    requires i < n <= |p.userIDs| && !env.createFails(i)
    ensures var u := p.userIDs[i];
            var rows, at := T.Get(PersistTable(t, p, env, n), u), |T.Get(t, u)| + Created(p, env, i, u);
            at < |rows| && RowSays(rows[at], p, env, i)
    decreases n
  {
    hide T.Get, T.Create, RowFor, RowSays, Created;
    var u := p.userIDs[i];
    if i < n - 1 {
      RowsExact(t, p, env, n - 1, i);
    } else {
      PersistAppends(t, p, env, n - 1, u);
    }
    CreateAppends(PersistTable(t, p, env, n - 1), RowFor(p, env, n - 1), u);
    RowForSays(p, env, n - 1);
  }

  /** Storing only ever appends, and adds nothing but those rows. */
  lemma {:induction false} PersistAppends(t: T.Table, p: Params, env: Env, n: nat, u: string)
    requires n <= |p.userIDs|
    ensures T.Get(t, u) <= T.Get(PersistTable(t, p, env, n), u)
    ensures |T.Get(PersistTable(t, p, env, n), u)| == |T.Get(t, u)| + Created(p, env, n, u)
    decreases n
  {
    hide T.Get, T.Create, RowFor;
    if n > 0 {
      PersistAppends(t, p, env, n - 1, u);
      CreateAppends(PersistTable(t, p, env, n - 1), RowFor(p, env, n - 1), u);
      RowForSays(p, env, n - 1);
    }
  }

  /** How often u is listed. */
  function Times(users: seq<string>, u: string): nat {
    if users == [] then 0
    else Times(users[..|users| - 1], u) + if users[|users| - 1] == u then 1 else 0
  }

  lemma {:induction false} CreatedTimes(p: Params, env: Env, n: nat, u: string)
    requires n <= |p.userIDs| && forall i :: 0 <= i < n ==> !env.createFails(i)
    ensures Created(p, env, n, u) == Times(p.userIDs[..n], u)
    decreases n
  {
    if n > 0 {
      CreatedTimes(p, env, n - 1, u);
      assert p.userIDs[..n][..n - 1] == p.userIDs[..n - 1];
    }
  }

  /** A live update leaves the store alone; anything else gets one row per listing when every
      creation works. */
  lemma StoredOrNot(t: T.Table, p: Params, env: Env, u: string)
    requires forall i :: 0 <= i < |p.userIDs| ==> !env.createFails(i)
    ensures |T.Get(StoreAfter(t, p, env), u)| - |T.Get(t, u)| ==
            if p.identity == "video_progress" || p.identity == "challenge_leaderboard" then 0 else Times(p.userIDs, u)
  {
    hide PersistTable, Times, Created;
    PersistAppends(t, p, env, |p.userIDs|, u);
    CreatedTimes(p, env, |p.userIDs|, u);
    assert p.userIDs[..|p.userIDs|] == p.userIDs;
  }
}
