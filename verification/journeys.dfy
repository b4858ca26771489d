/** Results that cross the components: from an event to the client that shows it, through
    the queue, the workers, the channels and the gateway. */
module Journeys {

  import opened Wrappers
  import opened Contract
  import opened Queues
  import opened Channels
  import opened Subscribers
  import opened Fanout
  import opened FanoutTheorems
  import PushDelivery
  import opened DispatchWorkers
  import Services
  import Badges
  import Lingocasts
  import Gateway
  import T = Tables

  // ----- a row's ID reaches its owner only

  /** In any gateway run, a connection that receives a personal in-app message, of a live
      update too, is authenticated as the message's recipient; and when a row was stored
      for that recipient, the id in the message is that of a row of the connection's user. */
  lemma IdReachesOwner(subject: Gateway.SubjectParser, parse: TokenParser, events: seq<Gateway.Event>, conn: nat,
                       s: Service, t: T.Table, p: Params, env: Env, m: Item<WSMessage>)
    requires s.dispatchers == BOTH && p.channel == ""
    requires m in WsOf(FullPlan(s, t, p, env))
    requires m.Good? ==> Gateway.Receives(Gateway.Run(subject, parse, Gateway.Live(map[], {}), events), conn,
                                          PublicationOf(m.msg))
    ensures var live := Gateway.Run(subject, parse, Gateway.Live(map[], {}), events);
            && m.Good? && conn in live.users
            && var u := live.users[conn];
            && m == Good(UserMessage(Filled(t, p, env), u))
            && (!IsTransient(p.identity) && u in Filled(t, p, env).persisted ==>
                  exists row :: && row in T.Get(StoreAfter(t, p, env), u) && row.userID == u
                                && "id" in m.msg.payload && m.msg.payload["id"] == Str(row.id))
  {
    hide Plan, WsOf, PushOf, InAppUsers, UserPayload, PersistTable, PersistMap, CountMap, Gateway.Run, PublicationOf;
    var q := Filled(t, p, env);
    ExactFanout(s, t, p, env);
    var users := InAppUsers(s, q, env);
    var i :| 0 <= i < |UserMessages(q, users)| && UserMessages(q, users)[i] == m;
    var u := users[i];
    Gateway.PrivateDelivery(subject, parse, events, m.msg, conn, u);
    if !IsTransient(p.identity) && u in q.persisted {
      MessageNamesOwnRow(s, t, p, env, u);
      var k: nat :| LastStored(p, env, |p.userIDs|, u, k) && RowFor(p, env, k) in T.Get(StoreAfter(t, p, env), u)
                    && RowFor(p, env, k).id == m.msg.payload["id"].s && RowFor(p, env, k).userID == u;
    }
  }

  // ----- the number a client shows

  predicate Numbers(pub: Publication, u: string) {
    pub.channel == NotiChannel(u) && "unread_count" in pub.payload && pub.payload["unread_count"].Int?
  }

  /** The newest number published on u's channel; before the first, what the client had. */
  function OnScreen(pubs: seq<Publication>, u: string, start: int): int {
    if pubs == [] then start
    else
      var last := pubs[|pubs| - 1];
      if Numbers(last, u) then last.payload["unread_count"].n else OnScreen(pubs[..|pubs| - 1], u, start)
  }

  lemma OnScreenStep(pubs: seq<Publication>, pub: Publication, u: string, start: int)
    ensures OnScreen(pubs + [pub], u, start) ==
            if Numbers(pub, u) then pub.payload["unread_count"].n else OnScreen(pubs, u, start)
  {
    assert (pubs + [pub])[..|pubs|] == pubs;
  }

  /** A publication carries u's number exactly when its message does. */
  lemma NumbersCarried(m: WSMessage, u: string)
    ensures Numbers(PublicationOf(m), u) <==> Badges.Carries(Good(m), u)
  {
    UserAddress(u);
    assert ChannelFromRoomID(m.roomID)[5..] == m.roomID && ChannelFromRoomID(UserRoom(u))[5..] == UserRoom(u);
  }

  lemma {:induction false} ScreenOfHandled(items: seq<Item<WSMessage>>, u: string, start: int)
    ensures OnScreen(PublicationsOf(items), u, start) == Badges.Shown(items, u, start)
  {
    hide Numbers, PublicationOf, OnScreen, Badges.Carries;
    if items == [] {
      ScreenStart(u, start);
    } else {
      var init, last := items[..|items| - 1], items[|items| - 1];
      ScreenOfHandled(init, u, start);
      if last.Good? {
        OnScreenStep(PublicationsOf(init), PublicationOf(last.msg), u, start);
        NumbersCarried(last.msg, u);
        SamePayload(last.msg);
      } else {
        MalformedCarriesNothing(last, u);
        assert PublicationsOf(items) == PublicationsOf(init);
      }
    }
  }

  lemma ScreenStart(u: string, start: int)
    ensures OnScreen([], u, start) == start
  {
  }

  lemma SamePayload(m: WSMessage)
    ensures PublicationOf(m).payload == m.payload
  {
  }

  lemma MalformedCarriesNothing(m: Item<WSMessage>, u: string)
    requires m.Malformed?
    ensures !Badges.Carries(m, u)
  {
  }

  /** With one worker and no failed publish, a client of u shows the number of the newest
      handled message; once the queue is drained, that of the newest message ever enqueued. */
  lemma NewestNumber(turns: seq<Turn>, n: nat, u: string, start: int)
    requires n <= |turns| && NoneFails(turns, n)
    ensures var y := TurnsOf(IDLE, turns, n);
            && OnScreen(y.published, u, start) == Badges.Shown(y.handled, u, start)
            && y.handled <= Arrived(turns, n)
            && (y.waiting == [] ==> OnScreen(y.published, u, start) == Badges.Shown(Arrived(turns, n), u, start))
  {
    hide TurnsOf, Arrived, Badges.Shown, OnScreen, PublicationsOf, Accounted;
    var y := TurnsOf(IDLE, turns, n);
    IdleMatches();
    PublishedInOrder(IDLE, turns, n);
    ScreenOfHandled(y.handled, u, start);
    OneWorkerConserves(IDLE, turns, n);
    assert IDLE.handled + IDLE.waiting + Arrived(turns, n) == Arrived(turns, n);
    assert y.handled + [] == y.handled;
  }

  /** From the store to the screen: after any fault-free run of events and API calls, none
      of them silent for u, drained by one worker without a failed publish, u's clients
      show what the store counts. */
  lemma ScreenMatchesStore(t: T.Table, ops: seq<Badges.Op>, u: string, turns: seq<Turn>, n: nat)
    requires T.WellFormed(t) && Badges.ProperRun(Badges.System(t, []), ops)
    requires Badges.NeverSilent(Badges.System(t, []), ops, u)
    requires n <= |turns| && NoneFails(turns, n) && TurnsOf(IDLE, turns, n).waiting == []
    requires Arrived(turns, n) == Badges.Run(Badges.System(t, []), ops).log
    ensures OnScreen(TurnsOf(IDLE, turns, n).published, u, T.CountUnread(t, u))
            == T.CountUnread(Badges.Run(Badges.System(t, []), ops).table, u)
  {
    hide T.WellFormed, TurnsOf, Arrived, Badges.ProperRun, Badges.NeverSilent, Badges.Run, OnScreen, T.CountUnread;
    var x := Badges.System(t, []);
    Badges.RightUnlessSilent(x, ops, u, T.CountUnread(t, u));
    NewestNumber(turns, n, u, T.CountUnread(t, u));
  }

  /** With two workers it can fail: two messages for u handled at once may be published the
      wrong way round, and the client keeps the older number. */
  lemma TwoWorkersStale(a: WSMessage, b: WSMessage, u: string, start: int)
    requires Badges.Carries(Good(a), u) && Badges.Carries(Good(b), u)
    ensures var x := Acts(EMPTY, [Enqueue(Good(a)), Enqueue(Good(b)), Pop(0), Pop(1), Finish(1, false), Finish(0, false)]);
            && Drained(x) && x.failed == 0
            && Badges.Shown(x.log, u, start) == Badges.Number(Good(b))
            && OnScreen(Said(x), u, start) == Badges.Number(Good(a))
  {
    hide Acts, Badges.Carries, Numbers, PublicationOf, OnScreen, Badges.Shown, Said;
    TwoWorkersReorder(a, b);
    assert [Good(a)] + [Good(b)] == [Good(a), Good(b)];
    Badges.ShownOne([Good(a)], Good(b), u, start);
    assert [PublicationOf(b)] + [PublicationOf(a)] == [PublicationOf(b), PublicationOf(a)];
    OnScreenStep([PublicationOf(b)], PublicationOf(a), u, start);
    NumbersCarried(a, u);
    SamePayload(a);
  }

  /** The same when producers and the one worker interleave in any way. */
  lemma ScreenMatchesStoreAnyRun(t: T.Table, ops: seq<Badges.Op>, u: string, actions: seq<Action>)
    requires T.WellFormed(t) && Badges.ProperRun(Badges.System(t, []), ops)
    requires Badges.NeverSilent(Badges.System(t, []), ops, u)
    requires PopsBelow(actions, 1) && NoneDropped(actions) && Drained(Acts(EMPTY, actions))
    requires Acts(EMPTY, actions).log == Badges.Run(Badges.System(t, []), ops).log
    ensures OnScreen(Said(Acts(EMPTY, actions)), u, T.CountUnread(t, u))
            == T.CountUnread(Badges.Run(Badges.System(t, []), ops).table, u)
  {
    hide T.WellFormed, Acts, Said, Badges.ProperRun, Badges.NeverSilent, Badges.Run, OnScreen, T.CountUnread;
    Badges.RightUnlessSilent(Badges.System(t, []), ops, u, T.CountUnread(t, u));
    OneWorkerWins(actions, u, T.CountUnread(t, u));
  }

  /** A message that sets u's number. */
  function Telling(u: string, number: int): WSMessage {
    WSMessage(UserRoom(u), EVENT_READ, map["unread_count" := Int(number)])
  }

  /** The newest number stays on screen in every drained run without a failed publish. */
  ghost predicate NewestWins(n: nat, u: string, start: int) {
    forall actions :: PopsBelow(actions, n) && NoneDropped(actions) && Drained(Acts(EMPTY, actions)) ==>
      var x := Acts(EMPTY, actions);
      OnScreen(Said(x), u, start) == Badges.Shown(x.log, u, start)
  }

  lemma OneWorkerWins(actions: seq<Action>, u: string, start: int)
    requires PopsBelow(actions, 1) && NoneDropped(actions)
    ensures var x := Acts(EMPTY, actions);
            && 0 <= Finished(x) <= |x.log|
            && OnScreen(Said(x), u, start) == Badges.Shown(x.log[..Finished(x)], u, start)
            && (Drained(x) ==> OnScreen(Said(x), u, start) == Badges.Shown(x.log, u, start))
  {
    hide Acts, Said, OnScreen, Badges.Shown, PublicationsOf;
    var x := Acts(EMPTY, actions);
    OneWorkerInOrder(actions);
    ScreenOfHandled(x.log[..Finished(x)], u, start);
    assert x.log[..|x.log|] == x.log;
  }

  lemma TwoWorkersLose(u: string, start: int)
    ensures !NewestWins(2, u, start)
  {
    hide Acts, Said, OnScreen, Badges.Shown;
    var a, b := Telling(u, 1), Telling(u, 2);
    var actions := [Enqueue(Good(a)), Enqueue(Good(b)), Pop(0), Pop(1), Finish(1, false), Finish(0, false)];
    TwoWorkersStale(a, b, u, start);
    assert PopsBelow(actions, 2) && NoneDropped(actions);
  }

  /** However many messages there are and however producers and workers interleave: a
      drained queue leaves the newest number on screen in every run exactly when at most one
      worker takes messages. */
  lemma NewestWinsIff(n: nat, u: string, start: int)
    ensures NewestWins(n, u, start) <==> n <= 1
  {
    hide Acts, Said, OnScreen, Badges.Shown;
    if n <= 1 {
      forall actions | PopsBelow(actions, n) && NoneDropped(actions) && Drained(Acts(EMPTY, actions))
        ensures OnScreen(Said(Acts(EMPTY, actions)), u, start) == Badges.Shown(Acts(EMPTY, actions).log, u, start)
      {
        OneWorkerWins(actions, u, start);
      }
    } else {
      TwoWorkersLose(u, start);
      var actions :| && PopsBelow(actions, 2) && NoneDropped(actions) && Drained(Acts(EMPTY, actions))
                     && OnScreen(Said(Acts(EMPTY, actions)), u, start) != Badges.Shown(Acts(EMPTY, actions).log, u, start);
      assert PopsBelow(actions, n);
    }
  }

  // ----- inputs that show a failure

  /** A complete progress event about one video for one user, carrying a number. */
  function Progress1(u: string, number: int): Contract.Event {
    Contract.Event(VIDEO_PROGRESS, EventObject("worker", "service", map[]),
                   [EventObject("v1", "video", map["audience_ids" := StrList([u]), "unread_count" := Int(number)])],
                   None)
  }

  /** The producer's number reaches the badge: the event is valid, it stores nothing, and
      afterwards u's devices show whatever number it carried. */
  lemma ProducerSetsBadge(x: Badges.System, subs: Option<Rows>, env: Env, u: string, number: int, start: int)
    requires T.WellFormed(x.table) && Badges.FaultFree(env)
    requires Services.FreshIDs(x.table, Lingocasts.ParamsOf(Progress1(u, number)), env)
    ensures var e := Progress1(u, number);
            var op := Badges.Event(Service(None, subs, BOTH), Lingocasts.ParamsOf(e), env);
            var y := Badges.Step(x, op);
            && Validate(e) == None && Recipients(e) == [u] && Badges.Proper(x.table, op)
            && y.table == x.table && Badges.Shown(y.log, u, start) == number
            && (Badges.Right(y, u, start) <==> number == T.CountUnread(x.table, u))
  {
    hide T.WellFormed, Badges.Shown, T.CountUnread, FullPlan, WsOf, Services.FreshIDs;
    var e := Progress1(u, number);
    var p := Lingocasts.ParamsOf(e);
    var s := Service(None, subs, BOTH);
    var op := Badges.Event(s, p, env);
    ValidEvents(e);
    assert p.userIDs == [u] && u in InAppUsers(s, p, env);
    assert p.extra["unread_count"] == Int(number);
    Badges.EventShown(x, op, u, start);
    Badges.EchoExact(x, op, u, start);
  }

  /** Firebase answers both copies with the same passing error. */
  function TwoFailures(reason: string): PushDelivery.Multicast {
    PushDelivery.Multicast(0, [PushDelivery.OtherError(reason), PushDelivery.OtherError(reason)])
  }

  lemma OneDevice(u: string, token: string)
    requires token != ""
    ensures Usable(Matching([Subscriber(u, token, "ios")], u)) == [token]
  {
    hide Matching, Usable;
    var row := Subscriber(u, token, "ios");
    MatchingOne(row);
    UsableOne(row);
  }

  /** The push stage of a streak warning to a user listed twice. */
  lemma TwiceStage(s: Service, q: Params, env: Env, u: string, token: string)
    requires s == Service(None, Some([Subscriber(u, token, "ios")]), BOTH) && token != ""
    requires q.identity == STREAK_AT_RISK && q.userIDs == [u, u] && !env.subsFails(0, 0) && !env.subsFails(0, 1)
    ensures PUSH in ChannelsOf(q.identity)
    ensures var e := PushStage(s, q, env);
            e.userIDs == [u, u] && TokensOf(e.tokens, u) == [token, token] && WithTokens(e) == [u, u]
  {
    hide Usable, Matching, TokenMap;
    assert ChannelsOf(STREAK_AT_RISK) == [PUSH];
    OneDevice(u, token);
    TwiceListed(s.subs.value, u, token, env, 0);
    var e := PushStage(s, q, env);
    assert e.userIDs == [u, u] && TokensOf(e.tokens, u) == [token, token];
    assert Pick(e.userIDs, TokenKeeps(e), 1) == [u];
  }

  /** Where the three counts of a delivery do not add up: a user listed twice with one
      device gets two jobs with its token twice in each, and when both copies fail for a
      passing reason the counts say one of two. */
  lemma TwiceListedFails(u: string, token: string, reason: string, t: T.Table, p: Params, env: Env)
    requires p.identity == STREAK_AT_RISK && p.userIDs == [u, u] && token != ""
    requires !env.subsFails(0, 0) && !env.subsFails(0, 1)
    ensures var s := Service(None, Some([Subscriber(u, token, "ios")]), BOTH);
            var jobs := PushOf(FullPlan(s, t, p, env));
            && |jobs| == 2 && jobs[0] == jobs[1] && jobs[0].Good?
            && jobs[0].msg.userID == u && jobs[0].msg.deviceTokens == [token, token]
            && var r := PushDelivery.Outcome(jobs[0].msg, Some(TwoFailures(reason)));
               r.sent + |r.unregistered| + |r.failed| == 1
  {
    hide Plan, WsOf, PushOf, InAppUsers, PushStage, WithTokens, TokensOf, ChannelsOf, PersistMap, CountMap, PushDelivery.Classified;
    var s := Service(None, Some([Subscriber(u, token, "ios")]), BOTH);
    var q := Filled(t, p, env);
    ExactFanout(s, t, p, env);
    TwiceStage(s, q, env, u, token);
    PushDelivery.TwiceFailed(token, reason);
  }
}
