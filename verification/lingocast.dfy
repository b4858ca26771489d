/** The handler shared by the lingocast identities, and when an event becomes a broadcast:
    internal/handlers/lingocast.go. */
module Lingocasts {

  import opened Wrappers
  import opened Contract
  import opened Queues
  import opened Channels
  import opened Fanout
  import opened Services
  import opened FanoutTheorems
  import opened Audiences
  import opened MemoryStore
  import T = Tables

  function SharedChannel(identity: string, o: EventObject): string {
    if identity != CHALLENGE_LEADERBOARD then "" else o.id
  }

  /** What the handler hands to Process. */
  function ParamsOf(e: Event): Params
    requires e.objects != []
  {
    var o := e.objects[0];
    Params(e.identity, GetStr(o.data, "title"), GetStr(o.data, "body"), GetStr(o.data, "link"),
           o.data["object_id" := Str(o.id)]["object_type" := Str(o.kind)],
           Recipients(e), SharedChannel(e.identity, o), map[], map[], map[])
  }

  /** Copies the producer's fields into a new map and names the object there. */
  method MakeExtra(o: EventObject) returns (extra: FieldMap)
    ensures fresh(extra) && extra.fields == o.data["object_id" := Str(o.id)]["object_type" := Str(o.kind)]
  {
    extra := new FieldMap();
    extra.PutAll(o.data);
    assert extra.fields == o.data;
    extra.Put("object_id", Str(o.id));
    extra.Put("object_type", Str(o.kind));
  }

  /** What reaches the service of an event: the first object's own title, body and link, its
      fields with its id and type put in under fixed names, the recipients as addressed, and a
      shared channel for a leaderboard only. Nothing is filled in yet. */
  lemma ParamsSay(e: Event, k: string)
    requires e.objects != []
    ensures var p, o := ParamsOf(e), e.objects[0];
            && p.identity == e.identity
            && p.title == (if "title" in o.data && o.data["title"].Str? then o.data["title"].s else "")
            && p.body == (if "body" in o.data && o.data["body"].Str? then o.data["body"].s else "")
            && p.link == (if "link" in o.data && o.data["link"].Str? then o.data["link"].s else "")
            && "object_id" in p.extra && p.extra["object_id"] == Str(o.id)
            && "object_type" in p.extra && p.extra["object_type"] == Str(o.kind)
            && (k != "object_id" && k != "object_type" ==>
                  (k in p.extra <==> k in o.data) && (k in p.extra ==> p.extra[k] == o.data[k]))
            && p.userIDs == Recipients(e) && (forall u :: u in p.userIDs <==> Addressed(e, u))
            && p.channel == (if e.identity == "challenge_leaderboard" then o.id else "")
            && p.persisted == map[] && p.unread == map[] && p.tokens == map[]
  {
    hide Recipients, Addressed;
    forall u ensures u in Recipients(e) <==> Addressed(e, u) {
      RecipientsExact(e, u);
    }
  }

  method Lingocast(svc: NotificationService, e: Event, env: Env) returns (err: bool)
    requires svc.store.Valid()
    requires e.objects != [] && !IsTransient(e.identity) ==> FreshIDs(svc.store.Contents, ParamsOf(e), env)
    modifies svc.store, svc.ws, svc.push
    ensures svc.store.Valid()
    ensures e.objects == [] || (forall u :: !Addressed(e, u)) ==>
              !err && svc.store.Contents == old(svc.store.Contents) && svc.Waiting() == old(svc.Waiting())
    ensures if e.objects == [] || Recipients(e) == [] then
              !err && svc.store.Contents == old(svc.store.Contents) && svc.Waiting() == old(svc.Waiting())
            else
              var p := ParamsOf(e);
              var plan := FullPlan(svc.Setup(), old(svc.store.Contents), p, env);
              var sent := Reach(0, |plan|, env.enqueueFails);
              && err == (sent < |plan|)
              && svc.store.Contents == StoreAfter(old(svc.store.Contents), p, env)
              && svc.ws.Fifo() == old(svc.ws.Fifo()) + WsOf(plan[..sent])
              && svc.push.Fifo() == old(svc.push.Fifo()) + PushOf(plan[..sent])
  {
    hide TwoIndexes, Shown, FullPlan, WsOf, PushOf, Reach, StoreAfter;
    NobodyAddressed(e);
    if |e.objects| == 0 {
      return false;
    }
    var o := e.objects[0];
    var recipients := Recipients(e);
    if |recipients| == 0 {
      return false;
    }
    var extra := MakeExtra(o);
    var filled;
    ghost var payloads;
    err, filled, payloads := svc.Process(Params(e.identity, GetStr(o.data, "title"), GetStr(o.data, "body"), GetStr(o.data, "link"),
                                      extra.fields, recipients, SharedChannel(e.identity, o), map[], map[], map[]),
                                         extra, env);
  }

  /** A validated leaderboard event comes to one message on its challenge's channel if at
      least one recipient passes the in-app gate, and to nothing otherwise: no personal
      message, no push, no stored row, however many recipients. */
  lemma BroadcastCollapse(s: Service, t: T.Table, e: Event, env: Env)
    requires s.dispatchers == BOTH && Validate(e).None? && e.identity == CHALLENGE_LEADERBOARD
    ensures var p := ParamsOf(e);
            var plan := FullPlan(s, t, p, env);
            && StoreAfter(t, p, env) == t
            && PushOf(plan) == []
            && WsOf(plan) == (if InAppUsers(s, p, env) == [] then [] else [Good(Broadcast(p))])
            && ChannelFromRoomID(Broadcast(p).roomID) == ChallengeChannel(e.objects[0].id)
            && ParseNotiChannel(ChannelFromRoomID(Broadcast(p).roomID)) == Some((KIND_CHALLENGE, e.objects[0].id))
  {
    hide Plan, WsOf, PushOf, InAppUsers, Recipients;
    ValidEvents(e);
    assert Complete(e.objects[0]);
    ExactFanout(s, t, ParamsOf(e), env);
    ChallengeAddress(e.objects[0].id);
    assert ChannelsOf(CHALLENGE_LEADERBOARD) == [IN_APP];
  }

  /** Every other identity goes to each recipient personally: every in-app message is
      addressed to the room of a recipient past the gate. */
  lemma OthersArePersonal(s: Service, t: T.Table, e: Event, env: Env, m: Item<WSMessage>)
    requires s.dispatchers == BOTH && e.objects != [] && e.identity != CHALLENGE_LEADERBOARD
    requires m in WsOf(FullPlan(s, t, ParamsOf(e), env))
    ensures m.Good? && exists u :: && u in InAppUsers(s, Filled(t, ParamsOf(e), env), env)
                                   && m == Good(UserMessage(Filled(t, ParamsOf(e), env), u))
                                   && m.msg.roomID == UserRoom(u)
  {
    hide Plan, WsOf, PushOf, InAppUsers, Recipients, UserPayload, Filled;
    var p := ParamsOf(e);
    ExactFanout(s, t, p, env);
    var q := Filled(t, p, env);
    var users := InAppUsers(s, q, env);
    var i :| 0 <= i < |UserMessages(q, users)| && UserMessages(q, users)[i] == m;
    assert users[i] in users && m == Good(UserMessage(q, users[i]));
  }

  /** An event addressed to exactly one user is that user's affair: every new row, personal
      message and push job is. */
  lemma OneAddressee(s: Service, t: T.Table, e: Event, env: Env, v: string)
    requires s.dispatchers == BOTH && e.objects != [] && forall u :: Addressed(e, u) <==> u == v
    ensures forall u :: u != v ==> T.Get(StoreAfter(t, ParamsOf(e), env), u) == T.Get(t, u)
    ensures e.identity != "challenge_leaderboard" ==>
              forall m :: m in WsOf(FullPlan(s, t, ParamsOf(e), env)) ==> m.Good? && m.msg.roomID == "user:" + v
    ensures forall job :: job in PushOf(FullPlan(s, t, ParamsOf(e), env)) ==> job.Good? && job.msg.userID == v
  {
    hide FullPlan, WsOf, PushOf, StoreAfter, Addressed, ParamsOf, Filled;
    var p := ParamsOf(e);
    ParamsSay(e, "");
    forall u | u != v ensures T.Get(StoreAfter(t, p, env), u) == T.Get(t, u) {
      NotListed(t, p, env, u);
    }
    forall m | e.identity != "challenge_leaderboard" && m in WsOf(FullPlan(s, t, p, env))
      ensures m.Good? && m.msg.roomID == "user:" + v
    {
      MessageSays(s, t, p, env, m);
    }
    forall job | job in PushOf(FullPlan(s, t, p, env)) ensures job.Good? && job.msg.userID == v {
      JobSays(s, t, p, env, job, "");
    }
  }

  /** Storing leaves a user who is not listed alone. */
  lemma NotListed(t: T.Table, p: Params, env: Env, u: string)
    requires u !in p.userIDs
    ensures T.Get(StoreAfter(t, p, env), u) == T.Get(t, u)
  {
    hide PersistTable, Created;
    NoneCreated(p, env, |p.userIDs|, u);
    PersistAppends(t, p, env, |p.userIDs|, u);
  }

  lemma {:induction false} NoneCreated(p: Params, env: Env, n: nat, u: string)
    requires u !in p.userIDs && n <= |p.userIDs|
    ensures Created(p, env, n, u) == 0
    decreases n
  {
    if n > 0 {
      NoneCreated(p, env, n - 1, u);
    }
  }
}
