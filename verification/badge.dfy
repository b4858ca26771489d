/** The unread number a user's devices show against the number the store holds, over whole
    fault-free runs of events and API calls. */
module Badges {

  import opened Wrappers
  import opened Contract
  import opened Queues
  import opened Channels
  import opened Fanout
  import opened Services
  import opened FanoutTheorems
  import opened Api
  import opened MemoryStore
  import T = Tables

  /** The store, and every message ever put on the in-app queue, oldest first. */
  datatype System = System(table: T.Table, log: seq<Item<WSMessage>>)

  datatype Op =
    | Event(s: Service, p: Params, env: Env)
    | ReadOne(u: string, id: string)
    | ReadAll(u: string)
    | Remove(u: string, id: string)

  ghost predicate FaultFree(env: Env) {
    && (forall i :: !env.createFails(i))
    && (forall i :: !env.countFails(i))
    && (forall i :: !env.enqueueFails(i))
  }

  /** An event as handlers build it: nothing filled in yet, fresh IDs. */
  ghost predicate Proper(t: T.Table, op: Op) {
    op.Event? ==>
      && op.s.dispatchers == BOTH
      && FaultFree(op.env)
      && op.p.persisted == map[] && op.p.unread == map[]
      && FreshIDs(t, op.p, op.env)
  }

  /** What the operations of service.dfy and api.dfy leave when no call fails; Perform, below,
      is proved to do exactly this. */
  function Step(x: System, op: Op): System {
    match op
    case Event(s, p, env) => System(StoreAfter(x.table, p, env), x.log + WsOf(FullPlan(s, x.table, p, env)))
    case ReadOne(u, id) =>
      if T.Owns(x.table, u, id) then
        var t := T.MarkRead(x.table, u, id);
        System(t, x.log + [Good(ReadMessage(u, id, T.CountUnread(t, u)))])
      else x
    case ReadAll(u) => System(T.MarkAllRead(x.table, u), x.log + [Good(ReadAllMessage(u))])
    case Remove(u, id) => x.(table := T.Delete(x.table, u, id))
  }

  /** When no enqueue fails, everything planned is sent. */
  lemma NothingFails(n: nat, env: Env)
    requires FaultFree(env)
    ensures Reach(0, n, env.enqueueFails) == n
  {
    ReachIs(0, n, env.enqueueFails, n);
  }

  /** One operation on the service objects, with read sync on the queue the dispatchers use
      and no failing call: the store and the queue change as Step says. */
  method Perform(svc: NotificationService, api: NotificationHandler, extra: FieldMap, op: Op, ghost x: System)
    returns (ghost sent: seq<Item<WSMessage>>)
    requires api.store == svc.store && api.readSync != null && api.readSync.ws == svc.ws
    requires svc.store.Valid() && x.table == svc.store.Contents && Proper(x.table, op)
    requires op.Event? ==> op.s == svc.Setup() && extra.fields == op.p.extra
    requires (op.ReadOne? || op.ReadAll? || op.Remove?) ==> op.u != ""
    requires (op.ReadOne? || op.Remove?) ==> op.id != ""
    modifies svc.store, svc.store.Objects`read, svc.ws, svc.push
    ensures svc.store.Valid() && svc.ws.Fifo() == old(svc.ws.Fifo()) + sent
    ensures Step(x, op) == System(svc.store.Contents, x.log + sent)
  {
    hide TwoIndexes, Shown, FullPlan, WsOf, PushOf, StoreAfter, Filled, FreshIDs, BuiltFor, T.MarkRead, T.MarkAllRead,
         T.Delete, T.Owns, T.CountUnread;
    match op {
      case Event(s, p, env) =>
        ghost var plan := FullPlan(s, x.table, p, env);
        var err, filled;
        ghost var payloads;
        err, filled, payloads := svc.Process(p, extra, env);
        NothingFails(|plan|, env);
        assert plan[..|plan|] == plan;
        sent := WsOf(plan);
      case ReadOne(u, id) =>
        var r := api.MarkRead(u, id, Faults(false, false, false));
        sent := if r == NoContent then [Good(ReadMessage(u, id, T.CountUnread(svc.store.Contents, u)))] else [];
      case ReadAll(u) =>
        var r := api.MarkAllRead(u, u, Faults(false, false, false));
        sent := [Good(ReadAllMessage(u))];
      case Remove(u, id) =>
        var r := api.Delete(u, id, Faults(false, false, false));
        if r == NotFound {
          T.DeleteAbsent(x.table, u, id);
        }
        sent := [];
    }
  }

  predicate Carries(m: Item<WSMessage>, u: string) {
    && m.Good? && m.msg.roomID == UserRoom(u)
    && "unread_count" in m.msg.payload && m.msg.payload["unread_count"].Int?
  }

  function Number(m: Item<WSMessage>): int
    requires m.Good? && "unread_count" in m.msg.payload && m.msg.payload["unread_count"].Int?
  {
    m.msg.payload["unread_count"].n
  }

  /** The newest number sent to u; before the first one, what the device started with. */
  function Shown(log: seq<Item<WSMessage>>, u: string, start: int): int {
    if log == [] then start
    else
      var last := log[|log| - 1];
      if Carries(last, u) then Number(last) else Shown(log[..|log| - 1], u, start)
  }

  /** Whether an event sends u its new number. */
  predicate Tells(p: Params, s: Service, env: Env, u: string) {
    !IsTransient(p.identity) && p.channel == "" && u in InAppUsers(s, p, env)
  }

  /** Whether a live update, which has no count of its own, passes on a number its producer
      put among the extra fields. */
  predicate Echoes(p: Params, s: Service, env: Env, u: string) {
    && IsTransient(p.identity) && p.channel == "" && u in InAppUsers(s, p, env)
    && "unread_count" in p.extra && p.extra["unread_count"].Int?
  }

  /** How far the store is ahead of the device: an event that stores a row for u without
      telling u adds to it, deleting an unread row takes from it, every message with the
      store's own number settles it, and an echoed number sets it to whatever is missing. */
  function Drift(x: System, op: Op, u: string, d: int): int {
    match op
    case Event(s, p, env) =>
      if Echoes(p, s, env, u) then T.CountUnread(x.table, u) - p.extra["unread_count"].n
      else if IsTransient(p.identity) then d
      else if Tells(p, s, env, u) then 0
      else d + Created(p, env, |p.userIDs|, u)
    case ReadOne(v, id) => if v == u && T.Owns(x.table, v, id) then 0 else d
    case ReadAll(v) => if v == u then 0 else d
    case Remove(v, id) => if v == u && T.OwnsUnread(x.table, v, id) then d - 1 else d
  }

  lemma ShownOne(log: seq<Item<WSMessage>>, m: Item<WSMessage>, u: string, start: int)
    ensures Shown(log + [m], u, start) == if Carries(m, u) then Number(m) else Shown(log, u, start)
  {
    assert (log + [m])[..|log|] == log;
  }

  /** The number in a recipient's message: the one counted for it, else one among the extra
      fields, else none. */
  function NumberFor(q: Params, v: string): Option<int> {
    if v in q.unread then Some(q.unread[v] as int)
    else if "unread_count" in q.extra && q.extra["unread_count"].Int? then Some(q.extra["unread_count"].n)
    else None
  }

  lemma MessageCarries(q: Params, v: string, u: string)
    ensures Carries(Good(UserMessage(q, v)), u) <==> v == u && NumberFor(q, u).Some?
    ensures Carries(Good(UserMessage(q, v)), u) ==> Number(Good(UserMessage(q, v))) == NumberFor(q, u).value
  {
    AddressesDistinct(u, v);
  }

  lemma {:induction false} ShownMessages(log: seq<Item<WSMessage>>, q: Params, users: seq<string>, u: string, start: int)
    ensures Shown(log + UserMessages(q, users), u, start) ==
            if u in users && NumberFor(q, u).Some? then NumberFor(q, u).value else Shown(log, u, start)
    decreases |users|
  {
    hide UserMessages, Carries, UserMessage, Number, NumberFor;
    if users == [] {
      UserMessagesNone(q);
      assert log + [] == log;
    } else {
      var init, v := users[..|users| - 1], users[|users| - 1];
      assert users == init + [v];
      UserMessagesStep(q, init, v);
      ShownMessages(log, q, init, u, start);
      ShownOne(log + UserMessages(q, init), Good(UserMessage(q, v)), u, start);
      MessageCarries(q, v, u);
      assert log + UserMessages(q, users) == log + UserMessages(q, init) + [Good(UserMessage(q, v))];
    }
  }

  lemma BroadcastCarriesNothing(q: Params, u: string)
    ensures !Carries(Good(Broadcast(q)), u)
  {
    AddressesDistinct(u, q.channel);
  }

  lemma {:induction false} CreatedNone(p: Params, env: Env, n: nat, u: string)
    requires n <= |p.userIDs| && FaultFree(env)
    ensures u in p.userIDs[..n] <==> Created(p, env, n, u) > 0
    decreases n
  {
    if n > 0 {
      CreatedNone(p, env, n - 1, u);
      assert p.userIDs[..n] == p.userIDs[..n - 1] + [p.userIDs[n - 1]];
    }
  }

  /** Who is told does not depend on what Process filled in. */
  lemma SameGate(s: Service, t: T.Table, p: Params, env: Env)
    ensures InAppUsers(s, Filled(t, p, env), env) == InAppUsers(s, p, env)
  {
    FilledSame(t, p, env);
    SameAudience(s, p, Filled(t, p, env), env, env);
  }

  /** An in-app recipient is a recipient. */
  lemma ToldIsRecipient(s: Service, p: Params, env: Env, u: string)
    requires u in InAppUsers(s, p, env)
    ensures exists i: nat :: i < |p.userIDs| && p.userIDs[i] == u
  {
    if s.prefs.Some? {
      KeptIsPick(s.prefs.value, p, IN_APP, env, 0, |p.userIDs|);
      PickMembers(p.userIDs, GateKeeps(s.prefs.value, p, IN_APP, env, 0), |p.userIDs|, u);
    }
  }

  lemma EventShown(x: System, op: Op, u: string, start: int)
    requires op.Event? && Proper(x.table, op)
    ensures var y := Step(x, op);
            Shown(y.log, u, start) ==
              if Tells(op.p, op.s, op.env, u) then T.CountUnread(y.table, u)
              else if Echoes(op.p, op.s, op.env, u) then op.p.extra["unread_count"].n
              else Shown(x.log, u, start)
  {
    hide Plan, WsOf, PushOf, InAppUsers, UserMessages, Broadcast, PersistTable, PersistMap, Carries, T.CountUnread;
    var s, p, env := op.s, op.p, op.env;
    var q := Filled(x.table, p, env);
    ExactFanout(s, x.table, p, env);
    SameGate(s, x.table, p, env);
    var users := InAppUsers(s, q, env);
    if users == [] {
      assert x.log + [] == x.log;
    } else if p.channel != "" {
      BroadcastCarriesNothing(q, u);
      ShownOne(x.log, Good(Broadcast(q)), u, start);
    } else {
      ShownMessages(x.log, q, users, u, start);
      if !IsTransient(p.identity) {
        CountsExact(StoreAfter(x.table, p, env), p.userIDs, env, |p.userIDs|, u);
        if u in users {
          ToldIsRecipient(s, p, env, u);
        }
      }
    }
  }

  lemma {:induction false} PersistKeeps(t: T.Table, p: Params, env: Env, n: nat)
    requires T.WellFormed(t) && FreshIDs(t, p, env) && n <= |p.userIDs|
    ensures T.WellFormed(PersistTable(t, p, env, n))
    decreases n
  {
    if n > 0 {
      PersistKeeps(t, p, env, n - 1);
      StillFresh(t, p, env, n - 1);
      T.CreateKeeps(PersistTable(t, p, env, n - 1), RowFor(p, env, n - 1));
    }
  }

  /** One operation: the store is ahead of u's device by the drift, before and after. */
  lemma DriftStep(x: System, op: Op, u: string, start: int, d: int)
    requires T.WellFormed(x.table) && Proper(x.table, op)
    requires T.CountUnread(x.table, u) == Shown(x.log, u, start) + d
    ensures var y := Step(x, op);
            T.WellFormed(y.table) && T.CountUnread(y.table, u) == Shown(y.log, u, start) + Drift(x, op, u, d)
  {
    hide T.WellFormed, T.Owns, T.OwnsUnread, Shown, T.CountUnread, FullPlan, PersistTable, Created, Tells, InAppUsers, FreshIDs;
    match op
    case Event(s, p, env) =>
      EventShown(x, op, u, start);
      TransientTellsNobody(p, s, env, u);
      if !IsTransient(p.identity) {
        PersistKeeps(x.table, p, env, |p.userIDs|);
        PersistRaisesUnread(x.table, p, env, |p.userIDs|, u);
      }
    case ReadOne(v, id) =>
      if T.Owns(x.table, v, id) {
        T.ApplyKeeps(x.table, T.OpMarkRead(v, id));
        T.EntryExact(x.table, T.OpMarkRead(v, id), u);
        ReadCarries(v, id, T.CountUnread(T.MarkRead(x.table, v, id), v), u);
        ShownOne(x.log, Good(ReadMessage(v, id, T.CountUnread(T.MarkRead(x.table, v, id), v))), u, start);
      }
    case ReadAll(v) =>
      T.ApplyKeeps(x.table, T.OpMarkAllRead(v));
      T.EntryExact(x.table, T.OpMarkAllRead(v), u);
      ReadCarries(v, "", 0, u);
      ShownOne(x.log, Good(ReadAllMessage(v)), u, start);
    case Remove(v, id) =>
      T.ApplyKeeps(x.table, T.OpDelete(v, id));
      T.EntryExact(x.table, T.OpDelete(v, id), u);
  }

  lemma TransientTellsNobody(p: Params, s: Service, env: Env, u: string)
    ensures IsTransient(p.identity) ==> !Tells(p, s, env, u)
    ensures Echoes(p, s, env, u) ==> IsTransient(p.identity)
  {
  }

  lemma ReadCarries(v: string, id: string, n: nat, u: string)
    ensures Carries(Good(ReadMessage(v, id, n)), u) <==> v == u
    ensures Carries(Good(ReadAllMessage(v)), u) <==> v == u
    ensures Number(Good(ReadMessage(v, id, n))) == n && Number(Good(ReadAllMessage(v))) == 0
  {
    AddressesDistinct(u, v);
  }

  // ----- runs

  function Run(x: System, ops: seq<Op>): System
    decreases |ops|
  {
    if ops == [] then x else Run(Step(x, ops[0]), ops[1..])
  }

  ghost predicate ProperRun(x: System, ops: seq<Op>)
    decreases |ops|
  {
    ops != [] ==> Proper(x.table, ops[0]) && ProperRun(Step(x, ops[0]), ops[1..])
  }

  function DriftOf(x: System, ops: seq<Op>, u: string, d: int): int
    decreases |ops|
  {
    if ops == [] then d else DriftOf(Step(x, ops[0]), ops[1..], u, Drift(x, ops[0], u, d))
  }

  /** Over any fault-free run, what the store counts for u is what u's devices show plus
      the drift. */
  lemma {:induction false} BadgeLaw(x: System, ops: seq<Op>, u: string, start: int, d: int)
    requires T.WellFormed(x.table) && ProperRun(x, ops)
    requires T.CountUnread(x.table, u) == Shown(x.log, u, start) + d
    ensures var y := Run(x, ops);
            && T.WellFormed(y.table)
            && T.CountUnread(y.table, u) == Shown(y.log, u, start) + DriftOf(x, ops, u, d)
    decreases |ops|
  {
    hide T.WellFormed, Shown, T.CountUnread, Step, Drift, Proper;
    if ops != [] {
      DriftStep(x, ops[0], u, start, d);
      BadgeLaw(Step(x, ops[0]), ops[1..], u, start, Drift(x, ops[0], u, d));
    }
  }

  // ----- when the badge is right

  /** The devices of u show what the store counts. */
  predicate Right(x: System, u: string, start: int) {
    Shown(x.log, u, start) == T.CountUnread(x.table, u)
  }

  predicate IsEcho(op: Op, u: string) {
    op.Event? && Echoes(op.p, op.s, op.env, u)
  }

  /** The operations after which u's devices were not told the store's number: an event that
      stores rows for u without an in-app message to u, a live update that passes on a number
      of its producer's, and the deletion of an unread row of u. */
  predicate Silent(x: System, op: Op, u: string) {
    match op
    case Event(s, p, env) =>
      Echoes(p, s, env, u) || (!IsTransient(p.identity) && u in p.userIDs && !Tells(p, s, env, u))
    case Remove(v, id) => v == u && T.OwnsUnread(x.table, v, id)
    case ReadOne(_, _) => false
    case ReadAll(_) => false
  }

  /** A right badge stays right over one operation exactly when it is not a silent one. */
  lemma SilentExact(x: System, op: Op, u: string, start: int)
    requires T.WellFormed(x.table) && Proper(x.table, op) && Right(x, u, start) && !IsEcho(op, u)
    ensures Right(Step(x, op), u, start) <==> !Silent(x, op, u)
  {
    hide T.WellFormed, T.Owns, T.OwnsUnread, Shown, T.CountUnread, Step, Created, InAppUsers, FreshIDs;
    DriftStep(x, op, u, start, 0);
    if op.Event? {
      CreatedNone(op.p, op.env, |op.p.userIDs|, u);
      assert op.p.userIDs[..|op.p.userIDs|] == op.p.userIDs;
    }
  }

  /** After a live update with a number of its own, the badge is right exactly when that
      number happens to be u's count; what it showed before no longer matters. */
  lemma EchoExact(x: System, op: Op, u: string, start: int)
    requires T.WellFormed(x.table) && Proper(x.table, op) && IsEcho(op, u)
    ensures Step(x, op).table == x.table
    ensures Right(Step(x, op), u, start) <==> op.p.extra["unread_count"] == Int(T.CountUnread(x.table, u))
  {
    hide T.WellFormed, Shown, T.CountUnread, FullPlan, WsOf, InAppUsers, FreshIDs;
    EventShown(x, op, u, start);
  }

  /** A silent operation, unless it is a live update whose number is the count anyway. */
  predicate Misleads(x: System, op: Op, u: string) {
    if IsEcho(op, u) then op.p.extra["unread_count"] != Int(T.CountUnread(x.table, u)) else Silent(x, op, u)
  }

  predicate NeverSilent(x: System, ops: seq<Op>, u: string)
    decreases |ops|
  {
    ops != [] ==> !Silent(x, ops[0], u) && NeverSilent(Step(x, ops[0]), ops[1..], u)
  }

  predicate NeverMisleads(x: System, ops: seq<Op>, u: string)
    decreases |ops|
  {
    ops != [] ==> !Misleads(x, ops[0], u) && NeverMisleads(Step(x, ops[0]), ops[1..], u)
  }

  /** The badge is right after each operation of the run. */
  predicate AlwaysRight(x: System, ops: seq<Op>, u: string, start: int)
    decreases |ops|
  {
    ops != [] ==> Right(Step(x, ops[0]), u, start) && AlwaysRight(Step(x, ops[0]), ops[1..], u, start)
  }

  /** Over any fault-free run that starts with a right badge: it is right throughout when no
      operation is silent, and exactly when none misleads. */
  lemma {:induction false} RightUnlessSilent(x: System, ops: seq<Op>, u: string, start: int)
    requires T.WellFormed(x.table) && ProperRun(x, ops) && Right(x, u, start)
    ensures NeverSilent(x, ops, u) ==> AlwaysRight(x, ops, u, start) && Right(Run(x, ops), u, start)
    ensures AlwaysRight(x, ops, u, start) <==> NeverMisleads(x, ops, u)
    decreases |ops|
  {
    hide T.WellFormed, Right, Silent, Step, Proper, Echoes, T.CountUnread;
    if ops != [] {
      var op, y := ops[0], Step(x, ops[0]);
      KeepsWell(x, op);
      if IsEcho(op, u) {
        EchoExact(x, op, u, start);
        EchoIsSilent(x, op, u);
      } else {
        SilentExact(x, op, u, start);
      }
      if Right(y, u, start) {
        RightUnlessSilent(y, ops[1..], u, start);
      }
    }
  }

  lemma EchoIsSilent(x: System, op: Op, u: string)
    requires IsEcho(op, u)
    ensures Silent(x, op, u)
  {
  }

  lemma KeepsWell(x: System, op: Op)
    requires T.WellFormed(x.table) && Proper(x.table, op)
    ensures T.WellFormed(Step(x, op).table)
  {
    hide T.WellFormed, Shown, T.CountUnread, Step, Drift, Proper;
    DriftStep(x, op, "", 0, T.CountUnread(x.table, "") - Shown(x.log, "", 0));
  }

  /** Each number an operation sends to u is u's count when it is done, unless it is one a
      live update carried among its extra fields. */
  lemma SentNumbersExact(x: System, op: Op, u: string, i: nat)
    requires T.WellFormed(x.table) && Proper(x.table, op)
    requires |x.log| <= i < |Step(x, op).log| && Carries(Step(x, op).log[i], u)
    ensures if op.Event? && IsTransient(op.p.identity) then
              "unread_count" in op.p.extra && op.p.extra["unread_count"] == Int(Number(Step(x, op).log[i]))
            else
              Number(Step(x, op).log[i]) == T.CountUnread(Step(x, op).table, u)
  {
    hide T.WellFormed, T.Owns, T.CountUnread, FullPlan, WsOf, PushOf, PersistTable, InAppUsers, Broadcast, UserMessage, FreshIDs;
    var y := Step(x, op);
    match op
    case Event(s, p, env) =>
      var q := Filled(x.table, p, env);
      ExactFanout(s, x.table, p, env);
      BroadcastCarriesNothing(q, u);
      var users := InAppUsers(s, q, env);
      assert y.log[i] == Good(UserMessage(q, users[i - |x.log|]));
      MessageCarries(q, users[i - |x.log|], u);
      if !IsTransient(p.identity) {
        CountsExact(StoreAfter(x.table, p, env), p.userIDs, env, |p.userIDs|, u);
        SameGate(s, x.table, p, env);
        ToldIsRecipient(s, p, env, u);
      }
    case ReadOne(v, id) => ReadCarries(v, id, T.CountUnread(y.table, v), u);
    case ReadAll(v) =>
      ReadCarries(v, "", 0, u);
      T.EntryExact(x.table, T.OpMarkAllRead(v), v);
    case Remove(v, id) =>
  }

  lemma StreakTellsNobody(s: Service, p: Params, env: Env)
    requires p.identity == STREAK_AT_RISK
    ensures InAppUsers(s, p, env) == [] && !IsTransient(p.identity)
  {
  }

  /** A streak warning is push only: it stores a row for each recipient and tells no badge,
      so a badge that was right falls behind by the rows stored. */
  lemma StreakLeavesBadgeBehind(x: System, op: Op, u: string, start: int)
    requires T.WellFormed(x.table) && Proper(x.table, op) && op.Event?
    requires op.p.identity == STREAK_AT_RISK && u in op.p.userIDs
    requires Shown(x.log, u, start) == T.CountUnread(x.table, u)
    ensures var y := Step(x, op);
            && Shown(y.log, u, start) < T.CountUnread(y.table, u)
            && T.CountUnread(y.table, u) - Shown(y.log, u, start) == Created(op.p, op.env, |op.p.userIDs|, u)
  {
    hide T.WellFormed, T.CountUnread, Shown, Step, InAppUsers, Created, IsTransient;
    DriftStep(x, op, u, start, 0);
    assert op.p.userIDs[..|op.p.userIDs|] == op.p.userIDs;
    CreatedNone(op.p, op.env, |op.p.userIDs|, u);
    StreakTellsNobody(op.s, op.p, op.env);
  }
}
