/** Requests that overlap: an unread number is counted at one moment and enqueued at a later
    one, and other requests may write to the store in between. */
module Races {

  import opened Wrappers
  import opened Contract
  import opened Queues
  import opened Channels
  import Badges
  import T = Tables

  /** A message being built or sent, and how many store writes came before its count. */
  datatype Built = Built(msg: WSMessage, at: nat)

  /** The store writes so far, the messages that requests hold, and those enqueued. */
  datatype Live = Live(writes: seq<T.Op>, held: map<nat, Built>, log: seq<Built>)

  /** The single calls requests are made of, in whatever order they come. */
  datatype Call =
    | Write(op: T.Op)
    | Count(k: nat, u: string, event: string, payload: Fields)
    | Clear(k: nat, u: string)
    | Send(k: nat)

  /** The store: the writes on top of the table at the start. */
  function Store(t: T.Table, x: Live): T.Table {
    T.Run(t, x.writes)
  }

  /** Count reads u's number into the message held under k, for an event or for the sync
      after a read; Clear is MarkAllRead, whose sync message always says zero. */
  function Step(t: T.Table, x: Live, c: Call): Live {
    match c
    case Write(op) => x.(writes := x.writes + [op])
    case Count(k, u, event, payload) =>
      var m := WSMessage(UserRoom(u), event, payload["unread_count" := Int(T.CountUnread(Store(t, x), u))]);
      x.(held := x.held[k := Built(m, |x.writes|)])
    case Clear(k, u) =>
      var m := WSMessage(UserRoom(u), EVENT_READ_ALL, map["unread_count" := Int(0)]);
      x.(writes := x.writes + [T.OpMarkAllRead(u)], held := x.held[k := Built(m, |x.writes| + 1)])
    case Send(k) =>
      if k in x.held then x.(held := x.held - {k}, log := x.log + [x.held[k]]) else x
  }

  const START: Live := Live([], map[], [])

  function Run(t: T.Table, x: Live, calls: seq<Call>): Live
    decreases |calls|
  {
    if calls == [] then x else Run(t, Step(t, x, calls[0]), calls[1..])
  }

  /** What was enqueued, oldest first. */
  function Items(log: seq<Built>): seq<Item<WSMessage>> {
    seq(|log|, i requires 0 <= i < |log| => Good(log[i].msg))
  }

  /** The newest message that carries a number for u. */
  function Newest(log: seq<Built>, u: string): Option<Built> {
    if log == [] then None
    else
      var last := log[|log| - 1];
      if Badges.Carries(Good(last.msg), u) then Some(last) else Newest(log[..|log| - 1], u)
  }

  // ----- every number was right at its count

  ghost predicate Honest(t: T.Table, writes: seq<T.Op>, b: Built) {
    && b.at <= |writes|
    && forall u :: Badges.Carries(Good(b.msg), u) ==>
         Badges.Number(Good(b.msg)) == T.CountUnread(T.Run(t, writes[..b.at]), u)
  }

  ghost predicate AllHonest(t: T.Table, x: Live) {
    && (forall k :: k in x.held ==> Honest(t, x.writes, x.held[k]))
    && (forall i :: 0 <= i < |x.log| ==> Honest(t, x.writes, x.log[i]))
  }

  lemma HonestMore(t: T.Table, writes: seq<T.Op>, op: T.Op, b: Built)
    requires Honest(t, writes, b)
    ensures Honest(t, writes + [op], b)
  {
    assert (writes + [op])[..b.at] == writes[..b.at];
  }

  lemma MoreWrites(t: T.Table, x: Live, op: T.Op)
    requires AllHonest(t, x)
    ensures AllHonest(t, x.(writes := x.writes + [op]))
  {
    hide Honest;
    forall k | k in x.held ensures Honest(t, x.writes + [op], x.held[k]) {
      HonestMore(t, x.writes, op, x.held[k]);
    }
    forall i | 0 <= i < |x.log| ensures Honest(t, x.writes + [op], x.log[i]) {
      HonestMore(t, x.writes, op, x.log[i]);
    }
  }

  lemma CountHonest(t: T.Table, writes: seq<T.Op>, u: string, event: string, payload: Fields)
    ensures var n := T.CountUnread(T.Run(t, writes), u);
            Honest(t, writes, Built(WSMessage(UserRoom(u), event, payload["unread_count" := Int(n)]), |writes|))
  {
    assert writes[..|writes|] == writes;
    forall v ensures UserRoom(v) == UserRoom(u) ==> v == u {
      AddressesDistinct(u, v);
    }
  }

  lemma {:induction false} RunConcat(t: T.Table, a: seq<T.Op>, b: seq<T.Op>)
    ensures T.Run(t, a + b) == T.Run(T.Run(t, a), b)
    ensures T.FreshIDs(t, a + b) <==> T.FreshIDs(t, a) && T.FreshIDs(T.Run(t, a), b)
    decreases |a|
  {
    hide T.Apply, T.Known;
    if a == [] {
      assert a + b == b;
    } else {
      assert (a + b)[1..] == a[1..] + b;
      RunConcat(T.Apply(t, a[0]), a[1..], b);
    }
  }

  lemma ClearedNone(t: T.Table, writes: seq<T.Op>, u: string)
    ensures T.CountUnread(T.Run(t, writes + [T.OpMarkAllRead(u)]), u) == 0
  {
    var s, op := T.Run(t, writes), T.OpMarkAllRead(u);
    RunConcat(t, writes, [op]);
    assert [op][1..] == [];
    assert T.Run(s, [op]) == T.Run(T.Apply(s, op), []) == T.Apply(s, op);
    T.NoneUnread(T.AllRead(T.Get(s, u)));
  }

  /** Whatever overlaps, a message's number was u's count when it was counted. */
  lemma StepHonest(t: T.Table, x: Live, c: Call)
    requires AllHonest(t, x)
    ensures AllHonest(t, Step(t, x, c))
  {
    hide Honest, T.CountUnread, T.Run;
    match c
    case Write(op) => MoreWrites(t, x, op);
    case Count(k, u, event, payload) => CountHonest(t, x.writes, u, event, payload);
    case Clear(k, u) =>
      var more := x.writes + [T.OpMarkAllRead(u)];
      MoreWrites(t, x, T.OpMarkAllRead(u));
      ClearedNone(t, x.writes, u);
      CountHonest(t, more, u, EVENT_READ_ALL, map[]);
      assert map["unread_count" := Int(0)] == (map[])["unread_count" := Int(0)];
    case Send(k) =>
  }

  lemma {:induction false} RunHonest(t: T.Table, x: Live, calls: seq<Call>)
    requires AllHonest(t, x)
    ensures AllHonest(t, Run(t, x, calls))
    decreases |calls|
  {
    hide AllHonest, Step;
    if calls != [] {
      StepHonest(t, x, calls[0]);
      RunHonest(t, Step(t, x, calls[0]), calls[1..]);
    }
  }

  lemma {:induction false} ShownIsNewest(log: seq<Built>, u: string, start: int)
    ensures Newest(log, u).Some? ==>
              && Newest(log, u).value in log && Badges.Carries(Good(Newest(log, u).value.msg), u)
              && Badges.Shown(Items(log), u, start) == Badges.Number(Good(Newest(log, u).value.msg))
    ensures Newest(log, u).None? ==> Badges.Shown(Items(log), u, start) == start
  {
    hide Badges.Carries;
    if log != [] {
      var init, last := log[..|log| - 1], log[|log| - 1];
      ShownIsNewest(init, u, start);
      assert Items(log) == Items(init) + [Good(last.msg)];
      Badges.ShownOne(Items(init), Good(last.msg), u, start);
    }
  }

  // ----- when the last number enqueued is stale

  /** The store writes made after the newest number for u was counted. */
  function Since(x: Live, b: Built): seq<T.Op>
    requires b.at <= |x.writes|
  {
    x.writes[b.at..]
  }

  /** The table that number was counted on. */
  function CountedOn(t: T.Table, x: Live, b: Built): T.Table
    requires b.at <= |x.writes|
  {
    T.Run(t, x.writes[..b.at])
  }

  /** Over any overlapping of any requests: the last number enqueued for u is right exactly
      when the store writes made after its count cancel out for u; it is too high by what
      they cleared and too low by what they added. */
  lemma LastNumberExact(t: T.Table, calls: seq<Call>, u: string, start: int) returns (x: Live, b: Built)
    requires T.WellFormed(t) && T.FreshIDs(t, Run(t, START, calls).writes)
    requires Newest(Run(t, START, calls).log, u).Some?
    ensures x == Run(t, START, calls) && Newest(x.log, u) == Some(b) && b.at <= |x.writes|
    ensures T.WellFormed(CountedOn(t, x, b)) && T.FreshIDs(CountedOn(t, x, b), Since(x, b))
    ensures T.CountUnread(Store(t, x), u)
            == Badges.Shown(Items(x.log), u, start) + T.Ledger(CountedOn(t, x, b), Since(x, b), u)
  {
    hide Run, Newest, T.WellFormed, T.FreshIDs, T.Run, T.Ledger, T.CountUnread, Badges.Carries, Badges.Shown, Items;
    x := Run(t, START, calls);
    assert AllHonest(t, START);
    RunHonest(t, START, calls);
    b := Newest(x.log, u).value;
    ShownIsNewest(x.log, u, start);
    var a, rest := x.writes[..b.at], x.writes[b.at..];
    assert x.writes == a + rest;
    RunConcat(t, a, rest);
    T.UnreadLedger(t, a, u);
    T.UnreadLedger(T.Run(t, a), rest, u);
  }

  /** A write that takes an unread row of u away: a read or a deletion of one, or a
      MarkAllRead that finds some. */
  predicate Takes(t: T.Table, op: T.Op, u: string) {
    match op
    case OpCreate(_) => false
    case OpMarkRead(v, id) => v == u && T.OwnsUnread(t, u, id)
    case OpMarkAllRead(v) => v == u && T.CountUnread(t, u) > 0
    case OpDelete(v, id) => v == u && T.OwnsUnread(t, u, id)
  }

  predicate AnyTakes(t: T.Table, ops: seq<T.Op>, u: string)
    decreases |ops|
  {
    ops != [] && (Takes(t, ops[0], u) || AnyTakes(T.Apply(t, ops[0]), ops[1..], u))
  }

  predicate NoneFor(ops: seq<T.Op>, u: string) {
    forall i :: 0 <= i < |ops| && ops[i].OpCreate? ==> ops[i].row.userID != u
  }

  lemma {:induction false} OnlyTaken(t: T.Table, ops: seq<T.Op>, u: string)
    requires NoneFor(ops, u)
    ensures T.Ledger(t, ops, u) <= 0 && (T.Ledger(t, ops, u) < 0 <==> AnyTakes(t, ops, u))
    decreases |ops|
  {
    hide T.OwnsUnread, T.CountUnread, T.Apply;
    if ops != [] {
      assert forall i :: 0 <= i < |ops[1..]| ==> ops[1..][i] == ops[i + 1];
      OnlyTaken(T.Apply(t, ops[0]), ops[1..], u);
    }
  }

  /** When nothing new is stored for u after that count: the last number is stale exactly
      when a request took an unread row of u between the count and now, and then it is too
      high. */
  lemma StaleExactly(t: T.Table, calls: seq<Call>, u: string, start: int)
    requires T.WellFormed(t) && T.FreshIDs(t, Run(t, START, calls).writes)
    requires Newest(Run(t, START, calls).log, u).Some?
    ensures var x := Run(t, START, calls);
            var b := Newest(x.log, u).value;
            && b.at <= |x.writes|
            && (NoneFor(Since(x, b), u) ==>
                  && Badges.Shown(Items(x.log), u, start) >= T.CountUnread(Store(t, x), u)
                  && (Badges.Shown(Items(x.log), u, start) != T.CountUnread(Store(t, x), u) <==>
                        AnyTakes(CountedOn(t, x, b), Since(x, b), u)))
  {
    hide Run, Newest, T.WellFormed, T.FreshIDs, T.Run, T.Ledger, T.CountUnread, AnyTakes, Badges.Shown, Items, NoneFor;
    var x, b := LastNumberExact(t, calls, u, start);
    if NoneFor(Since(x, b), u) {
      OnlyTaken(CountedOn(t, x, b), Since(x, b), u);
    }
  }

  /** An event stores a row and counts it; before its message is enqueued the user reads the
      row, and the sync message with the new number overtakes it. */
  function Overtaken(row: T.Row): seq<Call> {
    [Write(T.OpCreate(row)), Count(0, row.userID, row.eventType, map[]),
     Write(T.OpMarkRead(row.userID, row.id)), Count(1, row.userID, EVENT_READ, map[]),
     Send(1), Send(0)]
  }

  lemma OneRow(row: T.Row)
    requires !row.read
    ensures var ops := [T.OpCreate(row), T.OpMarkRead(row.userID, row.id)];
            && T.CountUnread(T.Run(map[], ops[..1]), row.userID) == 1
            && T.CountUnread(T.Run(map[], ops), row.userID) == 0
  {
    var create, read := T.OpCreate(row), T.OpMarkRead(row.userID, row.id);
    var t1 := T.Apply(map[], create);
    var t2 := T.Apply(t1, read);
    assert [create, read][..1] == [create] && [create, read][1..] == [read] && [create][1..] == [] && [read][1..] == [];
    assert T.Run(map[], [create]) == T.Run(t1, []) == t1;
    assert T.Run(map[], [create, read]) == T.Run(t1, [read]) == T.Run(t2, []) == t2;
    assert T.Get(t1, row.userID) == [row];
    T.CreateEntry([], row);
    assert [] + [row] == [row];
    T.SetReadOne([row], 0);
    assert T.Get(t2, row.userID) == T.SetRead([row], row.id);
  }

  lemma SixCalls(t: T.Table, x: Live, calls: seq<Call>)
    requires |calls| == 6
    ensures Run(t, x, calls) ==
            Step(t, Step(t, Step(t, Step(t, Step(t, Step(t, x, calls[0]), calls[1]), calls[2]), calls[3]), calls[4]), calls[5])
  {
    hide Step;
    var c1, c2, c3, c4, c5 := calls[1..], calls[2..], calls[3..], calls[4..], calls[5..];
    assert c1[1..] == c2 && c2[1..] == c3 && c3[1..] == c4 && c4[1..] == c5 && c5[1..] == [];
    var x1 := Step(t, x, calls[0]);
    var x2 := Step(t, x1, calls[1]);
    var x3 := Step(t, x2, calls[2]);
    var x4 := Step(t, x3, calls[3]);
    var x5 := Step(t, x4, calls[4]);
    assert Run(t, x, calls) == Run(t, x1, c1) == Run(t, x2, c2);
    assert Run(t, x2, c2) == Run(t, x3, c3) == Run(t, x4, c4);
    assert Run(t, x4, c4) == Run(t, x5, c5) == Run(t, Step(t, x5, calls[5]), []);
  }

  /** The badge then stays at one with nothing unread. */
  lemma OvertakenStale(row: T.Row, start: int)
    requires !row.read
    ensures var x := Run(map[], START, Overtaken(row));
            && T.CountUnread(Store(map[], x), row.userID) == 0
            && Badges.Shown(Items(x.log), row.userID, start) == 1
  {
    hide Run, T.Run, T.CountUnread, Badges.Shown;
    var u, create, read := row.userID, T.OpCreate(row), T.OpMarkRead(row.userID, row.id);
    SixCalls(map[], START, Overtaken(row));
    OneRow(row);
    assert [create, read][..1] == [create];
    assert [] + [create] == [create] && [create] + [read] == [create, read];
    var x := Run(map[], START, Overtaken(row));
    assert x.writes == [create, read];
    assert |x.log| == 2 && x.log[1].msg == WSMessage(UserRoom(u), row.eventType, (map[])["unread_count" := Int(1)]);
    assert Items(x.log) == [Items(x.log)[0]] + [Good(x.log[1].msg)];
    Badges.ShownOne([Items(x.log)[0]], Good(x.log[1].msg), u, start);
  }
}
