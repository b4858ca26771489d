/** The notification store as a plain value: for each user, that user's rows, oldest
    first. The heap store of memory_store.dfy is proved to refine these operations. */
module Tables {

  import opened Arith
  import opened Contract

  datatype Row = Row(
    id: string,
    userID: string,
    eventType: string,
    title: string,
    body: string,
    link: string,
    read: bool,
    extra: Fields,
    createdAt: int)

  type Table = map<string, seq<Row>>

  function Get(t: Table, u: string): seq<Row> {
    if u in t then t[u] else []
  }

  predicate HasID(rows: seq<Row>, id: string) {
    exists i :: 0 <= i < |rows| && rows[i].id == id
  }

  predicate Owns(t: Table, u: string, id: string) {
    HasID(Get(t, u), id)
  }

  /** Rows sit under their owner, and an ID occurs once in the whole table. */
  ghost predicate WellFormed(t: Table) {
    && (forall u, i :: u in t && 0 <= i < |t[u]| ==> t[u][i].userID == u)
    && (forall u, v, i, j ::
          u in t && v in t && 0 <= i < |t[u]| && 0 <= j < |t[v]| && t[u][i].id == t[v][j].id
          ==> u == v && i == j)
  }

  /** No ID occurs twice in one user's list. */
  predicate Distinct(rows: seq<Row>) {
    forall i, j :: 0 <= i < j < |rows| ==> rows[i].id != rows[j].id
  }

  predicate Known(t: Table, id: string) {
    exists u :: u in t && HasID(t[u], id)
  }

  // ----- operations

  function Create(t: Table, row: Row): Table {
    t[row.userID := Get(t, row.userID) + [row]]
  }

  function SetRead(rows: seq<Row>, id: string): seq<Row> {
    seq(|rows|, i requires 0 <= i < |rows| => if rows[i].id == id then rows[i].(read := true) else rows[i])
  }

  function AllRead(rows: seq<Row>): seq<Row> {
    seq(|rows|, i requires 0 <= i < |rows| => rows[i].(read := true))
  }

  function Without(rows: seq<Row>, id: string): seq<Row> {
    if rows == [] then []
    else
      var last := rows[|rows| - 1];
      Without(rows[..|rows| - 1], id) + if last.id == id then [] else [last]
  }

  function MarkRead(t: Table, u: string, id: string): Table {
    if u in t then t[u := SetRead(t[u], id)] else t
  }

  function MarkAllRead(t: Table, u: string): Table {
    if u in t then t[u := AllRead(t[u])] else t
  }

  function Delete(t: Table, u: string, id: string): Table {
    if u in t then t[u := Without(t[u], id)] else t
  }

  function CountRows(rows: seq<Row>): nat {
    if rows == [] then 0
    else CountRows(rows[..|rows| - 1]) + if rows[|rows| - 1].read then 0 else 1
  }

  function CountUnread(t: Table, u: string): nat {
    CountRows(Get(t, u))
  }

  // ----- facts about one list

  lemma AppendIDs(rows: seq<Row>, row: Row)
    ensures forall x :: HasID(rows + [row], x) <==> HasID(rows, x) || x == row.id
    ensures Distinct(rows + [row]) <==> Distinct(rows) && !HasID(rows, row.id)
  {
    var more := rows + [row];
    forall x ensures HasID(more, x) <==> HasID(rows, x) || x == row.id {
      if HasID(rows, x) {
        var i :| 0 <= i < |rows| && rows[i].id == x;
        assert more[i].id == x;
      } else if x == row.id {
        assert more[|rows|].id == x;
      }
    }
    if Distinct(more) {
      forall i, j | 0 <= i < j < |rows| ensures rows[i].id != rows[j].id {
        assert more[i].id != more[j].id;
      }
      forall i | 0 <= i < |rows| ensures rows[i].id != row.id {
        assert more[i].id != more[|rows|].id;
      }
    }
  }

  /** Lists that agree on their IDs, position by position. */
  lemma SameIDs(a: seq<Row>, b: seq<Row>)
    requires |a| == |b| && forall i :: 0 <= i < |a| ==> a[i].id == b[i].id
    ensures forall x :: HasID(a, x) <==> HasID(b, x)
    ensures Distinct(a) <==> Distinct(b)
  {
    forall x ensures HasID(a, x) <==> HasID(b, x) {
      if HasID(a, x) {
        var i :| 0 <= i < |a| && a[i].id == x;
        assert b[i].id == x;
      }
      if HasID(b, x) {
        var i :| 0 <= i < |b| && b[i].id == x;
        assert a[i].id == x;
      }
    }
  }

  lemma RemoveIDs(rows: seq<Row>, p: nat)
    requires p < |rows| && Distinct(rows)
    ensures Distinct(rows[..p] + rows[p + 1..])
    ensures forall x :: HasID(rows[..p] + rows[p + 1..], x) <==> HasID(rows, x) && x != rows[p].id
  {
    var rest := rows[..p] + rows[p + 1..];
    assert forall i :: 0 <= i < |rest| ==> rest[i] == rows[if i < p then i else i + 1];
    forall x ensures HasID(rest, x) <==> HasID(rows, x) && x != rows[p].id {
      if HasID(rows, x) && x != rows[p].id {
        var i :| 0 <= i < |rows| && rows[i].id == x;
        assert rest[if i < p then i else i - 1].id == x;
      }
      if HasID(rest, x) {
        var i :| 0 <= i < |rest| && rest[i].id == x;
        assert rows[if i < p then i else i + 1].id == x;
      }
    }
  }

  lemma {:induction false} CountConcat(a: seq<Row>, b: seq<Row>)
    ensures CountRows(a + b) == CountRows(a) + CountRows(b)
    decreases |b|
  {
    if b == [] {
      assert a + b == a;
    } else {
      var n := |b| - 1;
      assert (a + b)[..|a + b| - 1] == a + b[..n];
      CountConcat(a, b[..n]);
    }
  }

  /** Counting round one row. */
  lemma CountSplit(rows: seq<Row>, i: nat)
    requires i < |rows|
    ensures CountRows(rows) == CountRows(rows[..i]) + (if rows[i].read then 0 else 1) + CountRows(rows[i + 1..])
  {
    var mid := [rows[i]];
    assert rows == rows[..i] + mid + rows[i + 1..];
    CountConcat(rows[..i] + mid, rows[i + 1..]);
    CountConcat(rows[..i], mid);
    assert mid[..0] == [];
  }

  lemma {:induction false} NoneUnread(rows: seq<Row>)
    requires forall i :: 0 <= i < |rows| ==> rows[i].read
    ensures CountRows(rows) == 0
  {
    if rows != [] {
      NoneUnread(rows[..|rows| - 1]);
    }
  }

  lemma {:induction false} WithoutAbsent(rows: seq<Row>, id: string)
    requires !HasID(rows, id)
    ensures Without(rows, id) == rows
  {
    if rows != [] {
      var init := rows[..|rows| - 1];
      assert !HasID(init, id) by {
        forall i | 0 <= i < |init| ensures init[i].id != id {
          assert rows[i].id != id;
        }
      }
      assert rows[|rows| - 1].id != id;
      WithoutAbsent(init, id);
      assert rows == init + [rows[|rows| - 1]];
    }
  }

  lemma {:induction false} WithoutConcat(a: seq<Row>, b: seq<Row>, id: string)
    ensures Without(a + b, id) == Without(a, id) + Without(b, id)
    decreases |b|
  {
    if b == [] {
      assert a + b == a;
    } else {
      var n := |b| - 1;
      assert (a + b)[..|a + b| - 1] == a + b[..n];
      WithoutConcat(a, b[..n], id);
    }
  }

  lemma WithoutSingle(row: Row)
    ensures Without([row], row.id) == []
  {
    assert [row][..0] == [];
  }

  lemma WithoutMiddle(before: seq<Row>, row: Row, after: seq<Row>)
    requires !HasID(before, row.id) && !HasID(after, row.id)
    ensures Without(before + [row] + after, row.id) == before + after
  {
    hide *;
    calc {
      Without(before + [row] + after, row.id);
    == { WithoutConcat(before + [row], after, row.id); }
      Without(before + [row], row.id) + Without(after, row.id);
    == { WithoutConcat(before, [row], row.id); WithoutSingle(row); }
      Without(before, row.id) + Without(after, row.id);
    == { WithoutAbsent(before, row.id); WithoutAbsent(after, row.id); }
      before + after;
    }
  }

  /** Removing an ID that occurs once closes the gap and keeps the order. */
  lemma WithoutOne(rows: seq<Row>, i: nat)
    requires i < |rows|
    requires forall j :: 0 <= j < |rows| && j != i ==> rows[j].id != rows[i].id
    ensures Without(rows, rows[i].id) == rows[..i] + rows[i + 1..]
  {
    hide Without;
    assert rows == rows[..i] + [rows[i]] + rows[i + 1..];
    WithoutMiddle(rows[..i], rows[i], rows[i + 1..]);
  }

  /** Marking one row read: nobody else changes, and the count drops by one the first
      time and by nothing after that. */
  lemma SetReadOne(rows: seq<Row>, i: nat)
    requires i < |rows|
    requires forall j :: 0 <= j < |rows| && j != i ==> rows[j].id != rows[i].id
    ensures SetRead(rows, rows[i].id) == rows[i := rows[i].(read := true)]
    ensures CountRows(SetRead(rows, rows[i].id)) == CountRows(rows) - if rows[i].read then 0 else 1
  {
    var after := rows[i := rows[i].(read := true)];
    CountSplit(rows, i);
    CountSplit(after, i);
    assert after[..i] == rows[..i] && after[i + 1..] == rows[i + 1..];
  }

  lemma SetReadAbsent(rows: seq<Row>, id: string)
    requires !HasID(rows, id)
    ensures SetRead(rows, id) == rows
  {
    forall i | 0 <= i < |rows| ensures rows[i].id != id {}
  }

  lemma MarkReadAbsent(t: Table, u: string, id: string)
    requires !Owns(t, u, id)
    ensures MarkRead(t, u, id) == t
  {
    SetReadAbsent(Get(t, u), id);
  }

  lemma DeleteAbsent(t: Table, u: string, id: string)
    requires !Owns(t, u, id)
    ensures Delete(t, u, id) == t
  {
    WithoutAbsent(Get(t, u), id);
  }

  /** Rows sit under their owner. */
  ghost predicate Owned(t: Table) {
    forall u, i :: u in t && 0 <= i < |t[u]| ==> t[u][i].userID == u
  }

  lemma OwnersRight(t: Table)
    requires WellFormed(t)
    ensures Owned(t)
  {
  }

  lemma OneOwner(t: Table, u: string, i: nat)
    requires WellFormed(t) && i < |Get(t, u)|
    ensures forall v, j :: v != u && 0 <= j < |Get(t, v)| ==> Get(t, v)[j].id != Get(t, u)[i].id
  {
  }

  lemma DeleteAt(t: Table, u: string, i: nat)
    requires u in t && i < |t[u]| && WellFormed(t)
    ensures Delete(t, u, t[u][i].id) == t[u := t[u][..i] + t[u][i + 1..]]
  {
    WithoutOne(t[u], i);
  }

  /** Marking one ID, or all of a user's, only raises Read flags, in place. */
  lemma MarkReadAt(t: Table, u: string, id: string)
    ensures var s := MarkRead(t, u, id);
            && s.Keys == t.Keys && (forall v :: v in t ==> |s[v]| == |t[v]|)
            && forall v, i :: v in t && 0 <= i < |t[v]| ==>
                 s[v][i] == t[v][i].(read := t[v][i].read || (v == u && t[v][i].id == id))
  {
  }

  lemma MarkAllReadAt(t: Table, u: string)
    ensures var s := MarkAllRead(t, u);
            && s.Keys == t.Keys && (forall v :: v in t ==> |s[v]| == |t[v]|)
            && forall v, i :: v in t && 0 <= i < |t[v]| ==>
                 s[v][i] == t[v][i].(read := t[v][i].read || v == u)
  {
  }

  function Position(rows: seq<Row>, id: string): nat
    requires HasID(rows, id)
    ensures Position(rows, id) < |rows| && rows[Position(rows, id)].id == id
  {
    if rows[|rows| - 1].id == id then |rows| - 1
    else
      assert HasID(rows[..|rows| - 1], id) by {
        var i :| 0 <= i < |rows| && rows[i].id == id;
        assert rows[..|rows| - 1][i].id == id;
      }
      Position(rows[..|rows| - 1], id)
  }

  lemma Somewhere(t: Table, id: string) returns (u: string, p: nat)
    requires Known(t, id)
    ensures u in t && p < |t[u]| && t[u][p].id == id
  {
    u :| u in t && HasID(t[u], id);
    p := Position(t[u], id);
  }

  /** Creating a row makes its ID known and no other. */
  lemma KnownCreate(t: Table, row: Row, id: string)
    ensures Known(Create(t, row), id) <==> Known(t, id) || id == row.id
  {
    var s := Create(t, row);
    AppendIDs(Get(t, row.userID), row);
    if Known(t, id) {
      var u :| u in t && HasID(t[u], id);
      assert u in s && HasID(s[u], id);
    }
    if id == row.id {
      assert HasID(s[row.userID], id);
    }
  }

  lemma {:induction false} WithoutKnown(rows: seq<Row>, id: string, x: string)
    requires HasID(Without(rows, id), x)
    ensures HasID(rows, x)
  {
    var i :| 0 <= i < |Without(rows, id)| && Without(rows, id)[i].id == x;
    if rows != [] {
      var init := rows[..|rows| - 1];
      if i < |Without(init, id)| {
        assert HasID(Without(init, id), x);
        WithoutKnown(init, id, x);
        var j :| 0 <= j < |init| && init[j].id == x;
        assert rows[j].id == x;
      } else {
        assert rows[|rows| - 1].id == x;
      }
    }
  }

  // ----- runs

  datatype Op =
    | OpCreate(row: Row)
    | OpMarkRead(u: string, id: string)
    | OpMarkAllRead(u: string)
    | OpDelete(u: string, id: string)

  function Owner(op: Op): string {
    match op
    case OpCreate(row) => row.userID
    case OpMarkRead(u, _) => u
    case OpMarkAllRead(u) => u
    case OpDelete(u, _) => u
  }

  function Apply(t: Table, op: Op): Table {
    match op
    case OpCreate(row) => Create(t, row)
    case OpMarkRead(u, id) => MarkRead(t, u, id)
    case OpMarkAllRead(u) => MarkAllRead(t, u)
    case OpDelete(u, id) => Delete(t, u, id)
  }

  function Run(t: Table, ops: seq<Op>): Table
    decreases |ops|
  {
    if ops == [] then t else Run(Apply(t, ops[0]), ops[1..])
  }

  /** No operation but a creation brings in an ID. */
  lemma KnownAfter(t: Table, op: Op, id: string)
    requires Known(Apply(t, op), id)
    ensures Known(t, id) || (op.OpCreate? && id == op.row.id)
  {
    if op.OpCreate? {
      KnownCreate(t, op.row, id);
    } else {
      var v :| v in Apply(t, op) && HasID(Apply(t, op)[v], id);
      if op.OpDelete? && v == op.u {
        WithoutKnown(t[v], op.id, id);
      } else {
        SameIDs(t[v], Apply(t, op)[v]);
      }
      assert HasID(t[v], id);
    }
  }

  /** Every row is created under an ID not in use at that moment. */
  ghost predicate FreshIDs(t: Table, ops: seq<Op>)
    decreases |ops|
  {
    ops != [] ==>
      && (ops[0].OpCreate? ==> !Known(t, ops[0].row.id))
      && FreshIDs(Apply(t, ops[0]), ops[1..])
  }

  predicate OwnsUnread(t: Table, u: string, id: string) {
    exists i :: 0 <= i < |Get(t, u)| && Get(t, u)[i].id == id && !Get(t, u)[i].read
  }

  /** What one operation adds to the unread ledger of u: an unread creation, a first
      MarkRead, what MarkAllRead returns, the deletion of an unread row. */
  function Entry(t: Table, op: Op, u: string): int {
    if Owner(op) != u then 0 as int
    else
      match op
      case OpCreate(row) => if row.read then 0 else 1
      case OpMarkRead(_, id) => if OwnsUnread(t, u, id) then -1 else 0
      case OpMarkAllRead(_) => 0 - CountUnread(t, u)
      case OpDelete(_, id) => if OwnsUnread(t, u, id) then -1 else 0
  }

  function Ledger(t: Table, ops: seq<Op>, u: string): int
    decreases |ops|
  {
    if ops == [] then 0 else Entry(t, ops[0], u) + Ledger(Apply(t, ops[0]), ops[1..], u)
  }

  lemma CreateKeeps(t: Table, row: Row)
    requires WellFormed(t) && !Known(t, row.id)
    ensures WellFormed(Create(t, row))
  {
    var s: Table := Create(t, row);
    forall u, v, i, j | u in s && v in s && 0 <= i < |s[u]| && 0 <= j < |s[v]| && s[u][i].id == s[v][j].id
      ensures u == v && i == j
    {
      if s[u][i] != row || u != row.userID || i < |s[u]| - 1 {
        assert u in t && i < |t[u]| && t[u][i] == s[u][i];
        assert HasID(t[u], s[u][i].id);
      }
      if s[v][j] != row || v != row.userID || j < |s[v]| - 1 {
        assert v in t && j < |t[v]| && t[v][j] == s[v][j];
        assert HasID(t[v], s[v][j].id);
      }
    }
  }

  /** Dropping one row from one list leaves a well-formed table well formed. */
  lemma DropKeeps(t: Table, u: string, p: nat)
    requires WellFormed(t) && u in t && p < |t[u]|
    ensures WellFormed(t[u := t[u][..p] + t[u][p + 1..]])
  {
    var s: Table := t[u := t[u][..p] + t[u][p + 1..]];
    forall v, i | v in s && 0 <= i < |s[v]|
      ensures i < |t[v]| && s[v][i] == t[v][if v == u && i >= p then i + 1 else i]
    {
    }
  }

  lemma DeleteKeeps(t: Table, u: string, id: string)
    requires WellFormed(t)
    ensures WellFormed(Delete(t, u, id))
  {
    if Owns(t, u, id) {
      var p := Position(t[u], id);
      WithoutOne(t[u], p);
      DropKeeps(t, u, p);
    } else if u in t {
      WithoutAbsent(t[u], id);
      assert Delete(t, u, id) == t;
    }
  }

  /** Every operation keeps the table well formed. */
  lemma ApplyKeeps(t: Table, op: Op)
    requires WellFormed(t) && (op.OpCreate? ==> !Known(t, op.row.id))
    ensures WellFormed(Apply(t, op))
  {
    match op
    case OpCreate(row) => CreateKeeps(t, row);
    case OpDelete(u, id) => DeleteKeeps(t, u, id);
    case _ =>
  }

  lemma MarkReadEntry(rows: seq<Row>, id: string)
    requires forall i, j :: 0 <= i < |rows| && 0 <= j < |rows| && rows[i].id == rows[j].id ==> i == j
    ensures var first := exists i :: 0 <= i < |rows| && rows[i].id == id && !rows[i].read;
            CountRows(SetRead(rows, id)) == CountRows(rows) - if first then 1 else 0
  {
    if HasID(rows, id) {
      SetReadOne(rows, Position(rows, id));
    } else {
      SetReadAbsent(rows, id);
    }
  }

  lemma DeleteEntry(rows: seq<Row>, id: string)
    requires forall i, j :: 0 <= i < |rows| && 0 <= j < |rows| && rows[i].id == rows[j].id ==> i == j
    ensures var unread := exists i :: 0 <= i < |rows| && rows[i].id == id && !rows[i].read;
            CountRows(Without(rows, id)) == CountRows(rows) - if unread then 1 else 0
  {
    if HasID(rows, id) {
      var p := Position(rows, id);
      WithoutOne(rows, p);
      CountSplit(rows, p);
      CountConcat(rows[..p], rows[p + 1..]);
    } else {
      WithoutAbsent(rows, id);
    }
  }

  lemma CreateEntry(rows: seq<Row>, row: Row)
    ensures CountRows(rows + [row]) == CountRows(rows) + if row.read then 0 else 1
  {
    CountConcat(rows, [row]);
    assert [row][..0] == [];
  }

  /** One operation changes its owner's unread count by exactly its ledger entry, and
      nobody else's rows. */
  lemma EntryExact(t: Table, op: Op, u: string)
    requires WellFormed(t)
    ensures CountUnread(Apply(t, op), u) == CountUnread(t, u) + Entry(t, op, u)
    ensures Owner(op) != u ==> Get(Apply(t, op), u) == Get(t, u)
  {
    if Owner(op) == u {
      var rows := Get(t, u);
      match op
      case OpCreate(row) => CreateEntry(rows, row);
      case OpMarkRead(_, id) => MarkReadEntry(rows, id);
      case OpMarkAllRead(_) => NoneUnread(AllRead(rows));
      case OpDelete(_, id) => DeleteEntry(rows, id);
    }
  }

  /** Over any run with fresh IDs, a user's unread count is what it was plus the ledger,
      and the table stays well formed. */
  lemma {:induction false} UnreadLedger(t: Table, ops: seq<Op>, u: string)
    requires WellFormed(t) && FreshIDs(t, ops)
    ensures CountUnread(Run(t, ops), u) == CountUnread(t, u) + Ledger(t, ops, u)
    ensures WellFormed(Run(t, ops))
    decreases |ops|
  {
    if ops != [] {
      ApplyKeeps(t, ops[0]);
      EntryExact(t, ops[0], u);
      UnreadLedger(Apply(t, ops[0]), ops[1..], u);
    }
  }

  function OpsOf(ops: seq<Op>, u: string): seq<Op> {
    if ops == [] then []
    else (if Owner(ops[0]) == u then [ops[0]] else []) + OpsOf(ops[1..], u)
  }

  /** What u can observe after a run is what u's own operations alone leave. */
  lemma {:induction false} UsersIsolated(t: Table, s: Table, ops: seq<Op>, u: string)
    requires Get(t, u) == Get(s, u)
    ensures Get(Run(t, ops), u) == Get(Run(s, OpsOf(ops, u)), u)
    decreases |ops|
  {
    if ops != [] {
      var op, mine := ops[0], OpsOf(ops, u);
      if Owner(op) == u {
        assert mine[0] == op && mine[1..] == OpsOf(ops[1..], u);
        UsersIsolated(Apply(t, op), Apply(s, op), ops[1..], u);
      } else {
        assert mine == OpsOf(ops[1..], u);
        UsersIsolated(Apply(t, op), s, ops[1..], u);
      }
    }
  }

  // ----- lists and pages

  function Unread(rows: seq<Row>): seq<Row> {
    if rows == [] then []
    else
      var last := rows[|rows| - 1];
      Unread(rows[..|rows| - 1]) + if last.read then [] else [last]
  }

  function Filtered(rows: seq<Row>, unreadOnly: bool): seq<Row> {
    if unreadOnly then Unread(rows) else rows
  }

  lemma {:induction false} UnreadConcat(a: seq<Row>, b: seq<Row>)
    ensures Unread(a + b) == Unread(a) + Unread(b)
    decreases |b|
  {
    if b == [] {
      assert a + b == a;
    } else {
      var n := |b| - 1;
      assert (a + b)[..|a + b| - 1] == a + b[..n];
      UnreadConcat(a, b[..n]);
    }
  }

  /** The unread filter keeps as many rows as the unread count says, all of them unread. */
  lemma {:induction false} UnreadFilter(rows: seq<Row>)
    ensures |Unread(rows)| == CountRows(rows)
    ensures forall r :: r in Unread(rows) <==> r in rows && !r.read
  {
    if rows != [] {
      UnreadFilter(rows[..|rows| - 1]);
      assert rows == rows[..|rows| - 1] + [rows[|rows| - 1]];
    }
  }

  lemma UnreadOne(row: Row)
    ensures Unread([row]) == if row.read then [] else [row]
  {
    assert [row][..0] == [];
  }

  /** At every place the filter keeps an unread row once, between what it keeps of the rows
      before and what it keeps of the rows after. */
  lemma UnreadInOrder(before: seq<Row>, row: Row, after: seq<Row>)
    ensures Unread(before + [row] + after) == Unread(before) + (if row.read then [] else [row]) + Unread(after)
  {
    hide *;
    calc {
      Unread(before + [row] + after);
    == { UnreadConcat(before + [row], after); }
      Unread(before + [row]) + Unread(after);
    == { UnreadConcat(before, [row]); UnreadOne(row); }
      Unread(before) + (if row.read then [] else [row]) + Unread(after);
    }
  }

  datatype Page = Page(items: seq<Row>, total: nat, page: int, perPage: int, totalPages: int, hasMore: bool)

  /** Index of the first row on a page. */
  function Offset(page: int, perPage: int): int {
    (page - 1) * perPage
  }

  /** One page of a list; page and page size default when not positive. */
  function PageOf(list: seq<Row>, page0: int, perPage0: int): Page {
    var page := if page0 <= 0 then 1 else page0;
    var perPage := if perPage0 <= 0 then 20 else perPage0;
    var start := Offset(page, perPage);
    var totalPages := CeilDiv(|list|, perPage);
    if start >= |list| then
      Page([], |list|, page, perPage, totalPages, false)
    else
      var end := if start + perPage > |list| then |list| else start + perPage;
      assert 0 <= start by { OffsetFacts(page, perPage); }
      Page(list[start..end], |list|, page, perPage, totalPages, page < totalPages)
  }

  /** What a page says: the page asked for, or the first; the page size asked for, or 20; the
      whole list's length, and the least number of pages that holds it. */
  lemma PageSays(list: seq<Row>, page0: int, perPage0: int)
    ensures var p := PageOf(list, page0, perPage0);
            && p.page == (if page0 >= 1 then page0 else 1) && p.perPage == (if perPage0 >= 1 then perPage0 else 20)
            && p.total == |list|
            && p.perPage * (p.totalPages - 1) < |list| <= p.perPage * p.totalPages
  {
    hide Offset, CeilDiv;
    var d := if perPage0 <= 0 then 20 else perPage0;
    CeilDivBounds(|list|, d);
    MulDistributes(d, CeilDiv(|list|, d), -1);
  }

  /** What a page shows: the rows at its places of the list, each at its own, as many as there
      are. */
  lemma PageShows(list: seq<Row>, page0: int, perPage0: int)
    ensures var p := PageOf(list, page0, perPage0);
            var start := (p.page - 1) * p.perPage;
            && 0 <= start
            && |p.items| == (if start >= |list| then 0 else Min(p.perPage, |list| - start))
            && forall i :: 0 <= i < |p.items| ==> p.items[i] == list[start + i]
  {
    hide CeilDiv;
    var n, d := if page0 <= 0 then 1 else page0, if perPage0 <= 0 then 20 else perPage0;
    OffsetFacts(n, d);
    OffsetIs(n, d);
  }

  /** Listing everything filters nothing; listing the unread drops exactly the read. */
  lemma FilteredExact(rows: seq<Row>, unreadOnly: bool)
    ensures !unreadOnly ==> Filtered(rows, unreadOnly) == rows
    ensures forall r :: r in Filtered(rows, unreadOnly) <==> r in rows && (unreadOnly ==> !r.read)
    ensures |Filtered(rows, unreadOnly)| == if unreadOnly then CountRows(rows) else |rows|
  {
    UnreadFilter(rows);
  }

  lemma OffsetFacts(k: int, d: int)
    requires k >= 1 && d >= 1
    ensures 0 <= Offset(k, d) && Offset(1, d) == 0
    ensures Offset(k + 1, d) == Offset(k, d) + d
  {
    MulMonotone(0, k - 1, d);
  }

  lemma OffsetIs(k: int, d: int)
    ensures Offset(k, d) == (k - 1) * d
  {
  }

  /** Page k + 1 starts inside a list of n rows exactly when k is not its last page. */
  lemma OffsetInside(n: nat, k: int, d: int)
    requires d >= 1
    ensures Offset(k + 1, d) < n <==> k < CeilDiv(n, d)
  {
    BelowCeilDiv(n, k, d);
  }

  /** Pages 1..k laid end to end. */
  function Pages(list: seq<Row>, perPage: int, k: nat): seq<Row> {
    if k == 0 then [] else Pages(list, perPage, k - 1) + PageOf(list, k, perPage).items
  }

  lemma PageSlice(list: seq<Row>, k: int, d: int)
    requires k >= 1 && d >= 1
    ensures 0 <= Offset(k, d) <= Offset(k + 1, d)
    ensures var a, b := Min(Offset(k, d), |list|), Min(Offset(k + 1, d), |list|);
            PageOf(list, k, d).items == list[a..b]
  {
    hide Offset, CeilDiv;
    OffsetFacts(k, d);
  }

  lemma {:induction false} PagesPrefix(list: seq<Row>, perPage: nat, k: nat)
    requires perPage >= 1
    ensures 0 <= Offset(k + 1, perPage)
    ensures Pages(list, perPage, k) == list[..Min(Offset(k + 1, perPage), |list|)]
    decreases k
  {
    hide Offset, CeilDiv, PageOf;
    OffsetFacts(k + 1, perPage);
    if k > 0 {
      PagesPrefix(list, perPage, k - 1);
      PageSlice(list, k, perPage);
    }
  }

  /** Pages 1..TotalPages give the list back in order, nothing lost or repeated, and
      TotalPages is the least number that does. */
  lemma PaginationCovers(list: seq<Row>, perPage: nat)
    requires perPage >= 1
    ensures var n := PageOf(list, 1, perPage).totalPages;
            && n >= 0
            && Pages(list, perPage, n) == list
            && forall k: nat :: k < n ==> |Pages(list, perPage, k)| < |list|
  {
    hide Offset, CeilDiv, Pages;
    var n := CeilDiv(|list|, perPage);
    CeilDivNat(|list|, perPage);
    OffsetInside(|list|, n, perPage);
    PagesPrefix(list, perPage, n);
    forall k: nat | k < n ensures |Pages(list, perPage, k)| < |list| {
      PagesPrefix(list, perPage, k);
      OffsetInside(|list|, k, perPage);
    }
  }

  /** HasMore holds exactly when the next page shows something, for every page number. */
  lemma HasMoreExact(list: seq<Row>, page: int, perPage: int)
    ensures var p := PageOf(list, page, perPage);
            && (p.hasMore <==> PageOf(list, p.page + 1, perPage).items != [])
            && |p.items| <= p.perPage
  {
    hide Offset, CeilDiv;
    var n := if page <= 0 then 1 else page;
    var d := if perPage <= 0 then 20 else perPage;
    OffsetFacts(n, d);
    OffsetFacts(n + 1, d);
    OffsetInside(|list|, n, d);
  }
}
