/** The in-memory store of internal/store/memory/notification.go: two indexes over one set
    of shared objects, proved to refine the operations on Tables.Table. */
module MemoryStore {

  import opened Arith
  import opened Contract
  import T = Tables

  class Notification {
    var id: string
    var userID: string
    var eventType: string
    var title: string
    var body: string
    var link: string
    var read: bool
    var extra: FieldMap
    var createdAt: int

    /** A notification with this row's values that holds the given map, not a copy of it. */
    constructor (row: T.Row, extra: FieldMap)
      requires extra.fields == row.extra
      ensures Row() == row && this.extra == extra
    {
      id, userID, eventType := row.id, row.userID, row.eventType;
      title, body, link := row.title, row.body, row.link;
      read, createdAt := row.read, row.createdAt;
      this.extra := extra;
    }

    function Row(): T.Row
      reads this, extra
    {
      T.Row(id, userID, eventType, title, body, link, read, extra.fields, createdAt)
    }
  }

  /** A list of objects shows these rows. */
  ghost predicate Shows(list: seq<Notification>, rows: seq<T.Row>)
    reads list, set i | 0 <= i < |list| :: list[i].extra
  {
    && |list| == |rows|
    && forall i :: 0 <= i < |list| ==> list[i].Row() == rows[i]
  }

  // ----- the two indexes, as values that hold references

  type ByID = map<string, Notification>
  type ByUser = map<string, seq<Notification>>

  function ListOf(byUser: ByUser, u: string): seq<Notification> {
    if u in byUser then byUser[u] else []
  }

  /** The object at place i of u is the very one the ID index maps its row's ID to. */
  ghost predicate Indexed(byID: ByID, byUser: ByUser, t: T.Table, u: string, i: nat) {
    && i < |ListOf(byUser, u)| && i < |T.Get(t, u)|
    && T.Get(t, u)[i].userID == u
    && T.Get(t, u)[i].id in byID
    && byID[T.Get(t, u)[i].id] == ListOf(byUser, u)[i]
  }

  /** Both indexes are views of one set of objects, each standing for one row of t. */
  ghost predicate TwoIndexes(byID: ByID, byUser: ByUser, t: T.Table) {
    && t.Keys == byUser.Keys
    && (forall u :: |T.Get(t, u)| == |ListOf(byUser, u)|)
    && (forall u, i {:trigger Indexed(byID, byUser, t, u, i)} ::
          0 <= i < |T.Get(t, u)| ==> Indexed(byID, byUser, t, u, i))
    && (forall id {:trigger T.Known(t, id)} :: id in byID ==> T.Known(t, id))
    && (forall u :: T.Distinct(T.Get(t, u)))
  }

  lemma KnownAt(t: T.Table, u: string, i: nat)
    requires i < |T.Get(t, u)|
    ensures T.Known(t, T.Get(t, u)[i].id)
  {
    assert T.HasID(t[u], T.Get(t, u)[i].id);
  }

  /** Where the object indexed under an ID is listed. */
  lemma Locate(byID: ByID, byUser: ByUser, t: T.Table, id: string) returns (u: string, p: nat)
    requires TwoIndexes(byID, byUser, t) && id in byID
    ensures p < |T.Get(t, u)| && T.Get(t, u)[p].id == id && T.Get(t, u)[p].userID == u
    ensures p < |ListOf(byUser, u)| && ListOf(byUser, u)[p] == byID[id]
  {
    assert T.Known(t, id);
    u, p := T.Somewhere(t, id);
    assert Indexed(byID, byUser, t, u, p);
  }

  /** Appending under an unused ID keeps the indexes in step; under a used one it does not:
      the ID index forgets an object that is still listed. */
  lemma IndexAppend(byID: ByID, byUser: ByUser, t: T.Table, row: T.Row, cp: Notification)
    requires TwoIndexes(byID, byUser, t)
    requires forall id :: id in byID ==> byID[id] != cp
    ensures TwoIndexes(byID[row.id := cp], byUser[row.userID := ListOf(byUser, row.userID) + [cp]], T.Create(t, row))
            <==> row.id !in byID
  {
    var byID', byUser', t' := byID[row.id := cp], byUser[row.userID := ListOf(byUser, row.userID) + [cp]], T.Create(t, row);
    T.AppendIDs(T.Get(t, row.userID), row);
    if row.id in byID {
      var u, p := Locate(byID, byUser, t, row.id);
      assert !Indexed(byID', byUser', t', u, p);
    } else {
      assert T.Distinct(T.Get(t, row.userID));
      forall i | 0 <= i < |T.Get(t, row.userID)| ensures T.Get(t, row.userID)[i].id != row.id {
        assert Indexed(byID, byUser, t, row.userID, i);
      }
      forall u, i | 0 <= i < |T.Get(t', u)| ensures Indexed(byID', byUser', t', u, i) {
        if u != row.userID || i < |T.Get(t, u)| {
          assert Indexed(byID, byUser, t, u, i);
        }
      }
      forall id | id in byID' ensures T.Known(t', id) {
        if id == row.id {
          KnownAt(t', row.userID, |T.Get(t, row.userID)|);
        } else {
          var u, p := Locate(byID, byUser, t, id);
          KnownAt(t', u, p);
        }
      }
      forall u ensures |T.Get(t', u)| == |ListOf(byUser', u)| && T.Distinct(T.Get(t', u)) {
        assert |T.Get(t, u)| == |ListOf(byUser, u)| && T.Distinct(T.Get(t, u));
      }
      assert TwoIndexes(byID', byUser', t');
    }
  }

  /** Changing rows without touching IDs or owners keeps the indexes in step. */
  lemma IndexSame(byID: ByID, byUser: ByUser, t: T.Table, t': T.Table)
    requires TwoIndexes(byID, byUser, t)
    requires t'.Keys == t.Keys && forall u :: |T.Get(t', u)| == |T.Get(t, u)|
    requires forall u, i :: 0 <= i < |T.Get(t, u)| ==>
               T.Get(t', u)[i].id == T.Get(t, u)[i].id && T.Get(t', u)[i].userID == T.Get(t, u)[i].userID
    ensures TwoIndexes(byID, byUser, t')
  {
    forall u, i | 0 <= i < |T.Get(t', u)| ensures Indexed(byID, byUser, t', u, i) {
      assert Indexed(byID, byUser, t, u, i);
    }
    forall id | id in byID ensures T.Known(t', id) {
      var u, p := Locate(byID, byUser, t, id);
      KnownAt(t', u, p);
    }
    forall u ensures T.Distinct(T.Get(t', u)) {
      assert T.Distinct(T.Get(t, u));
      T.SameIDs(T.Get(t, u), T.Get(t', u));
    }
  }

  lemma IndexMarkRead(byID: ByID, byUser: ByUser, t: T.Table, u: string, id: string)
    requires TwoIndexes(byID, byUser, t)
    ensures TwoIndexes(byID, byUser, T.MarkRead(t, u, id))
  {
    IndexSame(byID, byUser, t, T.MarkRead(t, u, id));
  }

  lemma IndexMarkAllRead(byID: ByID, byUser: ByUser, t: T.Table, u: string)
    requires TwoIndexes(byID, byUser, t)
    ensures TwoIndexes(byID, byUser, T.MarkAllRead(t, u))
  {
    IndexSame(byID, byUser, t, T.MarkAllRead(t, u));
  }

  /** Row k of the old list and row i of the list without row p are the same. */
  function Shifted(i: nat, p: nat): nat { if i < p then i else i + 1 }

  lemma StaysIndexed(byID: ByID, byUser: ByUser, t: T.Table, t': T.Table, byUser': ByUser, id: string,
                     v: string, k: nat, i: nat)
    requires Indexed(byID, byUser, t, v, k) && T.Get(t, v)[k].id != id
    requires i < |T.Get(t', v)| && i < |ListOf(byUser', v)|
    requires T.Get(t', v)[i] == T.Get(t, v)[k] && ListOf(byUser', v)[i] == ListOf(byUser, v)[k]
    ensures Indexed(byID - {id}, byUser', t', v, i)
  {
  }

  lemma RemoveIndexed(byID: ByID, byUser: ByUser, t: T.Table, t': T.Table, byUser': ByUser, u: string, p: nat)
    requires TwoIndexes(byID, byUser, t) && p < |T.Get(t, u)| && p < |ListOf(byUser, u)|
    requires forall v, i :: v != u && 0 <= i < |T.Get(t, v)| ==> T.Get(t, v)[i].id != T.Get(t, u)[p].id
    requires T.Get(t', u) == T.Get(t, u)[..p] + T.Get(t, u)[p + 1..]
    requires ListOf(byUser', u) == ListOf(byUser, u)[..p] + ListOf(byUser, u)[p + 1..]
    requires forall v :: v != u ==> T.Get(t', v) == T.Get(t, v) && ListOf(byUser', v) == ListOf(byUser, v)
    ensures forall v, i :: 0 <= i < |T.Get(t', v)| ==> Indexed(byID - {T.Get(t, u)[p].id}, byUser', t', v, i)
  {
    hide Indexed, T.Get, ListOf, T.Known;
    var id := T.Get(t, u)[p].id;
    assert T.Distinct(T.Get(t, u));
    forall v, i | 0 <= i < |T.Get(t', v)| ensures Indexed(byID - {id}, byUser', t', v, i) {
      assert |T.Get(t, v)| == |ListOf(byUser, v)|;
      var k := if v == u then Shifted(i, p) else i;
      assert T.Get(t', v)[i] == T.Get(t, v)[k] && ListOf(byUser', v)[i] == ListOf(byUser, v)[k];
      assert Indexed(byID, byUser, t, v, k);
      StaysIndexed(byID, byUser, t, t', byUser', id, v, k, i);
    }
  }

  lemma RemoveKnown(byID: ByID, byUser: ByUser, t: T.Table, t': T.Table, u: string, p: nat, x: string)
    requires TwoIndexes(byID, byUser, t) && p < |T.Get(t, u)|
    requires T.Get(t', u) == T.Get(t, u)[..p] + T.Get(t, u)[p + 1..]
    requires forall v :: v != u ==> T.Get(t', v) == T.Get(t, v)
    requires x in byID && x != T.Get(t, u)[p].id
    ensures T.Known(t', x)
  {
    hide TwoIndexes, T.Known, T.Get;
    var v, i := Locate(byID, byUser, t, x);
    if v == u {
      var k := if i < p then i else i - 1;
      assert T.Get(t', u)[k] == T.Get(t, u)[i];
      KnownAt(t', u, k);
    } else {
      KnownAt(t', v, i);
    }
  }

  /** Dropping an ID and its one listed object keeps the indexes in step. */
  lemma IndexRemove(byID: ByID, byUser: ByUser, t: T.Table, u: string, p: nat)
    requires TwoIndexes(byID, byUser, t) && p < |T.Get(t, u)|
    requires forall v, i :: v != u && 0 <= i < |T.Get(t, v)| ==> T.Get(t, v)[i].id != T.Get(t, u)[p].id
    ensures var id, list := T.Get(t, u)[p].id, ListOf(byUser, u);
            && p < |list|
            && TwoIndexes(byID - {id}, byUser[u := list[..p] + list[p + 1..]], T.Delete(t, u, id))
  {
    var rows, list := T.Get(t, u), ListOf(byUser, u);
    var id := rows[p].id;
    assert T.Distinct(rows) && |rows| == |list|;
    T.WithoutOne(rows, p);
    T.RemoveIDs(rows, p);
    var byID', byUser', t' := byID - {id}, byUser[u := list[..p] + list[p + 1..]], T.Delete(t, u, id);
    RemoveIndexed(byID, byUser, t, t', byUser', u, p);
    forall x | x in byID' ensures T.Known(t', x) {
      RemoveKnown(byID, byUser, t, t', u, p, x);
    }
    forall v ensures |T.Get(t', v)| == |ListOf(byUser', v)| && T.Distinct(T.Get(t', v)) {
      assert |T.Get(t, v)| == |ListOf(byUser, v)| && T.Distinct(T.Get(t, v));
    }
    assert t'.Keys == byUser'.Keys;
    assert TwoIndexes(byID', byUser', t');
  }

  function Decimal(n: nat): string {
    (if n < 10 then "" else Decimal(n / 10)) + ["0123456789"[n % 10]]
  }

  function GeneratedID(counter: nat): string {
    "mem-" + Decimal(counter)
  }

  lemma {:induction false} DecimalInjective(m: nat, n: nat)
    requires Decimal(m) == Decimal(n)
    ensures m == n
    decreases m
  {
    var a, b := Decimal(m), Decimal(n);
    var digits := "0123456789";
    assert digits[m % 10] == a[|a| - 1] && digits[n % 10] == b[|b| - 1];
    assert forall i, j :: 0 <= i < j < 10 ==> digits[i] != digits[j];
    assert m % 10 == n % 10;
    assert a[..|a| - 1] == (if m < 10 then "" else Decimal(m / 10));
    assert b[..|b| - 1] == (if n < 10 then "" else Decimal(n / 10));
    if m >= 10 && n >= 10 {
      DecimalInjective(m / 10, n / 10);
    }
  }

  function DigitValue(c: char): nat {
    if '0' <= c <= '9' then (c - '0') as nat else 0
  }

  function ReadDecimal(s: string): nat {
    if s == "" then 0 else 10 * ReadDecimal(s[..|s| - 1]) + DigitValue(s[|s| - 1])
  }

  lemma DigitReads(d: nat)
    requires d < 10
    ensures DigitValue("0123456789"[d]) == d && ("0123456789"[d] == '0' <==> d == 0)
  {
  }

  lemma DecimalParts(n: nat)
    ensures Decimal(n) != "" && Decimal(n)[|Decimal(n)| - 1] == "0123456789"[n % 10]
    ensures Decimal(n)[..|Decimal(n)| - 1] == if n < 10 then "" else Decimal(n / 10)
  {
  }

  lemma {:induction false} DecimalReads(n: nat)
    ensures ReadDecimal(Decimal(n)) == n && Decimal(n) != "" && (Decimal(n)[0] == '0' <==> n == 0)
    decreases n
  {
    hide Decimal, DigitValue;
    DecimalParts(n);
    DigitReads(n % 10);
    if n >= 10 {
      DecimalReads(n / 10);
      assert Decimal(n)[0] == Decimal(n)[..|Decimal(n)| - 1][0];
    } else {
      assert ReadDecimal("") == 0;
    }
  }

  /** A generated ID is "mem-" and the counter in decimal, without leading zeros. */
  lemma GeneratedReads(n: nat)
    requires n > 0
    ensures var id := GeneratedID(n);
            |id| > 4 && id[..4] == "mem-" && ReadDecimal(id[4..]) == n && id[4] != '0'
  {
    hide Decimal, ReadDecimal;
    DecimalReads(n);
    assert GeneratedID(n)[4..] == Decimal(n);
  }

  /** Generated IDs are all different. */
  lemma GeneratedDistinct(m: nat, n: nat)
    ensures GeneratedID(m) == GeneratedID(n) ==> m == n
  {
    assert GeneratedID(m)[4..] == Decimal(m) && GeneratedID(n)[4..] == Decimal(n);
    if GeneratedID(m) == GeneratedID(n) {
      DecimalInjective(m, n);
    }
  }

  /** Creations carry the generated IDs in turn, k of them being used up. */
  predicate Generated(ops: seq<T.Op>, k: nat)
    decreases |ops|
  {
    ops != [] ==>
      && (ops[0].OpCreate? ==> ops[0].row.id == GeneratedID(k + 1))
      && Generated(ops[1..], if ops[0].OpCreate? then k + 1 else k)
  }

  ghost predicate NamedUpTo(t: T.Table, k: nat) {
    forall id :: T.Known(t, id) ==> exists j :: 1 <= j <= k && id == GeneratedID(j)
  }

  /** Whatever is deleted or read in between, a run of creations under generated IDs never
      meets a used one. */
  lemma {:induction false} GeneratedRunFresh(t: T.Table, ops: seq<T.Op>, k: nat)
    requires NamedUpTo(t, k) && Generated(ops, k)
    ensures T.FreshIDs(t, ops)
    decreases |ops|
  {
    hide GeneratedID, T.Known, T.Apply;
    if ops != [] {
      var op := ops[0];
      var more := if op.OpCreate? then k + 1 else k;
      if op.OpCreate? && T.Known(t, op.row.id) {
        var j :| 1 <= j <= k && op.row.id == GeneratedID(j);
        GeneratedDistinct(j, k + 1);
      }
      forall id | T.Known(T.Apply(t, op), id) ensures exists j :: 1 <= j <= more && id == GeneratedID(j) {
        T.KnownAfter(t, op, id);
        if T.Known(t, id) {
          var j :| 1 <= j <= k && id == GeneratedID(j);
        } else {
          assert id == GeneratedID(k + 1);
        }
      }
      GeneratedRunFresh(T.Apply(t, op), ops[1..], more);
    }
  }

  /** Every listed object is one of the given ones, holds one of the given maps and shows
      its row of t. */
  ghost predicate Shown(byUser: ByUser, t: T.Table, objects: set<Notification>, maps: set<FieldMap>)
    reads objects, maps
  {
    && t.Keys == byUser.Keys
    && forall u :: u in t ==>
         && |t[u]| == |byUser[u]|
         && forall i :: 0 <= i < |t[u]| ==> Shows1(byUser[u][i], t[u][i], objects, maps)
  }

  ghost predicate Shows1(n: Notification, row: T.Row, objects: set<Notification>, maps: set<FieldMap>)
    reads objects, maps
  {
    n in objects && n.extra in maps && n.Row() == row
  }

  lemma ShownAt(byUser: ByUser, t: T.Table, objects: set<Notification>, maps: set<FieldMap>, u: string)
    requires Shown(byUser, t, objects, maps)
    ensures Shows(ListOf(byUser, u), T.Get(t, u))
    ensures forall n :: n in ListOf(byUser, u) ==> n in objects
  {
  }

  lemma ShownAppend(byUser: ByUser, t: T.Table, objects: set<Notification>, maps: set<FieldMap>,
                    row: T.Row, cp: Notification)
    requires Shown(byUser, t, objects, maps) && cp.Row() == row
    ensures Shown(byUser[row.userID := ListOf(byUser, row.userID) + [cp]], T.Create(t, row),
                  objects + {cp}, maps + {cp.extra})
  {
  }

  lemma ShownRemove(byUser: ByUser, t: T.Table, objects: set<Notification>, maps: set<FieldMap>, u: string, i: nat)
    requires Shown(byUser, t, objects, maps) && i < |T.Get(t, u)|
    ensures var list, rows := ListOf(byUser, u), T.Get(t, u);
            && |list| == |rows|
            && Shown(byUser[u := list[..i] + list[i + 1..]], t[u := rows[..i] + rows[i + 1..]], objects, maps)
  {
  }

  /** What the objects stand for now. */
  ghost function RowsOf(objects: set<Notification>): map<Notification, T.Row>
    reads objects, set n | n in objects :: n.extra
  {
    map n | n in objects :: n.Row()
  }

  /** The rows an earlier snapshot of the objects showed. */
  ghost predicate Showed(byUser: ByUser, t: T.Table, was: map<Notification, T.Row>) {
    && t.Keys == byUser.Keys
    && forall u :: u in t ==>
         && |t[u]| == |byUser[u]|
         && forall i :: 0 <= i < |t[u]| ==> byUser[u][i] in was && was[byUser[u][i]] == t[u][i]
  }

  lemma ShownRows(byUser: ByUser, t: T.Table, objects: set<Notification>, maps: set<FieldMap>)
    requires Shown(byUser, t, objects, maps)
    ensures Showed(byUser, t, RowsOf(objects))
  {
  }

  /** Raising the flags of u's list, and nothing else, shows the table with u's rows read. */
  lemma FlagsShown(byUser: ByUser, t: T.Table, u: string, objects: set<Notification>, maps: set<FieldMap>,
                   was: map<Notification, T.Row>)
    requires Showed(byUser, t, was) && was.Keys == objects && T.Owned(t)
    requires forall n :: n in objects ==>
               n.extra in maps && n.Row() == was[n].(read := was[n].read || n in ListOf(byUser, u))
    ensures Shown(byUser, T.MarkAllRead(t, u), objects, maps)
  {
    hide T.MarkAllRead;
    T.MarkAllReadAt(t, u);
    var s := T.MarkAllRead(t, u);
    forall v, i | v in s && 0 <= i < |s[v]| ensures Shows1(byUser[v][i], s[v][i], objects, maps) {
      var n := byUser[v][i];
      assert was[n] == t[v][i] && t[v][i].userID == v;
      assert n in ListOf(byUser, u) <==> v == u;
    }
  }

  /** Raises the Read flag of each listed object; returns how many were down. */
  method RaiseFlags(list: seq<Notification>, ghost rows: seq<T.Row>) returns (count: nat)
    requires Shows(list, rows)
    requires forall i, j :: 0 <= i < j < |list| ==> list[i] != list[j]
    modifies list`read
    ensures count == T.CountRows(rows)
    ensures forall n :: n in list ==> n.read
  {
    count := 0;
    for i := 0 to |list|
      invariant count == T.CountRows(rows[..i])
      invariant forall j :: 0 <= j < |list| ==> list[j].read == (j < i || rows[j].read)
    {
      assert rows[..i + 1][..i] == rows[..i];
      if !list[i].read {
        list[i].read := true;
        count := count + 1;
      }
    }
    assert rows[..|list|] == rows;
  }

  /** Raising all of u's flags shows the table with u's rows read. */
  method RaiseAll(list: seq<Notification>, ghost u: string, ghost byUser: ByUser, ghost t: T.Table,
                  ghost objects: set<Notification>, ghost maps: set<FieldMap>) returns (count: nat)
    requires list == ListOf(byUser, u) && Shown(byUser, t, objects, maps) && T.Owned(t)
    requires forall i, j :: 0 <= i < j < |list| ==> list[i] != list[j]
    requires forall n :: n in objects ==> n.extra in maps
    modifies list`read
    ensures Shown(byUser, T.MarkAllRead(t, u), objects, maps)
    ensures count == T.CountUnread(t, u)
  {
    hide Shown, Shows, Showed, ListOf, T.Owned, T.Get, T.MarkAllRead, T.CountUnread, T.CountRows;
    ShownAt(byUser, t, objects, maps, u);
    ShownRows(byUser, t, objects, maps);
    ghost var was := RowsOf(objects);
    count := RaiseFlags(list, T.Get(t, u));
    CountIs(t, u);
    FlagsShown(byUser, t, u, objects, maps, was);
  }

  /** Raising the flag of the object indexed under an ID shows the table with that row read. */
  lemma FlagShown(byID: ByID, byUser: ByUser, t: T.Table, u: string, id: string,
                  objects: set<Notification>, maps: set<FieldMap>, was: map<Notification, T.Row>)
    requires TwoIndexes(byID, byUser, t) && T.Owned(t) && id in byID
    requires Showed(byUser, t, was) && was.Keys == objects && byID[id] in was
    requires was[byID[id]].id == id && was[byID[id]].userID == u
    requires forall n :: n in objects ==>
               n.extra in maps && n.Row() == was[n].(read := was[n].read || n == byID[id])
    ensures Shown(byUser, T.MarkRead(t, u, id), objects, maps)
  {
    hide TwoIndexes, T.MarkRead;
    T.MarkReadAt(t, u, id);
    var s := T.MarkRead(t, u, id);
    forall v, i | v in s && 0 <= i < |s[v]| ensures Shows1(byUser[v][i], s[v][i], objects, maps) {
      PlaceIndexed(byID, byUser, t, v, i);
      assert was[byUser[v][i]] == t[v][i] && t[v][i].userID == v;
      assert byUser[v][i] == byID[id] <==> t[v][i].id == id;
    }
  }

  lemma PlaceIndexed(byID: ByID, byUser: ByUser, t: T.Table, v: string, i: nat)
    requires TwoIndexes(byID, byUser, t) && v in t && i < |t[v]|
    ensures v in byUser && i < |byUser[v]| && t[v][i].id in byID && byID[t[v][i].id] == byUser[v][i]
  {
    assert Indexed(byID, byUser, t, v, i);
  }

  method RaiseOne(n: Notification, ghost byID: ByID, ghost byUser: ByUser, ghost t: T.Table, ghost id: string,
                  ghost objects: set<Notification>, ghost maps: set<FieldMap>)
    requires TwoIndexes(byID, byUser, t) && T.Owned(t) && Shown(byUser, t, objects, maps)
    requires id in byID && byID[id] == n && n in objects && n.id == id
    requires forall n :: n in objects ==> n.extra in maps
    modifies n`read
    ensures Shown(byUser, T.MarkRead(t, n.userID, id), objects, maps)
  {
    hide TwoIndexes, Shown, Showed, T.Owned, T.MarkRead;
    ShownRows(byUser, t, objects, maps);
    ghost var was := RowsOf(objects);
    n.read := true;
    FlagShown(byID, byUser, t, n.userID, id, objects, maps, was);
  }

  lemma ShowsSlice(list: seq<Notification>, rows: seq<T.Row>, a: nat, b: nat)
    requires Shows(list, rows) && a <= b <= |list|
    ensures |list| == |rows| && Shows(list[a..b], rows[a..b]) && Shows([], [])
  {
  }

  lemma CountIs(t: T.Table, u: string)
    ensures T.CountUnread(t, u) == T.CountRows(T.Get(t, u))
  {
  }

  // ----- the store

  class NotificationStore {
    var byID: ByID
    var byUser: ByUser
    var idCounter: nat

    /** The objects the store has made, the maps they hold, and the table it stands for. */
    ghost var Objects: set<Notification>
    ghost var Maps: set<FieldMap>
    ghost var Contents: T.Table

    ghost predicate Closed()
      reads this, Objects, Maps
    {
      && (forall id :: id in byID ==> byID[id] in Objects)
      && (forall n :: n in Objects ==> n.extra in Maps)
      && Shown(byUser, Contents, Objects, Maps)
    }

    ghost predicate Valid()
      reads this, Objects, Maps
    {
      Closed() && TwoIndexes(byID, byUser, Contents)
    }

    constructor ()
      ensures Valid() && Contents == map[] && Objects == {} && Maps == {}
    {
      byID, byUser, idCounter := map[], map[], 0;
      Objects, Maps, Contents := {}, {}, map[];
    }

    /** What the aliasing amounts to: the object indexed under an ID carries that ID and is
        listed under its owner; a listed object is the indexed one and listed once. */
    lemma TwoViews()
      requires Valid()
      ensures forall id :: id in byID ==> byID[id].id == id && byID[id] in ListOf(byUser, byID[id].userID)
      ensures forall u, i :: u in byUser && 0 <= i < |byUser[u]| ==>
                byUser[u][i].userID == u && byUser[u][i].id in byID && byID[byUser[u][i].id] == byUser[u][i]
      ensures forall u, i, j :: u in byUser && 0 <= i < j < |byUser[u]| ==> byUser[u][i] != byUser[u][j]
    {
      forall id | id in byID ensures byID[id].id == id && byID[id] in ListOf(byUser, byID[id].userID) {
        var u, p := Locate(byID, byUser, Contents, id);
      }
      forall u, i | u in byUser && 0 <= i < |byUser[u]|
        ensures byUser[u][i].userID == u && byUser[u][i].id in byID && byID[byUser[u][i].id] == byUser[u][i]
      {
        assert Indexed(byID, byUser, Contents, u, i);
      }
      forall u, i, j | u in byUser && 0 <= i < j < |byUser[u]| ensures byUser[u][i] != byUser[u][j] {
        assert T.Distinct(T.Get(Contents, u));
      }
    }

    /** A valid store stands for a well-formed table, whose IDs are those of the index. */
    lemma ValidView()
      requires Valid()
      ensures T.WellFormed(Contents)
      ensures forall id :: id in byID <==> T.Known(Contents, id)
    {
      TwoViews();
      forall u, v, i, j | u in Contents && v in Contents && 0 <= i < |Contents[u]| && 0 <= j < |Contents[v]|
                          && Contents[u][i].id == Contents[v][j].id
        ensures u == v && i == j
      {
        assert byUser[u][i].id == byUser[v][j].id;
        assert T.Distinct(T.Get(Contents, u));
      }
    }

    /** The owner check through the ID index agrees with looking through the user's rows. */
    lemma OwnerCheck(u: string, id: string)
      requires Valid()
      ensures T.Owns(Contents, u, id) <==> id in byID && byID[id].userID == u
    {
      if id in byID {
        var v, p := Locate(byID, byUser, Contents, id);
        assert byUser[v][p].Row() == Contents[v][p];
        assert T.HasID(T.Get(Contents, v), id);
      }
      if T.Owns(Contents, u, id) {
        var p := T.Position(T.Get(Contents, u), id);
        assert Indexed(byID, byUser, Contents, u, p);
        assert byUser[u][p].Row() == Contents[u][p];
      }
    }

    /** Every ID in use came from the generator. */
    ghost predicate SelfNamed()
      reads this
    {
      forall id :: id in byID ==> exists k :: 1 <= k <= idCounter && id == GeneratedID(k)
    }

    /** The next generated ID is then new. */
    lemma NextIDFresh()
      requires SelfNamed()
      ensures GeneratedID(idCounter + 1) !in byID
    {
      if GeneratedID(idCounter + 1) in byID {
        var k :| 1 <= k <= idCounter && GeneratedID(idCounter + 1) == GeneratedID(k);
        GeneratedDistinct(idCounter + 1, k);
      }
    }

    /** A store only ever fed empty IDs stays consistent and self-named: deleting and
        reading keep both (see Delete and MarkRead), and this is storing. */
    method CreateUnnamed(n: Notification)
      requires Valid() && SelfNamed() && n !in Objects && n.id == ""
      modifies this, n`id
      ensures Valid() && SelfNamed() && n.id == GeneratedID(old(idCounter) + 1)
      ensures Contents == T.Create(old(Contents), n.Row())
    {
      hide TwoIndexes, Shown, T.Create, GeneratedID;
      NextIDFresh();
      Create(n);
      forall id | id in byID ensures exists k :: 1 <= k <= idCounter && id == GeneratedID(k) {
        if id == n.id {
          assert id == GeneratedID(idCounter);
        } else {
          var k :| 1 <= k <= old(idCounter) && id == GeneratedID(k);
        }
      }
    }

    method Create(n: Notification)
      requires Valid() && n !in Objects
      modifies this, n`id
      ensures n.id == if old(n.id) == "" then GeneratedID(old(idCounter) + 1) else old(n.id)
      ensures idCounter == old(idCounter) + if old(n.id) == "" then 1 else 0
      ensures Closed() && fresh(Objects - old(Objects)) && n !in Objects
      ensures byID.Keys == old(byID.Keys) + {n.id} && byID[n.id].extra == n.extra
      ensures Objects == old(Objects) + {byID[n.id]} && Maps == old(Maps) + {n.extra}
      ensures Contents == T.Create(old(Contents), n.Row())
      ensures Valid() <==> n.id !in old(byID)
    {
      hide TwoIndexes, Shown, T.Create, GeneratedID;
      if n.id == "" {
        idCounter := idCounter + 1;
        n.id := GeneratedID(idCounter);
      }
      var cp := new Notification(n.Row(), n.extra);
      Index(cp);
    }

    /** Puts a new object into both indexes. */
    method Index(cp: Notification)
      requires Valid() && cp !in Objects
      modifies `byID, `byUser, `Objects, `Maps, `Contents
      ensures Closed() && Objects == old(Objects) + {cp} && Maps == old(Maps) + {cp.extra}
      ensures byID == old(byID)[cp.id := cp]
      ensures Contents == T.Create(old(Contents), cp.Row())
      ensures Valid() <==> cp.id !in old(byID)
    {
      hide TwoIndexes, Shown, T.Create, ListOf;
      IndexAppend(byID, byUser, Contents, cp.Row(), cp);
      ShownAppend(byUser, Contents, Objects, Maps, cp.Row(), cp);
      byID := byID[cp.id := cp];
      byUser := byUser[cp.userID := ListOf(byUser, cp.userID) + [cp]];
      Objects, Maps := Objects + {cp}, Maps + {cp.extra};
      Contents := T.Create(Contents, cp.Row());
    }

    method GetByID(userID: string, id: string) returns (r: Notification?)
      requires Valid()
      ensures r == null <==> !T.Owns(Contents, userID, id)
      ensures r != null ==> fresh(r) && r.Row() in T.Get(Contents, userID) && r.id == id
    {
      OwnerCheck(userID, id);
      if id !in byID || byID[id].userID != userID {
        return null;
      }
      ghost var u, p := Locate(byID, byUser, Contents, id);
      assert byUser[u][p].Row() == Contents[u][p];
      r := new Notification(byID[id].Row(), byID[id].extra);
    }

    /** Fresh copies of a list of stored objects. */
    method Copies(list: seq<Notification>, ghost rows: seq<T.Row>) returns (out: seq<Notification>)
      requires Shows(list, rows)
      ensures Shows(out, rows)
      ensures forall i :: 0 <= i < |out| ==> fresh(out[i])
    {
      out := [];
      for i := 0 to |list|
        invariant |out| == i
        invariant forall j :: 0 <= j < i ==> fresh(out[j]) && out[j].Row() == rows[j]
      {
        var cp := new Notification(list[i].Row(), list[i].extra);
        out := out + [cp];
      }
    }

    method ListByUserID(userID: string, limit0: int) returns (out: seq<Notification>)
      requires Valid()
      ensures var limit := if limit0 <= 0 then 20 else limit0;
              var rows := T.Get(Contents, userID);
              Shows(out, if |rows| > limit then rows[..limit] else rows)
      ensures forall i :: 0 <= i < |out| ==> fresh(out[i])
    {
      ShownAt(byUser, Contents, Objects, Maps, userID);
      var list := ListOf(byUser, userID);
      ghost var rows := T.Get(Contents, userID);
      var limit := if limit0 <= 0 then 20 else limit0;
      if |list| > limit {
        list, rows := list[..limit], rows[..limit];
      }
      out := Copies(list, rows);
    }

    /** The stored objects a listing selects. */
    method Select(userID: string, unreadOnly: bool) returns (filtered: seq<Notification>)
      requires Valid()
      ensures Shows(filtered, T.Filtered(T.Get(Contents, userID), unreadOnly))
    {
      hide TwoIndexes, Shown;
      ShownAt(byUser, Contents, Objects, Maps, userID);
      filtered := Filter(ListOf(byUser, userID), T.Get(Contents, userID), unreadOnly);
    }

    /** The objects of a list that a filter keeps, in order. */
    method Filter(list: seq<Notification>, ghost rows: seq<T.Row>, unreadOnly: bool) returns (filtered: seq<Notification>)
      requires Shows(list, rows)
      ensures Shows(filtered, T.Filtered(rows, unreadOnly))
    {
      filtered := [];
      for i := 0 to |list|
        invariant Shows(filtered, T.Filtered(rows[..i], unreadOnly))
      {
        assert rows[..i + 1][..i] == rows[..i];
        if !(unreadOnly && list[i].read) {
          filtered := filtered + [list[i]];
        }
      }
      assert rows[..|list|] == rows;
    }

    method ListByUserIDPaginated(userID: string, page0: int, perPage0: int, unreadOnly: bool)
      returns (items: seq<Notification>, total: nat, page: int, perPage: int, totalPages: int, hasMore: bool)
      requires Valid()
      ensures var p := T.PageOf(T.Filtered(T.Get(Contents, userID), unreadOnly), page0, perPage0);
              && Shows(items, p.items)
              && p == T.Page(p.items, total, page, perPage, totalPages, hasMore)
      ensures forall i :: 0 <= i < |items| ==> fresh(items[i])
    {
      hide TwoIndexes, Shown, Shows, T.Filtered, T.Get, T.Offset, CeilDiv;
      var filtered := Select(userID, unreadOnly);
      ghost var rows := T.Filtered(T.Get(Contents, userID), unreadOnly);
      ShowsSlice(filtered, rows, 0, 0);
      total := |filtered|;
      page := if page0 <= 0 then 1 else page0;
      perPage := if perPage0 <= 0 then 20 else perPage0;
      totalPages := CeilDiv(total, perPage);
      T.OffsetFacts(page, perPage);
      T.OffsetIs(page, perPage);
      var start := (page - 1) * perPage;
      if start >= |filtered| {
        items, hasMore := [], false;
        return;
      }
      var end := start + perPage;
      if end > |filtered| {
        end := |filtered|;
      }
      ShowsSlice(filtered, rows, start, end);
      items := Copies(filtered[start..end], rows[start..end]);
      hasMore := page < totalPages;
    }

    method MarkRead(userID: string, id: string) returns (ok: bool)
      requires Valid()
      modifies Objects`read, this`Contents
      ensures Valid()
      ensures ok == T.Owns(old(Contents), userID, id)
      ensures Contents == T.MarkRead(old(Contents), userID, id)
    {
      hide TwoIndexes, Shown, T.MarkRead, T.Known, T.HasID, T.WellFormed, T.Owned;
      OwnerCheck(userID, id);
      if id !in byID || byID[id].userID != userID {
        T.MarkReadAbsent(Contents, userID, id);
        ok := false;
      } else {
        ValidView();
        T.OwnersRight(Contents);
        IndexedID(id);
        IndexMarkRead(byID, byUser, Contents, userID, id);
        RaiseOne(byID[id], byID, byUser, Contents, id, Objects, Maps);
        Contents := T.MarkRead(Contents, userID, id);
        ok := true;
      }
    }

    lemma IndexedID(id: string)
      requires Valid() && id in byID
      ensures byID[id].id == id
    {
      TwoViews();
    }

    method MarkAllRead(userID: string) returns (count: nat)
      requires Valid()
      modifies Objects`read, this`Contents
      ensures Valid()
      ensures count == T.CountUnread(old(Contents), userID)
      ensures Contents == T.MarkAllRead(old(Contents), userID)
    {
      hide TwoIndexes, Shown, ListOf, T.WellFormed, T.Owned, T.MarkAllRead, T.CountUnread;
      ListDistinct(userID);
      ValidView();
      T.OwnersRight(Contents);
      IndexMarkAllRead(byID, byUser, Contents, userID);
      count := RaiseAll(ListOf(byUser, userID), userID, byUser, Contents, Objects, Maps);
      Contents := T.MarkAllRead(Contents, userID);
    }

    lemma ListDistinct(u: string)
      requires Valid()
      ensures var list := ListOf(byUser, u);
              && (forall i, j :: 0 <= i < j < |list| ==> list[i] != list[j])
              && (forall n :: n in list ==> n in Objects)
    {
      TwoViews();
    }

    method Delete(userID: string, id: string) returns (ok: bool)
      requires Valid()
      modifies `byID, `byUser, `Contents
      ensures Valid()
      ensures ok == T.Owns(old(Contents), userID, id)
      ensures Contents == T.Delete(old(Contents), userID, id)
      ensures byID.Keys <= old(byID.Keys) && (old(SelfNamed()) ==> SelfNamed())
    {
      hide TwoIndexes, T.Delete, T.Known, T.HasID;
      OwnerCheck(userID, id);
      if id !in byID || byID[id].userID != userID {
        T.DeleteAbsent(Contents, userID, id);
        return false;
      }
      ghost var u, p := Locate(byID, byUser, Contents, id);
      var list := byUser[userID];
      var i := 0;
      while list[i].id != id
        invariant 0 <= i <= p
        decreases p - i
      {
        i := i + 1;
      }
      Unlist(userID, id, i);
      return true;
    }

    /** Drops place i of a user's list, and its ID, shifting the rest of the list down. */
    method Unlist(userID: string, id: string, i: nat)
      requires Valid() && i < |ListOf(byUser, userID)| && i < |T.Get(Contents, userID)|
      requires T.Get(Contents, userID)[i].id == id
      modifies `byID, `byUser, `Contents
      ensures Valid() && byID.Keys == old(byID.Keys) - {id}
      ensures Contents == T.Delete(old(Contents), userID, id)
    {
      hide TwoIndexes, Shown, T.Delete, T.WellFormed, T.Known;
      ValidView();
      T.OneOwner(Contents, userID, i);
      IndexRemove(byID, byUser, Contents, userID, i);
      ShownRemove(byUser, Contents, Objects, Maps, userID, i);
      T.DeleteAt(Contents, userID, i);
      var list := byUser[userID];
      byID := byID - {id};
      byUser := byUser[userID := list[..i] + list[i + 1..]];
      Contents := T.Delete(Contents, userID, id);
    }

    method CountUnread(userID: string) returns (count: nat)
      requires Valid()
      ensures count == T.CountUnread(Contents, userID)
    {
      hide TwoIndexes;
      ShownAt(byUser, Contents, Objects, Maps, userID);
      count := 0;
      var list := ListOf(byUser, userID);
      ghost var rows := T.Get(Contents, userID);
      for i := 0 to |list|
        invariant count == T.CountRows(rows[..i])
      {
        assert rows[..i + 1][..i] == rows[..i];
        if !list[i].read {
          count := count + 1;
        }
      }
      assert rows[..|list|] == rows;
    }
  }
}
