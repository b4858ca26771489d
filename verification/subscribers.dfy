/** The subscriber and preference collections as the service sees them:
    internal/store/mongo/subscriber.go and preference.go. */
module Subscribers {

  import opened Wrappers
  import opened Preferences

  datatype Subscriber = Subscriber(userID: string, token: string, platform: string)

  type Rows = seq<Subscriber>

  /** (user, token) is unique, as the compound index enforces. */
  predicate UniquePairs(rows: Rows) {
    forall i, j :: 0 <= i < j < |rows| ==> !(rows[i].userID == rows[j].userID && rows[i].token == rows[j].token)
  }

  function Matching(rows: Rows, u: string): Rows {
    if rows == [] then []
    else
      var last := rows[|rows| - 1];
      Matching(rows[..|rows| - 1], u) + if last.userID == u then [last] else []
  }

  predicate Registered(rows: Rows, u: string, token: string) {
    exists i :: 0 <= i < |rows| && rows[i].userID == u && rows[i].token == token
  }

  /** A lookup returns a user's rows, all of them, and nobody else's. */
  lemma {:induction false} MatchingMembers(rows: Rows, u: string)
    ensures forall s :: s in Matching(rows, u) <==> s in rows && s.userID == u
  {
    if rows != [] {
      MatchingMembers(rows[..|rows| - 1], u);
      assert rows == rows[..|rows| - 1] + [rows[|rows| - 1]];
    }
  }

  lemma MatchingOne(s: Subscriber)
    ensures Matching([s], s.userID) == [s]
  {
    assert [s][..0] == [];
    assert Matching([s], s.userID) == Matching([s][..0], s.userID) + [s];
  }

  lemma {:induction false} MatchingConcat(a: Rows, b: Rows, u: string)
    ensures Matching(a + b, u) == Matching(a, u) + Matching(b, u)
    decreases |b|
  {
    if b == [] {
      assert a + b == a;
    } else {
      var n := |b| - 1;
      assert (a + b)[..|a + b| - 1] == a + b[..n];
      MatchingConcat(a, b[..n], u);
    }
  }

  /** Index of the row an operation on (user, token) touches. */
  function Find(rows: Rows, u: string, token: string): (r: Option<nat>)
    ensures r.None? <==> !Registered(rows, u, token)
    ensures r.Some? ==> r.value < |rows| && rows[r.value].userID == u && rows[r.value].token == token
  {
    if rows == [] then None
    else
      var last := |rows| - 1;
      var r := Find(rows[..last], u, token);
      assert r.None? ==> forall i :: 0 <= i < last ==> !(rows[..last][i].userID == u && rows[..last][i].token == token);
      if r.Some? then assert Registered(rows[..last], u, token); r
      else if rows[last].userID == u && rows[last].token == token then Some(last)
      else None
  }

  function Upserted(rows: Rows, s: Subscriber): Rows {
    match Find(rows, s.userID, s.token)
    case Some(i) => rows[i := s]
    case None => rows + [s]
  }

  function Deleted(rows: Rows, u: string, token: string): Rows {
    match Find(rows, u, token)
    case Some(i) => rows[..i] + rows[i + 1..]
    case None => rows
  }

  function Drop(rows: Rows, p: nat): Rows
    requires p < |rows|
  {
    rows[..p] + rows[p + 1..]
  }

  lemma DropRegistered(rows: Rows, p: nat)
    requires UniquePairs(rows) && p < |rows|
    ensures UniquePairs(Drop(rows, p))
    ensures forall v, t :: Registered(Drop(rows, p), v, t) <==>
                           Registered(rows, v, t) && !(v == rows[p].userID && t == rows[p].token)
  {
    var rest := Drop(rows, p);
    assert forall i :: 0 <= i < |rest| ==> rest[i] == rows[if i < p then i else i + 1];
    forall v, t | Registered(rows, v, t) && !(v == rows[p].userID && t == rows[p].token)
      ensures Registered(rest, v, t)
    {
      var i :| 0 <= i < |rows| && rows[i].userID == v && rows[i].token == t;
      assert rest[if i < p then i else i - 1] == rows[i];
    }
  }

  lemma DropMatching(rows: Rows, p: nat, v: string)
    requires p < |rows| && v != rows[p].userID
    ensures Matching(Drop(rows, p), v) == Matching(rows, v)
  {
    var mid := [rows[p]];
    assert rows == rows[..p] + mid + rows[p + 1..];
    MatchingConcat(rows[..p] + mid, rows[p + 1..], v);
    MatchingConcat(rows[..p], mid, v);
    MatchingConcat(rows[..p], rows[p + 1..], v);
    assert mid[..0] == [];
  }

  /** Deleting keeps pairs unique, removes exactly the one pair, and leaves every other
      user's rows as they were, also when they hold the same token. */
  lemma DeletedExact(rows: Rows, u: string, token: string)
    requires UniquePairs(rows)
    ensures UniquePairs(Deleted(rows, u, token))
    ensures forall v, t :: Registered(Deleted(rows, u, token), v, t) <==>
                           Registered(rows, v, t) && !(v == u && t == token)
    ensures forall v :: v != u ==> Matching(Deleted(rows, u, token), v) == Matching(rows, v)
  {
    hide UniquePairs, Registered, Matching;
    match Find(rows, u, token)
    case None =>
    case Some(p) =>
      assert Deleted(rows, u, token) == Drop(rows, p);
      DropRegistered(rows, p);
      forall v | v != u ensures Matching(Deleted(rows, u, token), v) == Matching(rows, v) {
        DropMatching(rows, p, v);
      }
  }

  predicate SamePair(r: Subscriber, s: Subscriber) {
    r.userID == s.userID && r.token == s.token
  }

  lemma UpsertedRows(rows: Rows, s: Subscriber)
    requires UniquePairs(rows)
    ensures var more := Upserted(rows, s);
            && |more| == |rows| + (if Registered(rows, s.userID, s.token) then 0 else 1)
            && (forall i :: 0 <= i < |rows| ==> more[i] == if SamePair(rows[i], s) then s else rows[i])
            && (|more| > |rows| ==> more[|rows|] == s && forall i :: 0 <= i < |rows| ==> !SamePair(rows[i], s))
            && UniquePairs(more) && s in more
  {
    match Find(rows, s.userID, s.token)
    case Some(p) => assert Upserted(rows, s)[p] == s;
    case None => assert Upserted(rows, s)[|rows|] == s;
  }

  lemma UpsertedOthers(rows: Rows, s: Subscriber, v: string)
    requires v != s.userID
    ensures Matching(Upserted(rows, s), v) == Matching(rows, v)
  {
    match Find(rows, s.userID, s.token)
    case Some(i) =>
      var a, b := rows[..i], rows[i + 1..];
      assert rows == a + [rows[i]] + b && Upserted(rows, s) == a + [s] + b;
      MatchingConcat(a + [rows[i]], b, v);
      MatchingConcat(a + [s], b, v);
      MatchingConcat(a, [rows[i]], v);
      MatchingConcat(a, [s], v);
      assert [rows[i]][..0] == [] && [s][..0] == [];
    case None =>
      MatchingConcat(rows, [s], v);
      assert [s][..0] == [];
  }

  /** Registering keeps pairs unique, adds exactly the one pair or replaces its row in
      place, and leaves every other row, and every other user's list, as it was. */
  lemma UpsertedExact(rows: Rows, s: Subscriber)
    requires UniquePairs(rows)
    ensures UniquePairs(Upserted(rows, s)) && s in Upserted(rows, s)
    ensures |Upserted(rows, s)| == |rows| + if Registered(rows, s.userID, s.token) then 0 else 1
    ensures forall i :: 0 <= i < |rows| ==> Upserted(rows, s)[i] == if SamePair(rows[i], s) then s else rows[i]
    ensures forall v, t :: Registered(Upserted(rows, s), v, t) <==>
                           Registered(rows, v, t) || (v == s.userID && t == s.token)
    ensures forall v :: v != s.userID ==> Matching(Upserted(rows, s), v) == Matching(rows, v)
  {
    hide UniquePairs, Upserted, Matching;
    var more := Upserted(rows, s);
    UpsertedRows(rows, s);
    forall v, t ensures Registered(more, v, t) <==> Registered(rows, v, t) || (v == s.userID && t == s.token) {
      if Registered(rows, v, t) {
        var i :| 0 <= i < |rows| && rows[i].userID == v && rows[i].token == t;
        assert more[i].userID == v && more[i].token == t;
      }
    }
    forall v | v != s.userID ensures Matching(more, v) == Matching(rows, v) {
      UpsertedOthers(rows, s, v);
    }
  }

  class SubscriberStore {
    var rows: Rows

    constructor ()
      ensures rows == []
    {
      rows := [];
    }

    /** A failed write leaves the collection alone. */
    method Upsert(s: Subscriber, fails: bool) returns (err: bool)
      modifies this
      ensures err == fails
      ensures rows == if fails then old(rows) else Upserted(old(rows), s)
    {
      if fails {
        return true;
      }
      rows := Upserted(rows, s);
      return false;
    }

    method ByUserID(userID: string, fails: bool) returns (r: Option<Rows>)
      ensures r == if fails then None else Some(Matching(rows, userID))
    {
      r := if fails then None else Some(Matching(rows, userID));
    }

    method DeleteByToken(userID: string, token: string, fails: bool) returns (err: bool)
      modifies this
      ensures err == fails
      ensures rows == if fails then old(rows) else Deleted(old(rows), userID, token)
    {
      if fails {
        return true;
      }
      rows := Deleted(rows, userID, token);
      return false;
    }
  }

  type PrefRows = map<string, Preference>

  /** A user without a stored preference gets everything. */
  function PrefOf(rows: PrefRows, u: string): Preference {
    if u in rows then rows[u] else Preference(u, true, true, [], None)
  }

  class PreferenceStore {
    var rows: PrefRows

    constructor ()
      ensures rows == map[]
    {
      rows := map[];
    }

    method Get(userID: string, fails: bool) returns (r: Option<Preference>)
      ensures r == if fails then None else Some(PrefOf(rows, userID))
    {
      r := if fails then None else Some(PrefOf(rows, userID));
    }
  }
}
