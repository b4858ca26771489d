/** The event envelope and its tables: pkg/contract and the helpers of pkg/utils. */
module Contract {

  import opened Wrappers

  /** A dynamically typed field of an event or a message payload. */
  datatype Value =
    | Null
    | Str(s: string)
    | Int(n: int)
    | Time(t: int)
    | StrList(strs: seq<string>)
    | List(items: seq<Value>)
    | Other(tag: int)

  type Fields = map<string, Value>

  /** A Go map with string keys: a reference shared by everyone who holds it. */
  class FieldMap {
    var fields: Fields

    constructor ()
      ensures fields == map[]
    {
      fields := map[];
    }

    method Put(key: string, value: Value)
      modifies this
      ensures fields == old(fields)[key := value]
    {
      fields := fields[key := value];
    }

    method Remove(key: string)
      modifies this
      ensures fields == old(fields) - {key}
    {
      fields := fields - {key};
    }

    /** Copies every entry of another map in, in whatever order it iterates. */
    method PutAll(from: Fields)
      modifies this
      ensures fields == old(fields) + from
    {
      ghost var before := fields;
      var todo := from.Keys;
      while todo != {}
        invariant todo <= from.Keys
        invariant fields == before + (map k | k in from && k !in todo :: from[k])
      {
        var k :| k in todo;
        Put(k, from[k]);
        todo := todo - {k};
      }
      assert (map k | k in from && k !in todo :: from[k]) == from;
    }
  }

  const CONTENT_PUBLISHED := "content_published"
  const COMMENT_CREATED := "comment_created"
  const VIDEO_READY := "video_ready"
  const VIDEO_FAILED := "video_failed"
  const VIDEO_PROGRESS := "video_progress"
  const FLASHCARD_DUE := "flashcard_due"
  const STREAK_AT_RISK := "streak_at_risk"
  const ACHIEVEMENT_UNLOCKED := "achievement_unlocked"
  const CHALLENGE_LEADERBOARD := "challenge_leaderboard"
  const CHALLENGE_ENDED := "challenge_ended"

  const LINGOCAST_IDENTITIES: seq<string> := [
    VIDEO_READY, VIDEO_FAILED, VIDEO_PROGRESS, FLASHCARD_DUE, STREAK_AT_RISK,
    ACHIEVEMENT_UNLOCKED, CHALLENGE_LEADERBOARD, CHALLENGE_ENDED
  ]

  const ALL_IDENTITIES: seq<string> := [CONTENT_PUBLISHED, COMMENT_CREATED] + LINGOCAST_IDENTITIES

  const IN_APP := "in_app"
  const PUSH := "push"

  const EVENT_READ := "notification_read"
  const EVENT_READ_ALL := "notification_read_all"

  const IDENTITY_CHANNELS: map<string, seq<string>> := map[
    CONTENT_PUBLISHED := [IN_APP, PUSH],
    COMMENT_CREATED := [IN_APP, PUSH],
    VIDEO_READY := [IN_APP, PUSH],
    VIDEO_FAILED := [IN_APP, PUSH],
    FLASHCARD_DUE := [IN_APP, PUSH],
    ACHIEVEMENT_UNLOCKED := [IN_APP, PUSH],
    CHALLENGE_ENDED := [IN_APP, PUSH],
    VIDEO_PROGRESS := [IN_APP],
    CHALLENGE_LEADERBOARD := [IN_APP],
    STREAK_AT_RISK := [PUSH]
  ]

  /** The delivery channels of an identity; an unknown one has none. */
  function ChannelsOf(identity: string): seq<string> {
    if identity in IDENTITY_CHANNELS then IDENTITY_CHANNELS[identity] else []
  }

  predicate IsTransient(identity: string) {
    identity in {VIDEO_PROGRESS, CHALLENGE_LEADERBOARD}
  }

  predicate IsValidIdentity(identity: string) {
    identity in ALL_IDENTITIES
  }

  /** Which channels each registered identity uses: live updates never push, a streak warning
      only pushes, everything else does both, in-app first; nothing else is sent at all. */
  lemma ChannelTable(identity: string)
    ensures ChannelsOf(identity) ==
            if identity == "video_progress" || identity == "challenge_leaderboard" then ["in_app"]
            else if identity == "streak_at_risk" then ["push"]
            else if IsValidIdentity(identity) then ["in_app", "push"]
            else []
    ensures IsValidIdentity(identity) <==>
            || identity == "content_published" || identity == "comment_created" || identity == "video_ready"
            || identity == "video_failed" || identity == "video_progress" || identity == "flashcard_due"
            || identity == "streak_at_risk" || identity == "achievement_unlocked"
            || identity == "challenge_leaderboard" || identity == "challenge_ended"
    ensures IsTransient(identity) <==> IsValidIdentity(identity) && ChannelsOf(identity) == ["in_app"]
  {
  }

  // ----- envelope

  datatype EventObject = EventObject(id: string, kind: string, data: Fields)

  datatype Extra = Extra(to: Value)

  datatype Event = Event(identity: string, actor: EventObject, objects: seq<EventObject>, extra: Option<Extra>)

  datatype Invalid =
    | MissingIdentity
    | MissingActor
    | MissingDo
    | IncompleteObject(index: nat)
    | UnknownIdentity

  predicate Complete(o: EventObject) {
    o.id != "" && o.kind != ""
  }

  /** Index of the first incomplete object at or after i, if there is one. */
  function FirstIncomplete(objects: seq<EventObject>, i: nat): (r: Option<nat>)
    requires i <= |objects|
    ensures r.None? <==> forall j :: i <= j < |objects| ==> Complete(objects[j])
    ensures r.Some? ==> i <= r.value < |objects| && !Complete(objects[r.value])
                        && forall j :: i <= j < r.value ==> Complete(objects[j])
    decreases |objects| - i
  {
    if i == |objects| then None
    else if !Complete(objects[i]) then Some(i)
    else FirstIncomplete(objects, i + 1)
  }

  function Validate(e: Event): Option<Invalid> {
    if e.identity == "" then Some(MissingIdentity)
    else if !Complete(e.actor) then Some(MissingActor)
    else if e.objects == [] then Some(MissingDo)
    else
      match FirstIncomplete(e.objects, 0)
      case Some(i) => Some(IncompleteObject(i))
      case None => if !IsValidIdentity(e.identity) then Some(UnknownIdentity) else None
  }

  /** An event passes exactly when every part the pipeline relies on is there. */
  lemma ValidEvents(e: Event)
    ensures Validate(e).None? <==>
            && IsValidIdentity(e.identity)
            && Complete(e.actor)
            && e.objects != []
            && (forall o :: o in e.objects ==> Complete(o))
  {
    if Validate(e).None? {
      forall o | o in e.objects ensures Complete(o) {
        var j :| 0 <= j < |e.objects| && e.objects[j] == o;
      }
    }
  }

  /** Which complaint an event meets: the earliest part that is wrong. */
  lemma ErrorsExact(e: Event, i: nat)
    ensures Validate(e) == Some(MissingIdentity) <==> e.identity == ""
    ensures Validate(e) == Some(MissingActor) <==> e.identity != "" && (e.actor.id == "" || e.actor.kind == "")
    ensures Validate(e) == Some(MissingDo) <==>
            e.identity != "" && e.actor.id != "" && e.actor.kind != "" && e.objects == []
    ensures Validate(e) == Some(IncompleteObject(i)) <==>
            && e.identity != "" && e.actor.id != "" && e.actor.kind != ""
            && i < |e.objects| && (e.objects[i].id == "" || e.objects[i].kind == "")
            && forall j :: 0 <= j < i ==> e.objects[j].id != "" && e.objects[j].kind != ""
    ensures Validate(e) == Some(UnknownIdentity) <==>
            && e.identity != "" && e.actor.id != "" && e.actor.kind != "" && e.objects != []
            && (forall j :: 0 <= j < |e.objects| ==> e.objects[j].id != "" && e.objects[j].kind != "")
            && !IsValidIdentity(e.identity)
  {
    hide IsValidIdentity;
    var r := FirstIncomplete(e.objects, 0);
    if i < |e.objects| && !Complete(e.objects[i]) && forall j :: 0 <= j < i ==> Complete(e.objects[j]) {
      assert r == Some(i);
    }
  }

  // ----- recipients

  /** The strings of a decoded JSON list, in order; everything else is skipped. */
  function Strings(items: seq<Value>): seq<string> {
    if items == [] then []
    else
      var last := items[|items| - 1];
      Strings(items[..|items| - 1]) + if last.Str? then [last.s] else []
  }

  function SliceOf(v: Value): seq<string> {
    match v
    case StrList(strs) => strs
    case List(items) => Strings(items)
    case _ => []
  }

  method SliceFromInterface(v: Value) returns (out: seq<string>)
    ensures out == SliceOf(v)
  {
    match v {
      case StrList(strs) => out := strs;
      case List(items) =>
        out := [];
        for i := 0 to |items|
          invariant out == Strings(items[..i])
        {
          if items[i].Str? {
            out := out + [items[i].s];
          }
          assert items[..i + 1][..i] == items[..i];
        }
        assert items[..|items|] == items;
      case _ => out := [];
    }
  }

  /** extra.to decides when it is present, even when it lists nobody; otherwise the
      audience of the first object does. */
  function Recipients(e: Event): seq<string> {
    if e.extra.Some? && e.extra.value.to != Null then SliceOf(e.extra.value.to)
    else if e.objects != [] && "audience_ids" in e.objects[0].data then
      SliceOf(e.objects[0].data["audience_ids"])
    else []
  }

  /** A decoded list names u exactly when one of its items is the string u. */
  lemma {:induction false} StringsMembers(items: seq<Value>, u: string)
    ensures u in Strings(items) <==> Str(u) in items
  {
    if items != [] {
      StringsMembers(items[..|items| - 1], u);
      assert items == items[..|items| - 1] + [items[|items| - 1]];
    }
  }

  lemma {:induction false} StringsConcat(a: seq<Value>, b: seq<Value>)
    ensures Strings(a + b) == Strings(a) + Strings(b)
    decreases |b|
  {
    if b == [] {
      assert a + b == a;
    } else {
      var n := |b| - 1;
      assert (a + b)[..|a + b| - 1] == a + b[..n];
      StringsConcat(a, b[..n]);
    }
  }

  /** Each string of a decoded list is kept at its place, repeats too; nothing else is. */
  lemma StringsInOrder(before: seq<Value>, item: Value, after: seq<Value>)
    ensures Strings(before + [item] + after) == Strings(before) + (if item.Str? then [item.s] else []) + Strings(after)
  {
    hide *;
    calc {
      Strings(before + [item] + after);
    == { StringsConcat(before + [item], after); }
      Strings(before + [item]) + Strings(after);
    == { StringsConcat(before, [item]); StringsOne(item); }
      Strings(before) + (if item.Str? then [item.s] else []) + Strings(after);
    }
  }

  lemma StringsOne(item: Value)
    ensures Strings([item]) == if item.Str? then [item.s] else []
  {
    assert [item][..0] == [];
  }

  /** A value names u: a list of strings that has u, or a decoded list with the string u. */
  predicate Names(v: Value, u: string) {
    (v.StrList? && u in v.strs) || (v.List? && Str(u) in v.items)
  }

  /** Where the recipients come from: extra.to when it is there and not null, whatever it
      says; otherwise the audience of the first object, if it has one. */
  predicate Addressed(e: Event, u: string) {
    if e.extra.Some? && e.extra.value.to != Null then Names(e.extra.value.to, u)
    else e.objects != [] && "audience_ids" in e.objects[0].data && Names(e.objects[0].data["audience_ids"], u)
  }

  lemma SliceMembers(v: Value, u: string)
    ensures u in SliceOf(v) <==> Names(v, u)
  {
    if v.List? {
      StringsMembers(v.items, u);
    }
  }

  /** The recipients are exactly those addressed. */
  lemma RecipientsExact(e: Event, u: string)
    ensures u in Recipients(e) <==> Addressed(e, u)
  {
    if e.extra.Some? && e.extra.value.to != Null {
      SliceMembers(e.extra.value.to, u);
    } else if e.objects != [] && "audience_ids" in e.objects[0].data {
      SliceMembers(e.objects[0].data["audience_ids"], u);
    }
  }

  /** Nobody is a recipient exactly when nobody is addressed. */
  lemma NobodyAddressed(e: Event)
    ensures Recipients(e) == [] <==> forall u :: !Addressed(e, u)
  {
    hide Recipients, Addressed;
    forall u ensures u in Recipients(e) <==> Addressed(e, u) {
      RecipientsExact(e, u);
    }
    if Recipients(e) != [] {
      assert Addressed(e, Recipients(e)[0]);
    }
  }

  /** A list in extra.to is taken as it stands: its order, its repeats, and only its strings;
      what the first object says about an audience does not matter. */
  lemma ToIsTaken(e: Event)
    requires e.extra.Some?
    ensures e.extra.value.to.StrList? ==> Recipients(e) == e.extra.value.to.strs
    ensures e.extra.value.to.List? && (forall v :: v in e.extra.value.to.items ==> v.Str?) ==>
              && |Recipients(e)| == |e.extra.value.to.items|
              && forall i :: 0 <= i < |Recipients(e)| ==> e.extra.value.to.items[i] == Str(Recipients(e)[i])
  {
    if e.extra.value.to.List? && forall v :: v in e.extra.value.to.items ==> v.Str? {
      AllStrings(e.extra.value.to.items);
    }
  }

  lemma {:induction false} AllStrings(items: seq<Value>)
    requires forall v :: v in items ==> v.Str?
    ensures |Strings(items)| == |items| && forall i :: 0 <= i < |items| ==> items[i] == Str(Strings(items)[i])
  {
    if items != [] {
      AllStrings(items[..|items| - 1]);
    }
  }

  function GetStr(data: Fields, key: string): string {
    if key in data && data[key].Str? then data[key].s else ""
  }
}
