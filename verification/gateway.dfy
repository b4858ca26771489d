/** The Centrifugo callbacks of internal/gateway/handler.go, and who can receive what over
    whole runs of connections, subscriptions and publications. */
module Gateway {

  import opened Wrappers
  import opened Arith
  import opened Queues
  import opened Channels
  import opened RateLimiting
  import opened RateLimitTheorems
  import opened RateLimitWitnesses
  import opened RateLimitExact
  import DispatchWorkers

  datatype Reply =
    | InvalidRequest
    | Unauthorized
    | Forbidden
    | TooMany
    | Connected(user: string, channels: seq<string>)
    | Accepted

  const SECOND: int := 1_000_000_000

  /** Ten publishes a second, a burst of twenty. */
  const PUBLISH_LIMIT: Config := Config(10, 20, SECOND)

  /** What verifying a connection token yields: its subject, or None for a bad token. */
  type SubjectParser = string -> Option<string>

  function ConnectReply(subject: SubjectParser, token: string): Reply {
    if token == "" then Unauthorized
    else
      match subject(token)
      case None => Unauthorized
      case Some(user) => if user == "" then Unauthorized else Connected(user, [NotiChannel(user)])
  }

  function SubscribeReply(parse: TokenParser, user: string, channel: string, token: string): Reply {
    if Allow(parse, user, channel, token) then Accepted else Forbidden
  }

  /** Who may connect, and as whom: the subject of a token that verifies, on that user's own
      channel; nobody else. */
  lemma ConnectExact(subject: SubjectParser, token: string, u: string)
    ensures (exists chs :: ConnectReply(subject, token) == Connected(u, chs)) <==>
            token != "" && subject(token) == Some(u) && u != ""
    ensures ConnectReply(subject, token).Connected? ==>
              ConnectReply(subject, token).channels == ["noti:user:" + ConnectReply(subject, token).user]
    ensures !ConnectReply(subject, token).Connected? ==> ConnectReply(subject, token) == Unauthorized
  {
    if ConnectReply(subject, token).Connected? {
      WireNames(ConnectReply(subject, token).user);
    }
    if token != "" && subject(token) == Some(u) && u != "" {
      assert ConnectReply(subject, token) == Connected(u, [NotiChannel(u)]);
    }
  }

  /** Which subscriptions are accepted, by channel name; the others are refused. */
  lemma SubscribeExact(parse: TokenParser, user: string, channel: string, token: string)
    ensures SubscribeReply(parse, user, channel, token) == Accepted <==>
            user != "" &&
            (|| channel == "noti:user:" + user
             || (exists id :: id != "" && channel == "noti:topic:" + id)
             || (exists id :: id != "" && channel == "noti:challenge:" + id
                              && token != "" && parse(token) == Some((user, channel))))
    ensures SubscribeReply(parse, user, channel, token) in {Accepted, Forbidden}
  {
    hide Allow;
    AllowExact(parse, user, channel, token);
    WireNames(user);
    forall id: string ensures NAMESPACE_NOTI + ":" + KIND_TOPIC + ":" + id == "noti:topic:" + id
                              && ChallengeChannel(id) == "noti:challenge:" + id
    {
      WireNames(id);
      assert NAMESPACE_NOTI + ":" + KIND_TOPIC + ":" == "noti:topic:";
    }
  }

  class ProxyHandler {
    const subject: SubjectParser
    const parse: TokenParser
    const limiter: RateLimiter

    constructor (subject: SubjectParser, parse: TokenParser)
      ensures limiter.Valid() && limiter.Cfg() == PUBLISH_LIMIT && limiter.View() == map[]
      ensures this.subject == subject && this.parse == parse && fresh(limiter) && fresh(limiter.buckets.Values)
    {
      this.subject, this.parse := subject, parse;
      limiter := new RateLimiter(10, 20, SECOND);
    }

    /** A client publish: the limiter first, for every request, then the policy. */
    method Publish(user: string, channel: string, now: int) returns (r: Reply)
      requires limiter.Valid()
      modifies limiter, limiter.buckets.Values
      ensures limiter.Valid() && fresh(limiter.buckets.Values - old(limiter.buckets.Values))
      ensures limiter.View() == Step(limiter.Cfg(), old(limiter.View()), Call(user, now))
      ensures r == if !Admits(limiter.Cfg(), Lookup(old(limiter.View()), user), now) then TooMany
                   else if !Allow(parse, user, channel, "") then Forbidden
                   else Accepted
    {
      var ok := limiter.Allow(user, now);
      if !ok {
        return TooMany;
      }
      if !Allow(parse, user, channel, "") {
        return Forbidden;
      }
      return Accepted;
    }
  }

  // ----- client publishes

  datatype Request = Request(user: string, channel: string, at: int)

  function Calls(reqs: seq<Request>): seq<Op> {
    if reqs == [] then [] else [Call(reqs[0].user, reqs[0].at)] + Calls(reqs[1..])
  }

  predicate RequestsTimed(from: int, reqs: seq<Request>)
    decreases |reqs|
  {
    reqs == [] || (from <= reqs[0].at && RequestsTimed(reqs[0].at, reqs[1..]))
  }

  /** How many requests of a user within [t1, t2] are accepted. */
  function AcceptedIn(parse: TokenParser, c: Config, s: Buckets, reqs: seq<Request>, user: string, t1: int, t2: int): nat
    requires c.interval > 0
    decreases |reqs|
  {
    if reqs == [] then 0
    else
      var r := reqs[0];
      var ok := Admits(c, Lookup(s, r.user), r.at) && Allow(parse, r.user, r.channel, "");
      (if ok && r.user == user && t1 <= r.at <= t2 then 1 else 0)
      + AcceptedIn(parse, c, Step(c, s, Call(r.user, r.at)), reqs[1..], user, t1, t2)
  }

  lemma {:induction false} AcceptedAreAdmitted(parse: TokenParser, c: Config, s: Buckets, reqs: seq<Request>,
                                               user: string, t1: int, t2: int)
    requires c.interval > 0
    ensures AcceptedIn(parse, c, s, reqs, user, t1, t2) <= Admitted(Trace(c, s, Calls(reqs)), user, t1, t2)
    decreases |reqs|
  {
    if reqs != [] {
      var op := Call(reqs[0].user, reqs[0].at);
      AcceptedAreAdmitted(parse, c, Step(c, s, op), reqs[1..], user, t1, t2);
      assert Calls(reqs)[0] == op && Calls(reqs)[1..] == Calls(reqs[1..]);
      var trace := Trace(c, s, Calls(reqs));
      assert trace[1..] == Trace(c, Step(c, s, op), Calls(reqs[1..]));
    }
  }

  lemma {:induction false} CallsTimed(from: int, reqs: seq<Request>)
    requires RequestsTimed(from, reqs)
    ensures Timed(from, Calls(reqs)) && forall i :: 0 <= i < |Calls(reqs)| ==> Calls(reqs)[i].Call?
    decreases |reqs|
  {
    if reqs != [] {
      CallsTimed(reqs[0].at, reqs[1..]);
      assert Calls(reqs)[1..] == Calls(reqs[1..]);
    }
  }

  /** Whatever all users send, no window lets one user publish more than the limiter's
      worst case: 20 at once, 30 over any second. */
  lemma PublishBound(parse: TokenParser, from: int, reqs: seq<Request>, user: string, t1: int, t2: int)
    requires RequestsTimed(from, reqs) && t1 <= t2
    ensures AcceptedIn(parse, PUBLISH_LIMIT, map[], reqs, user, t1, t2) <= WorstCase(PUBLISH_LIMIT, t2 - t1)
    ensures t1 == t2 ==> AcceptedIn(parse, PUBLISH_LIMIT, map[], reqs, user, t1, t2) <= 20
    ensures t2 - t1 <= SECOND ==> AcceptedIn(parse, PUBLISH_LIMIT, map[], reqs, user, t1, t2) <= 30
  {
    CallsTimed(from, reqs);
    AcceptedAreAdmitted(parse, PUBLISH_LIMIT, map[], reqs, user, t1, t2);
    WindowBound(PUBLISH_LIMIT, from, Calls(reqs), user, t1, t2);
    WorstCaseClosedForm(PUBLISH_LIMIT, t2 - t1);
    if t2 - t1 <= SECOND {
      CeilDivLe(t2 - t1, 1, SECOND);
      MulMonotone(CeilDiv(t2 - t1, SECOND), 1, 10);
    }
  }

  /** n requests of KEY to its own channel at one instant. */
  function Own(at: int, n: nat): seq<Request> {
    if n == 0 then [] else [Request(KEY, NotiChannel(KEY), at)] + Own(at, n - 1)
  }

  lemma {:induction false} OwnCalls(at: int, n: nat)
    ensures Calls(Own(at, n)) == Burst(at, n)
    ensures forall i :: 0 <= i < |Own(at, n)| ==> Own(at, n)[i] == Request(KEY, NotiChannel(KEY), at)
  {
    if n > 0 {
      assert Own(at, n)[1..] == Own(at, n - 1);
      OwnCalls(at, n - 1);
    }
  }

  lemma {:induction false} CallsConcat(a: seq<Request>, b: seq<Request>)
    ensures Calls(a + b) == Calls(a) + Calls(b)
  {
    if a == [] {
      assert a + b == b;
    } else {
      assert (a + b)[1..] == a[1..] + b;
      CallsConcat(a[1..], b);
    }
  }

  /** Where the policy stops nothing, the limiter alone decides. */
  lemma {:induction false} OwnAccepted(parse: TokenParser, c: Config, s: Buckets, reqs: seq<Request>,
                                       user: string, t1: int, t2: int)
    requires c.interval > 0
    requires forall i :: 0 <= i < |reqs| ==> Allow(parse, reqs[i].user, reqs[i].channel, "")
    ensures AcceptedIn(parse, c, s, reqs, user, t1, t2) == Admitted(Trace(c, s, Calls(reqs)), user, t1, t2)
    decreases |reqs|
  {
    hide Allow;
    if reqs != [] {
      var op := Call(reqs[0].user, reqs[0].at);
      assert forall i :: 0 <= i < |reqs[1..]| ==> reqs[1..][i] == reqs[i + 1];
      OwnAccepted(parse, c, Step(c, s, op), reqs[1..], user, t1, t2);
      assert Calls(reqs)[0] == op && Calls(reqs)[1..] == Calls(reqs[1..]);
      var trace := Trace(c, s, Calls(reqs));
      assert trace[1..] == Trace(c, Step(c, s, op), Calls(reqs[1..]));
    }
  }

  /** And a user does get 20 at once and 30 over a second. */
  lemma PublishBoundReached(parse: TokenParser)
    ensures AcceptedIn(parse, PUBLISH_LIMIT, map[], Own(0, 25), KEY, 0, 0) == 20
    ensures AcceptedIn(parse, PUBLISH_LIMIT, map[], Own(0, 20) + Own(1_000_000_000, 15), KEY, 0, 1_000_000_000) == 30
  {
    hide AcceptedIn, Admitted, Trace, RateLimitTheorems.Run, Burst, Own, Calls, Allow, Refill;
    var c := PUBLISH_LIMIT;
    OwnCalls(0, 25);
    OwnCalls(0, 20);
    OwnCalls(SECOND, 15);
    OwnerOnly(parse, KEY, KEY, "");
    var reqs := Own(0, 20) + Own(SECOND, 15);
    CallsConcat(Own(0, 20), Own(SECOND, 15));
    OwnAccepted(parse, c, map[], Own(0, 25), KEY, 0, 0);
    OwnAccepted(parse, c, map[], reqs, KEY, 0, SECOND);
    NothingElapsed(c, c.burst, 0);
    Drain(c, map[], 0, 25, 0, 0);
    Drain(c, map[], 0, 20, 0, SECOND);
    var s := RateLimitTheorems.Run(c, map[], Burst(0, 20));
    TokensAt(c, 20, SECOND);
    Drain(c, s, SECOND, 15, 0, SECOND);
    TraceConcat(c, map[], Burst(0, 20), Burst(SECOND, 15));
    AdmittedConcat(Trace(c, map[], Burst(0, 20)), Trace(c, s, Burst(SECOND, 15)), KEY, 0, SECOND);
  }

  /** A client publish gets through only to the client's own channel or a topic. */
  lemma PublishReaches(parse: TokenParser, user: string, channel: string, u: string, id: string)
    requires Allow(parse, user, channel, "")
    ensures channel == NotiChannel(u) ==> u == user
    ensures channel != ChallengeChannel(id)
  {
    if channel == NotiChannel(u) {
      OwnerOnly(parse, user, u, "");
    }
    if channel == ChallengeChannel(id) {
      AllowExact(parse, user, channel, "");
      AddressesDistinct(user, id);
      TopicNotChallenge(id);
    }
  }

  lemma TopicNotChallenge(id: string)
    ensures forall x: string :: NAMESPACE_NOTI + ":" + KIND_TOPIC + ":" + x != ChallengeChannel(id)
  {
    forall x: string ensures NAMESPACE_NOTI + ":" + KIND_TOPIC + ":" + x != ChallengeChannel(id) {
      assert (NAMESPACE_NOTI + ":" + KIND_TOPIC + ":" + x)[5] == 't';
      assert ChallengeChannel(id)[5] == 'c';
    }
  }

  // ----- who receives

  datatype Live = Live(users: map<nat, string>, subs: set<(nat, string)>)

  datatype Event =
    | Connect(conn: nat, token: string)
    | Subscribe(conn: nat, channel: string, token: string)
    | Unsubscribe(conn: nat, channel: string)
    | Disconnect(conn: nat)

  /** Centrifugo keeps what the callbacks allow: a connection belongs to the user of its
      token and starts on the channels of the reply; it asks for further channels as that
      user. */
  function Apply(subject: SubjectParser, parse: TokenParser, x: Live, e: Event): Live {
    match e
    case Connect(c, token) =>
      var r := ConnectReply(subject, token);
      if c in x.users || !r.Connected? then x
      else Live(x.users[c := r.user], x.subs + (set ch | ch in r.channels :: (c, ch)))
    case Subscribe(c, channel, token) =>
      if c in x.users && SubscribeReply(parse, x.users[c], channel, token).Accepted? then
        x.(subs := x.subs + {(c, channel)})
      else x
    case Unsubscribe(c, channel) => x.(subs := x.subs - {(c, channel)})
    case Disconnect(c) => Live(x.users - {c}, set s | s in x.subs && s.0 != c)
  }

  function Run(subject: SubjectParser, parse: TokenParser, x: Live, events: seq<Event>): Live
    decreases |events|
  {
    if events == [] then x else Run(subject, parse, Apply(subject, parse, x, events[0]), events[1..])
  }

  /** A connection receives a publication when it holds that channel. */
  predicate Receives(x: Live, conn: nat, p: DispatchWorkers.Publication) {
    (conn, p.channel) in x.subs
  }

  /** Every subscription was allowed to the connection's user by some token. */
  ghost predicate Vetted(parse: TokenParser, x: Live) {
    forall c, ch :: (c, ch) in x.subs ==> c in x.users && exists token :: Allow(parse, x.users[c], ch, token)
  }

  lemma ApplyVetted(subject: SubjectParser, parse: TokenParser, x: Live, e: Event)
    requires Vetted(parse, x)
    ensures Vetted(parse, Apply(subject, parse, x, e))
  {
    hide Allow, NotiChannel;
    var y := Apply(subject, parse, x, e);
    forall c, ch | (c, ch) in y.subs
      ensures c in y.users && exists token :: Allow(parse, y.users[c], ch, token)
    {
      match e
      case Connect(conn, token) =>
        if (c, ch) !in x.subs {
          OwnerOnly(parse, y.users[c], y.users[c], "");
        }
      case Subscribe(conn, channel, token) =>
      case Unsubscribe(_, _) =>
      case Disconnect(_) =>
    }
  }

  lemma {:induction false} RunVetted(subject: SubjectParser, parse: TokenParser, x: Live, events: seq<Event>)
    requires Vetted(parse, x)
    ensures Vetted(parse, Run(subject, parse, x, events))
    decreases |events|
  {
    hide Vetted, Apply;
    if events != [] {
      ApplyVetted(subject, parse, x, events[0]);
      RunVetted(subject, parse, Apply(subject, parse, x, events[0]), events[1..]);
    }
  }

  /** A fresh connection of u receives what is addressed to u's room, with no subscribing. */
  lemma OwnerReceives(subject: SubjectParser, parse: TokenParser, x: Live, conn: nat, token: string, m: WSMessage, u: string)
    requires conn !in x.users && token != "" && subject(token) == Some(u) && u != ""
    requires m.roomID == UserRoom(u)
    ensures var y := Apply(subject, parse, x, Connect(conn, token));
            y.users[conn] == u && Receives(y, conn, DispatchWorkers.PublicationOf(m))
  {
    UserAddress(u);
    assert NotiChannel(u) in [NotiChannel(u)];
  }

  /** Every connection is authenticated by a token of its user. */
  ghost predicate Authenticated(subject: SubjectParser, x: Live) {
    forall c :: c in x.users ==> x.users[c] != "" && exists token :: token != "" && subject(token) == Some(x.users[c])
  }

  lemma ApplyAuthenticated(subject: SubjectParser, parse: TokenParser, x: Live, e: Event)
    requires Authenticated(subject, x)
    ensures Authenticated(subject, Apply(subject, parse, x, e))
  {
    hide Allow, NotiChannel;
  }

  lemma {:induction false} RunAuthenticated(subject: SubjectParser, parse: TokenParser, x: Live, events: seq<Event>)
    requires Authenticated(subject, x)
    ensures Authenticated(subject, Run(subject, parse, x, events))
    decreases |events|
  {
    hide Authenticated, Apply;
    if events != [] {
      ApplyAuthenticated(subject, parse, x, events[0]);
      RunAuthenticated(subject, parse, Apply(subject, parse, x, events[0]), events[1..]);
    }
  }

  /** In any run a connection stands for a user only by a token that verified to that user. */
  lemma TokensBehindConnections(subject: SubjectParser, parse: TokenParser, events: seq<Event>, conn: nat)
    requires conn in Run(subject, parse, Live(map[], {}), events).users
    ensures var u := Run(subject, parse, Live(map[], {}), events).users[conn];
            u != "" && exists token :: token != "" && subject(token) == Some(u)
  {
    hide Run;
    RunAuthenticated(subject, parse, Live(map[], {}), events);
  }

  /** Subscribing with a token minted for a challenge brings that challenge's broadcasts; with
      none, or one for somebody else, it changes nothing. Leaving a channel, or going away,
      ends what it brought. */
  lemma ChallengeFollowed(subject: SubjectParser, parse: TokenParser, x: Live, conn: nat, id: string, token: string, m: WSMessage)
    requires conn in x.users && x.users[conn] != "" && id != "" && m.roomID == ChallengeRoom(id)
    ensures var y := Apply(subject, parse, x, Subscribe(conn, "noti:challenge:" + id, token));
            if token != "" && parse(token) == Some((x.users[conn], "noti:challenge:" + id))
            then Receives(y, conn, DispatchWorkers.PublicationOf(m)) else y == x
    ensures !Receives(Apply(subject, parse, x, Unsubscribe(conn, "noti:challenge:" + id)), conn, DispatchWorkers.PublicationOf(m))
    ensures !Receives(Apply(subject, parse, x, Disconnect(conn)), conn, DispatchWorkers.PublicationOf(m))
  {
    hide Allow;
    WireNames(id);
    ChallengeAddress(id);
    ChallengeNeedsToken(parse, x.users[conn], id, token);
  }

  /** Over any run, for all IDs, colons included: a message addressed to u's room is
      received only by connections authenticated as u; one addressed to a challenge only by
      connections whose user held a token minted for exactly that user and channel. */
  lemma PrivateDelivery(subject: SubjectParser, parse: TokenParser, events: seq<Event>, m: WSMessage, conn: nat, u: string)
    requires var x := Run(subject, parse, Live(map[], {}), events);
             Receives(x, conn, DispatchWorkers.PublicationOf(m))
    ensures var x := Run(subject, parse, Live(map[], {}), events);
            && conn in x.users
            && (m.roomID == UserRoom(u) ==> x.users[conn] == u)
            && (m.roomID == ChallengeRoom(u) && u != "" ==>
                  exists token :: parse(token) == Some((x.users[conn], ChallengeChannel(u))))
  {
    hide Run, Allow, NotiChannel, ChallengeChannel;
    var x := Run(subject, parse, Live(map[], {}), events);
    RunVetted(subject, parse, Live(map[], {}), events);
    var ch := ChannelFromRoomID(m.roomID);
    assert (conn, ch) in x.subs;
    var token :| Allow(parse, x.users[conn], ch, token);
    if m.roomID == UserRoom(u) {
      UserAddress(u);
      OwnerOnly(parse, x.users[conn], u, token);
    }
    if m.roomID == ChallengeRoom(u) && u != "" {
      ChallengeAddress(u);
      ChallengeNeedsToken(parse, x.users[conn], u, token);
    }
  }
}
