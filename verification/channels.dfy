/** Channel names and who may use them: pkg/centrifugo/channels.go and
    internal/gateway/policy.go. */
module Channels {

  import opened Wrappers

  const NAMESPACE_NOTI := "noti"
  const KIND_USER := "user"
  const KIND_TOPIC := "topic"
  const KIND_CHALLENGE := "challenge"

  function NotiChannel(userID: string): string {
    NAMESPACE_NOTI + ":" + KIND_USER + ":" + userID
  }

  function ChallengeChannel(challengeID: string): string {
    NAMESPACE_NOTI + ":" + KIND_CHALLENGE + ":" + challengeID
  }

  function UserRoom(userID: string): string {
    KIND_USER + ":" + userID
  }

  function ChallengeRoom(challengeID: string): string {
    KIND_CHALLENGE + ":" + challengeID
  }

  function ChannelFromRoomID(roomID: string): string {
    NAMESPACE_NOTI + ":" + roomID
  }

  function CutPrefix(s: string, prefix: string): Option<string> {
    if prefix <= s then Some(s[|prefix|..]) else None
  }

  /** Splits round the first separator, if there is one. */
  function Cut(s: string, sep: char): Option<(string, string)> {
    if s == "" then None
    else if s[0] == sep then Some(("", s[1..]))
    else
      match Cut(s[1..], sep)
      case None => None
      case Some((before, after)) => Some(([s[0]] + before, after))
  }

  function ParseNotiChannel(channel: string): Option<(string, string)> {
    match CutPrefix(channel, NAMESPACE_NOTI + ":")
    case None => None
    case Some(rest) =>
      match Cut(rest, ':')
      case None => None
      case Some((kind, id)) => if kind == "" || id == "" then None else Some((kind, id))
  }

  /** Cut finds the first separator: the parts rebuild the text and the first has none. */
  lemma {:induction false} CutExact(s: string, sep: char, before: string, after: string)
    ensures Cut(s, sep) == Some((before, after)) <==> s == before + [sep] + after && sep !in before
  {
    if s == "" {
    } else if s[0] == sep {
      assert (before + [sep] + after)[0] == if before == "" then sep else before[0];
      assert [sep] + s[1..] == s;
    } else {
      var tail := if before == "" then "" else before[1..];
      CutExact(s[1..], sep, tail, after);
      if before != "" {
        assert before == [before[0]] + tail;
        assert before + [sep] + after == [before[0]] + (tail + [sep] + after);
        if s == before + [sep] + after {
          assert s[1..] == tail + [sep] + after;
        }
        if Cut(s, sep) == Some((before, after)) {
          assert s == [s[0]] + s[1..];
        }
      }
    }
  }

  /** Parsing inverts naming, both ways: a channel parses to (kind, id) exactly when it is
      that name, the kind is non-empty without a colon and the id non-empty. The id may
      hold colons. */
  lemma ParseExact(channel: string, kind: string, id: string)
    ensures ParseNotiChannel(channel) == Some((kind, id)) <==>
            channel == NAMESPACE_NOTI + ":" + kind + ":" + id && kind != "" && id != "" && ':' !in kind
  {
    var prefix := NAMESPACE_NOTI + ":";
    assert prefix <= prefix + kind + ":" + id;
    if prefix <= channel {
      var rest := channel[|prefix|..];
      assert channel == prefix + rest;
      CutExact(rest, ':', kind, id);
      assert prefix + (kind + ":" + id) == prefix + kind + ":" + id;
      if channel == prefix + kind + ":" + id {
        assert rest == kind + ":" + id;
      }
    }
  }

  /** The names on the wire. */
  lemma WireNames(id: string)
    ensures NotiChannel(id) == "noti:user:" + id && ChallengeChannel(id) == "noti:challenge:" + id
    ensures UserRoom(id) == "user:" + id && ChallengeRoom(id) == "challenge:" + id
    ensures ChannelFromRoomID(id) == "noti:" + id
  {
  }

  /** The address a user's messages are sent to is that user's channel, and parses back. */
  lemma UserAddress(u: string)
    ensures ChannelFromRoomID(UserRoom(u)) == NotiChannel(u)
    ensures u != "" ==> ParseNotiChannel(NotiChannel(u)) == Some((KIND_USER, u))
    ensures u == "" ==> ParseNotiChannel(NotiChannel(u)) == None
  {
    assert NAMESPACE_NOTI + ":" + (KIND_USER + ":" + u) == NAMESPACE_NOTI + ":" + KIND_USER + ":" + u;
    if u != "" {
      ParseExact(NotiChannel(u), KIND_USER, u);
    } else {
      assert NotiChannel("") == "noti:user:";
      assert CutPrefix(NotiChannel(""), "noti:") == Some("user:");
      CutExact("user:", ':', KIND_USER, "");
    }
  }

  lemma ChallengeAddress(id: string)
    ensures ChannelFromRoomID(ChallengeRoom(id)) == ChallengeChannel(id)
    ensures id != "" ==> ParseNotiChannel(ChallengeChannel(id)) == Some((KIND_CHALLENGE, id))
  {
    assert NAMESPACE_NOTI + ":" + (KIND_CHALLENGE + ":" + id) == NAMESPACE_NOTI + ":" + KIND_CHALLENGE + ":" + id;
    ParseExact(ChallengeChannel(id), KIND_CHALLENGE, id);
  }

  /** Different users have different channels, and no user's channel is a challenge's. */
  lemma AddressesDistinct(u: string, v: string)
    ensures NotiChannel(u) == NotiChannel(v) ==> u == v
    ensures UserRoom(u) == UserRoom(v) ==> u == v
    ensures UserRoom(u) != ChallengeRoom(v)
    ensures NotiChannel(u) != ChallengeChannel(v)
  {
    var p := NAMESPACE_NOTI + ":" + KIND_USER + ":";
    assert NotiChannel(u)[|p|..] == u && NotiChannel(v)[|p|..] == v;
    assert UserRoom(u)[5..] == u && UserRoom(v)[5..] == v;
    assert UserRoom(u)[0] != ChallengeRoom(v)[0];
    assert NotiChannel(u)[5] != ChallengeChannel(v)[5];
  }

  // ----- access

  /** What verifying a subscription token yields: the (subject, channel) it was minted for,
      or None for a bad one. */
  type TokenParser = string -> Option<(string, string)>

  predicate Allow(parse: TokenParser, userID: string, channel: string, subToken: string) {
    if userID == "" then false
    else
      match ParseNotiChannel(channel)
      case None => false
      case Some((kind, id)) =>
        if kind == KIND_USER then id == userID
        else if kind == KIND_TOPIC then true
        else if kind == KIND_CHALLENGE then
          subToken != "" && parse(subToken) == Some((userID, channel))
        else false
  }

  /** Nobody but u may act on u's channel, whatever token they bring. */
  lemma OwnerOnly(parse: TokenParser, v: string, u: string, token: string)
    ensures Allow(parse, v, NotiChannel(u), token) <==> v == u && u != ""
  {
    UserAddress(u);
  }

  /** A challenge channel takes a token minted for exactly this user and channel. */
  lemma ChallengeNeedsToken(parse: TokenParser, v: string, id: string, token: string)
    requires id != ""
    ensures Allow(parse, v, ChallengeChannel(id), token) <==>
            v != "" && token != "" && parse(token) == Some((v, ChallengeChannel(id)))
  {
    ChallengeAddress(id);
  }

  /** Everything the policy lets through, by name. */
  lemma AllowExact(parse: TokenParser, v: string, channel: string, token: string)
    ensures Allow(parse, v, channel, token) <==>
            v != "" &&
            (|| channel == NotiChannel(v)
             || (exists id :: id != "" && channel == NAMESPACE_NOTI + ":" + KIND_TOPIC + ":" + id)
             || (exists id :: id != "" && channel == ChallengeChannel(id)
                              && token != "" && parse(token) == Some((v, channel))))
  {
    if v != "" {
      UserAddress(v);
      forall id | id != "" ensures ParseNotiChannel(NAMESPACE_NOTI + ":" + KIND_TOPIC + ":" + id) == Some((KIND_TOPIC, id)) {
        ParseExact(NAMESPACE_NOTI + ":" + KIND_TOPIC + ":" + id, KIND_TOPIC, id);
      }
      forall id | id != "" ensures ParseNotiChannel(ChallengeChannel(id)) == Some((KIND_CHALLENGE, id)) {
        ChallengeAddress(id);
      }
      match ParseNotiChannel(channel) {
        case Some((kind, id)) => ParseExact(channel, kind, id);
        case None =>
      }
    }
  }
}
