/** The per-user gates of internal/domain/preference.go. */
module Preferences {

  import opened Wrappers
  import opened Arith
  import opened Contract

  const DAY: int := 1440

  /** Minutes past midnight. */
  type Minute = m: int | 0 <= m < 1440

  /** What the time library answers at the moment of a lookup: "HH:MM" to minutes, and the
      local minute in a named zone (None when it cannot be parsed or resolved). */
  datatype Clock = Clock(parse: string -> Option<Minute>, local: string -> Option<Minute>)

  datatype QuietHours = QuietHours(start: string, end: string, timezone: string)

  datatype Preference = Preference(
    userID: string,
    inApp: bool,
    push: bool,
    muted: seq<string>,
    quiet: Option<QuietHours>)

  predicate IsMuted(p: Preference, identity: string) {
    identity in p.muted
  }

  /** The branchy window test; a zero-length window holds nothing. */
  predicate InWindow(start: int, end: int, m: int) {
    if start == end then false
    else if start < end then m >= start && m < end
    else m >= start || m < end
  }

  predicate InQuietHours(p: Preference, clock: Clock) {
    p.quiet.Some? &&
    var q := p.quiet.value;
    && q.timezone != ""
    && clock.local(q.timezone).Some?
    && clock.parse(q.start).Some?
    && clock.parse(q.end).Some?
    && InWindow(clock.parse(q.start).value, clock.parse(q.end).value, clock.local(q.timezone).value)
  }

  predicate Allowed(p: Preference, identity: string, channel: string, clock: Clock) {
    if IsMuted(p, identity) then false
    else if channel == IN_APP then p.inApp
    else if channel == PUSH then p.push && !InQuietHours(p, clock)
    else true
  }

  // ----- the window is a circular interval

  /** On a day of any length n: m is held back exactly when, walking round the clock from
      start, m comes before end. */
  lemma CircularWindow(n: int, start: int, end: int, m: int)
    requires 0 <= start < n && 0 <= end < n && 0 <= m < n
    ensures InWindow(start, end, m) <==> (m - start) % n < (end - start) % n
  {
    Wrap(n, m - start);
    Wrap(n, end - start);
  }

  lemma Wrap(n: int, d: int)
    requires -n < d < n
    ensures d % n == if d < 0 then d + n else d
  {
    DivUnique(d, if d < 0 then -1 else 0, n);
  }

  /** How many of the first k minutes of the day the window holds back. */
  function HeldBack(start: int, end: int, k: nat): nat {
    if k == 0 then 0 else HeldBack(start, end, k - 1) + if InWindow(start, end, k - 1) then 1 else 0
  }

  lemma {:induction false} HeldBackCount(start: nat, end: nat, k: nat)
    ensures HeldBack(start, end, k) ==
            if start == end then 0
            else if start < end then
              if k <= start then 0 else if k <= end then k - start else end - start
            else
              (if k <= end then k else end) + (if k <= start then 0 else k - start)
    decreases k
  {
    if k > 0 {
      HeldBackCount(start, end, k - 1);
    }
  }

  /** A day of n minutes loses exactly (end - start) mod n of them, the swapped window the
      rest, and the two never overlap. */
  lemma WindowLength(n: nat, start: nat, end: nat)
    requires start < n && end < n
    ensures HeldBack(start, end, n) == (end - start) % n
    ensures start != end ==> HeldBack(start, end, n) + HeldBack(end, start, n) == n
    ensures forall m :: 0 <= m < n && start != end ==> InWindow(start, end, m) != InWindow(end, start, m)
  {
    HeldBackCount(start, end, n);
    HeldBackCount(end, start, n);
    Wrap(n, end - start);
  }

  /** Quiet hours only ever take push away: other channels do not see them, and push under
      them is push without them outside the window. */
  lemma QuietHoursOnlyHoldPush(p: Preference, identity: string, channel: string, clock: Clock)
    ensures var loud := p.(quiet := None);
            Allowed(p, identity, channel, clock) <==>
            Allowed(loud, identity, channel, clock) && !(channel == PUSH && InQuietHours(p, clock))
  {
  }

  /** What the push gate answers, in the words of the circular clock. */
  lemma PushGate(p: Preference, identity: string, clock: Clock)
    ensures Allowed(p, identity, PUSH, clock) <==>
            && identity !in p.muted
            && p.push
            && (p.quiet.Some? && p.quiet.value.timezone != "" ==>
                  match (clock.parse(p.quiet.value.start), clock.parse(p.quiet.value.end),
                         clock.local(p.quiet.value.timezone))
                  case (Some(s), Some(e), Some(m)) => (m - s) % DAY >= (e - s) % DAY
                  case _ => true)
  {
    if p.quiet.Some? {
      var q := p.quiet.value;
      match (clock.parse(q.start), clock.parse(q.end), clock.local(q.timezone)) {
        case (Some(s), Some(e), Some(m)) => CircularWindow(DAY, s, e, m);
        case _ =>
      }
    }
  }
}
