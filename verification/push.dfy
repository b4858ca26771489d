/** Delivering push jobs and pruning dead device tokens: pkg/push/fcm.go and
    cmd/worker-push/main.go. */
module PushDelivery {

  import opened Wrappers
  import opened Queues
  import opened Subscribers

  datatype Response = Accepted | Unregistered(reason: string) | InvalidArgument(reason: string) | OtherError(reason: string)

  /** What the multicast call answers; None when the call itself fails. */
  datatype Multicast = Multicast(successCount: nat, responses: seq<Response>)

  datatype Result = Result(sent: nat, unregistered: seq<string>, failed: map<string, string>)

  predicate Dead(r: Response) {
    r.Unregistered? || r.InvalidArgument?
  }

  predicate Transient(r: Response) {
    r.OtherError?
  }

  function Covered(tokens: seq<string>, responses: seq<Response>): nat {
    if |tokens| < |responses| then |tokens| else |responses|
  }

  function DeadTokens(tokens: seq<string>, responses: seq<Response>, n: nat): seq<string>
    requires n <= Covered(tokens, responses)
  {
    if n == 0 then []
    else DeadTokens(tokens, responses, n - 1) + if Dead(responses[n - 1]) then [tokens[n - 1]] else []
  }

  function FailedTokens(tokens: seq<string>, responses: seq<Response>, n: nat): map<string, string>
    requires n <= Covered(tokens, responses)
  {
    if n == 0 then map[]
    else
      var before := FailedTokens(tokens, responses, n - 1);
      if Transient(responses[n - 1]) then before[tokens[n - 1] := responses[n - 1].reason] else before
  }

  /** Classifies the answers; responses past the last token are ignored. */
  function Classified(tokens: seq<string>, m: Multicast): Result {
    var n := Covered(tokens, m.responses);
    Result(m.successCount, DeadTokens(tokens, m.responses, n), FailedTokens(tokens, m.responses, n))
  }

  method Send(tokens: seq<string>, reply: Option<Multicast>) returns (r: Option<Result>)
    ensures r == if tokens == [] then Some(Result(0, [], map[]))
                 else if reply.None? then None
                 else Some(Classified(tokens, reply.value))
  {
    if |tokens| == 0 {
      return Some(Result(0, [], map[]));
    }
    if reply.None? {
      return None;
    }
    var responses := reply.value.responses;
    var unregistered, failed := [], map[];
    ghost var covered := Covered(tokens, responses);
    for i := 0 to |responses|
      invariant unregistered == DeadTokens(tokens, responses, if i < covered then i else covered)
      invariant failed == FailedTokens(tokens, responses, if i < covered then i else covered)
    {
      if !(responses[i].Accepted? || i >= |tokens|) {
        var token := tokens[i];
        if responses[i].Unregistered? || responses[i].InvalidArgument? {
          unregistered := unregistered + [token];
        } else {
          failed := failed[token := responses[i].reason];
        }
      }
    }
    r := Some(Result(reply.value.successCount, unregistered, failed));
  }

  // ----- what the classes mean

  /** A token is reported dead, or failed, exactly when some answer about it says so. */
  lemma {:induction false} ClassesExact(tokens: seq<string>, responses: seq<Response>, n: nat, t: string)
    requires n <= Covered(tokens, responses)
    ensures t in DeadTokens(tokens, responses, n) <==>
            exists i :: 0 <= i < n && tokens[i] == t && (responses[i].Unregistered? || responses[i].InvalidArgument?)
    ensures t in FailedTokens(tokens, responses, n) <==>
            exists i :: 0 <= i < n && tokens[i] == t && responses[i].OtherError?
    decreases n
  {
    if n > 0 {
      ClassesExact(tokens, responses, n - 1, t);
    }
  }

  /** The reason kept for a failed token is that of the last answer that failed it. */
  lemma {:induction false} LastReason(tokens: seq<string>, responses: seq<Response>, n: nat, i: nat)
    requires i < n <= Covered(tokens, responses) && responses[i].OtherError?
    requires forall j :: i < j < n && tokens[j] == tokens[i] ==> !responses[j].OtherError?
    ensures tokens[i] in FailedTokens(tokens, responses, n)
    ensures FailedTokens(tokens, responses, n)[tokens[i]] == responses[i].reason
    decreases n
  {
    if i < n - 1 {
      LastReason(tokens, responses, n - 1, i);
    }
  }

  function CountDead(responses: seq<Response>, n: nat): nat
    requires n <= |responses|
  {
    if n == 0 then 0
    else CountDead(responses, n - 1) +
         if responses[n - 1].Unregistered? || responses[n - 1].InvalidArgument? then 1 else 0
  }

  /** The dead tokens come in the order of their answers, one for each dead answer. */
  lemma {:induction false} DeadInOrder(tokens: seq<string>, responses: seq<Response>, n: nat, i: nat)
    requires i < n <= Covered(tokens, responses) && (responses[i].Unregistered? || responses[i].InvalidArgument?)
    ensures |DeadTokens(tokens, responses, n)| == CountDead(responses, n)
    ensures CountDead(responses, i) < CountDead(responses, n)
    ensures DeadTokens(tokens, responses, n)[CountDead(responses, i)] == tokens[i]
    decreases n
  {
    DeadCounted(tokens, responses, n);
    if i < n - 1 {
      DeadInOrder(tokens, responses, n - 1, i);
    } else {
      DeadCounted(tokens, responses, n - 1);
    }
  }

  lemma {:induction false} DeadCounted(tokens: seq<string>, responses: seq<Response>, n: nat)
    requires n <= Covered(tokens, responses)
    ensures |DeadTokens(tokens, responses, n)| == CountDead(responses, n)
    decreases n
  {
    if n > 0 {
      DeadCounted(tokens, responses, n - 1);
    }
  }

  function CountAccepted(responses: seq<Response>, n: nat): nat
    requires n <= |responses|
  {
    if n == 0 then 0 else CountAccepted(responses, n - 1) + if responses[n - 1].Accepted? then 1 else 0
  }

  function CountTransient(responses: seq<Response>, n: nat): nat
    requires n <= |responses|
  {
    if n == 0 then 0 else CountTransient(responses, n - 1) + if Transient(responses[n - 1]) then 1 else 0
  }

  /** No token failed twice for a passing reason. */
  predicate FailuresDistinct(tokens: seq<string>, responses: seq<Response>, n: nat)
    requires n <= Covered(tokens, responses)
  {
    forall i, j :: 0 <= i < j < n && Transient(responses[i]) && Transient(responses[j]) ==> tokens[i] != tokens[j]
  }

  lemma {:induction false} FailedSize(tokens: seq<string>, responses: seq<Response>, n: nat)
    requires n <= Covered(tokens, responses)
    ensures |FailedTokens(tokens, responses, n)| <= CountTransient(responses, n)
    ensures |FailedTokens(tokens, responses, n)| == CountTransient(responses, n) <==> FailuresDistinct(tokens, responses, n)
    decreases n
  {
    if n > 0 {
      var before := FailedTokens(tokens, responses, n - 1);
      var t := tokens[n - 1];
      FailedSize(tokens, responses, n - 1);
      if Transient(responses[n - 1]) {
        ClassesExact(tokens, responses, n - 1, t);
        if t in before {
          assert before[t := responses[n - 1].reason].Keys == before.Keys;
          var i :| 0 <= i < n - 1 && tokens[i] == t && Transient(responses[i]);
          assert !FailuresDistinct(tokens, responses, n);
        } else {
          assert before[t := responses[n - 1].reason].Keys == before.Keys + {t};
        }
      }
    }
  }

  lemma {:induction false} ClassesAddUp(tokens: seq<string>, responses: seq<Response>, n: nat)
    requires n <= Covered(tokens, responses)
    ensures CountAccepted(responses, n) + |DeadTokens(tokens, responses, n)| + CountTransient(responses, n) == n
    decreases n
  {
    if n > 0 {
      ClassesAddUp(tokens, responses, n - 1);
    }
  }

  /** With one answer per token, the three classes add up to the tokens sent exactly when
      no token failed twice; the failure map keeps one entry per token. */
  lemma TokenPartition(tokens: seq<string>, m: Multicast)
    requires |m.responses| == |tokens| && m.successCount == CountAccepted(m.responses, |m.responses|)
    ensures var r := Classified(tokens, m);
            r.sent + |r.unregistered| + |r.failed| == |tokens| <==> FailuresDistinct(tokens, m.responses, |tokens|)
  {
    ClassesAddUp(tokens, m.responses, |tokens|);
    FailedSize(tokens, m.responses, |tokens|);
  }

  /** It can fail for a job the service plans: with one device, a user listed twice has its
      token collected twice (see TwiceListed), and when both copies fail for a passing
      reason, one entry stands for the two. */
  lemma TwiceFailed(token: string, reason: string)
    ensures var tokens, m := [token, token], Multicast(0, [OtherError(reason), OtherError(reason)]);
            var r := Classified(tokens, m);
            && |m.responses| == |tokens| && m.successCount == CountAccepted(m.responses, |m.responses|)
            && r.failed == map[token := reason]
            && r.sent + |r.unregistered| + |r.failed| == 1 < |tokens|
  {
    var tokens, responses := [token, token], [OtherError(reason), OtherError(reason)];
    assert FailedTokens(tokens, responses, 1) == map[token := reason];
    assert FailedTokens(tokens, responses, 2) == map[token := reason];
    assert DeadTokens(tokens, responses, 1) == [] && DeadTokens(tokens, responses, 2) == [];
    assert CountAccepted(responses, 1) == 0 && CountAccepted(responses, 2) == 0;
  }

  /** Distinct tokens fall in one class each. */
  lemma DistinctTokensPartition(tokens: seq<string>, m: Multicast)
    requires |m.responses| == |tokens| && m.successCount == CountAccepted(m.responses, |m.responses|)
    requires NoRepeats(tokens)
    ensures var r := Classified(tokens, m);
            && r.sent + |r.unregistered| + |r.failed| == |tokens|
            && forall t :: !(t in r.unregistered && t in r.failed)
  {
    TokenPartition(tokens, m);
    forall t ensures !(t in Classified(tokens, m).unregistered && t in Classified(tokens, m).failed) {
      ClassesExact(tokens, m.responses, |tokens|, t);
    }
  }

  /** One answer per token, and a success count that counts the accepted ones. */
  predicate LinedUp(tokens: seq<string>, m: Multicast) {
    |m.responses| == |tokens| && m.successCount == CountAccepted(m.responses, |m.responses|)
  }

  predicate AddsUp(tokens: seq<string>, m: Multicast) {
    var r := Classified(tokens, m);
    r.sent + |r.unregistered| + |r.failed| == |tokens|
  }

  /** A passing error for every token. */
  function AllFailing(n: nat): seq<Response> {
    seq(n, _ => OtherError("unavailable"))
  }

  lemma {:induction false} NoneAccepted(responses: seq<Response>, n: nat)
    requires n <= |responses| && forall i :: 0 <= i < |responses| ==> responses[i].OtherError?
    ensures CountAccepted(responses, n) == 0
    decreases n
  {
    if n > 0 {
      NoneAccepted(responses, n - 1);
    }
  }

  /** Before the call: whatever Firebase answers, the counts will add up, exactly when the
      tokens of the job are all different. */
  lemma AlwaysAddsUpIff(tokens: seq<string>)
    ensures (forall m :: LinedUp(tokens, m) ==> AddsUp(tokens, m)) <==> NoRepeats(tokens)
  {
    hide Classified, CountAccepted;
    if NoRepeats(tokens) {
      forall m | LinedUp(tokens, m) ensures AddsUp(tokens, m) {
        DistinctTokensPartition(tokens, m);
      }
    } else {
      var m := Multicast(0, AllFailing(|tokens|));
      NoneAccepted(m.responses, |tokens|);
      TokenPartition(tokens, m);
      assert LinedUp(tokens, m) && !AddsUp(tokens, m);
    }
  }

  // ----- pruning

  function Pruned(rows: Rows, u: string, tokens: seq<string>, fails: nat -> bool, n: nat): Rows
    requires n <= |tokens|
  {
    if n == 0 then rows
    else
      var before := Pruned(rows, u, tokens, fails, n - 1);
      if fails(n - 1) then before else Deleted(before, u, tokens[n - 1])
  }

  function Succeeded(fails: nat -> bool, n: nat): nat {
    if n == 0 then 0 else Succeeded(fails, n - 1) + if fails(n - 1) then 0 else 1
  }

  /** The pruned counter counts the deletions that worked, and only those. */
  lemma {:induction false} SucceededExact(fails: nat -> bool, n: nat)
    ensures Succeeded(fails, n) == |set i: nat | i < n && !fails(i)|
    decreases n
  {
    if n == 0 {
      assert (set i: nat | i < 0 && !fails(i)) == {};
    } else {
      SucceededExact(fails, n - 1);
      var before := set i: nat | i < n - 1 && !fails(i);
      assert (set i: nat | i < n && !fails(i)) == before + if fails(n - 1) then {} else {n - 1};
    }
  }

  predicate PrunedAt(tokens: seq<string>, fails: nat -> bool, n: nat, t: string)
    requires n <= |tokens|
  {
    exists i :: 0 <= i < n && tokens[i] == t && !fails(i)
  }

  /** Pruning removes exactly the pairs (u, t) whose deletion worked, and touches no other
      user's rows, even where another user holds the same token. */
  lemma {:induction false} PrunedExact(rows: Rows, u: string, tokens: seq<string>, fails: nat -> bool, n: nat)
    requires UniquePairs(rows) && n <= |tokens|
    ensures UniquePairs(Pruned(rows, u, tokens, fails, n))
    ensures forall v, t :: Registered(Pruned(rows, u, tokens, fails, n), v, t) <==>
              Registered(rows, v, t) && !(v == u && PrunedAt(tokens, fails, n, t))
    ensures forall v :: v != u ==> Matching(Pruned(rows, u, tokens, fails, n), v) == Matching(rows, v)
    decreases n
  {
    hide UniquePairs, Registered, Matching, Deleted;
    if n > 0 {
      PrunedExact(rows, u, tokens, fails, n - 1);
      if !fails(n - 1) {
        DeletedExact(Pruned(rows, u, tokens, fails, n - 1), u, tokens[n - 1]);
      }
    }
  }

  class PushWorker {
    const subscribers: SubscriberStore?
    const configured: bool
    var sent: nat
    var failed: nat
    var pruned: nat

    constructor (subscribers: SubscriberStore?, configured: bool)
      ensures this.subscribers == subscribers && this.configured == configured
      ensures sent == failed == pruned == 0
    {
      this.subscribers, this.configured := subscribers, configured;
      sent, failed, pruned := 0, 0, 0;
    }

    ghost function Rows0(): Rows
      reads subscribers
    {
      if subscribers == null then [] else subscribers.rows
    }

    /** One popped job. It never returns an error, so no job can end the loop. */
    method Handle(item: Item<PushMessage>, reply: Option<Multicast>, deleteFails: nat -> bool) returns (err: bool)
      modifies this, subscribers
      ensures !err
      ensures if item.Malformed? || !configured || (item.msg.deviceTokens != [] && reply.None?) then
                sent == old(sent) && failed == old(failed) && pruned == old(pruned) && Rows0() == old(Rows0())
              else
                var r := Outcome(item.msg, reply);
                && sent == old(sent) + r.sent
                && failed == old(failed) + |r.failed|
                && (subscribers == null ==> pruned == old(pruned))
                && (subscribers != null ==> pruned == old(pruned) + Succeeded(deleteFails, |r.unregistered|))
                && (subscribers != null ==>
                      Rows0() == Pruned(old(Rows0()), item.msg.userID, r.unregistered, deleteFails, |r.unregistered|))
    {
      if item.Malformed? {
        return false;
      }
      if !configured {
        return false;
      }
      var result := Send(item.msg.deviceTokens, reply);
      if result.None? {
        return false;
      }
      var r := result.value;
      sent := sent + r.sent;
      failed := failed + |r.failed|;
      Prune(item.msg.userID, r.unregistered, deleteFails);
      err := false;
    }

    /** Deletes each dead token of a user; one that cannot be deleted is left. */
    method Prune(u: string, tokens: seq<string>, fails: nat -> bool)
      modifies `pruned, subscribers
      ensures subscribers == null ==> pruned == old(pruned)
      ensures subscribers != null ==> pruned == old(pruned) + Succeeded(fails, |tokens|)
      ensures subscribers != null ==> Rows0() == Pruned(old(Rows0()), u, tokens, fails, |tokens|)
    {
      hide Deleted;
      for i := 0 to |tokens|
        invariant subscribers == null ==> pruned == old(pruned)
        invariant subscribers != null ==> pruned == old(pruned) + Succeeded(fails, i)
        invariant subscribers != null ==> Rows0() == Pruned(old(Rows0()), u, tokens, fails, i)
      {
        if subscribers != null {
          var dErr := subscribers.DeleteByToken(u, tokens[i], fails(i));
          if !dErr {
            pruned := pruned + 1;
          }
        }
      }
    }
  }

  /** What sending a job reports, for a job without tokens too. */
  function Outcome(msg: PushMessage, reply: Option<Multicast>): Result
    requires msg.deviceTokens == [] || reply.Some?
  {
    if msg.deviceTokens == [] then Result(0, [], map[]) else Classified(msg.deviceTokens, reply.value)
  }

  /** What a handled job adds up to: nothing for a job without tokens; otherwise what Firebase
      says it sent, and the answers sorted by kind. */
  lemma OutcomeSays(msg: PushMessage, m: Multicast, t: string)
    ensures msg.deviceTokens == [] ==> Outcome(msg, None) == Result(0, [], map[]) == Outcome(msg, Some(m))
    ensures msg.deviceTokens != [] ==>
              var r, tokens := Outcome(msg, Some(m)), msg.deviceTokens;
              && r.sent == m.successCount
              && (t in r.unregistered <==>
                    exists i :: && 0 <= i < |tokens| && i < |m.responses| && tokens[i] == t
                                && (m.responses[i].Unregistered? || m.responses[i].InvalidArgument?))
              && (t in r.failed <==>
                    exists i :: 0 <= i < |tokens| && i < |m.responses| && tokens[i] == t && m.responses[i].OtherError?)
  {
    ClassesExact(msg.deviceTokens, m.responses, Covered(msg.deviceTokens, m.responses), t);
  }

  function NeverFails(i: nat): bool { false }

  /** After a job whose deletions all worked, its user has exactly the tokens it had minus
      the dead ones; with distinct tokens, one that merely failed is never removed. */
  lemma HandledTokens(rows: Rows, msg: PushMessage, reply: Option<Multicast>, t: string)
    requires UniquePairs(rows) && (msg.deviceTokens == [] || reply.Some?)
    ensures var r := Outcome(msg, reply);
            var after := Pruned(rows, msg.userID, r.unregistered, NeverFails, |r.unregistered|);
            && (Registered(after, msg.userID, t) <==> Registered(rows, msg.userID, t) && t !in r.unregistered)
            && (NoRepeats(msg.deviceTokens) ==>
                  t in r.failed && Registered(rows, msg.userID, t) ==> Registered(after, msg.userID, t))
  {
    hide UniquePairs, Registered, Pruned;
    var r := Outcome(msg, reply);
    PrunedExact(rows, msg.userID, r.unregistered, NeverFails, |r.unregistered|);
    if reply.Some? {
      ClassesExact(msg.deviceTokens, reply.value.responses, Covered(msg.deviceTokens, reply.value.responses), t);
    }
  }
}
