/** What the fan-out specification amounts to: who gets a message, in what order, with
    which tokens, and what each payload says. */
module FanoutTheorems {

  import opened Wrappers
  import opened Contract
  import opened Preferences
  import opened Queues
  import opened Subscribers
  import opened Fanout
  import T = Tables

  // ----- picking in order

  /** The elements at the kept places among the first n. */
  function Pick(s: seq<string>, keep: nat -> bool, n: nat): seq<string>
    requires n <= |s|
  {
    if n == 0 then [] else Pick(s, keep, n - 1) + if keep(n - 1) then [s[n - 1]] else []
  }

  function Places(keep: nat -> bool, n: nat): seq<nat> {
    if n == 0 then [] else Places(keep, n - 1) + if keep(n - 1) then [n - 1] else []
  }

  lemma {:induction false} PlacesExact(keep: nat -> bool, n: nat)
    ensures forall i, j :: 0 <= i < j < |Places(keep, n)| ==> Places(keep, n)[i] < Places(keep, n)[j]
    ensures forall i: nat :: i in Places(keep, n) <==> i < n && keep(i)
    decreases n
  {
    if n > 0 {
      PlacesExact(keep, n - 1);
      var before := Places(keep, n - 1);
      if keep(n - 1) {
        assert forall i: nat :: i in before + [n - 1] <==> i in before || i == n - 1;
        assert forall i :: 0 <= i < |before| ==> before[i] in before;
      }
    }
  }

  lemma {:induction false} PickAt(s: seq<string>, keep: nat -> bool, n: nat)
    requires n <= |s|
    ensures |Pick(s, keep, n)| == |Places(keep, n)|
    ensures forall j :: 0 <= j < |Places(keep, n)| ==>
              Places(keep, n)[j] < n && Pick(s, keep, n)[j] == s[Places(keep, n)[j]]
    decreases n
  {
    if n > 0 {
      PickAt(s, keep, n - 1);
    }
  }

  /** A pick has the elements of s at its places; the places ascend and are all and only
      those kept. So it leaves order alone, drops nothing it should keep, repeats nothing. */
  lemma {:induction false} PickExact(s: seq<string>, keep: nat -> bool, n: nat)
    requires n <= |s|
    ensures |Pick(s, keep, n)| == |Places(keep, n)|
    ensures forall j :: 0 <= j < |Places(keep, n)| ==>
              Places(keep, n)[j] < n && Pick(s, keep, n)[j] == s[Places(keep, n)[j]]
    ensures forall i, j :: 0 <= i < j < |Places(keep, n)| ==> Places(keep, n)[i] < Places(keep, n)[j]
    ensures forall i: nat :: i in Places(keep, n) <==> i < n && keep(i)
  {
    hide Pick, Places;
    PlacesExact(keep, n);
    PickAt(s, keep, n);
  }

  lemma {:induction false} PickMembers(s: seq<string>, keep: nat -> bool, n: nat, u: string)
    requires n <= |s|
    ensures u in Pick(s, keep, n) <==> exists i: nat :: i < n && keep(i) && s[i] == u
  {
    PickExact(s, keep, n);
    if u in Pick(s, keep, n) {
      var j :| 0 <= j < |Pick(s, keep, n)| && Pick(s, keep, n)[j] == u;
      var i := Places(keep, n)[j];
      assert i in Places(keep, n);
    }
    if i: nat :| i < n && keep(i) && s[i] == u {
      assert i in Places(keep, n);
      var j :| 0 <= j < |Places(keep, n)| && Places(keep, n)[j] == i;
      assert Pick(s, keep, n)[j] == u;
    }
  }

  lemma PickDistinct(s: seq<string>, keep: nat -> bool, n: nat)
    requires n <= |s| && NoRepeats(s)
    ensures NoRepeats(Pick(s, keep, n))
  {
    PickExact(s, keep, n);
  }

  // ----- the gate

  function GateKeeps(prefs: PrefRows, p: Params, ch: string, env: Env, c: nat): nat -> bool {
    (i: nat) => i < |p.userIDs| && Passes(prefs, p, ch, env, c, i)
  }

  /** The filter keeps exactly the recipients whose gate passes, in input order. */
  lemma {:induction false} KeptIsPick(prefs: PrefRows, p: Params, ch: string, env: Env, c: nat, n: nat)
    requires n <= |p.userIDs|
    ensures Kept(prefs, p, ch, env, c, n) == Pick(p.userIDs, GateKeeps(prefs, p, ch, env, c), n)
    decreases n
  {
    if n > 0 {
      KeptIsPick(prefs, p, ch, env, c, n - 1);
    }
  }

  // ----- tokens

  /** The usable tokens of every successful lookup of u, in recipient order. */
  function TokensFor(subs: Rows, users: seq<string>, env: Env, c: nat, n: nat, u: string): seq<string>
    requires n <= |users|
  {
    if n == 0 then []
    else TokensFor(subs, users, env, c, n - 1, u) +
         if users[n - 1] == u && !env.subsFails(c, n - 1) then Usable(Matching(subs, u)) else []
  }

  /** A user listed twice collects the tokens twice; that is what enrichment does. */
  lemma {:induction false} TokensExact(subs: Rows, users: seq<string>, env: Env, c: nat, n: nat, u: string)
    requires n <= |users|
    ensures TokensOf(TokenMap(subs, users, env, c, n), u) == TokensFor(subs, users, env, c, n, u)
    decreases n
  {
    hide Usable, Matching;
    if n > 0 {
      TokensExact(subs, users, env, c, n - 1, u);
    }
  }

  /** A user with one device, listed twice, has its token twice in the one map entry. */
  lemma TwiceListed(subs: Rows, u: string, token: string, env: Env, c: nat)
    requires Usable(Matching(subs, u)) == [token] && !env.subsFails(c, 0) && !env.subsFails(c, 1)
    ensures TokensOf(TokenMap(subs, [u, u], env, c, 2), u) == [token, token]
  {
    hide Usable, Matching;
    TokensExact(subs, [u, u], env, c, 2, u);
    assert TokensFor(subs, [u, u], env, c, 1, u) == [token];
  }

  /** A user listed once has exactly the tokens of the one lookup, or none if it failed. */
  lemma {:induction false} TokensOnce(subs: Rows, users: seq<string>, env: Env, c: nat, n: nat, i: nat)
    requires i < n <= |users| && NoRepeats(users)
    ensures TokensOf(TokenMap(subs, users, env, c, n), users[i])
            == if env.subsFails(c, i) then [] else Usable(Matching(subs, users[i]))
    decreases n
  {
    hide Usable, Matching;
    if i < n - 1 {
      TokensOnce(subs, users, env, c, n - 1, i);
    } else {
      NoTokensYet(subs, users, env, c, n - 1, users[i]);
    }
  }

  lemma {:induction false} NoTokensYet(subs: Rows, users: seq<string>, env: Env, c: nat, n: nat, u: string)
    requires n <= |users| && forall i :: 0 <= i < n ==> users[i] != u
    ensures u !in TokenMap(subs, users, env, c, n)
    decreases n
  {
    if n > 0 {
      NoTokensYet(subs, users, env, c, n - 1, u);
    }
  }

  lemma UsableOne(s: Subscriber)
    requires s.token != ""
    ensures Usable([s]) == [s.token]
  {
    assert [s][..0] == [];
    assert Usable([s]) == Usable([s][..0]) + [s.token];
  }

  lemma {:induction false} UsableMembers(subs: Rows, token: string)
    ensures token in Usable(subs) <==> token != "" && exists i :: 0 <= i < |subs| && subs[i].token == token
  {
    if subs != [] {
      var n := |subs| - 1;
      UsableMembers(subs[..n], token);
      if i :| 0 <= i < |subs[..n]| && subs[..n][i].token == token {
        assert subs[i].token == token;
      }
      if i :| 0 <= i < |subs| && subs[i].token == token {
        assert i == n || subs[..n][i].token == token;
      }
    }
  }

  lemma UsableRegistered(subs: Rows, u: string, token: string)
    ensures token in Usable(Matching(subs, u)) <==> token != "" && Registered(subs, u, token)
  {
    UsableMembers(Matching(subs, u), token);
    MatchingMembers(subs, u);
    if Registered(subs, u, token) {
      var i :| 0 <= i < |subs| && subs[i].userID == u && subs[i].token == token;
      assert subs[i] in Matching(subs, u);
    }
    if i :| 0 <= i < |Matching(subs, u)| && Matching(subs, u)[i].token == token {
      assert Matching(subs, u)[i] in subs;
      var j :| 0 <= j < |subs| && subs[j] == Matching(subs, u)[i];
    }
  }

  /** Whatever the recipients, a token collected for u is registered to u. */
  lemma {:induction false} TokensRegistered(subs: Rows, users: seq<string>, env: Env, c: nat, n: nat, u: string, t: string)
    requires n <= |users| && t in TokensOf(TokenMap(subs, users, env, c, n), u)
    ensures t != "" && Registered(subs, u, t)
    decreases n
  {
    hide Registered, Usable, Matching;
    if n > 0 {
      if t in TokensOf(TokenMap(subs, users, env, c, n - 1), u) {
        TokensRegistered(subs, users, env, c, n - 1, u, t);
      } else {
        UsableRegistered(subs, u, t);
      }
    }
  }

  // ----- the whole plan

  function UserMessages(p: Params, users: seq<string>): seq<Item<WSMessage>> {
    seq(|users|, i requires 0 <= i < |users| => Good(UserMessage(p, users[i])))
  }

  function PushJobs(p: Params, users: seq<string>): seq<Item<PushMessage>> {
    seq(|users|, i requires 0 <= i < |users| => Good(PushJob(p, users[i])))
  }

  function TokenKeeps(p: Params): nat -> bool {
    (i: nat) => i < |p.userIDs| && TokensOf(p.tokens, p.userIDs[i]) != []
  }

  /** The recipients with at least one collected token. */
  function WithTokens(p: Params): seq<string> {
    Pick(p.userIDs, TokenKeeps(p), |p.userIDs|)
  }

  lemma UserMessagesStep(p: Params, users: seq<string>, u: string)
    ensures UserMessages(p, users + [u]) == UserMessages(p, users) + [Good(UserMessage(p, u))]
  {
    hide UserMessage;
  }

  lemma PushJobsStep(p: Params, users: seq<string>, u: string)
    ensures PushJobs(p, users + [u]) == PushJobs(p, users) + [Good(PushJob(p, u))]
  {
    hide PushJob;
  }

  lemma {:induction false} InAppMessages(p: Params, n: nat)
    requires n <= |p.userIDs|
    ensures WsOf(InAppPlan(p, n)) == UserMessages(p, p.userIDs[..n]) && PushOf(InAppPlan(p, n)) == []
    decreases n
  {
    hide UserMessage, UserMessages, WsOf, PushOf;
    if n == 0 {
      SplitNone();
      assert UserMessages(p, []) == [] by { UserMessagesNone(p); }
    } else {
      InAppMessages(p, n - 1);
      SplitStep(InAppPlan(p, n - 1), ToWS(UserMessage(p, p.userIDs[n - 1])));
      UserMessagesStep(p, p.userIDs[..n - 1], p.userIDs[n - 1]);
      assert p.userIDs[..n] == p.userIDs[..n - 1] + [p.userIDs[n - 1]];
    }
  }

  lemma UserMessagesNone(p: Params)
    ensures UserMessages(p, []) == [] && PushJobs(p, []) == []
  {
  }

  lemma {:induction false} PushMessages(p: Params, n: nat)
    requires n <= |p.userIDs|
    ensures PushOf(PushPlan(p, n)) == PushJobs(p, Pick(p.userIDs, TokenKeeps(p), n))
    ensures WsOf(PushPlan(p, n)) == []
    decreases n
  {
    hide PushJob, PushJobs, WsOf, PushOf;
    if n == 0 {
      SplitNone();
      UserMessagesNone(p);
    } else {
      PushMessages(p, n - 1);
      var u := p.userIDs[n - 1];
      if TokensOf(p.tokens, u) != [] {
        SplitStep(PushPlan(p, n - 1), ToPush(PushJob(p, u)));
        PushJobsStep(p, Pick(p.userIDs, TokenKeeps(p), n - 1), u);
      } else {
        assert PushPlan(p, n) == PushPlan(p, n - 1);
        assert Pick(p.userIDs, TokenKeeps(p), n) == Pick(p.userIDs, TokenKeeps(p), n - 1);
      }
    }
  }

  const BOTH: seq<Dispatcher> := [InApp, PushOut]

  /** Whatever dispatchers a service is built with: each one more that is registered for the
      channel adds its own messages, whether or not others were before it. */
  lemma DispatchersInTurn(ds: seq<Dispatcher>, d: Dispatcher, p: Params, ch: string)
    ensures DispatchersPlan([], p, ch, 0) == []
    ensures DispatchersPlan(ds + [d], p, ch, |ds| + 1) ==
            DispatchersPlan(ds, p, ch, |ds|) +
            match d
            case InApp => if ch == "in_app" then DispatchPlan(InApp, p) else []
            case PushOut => if ch == "push" then DispatchPlan(PushOut, p) else []
  {
    hide DispatchPlan, DispatchersPlan;
    NoDispatchers(p, ch);
    LastDispatcher(ds + [d], p, ch);
    SamePrefix(ds, [d], p, ch, |ds|);
  }

  lemma NoDispatchers(p: Params, ch: string)
    ensures DispatchersPlan([], p, ch, 0) == []
  {
  }

  lemma LastDispatcher(ds: seq<Dispatcher>, p: Params, ch: string)
    requires ds != []
    ensures var n := |ds|;
            DispatchersPlan(ds, p, ch, n) ==
            DispatchersPlan(ds, p, ch, n - 1) +
            match ds[n - 1]
            case InApp => if ch == "in_app" then DispatchPlan(InApp, p) else []
            case PushOut => if ch == "push" then DispatchPlan(PushOut, p) else []
  {
    hide DispatchPlan;
  }

  lemma {:induction false} SamePrefix(a: seq<Dispatcher>, b: seq<Dispatcher>, p: Params, ch: string, n: nat)
    requires n <= |a|
    ensures DispatchersPlan(a + b, p, ch, n) == DispatchersPlan(a, p, ch, n)
    decreases n
  {
    hide DispatchPlan;
    if n > 0 {
      SamePrefix(a, b, p, ch, n - 1);
    }
  }

  /** With the two dispatchers the service is built with, channel number c yields either
      in-app messages only or push jobs only. */
  lemma OneChannel(s: Service, p: Params, env: Env, c: nat)
    requires c < |ChannelsOf(p.identity)| && s.dispatchers == BOTH
    ensures var ch := ChannelsOf(p.identity)[c];
            var g := Gated(s.prefs, p, ch, env, c);
            var e := Enriched(s.subs, g, ch, env, c);
            ChannelPlan(s, p, env, c) ==
              if g.userIDs == [] then []
              else if ch == IN_APP then DispatchPlan(InApp, g)
              else if ch == PUSH then DispatchPlan(PushOut, e)
              else []
  {
    var ch := ChannelsOf(p.identity)[c];
    var e := Enriched(s.subs, Gated(s.prefs, p, ch, env, c), ch, env, c);
    assert DispatchersPlan(BOTH, e, ch, 0) == [];
    assert DispatchersPlan(BOTH, e, ch, 1) == if ch == IN_APP then DispatchPlan(InApp, e) else [];
    assert DispatchersPlan(BOTH, e, ch, 2) ==
           DispatchersPlan(BOTH, e, ch, 1) + if ch == PUSH then DispatchPlan(PushOut, e) else [];
  }

  /** Who gets an in-app message: everyone past the in-app gate, if the identity uses that
      channel at all. In-app is always the first channel of an identity that has it. */
  function InAppUsers(s: Service, p: Params, env: Env): seq<string> {
    if IN_APP in ChannelsOf(p.identity) then Gated(s.prefs, p, IN_APP, env, 0).userIDs else []
  }

  /** The push stage: always the last channel of an identity that has it. */
  function PushStage(s: Service, p: Params, env: Env): Params
    requires PUSH in ChannelsOf(p.identity)
  {
    var c := |ChannelsOf(p.identity)| - 1;
    Enriched(s.subs, Gated(s.prefs, p, PUSH, env, c), PUSH, env, c)
  }

  lemma ChannelShapes(identity: string)
    ensures ChannelsOf(identity) in [[], [IN_APP], [PUSH], [IN_APP, PUSH]]
  {
  }

  lemma ChannelParts(p: Params)
    ensures p.channel == "" ==>
              WsOf(DispatchPlan(InApp, p)) == UserMessages(p, p.userIDs)
    ensures p.channel != "" ==> WsOf(DispatchPlan(InApp, p)) == [Good(Broadcast(p))]
    ensures PushOf(DispatchPlan(InApp, p)) == [] && WsOf(DispatchPlan(PushOut, p)) == []
    ensures PushOf(DispatchPlan(PushOut, p)) == PushJobs(p, WithTokens(p))
  {
    hide InAppPlan, PushPlan, UserMessages, PushJobs, Broadcast, WsOf, PushOf, Pick;
    InAppMessages(p, |p.userIDs|);
    PushMessages(p, |p.userIDs|);
    SplitOne(ToWS(Broadcast(p)));
    assert p.userIDs[..|p.userIDs|] == p.userIDs;
  }

  /** The in-app part of a plan, then the push part. */
  function InAppPart(s: Service, q: Params, env: Env): seq<Outgoing> {
    if InAppUsers(s, q, env) == [] then []
    else DispatchPlan(InApp, Gated(s.prefs, q, IN_APP, env, 0))
  }

  function PushPart(s: Service, q: Params, env: Env): seq<Outgoing> {
    if PUSH !in ChannelsOf(q.identity) || PushStage(s, q, env).userIDs == [] then []
    else DispatchPlan(PushOut, PushStage(s, q, env))
  }

  lemma TwoParts(s: Service, q: Params, env: Env)
    requires s.dispatchers == BOTH
    ensures Plan(s, q, env, |ChannelsOf(q.identity)|) == InAppPart(s, q, env) + PushPart(s, q, env)
  {
    hide ChannelsOf, Plan, ChannelPlan, DispatchPlan, Gated, Enriched;
    ChannelShapes(q.identity);
    var cs := ChannelsOf(q.identity);
    PlanSteps(s, q, env);
    if |cs| >= 1 {
      OneChannel(s, q, env, 0);
      SameRecipients(s, q, env, 0);
    }
    if |cs| == 2 {
      OneChannel(s, q, env, 1);
      SameRecipients(s, q, env, 1);
    }
  }

  lemma PlanSteps(s: Service, q: Params, env: Env)
    ensures Plan(s, q, env, 0) == []
    ensures |ChannelsOf(q.identity)| >= 1 ==> Plan(s, q, env, 1) == ChannelPlan(s, q, env, 0)
    ensures |ChannelsOf(q.identity)| >= 2 ==>
              Plan(s, q, env, 2) == ChannelPlan(s, q, env, 0) + ChannelPlan(s, q, env, 1)
  {
    hide ChannelsOf, ChannelPlan;
    assert Plan(s, q, env, 0) == [];
    if |ChannelsOf(q.identity)| >= 1 {
      assert Plan(s, q, env, 1) == ChannelPlan(s, q, env, 0);
    }
  }

  /** Whom and what a message is for does not depend on who else is listed. */
  lemma SameMessage(p: Params, users: seq<string>, others: seq<string>)
    ensures UserMessages(p.(userIDs := others), users) == UserMessages(p, users)
    ensures Broadcast(p.(userIDs := others)) == Broadcast(p)
  {
  }

  lemma PartsSplit(s: Service, q: Params, env: Env)
    ensures PushOf(InAppPart(s, q, env)) == [] && WsOf(PushPart(s, q, env)) == []
    ensures WsOf(InAppPart(s, q, env)) ==
              if InAppUsers(s, q, env) == [] then []
              else if q.channel != "" then [Good(Broadcast(q))]
              else UserMessages(q, InAppUsers(s, q, env))
    ensures PushOf(PushPart(s, q, env)) ==
              if PUSH !in ChannelsOf(q.identity) then []
              else PushJobs(PushStage(s, q, env), WithTokens(PushStage(s, q, env)))
  {
    hide ChannelsOf, DispatchPlan, UserMessages, PushJobs, WsOf, PushOf;
    SplitNone();
    var g := Gated(s.prefs, q, IN_APP, env, 0);
    ChannelParts(g);
    SameMessage(q, g.userIDs, g.userIDs);
    if PUSH in ChannelsOf(q.identity) {
      var e := PushStage(s, q, env);
      ChannelParts(e);
      UserMessagesNone(e);
    }
  }

  /** Exactly what one event puts on the two queues when nothing fails: one in-app message
      to each recipient past the in-app gate (or one broadcast if there is any), and one
      push job to each recipient past the push gate with a usable token; each in input
      order. */
  lemma ExactFanout(s: Service, t: T.Table, p: Params, env: Env)
    requires s.dispatchers == BOTH
    ensures var q := Filled(t, p, env);
            && WsOf(FullPlan(s, t, p, env)) ==
                 (if InAppUsers(s, q, env) == [] then []
                  else if p.channel != "" then [Good(Broadcast(q))]
                  else UserMessages(q, InAppUsers(s, q, env)))
            && PushOf(FullPlan(s, t, p, env)) ==
                 (if PUSH !in ChannelsOf(p.identity) then []
                  else PushJobs(PushStage(s, q, env), WithTokens(PushStage(s, q, env))))
  {
    hide Plan, WsOf, PushOf, ChannelsOf, InAppPart, PushPart, InAppUsers, PushStage, UserMessages, PushJobs, Broadcast;
    var q := Filled(t, p, env);
    TwoParts(s, q, env);
    PartsSplit(s, q, env);
    SplitConcat(InAppPart(s, q, env), PushPart(s, q, env));
  }

  lemma {:induction false} WsOnlyPrefix(out: seq<Outgoing>, k: nat)
    requires k <= |out| && PushOf(out) == []
    ensures |WsOf(out)| == |out| && WsOf(out[..k]) == WsOf(out)[..k] && PushOf(out[..k]) == []
    decreases |out|
  {
    hide WsOf, PushOf;
    if k == |out| {
      assert out[..k] == out;
    }
    if out == [] {
      SplitNone();
    } else {
      var init, last := out[..|out| - 1], out[|out| - 1];
      assert out == init + [last];
      SplitStep(init, last);
      WsOnlyPrefix(init, if k < |out| then k else |init|);
      if k < |out| {
        assert out[..k] == init[..k];
      }
    }
  }

  lemma {:induction false} PushOnlyPrefix(out: seq<Outgoing>, k: nat)
    requires k <= |out| && WsOf(out) == []
    ensures |PushOf(out)| == |out| && PushOf(out[..k]) == PushOf(out)[..k] && WsOf(out[..k]) == []
    decreases |out|
  {
    hide WsOf, PushOf;
    if k == |out| {
      assert out[..k] == out;
    }
    if out == [] {
      SplitNone();
    } else {
      var init, last := out[..|out| - 1], out[|out| - 1];
      assert out == init + [last];
      SplitStep(init, last);
      PushOnlyPrefix(init, if k < |out| then k else |init|);
      if k < |out| {
        assert out[..k] == init[..k];
      }
    }
  }

  /** plan[..k] shows only in-app messages, or all of them and some push jobs. */
  ghost predicate SplitsAt(plan: seq<Outgoing>, k: nat)
    requires k <= |plan|
  {
    var ws, push := WsOf(plan), PushOf(plan);
    && |plan| == |ws| + |push|
    && (k <= |ws| ==> WsOf(plan[..k]) == ws[..k] && PushOf(plan[..k]) == [])
    && (k > |ws| ==> WsOf(plan[..k]) == ws && PushOf(plan[..k]) == push[..k - |ws|])
  }

  lemma PrefixOfParts(a: seq<Outgoing>, b: seq<Outgoing>, k: nat)
    requires PushOf(a) == [] && WsOf(b) == [] && k <= |a + b|
    ensures SplitsAt(a + b, k)
  {
    hide WsOf, PushOf;
    SplitConcat(a, b);
    WsOnlyPrefix(a, |a|);
    PushOnlyPrefix(b, |b|);
    if k <= |a| {
      WsOnlyPrefix(a, k);
      assert (a + b)[..k] == a[..k];
    } else {
      PushOnlyPrefix(b, k - |a|);
      assert (a + b)[..k] == a + b[..k - |a|];
      SplitConcat(a, b[..k - |a|]);
    }
  }

  /** Stopping after k messages leaves a prefix of the in-app messages and no push job, or
      all in-app messages and a prefix of the push jobs. */
  lemma FailureLeavesPrefix(s: Service, t: T.Table, p: Params, env: Env, k: nat)
    requires s.dispatchers == BOTH && k <= |FullPlan(s, t, p, env)|
    ensures SplitsAt(FullPlan(s, t, p, env), k)
  {
    hide Plan, SplitsAt, InAppPart, PushPart;
    var q := Filled(t, p, env);
    TwoParts(s, q, env);
    PartsSplit(s, q, env);
    PrefixOfParts(InAppPart(s, q, env), PushPart(s, q, env), k);
  }

  /** Who is in the in-app list: a listed recipient whose preference lets it through, or
      could not be read. */
  lemma InAppRecipients(s: Service, q: Params, env: Env, u: string)
    ensures u in InAppUsers(s, q, env) <==>
            && IN_APP in ChannelsOf(q.identity)
            && exists i: nat :: && i < |q.userIDs| && q.userIDs[i] == u
                                && (s.prefs.None? || Passes(s.prefs.value, q, IN_APP, env, 0, i))
    ensures NoRepeats(q.userIDs) ==> NoRepeats(InAppUsers(s, q, env))
  {
    if s.prefs.Some? {
      var keep := GateKeeps(s.prefs.value, q, IN_APP, env, 0);
      KeptIsPick(s.prefs.value, q, IN_APP, env, 0, |q.userIDs|);
      PickMembers(q.userIDs, keep, |q.userIDs|, u);
      if NoRepeats(q.userIDs) {
        PickDistinct(q.userIDs, keep, |q.userIDs|);
      }
    }
  }

  lemma PushStageDistinct(s: Service, q: Params, env: Env)
    requires NoRepeats(q.userIDs) && PUSH in ChannelsOf(q.identity)
    ensures NoRepeats(PushStage(s, q, env).userIDs)
  {
    hide ChannelsOf, Enriched;
    var c := |ChannelsOf(q.identity)| - 1;
    SameRecipients(s, q, env, c);
    if s.prefs.Some? {
      KeptIsPick(s.prefs.value, q, PUSH, env, c, |q.userIDs|);
      PickDistinct(q.userIDs, GateKeeps(s.prefs.value, q, PUSH, env, c), |q.userIDs|);
    }
  }

  lemma SameRecipients(s: Service, q: Params, env: Env, c: nat)
    ensures var g := Gated(s.prefs, q, PUSH, env, c);
            Enriched(s.subs, g, PUSH, env, c).userIDs == g.userIDs
    ensures s.subs.None? ==> Enriched(s.subs, Gated(s.prefs, q, PUSH, env, c), PUSH, env, c).tokens == q.tokens
  {
  }

  lemma UsableExists(subs: Rows, u: string)
    ensures Usable(Matching(subs, u)) != [] <==> exists tok :: tok != "" && Registered(subs, u, tok)
  {
    hide Usable, Matching, Registered;
    var toks := Usable(Matching(subs, u));
    if toks != [] {
      UsableRegistered(subs, u, toks[0]);
    }
    if tok :| tok != "" && Registered(subs, u, tok) {
      UsableRegistered(subs, u, tok);
    }
  }

  /** How many device lookups of u worked. */
  function Lookups(users: seq<string>, env: Env, c: nat, n: nat, u: string): nat
    requires n <= |users|
  {
    if n == 0 then 0
    else Lookups(users, env, c, n - 1, u) + if users[n - 1] == u && !env.subsFails(c, n - 1) then 1 else 0
  }

  function Repeated(toks: seq<string>, k: nat): seq<string> {
    if k == 0 then [] else Repeated(toks, k - 1) + toks
  }

  /** u's collected tokens are its usable ones, once for each lookup that worked. */
  lemma {:induction false} TokensRepeated(subs: Rows, users: seq<string>, env: Env, c: nat, n: nat, u: string)
    requires n <= |users|
    ensures TokensFor(subs, users, env, c, n, u) == Repeated(Usable(Matching(subs, u)), Lookups(users, env, c, n, u))
    ensures Lookups(users, env, c, n, u) > 0 <==> exists j: nat :: j < n && users[j] == u && !env.subsFails(c, j)
    decreases n
  {
    hide Usable, Matching;
    if n > 0 {
      TokensRepeated(subs, users, env, c, n - 1, u);
    }
  }

  lemma {:induction false} RepeatedSome(toks: seq<string>, k: nat)
    ensures Repeated(toks, k) != [] <==> k > 0 && toks != []
  {
    if k > 0 {
      RepeatedSome(toks, k - 1);
    }
  }

  lemma StageTokenMap(s: Service, q: Params, env: Env)
    requires PUSH in ChannelsOf(q.identity)
    ensures var e, c := PushStage(s, q, env), |ChannelsOf(q.identity)| - 1;
            e.tokens == if s.subs.None? then q.tokens else TokenMap(s.subs.value, e.userIDs, env, c, |e.userIDs|)
  {
    hide ChannelsOf, TokenMap;
    SameRecipients(s, q, env, |ChannelsOf(q.identity)| - 1);
  }

  /** Who gets a push job, for any recipient list: a user past the push gate some of whose
      device lookups worked, and who has a non-empty token registered. Its tokens are the
      usable ones, once per working lookup: for recipients without repeats, just those.
      Without a subscriber store nothing is looked up. */
  lemma PushRecipients(s: Service, q: Params, env: Env, u: string)
    requires PUSH in ChannelsOf(q.identity)
    ensures var e, c := PushStage(s, q, env), |ChannelsOf(q.identity)| - 1;
            if s.subs.None? then
              e.tokens == q.tokens
            else
              var rows := s.subs.value;
              && (u in WithTokens(e) <==>
                    && (exists j: nat :: j < |e.userIDs| && e.userIDs[j] == u && !env.subsFails(c, j))
                    && exists tok :: tok != "" && Registered(rows, u, tok))
              && TokensOf(e.tokens, u) == Repeated(Usable(Matching(rows, u)), Lookups(e.userIDs, env, c, |e.userIDs|, u))
              && (NoRepeats(q.userIDs) ==> forall j :: 0 <= j < |e.userIDs| && e.userIDs[j] == u ==>
                    TokensOf(e.tokens, u) == if env.subsFails(c, j) then [] else Usable(Matching(rows, u)))
  {
    hide ChannelsOf, PushStage, Usable, Matching, Registered, WithTokens, TokenMap, TokensOf, TokensFor, Lookups,
         Repeated, NoRepeats;
    var e, c := PushStage(s, q, env), |ChannelsOf(q.identity)| - 1;
    StageTokenMap(s, q, env);
    if s.subs.Some? {
      var rows, n := s.subs.value, |e.userIDs|;
      TokensExact(rows, e.userIDs, env, c, n, u);
      TokensRepeated(rows, e.userIDs, env, c, n, u);
      RepeatedSome(Usable(Matching(rows, u)), Lookups(e.userIDs, env, c, n, u));
      UsableExists(rows, u);
      HasTokens(e, u);
      if NoRepeats(q.userIDs) {
        PushStageDistinct(s, q, env);
        forall j | 0 <= j < n && e.userIDs[j] == u
          ensures TokensOf(e.tokens, u) == if env.subsFails(c, j) then [] else Usable(Matching(rows, u))
        {
          TokensOnce(rows, e.userIDs, env, c, n, j);
        }
      }
    }
  }

  lemma HasTokens(e: Params, u: string)
    ensures u in WithTokens(e) <==> u in e.userIDs && TokensOf(e.tokens, u) != []
  {
    PickMembers(e.userIDs, TokenKeeps(e), |e.userIDs|, u);
    if u in e.userIDs && TokensOf(e.tokens, u) != [] {
      var i: nat :| i < |e.userIDs| && e.userIDs[i] == u;
      assert TokenKeeps(e)(i);
    }
  }

  // ----- when a job's tokens are all different

  lemma UsableStep(subs: Rows, last: Subscriber)
    ensures Usable(subs + [last]) == Usable(subs) + if last.token != "" then [last.token] else []
  {
    assert (subs + [last])[..|subs|] == subs;
  }

  /** The index on (user, token) keeps a user's usable tokens apart. */
  lemma {:induction false} UsableDistinct(subs: Rows, u: string)
    requires UniquePairs(subs)
    ensures NoRepeats(Usable(Matching(subs, u)))
  {
    hide Usable;
    if subs == [] {
      assert Usable([]) == [] by { UsableNone(); }
    } else {
      var n := |subs| - 1;
      var init, last := subs[..n], subs[n];
      UsableDistinct(init, u);
      if last.userID == u {
        UsableStep(Matching(init, u), last);
        UsableRegistered(init, u, last.token);
        assert last.token !in Usable(Matching(init, u));
        DistinctMore(Usable(Matching(init, u)), last.token);
        assert Matching(subs, u) == Matching(init, u) + [last];
      } else {
        assert Matching(subs, u) == Matching(init, u);
      }
    }
  }

  lemma DistinctMore(toks: seq<string>, t: string)
    requires NoRepeats(toks) && t !in toks
    ensures NoRepeats(toks + [t])
  {
  }

  lemma UsableNone()
    ensures Usable([]) == []
  {
  }

  /** Repeating a list that is not empty keeps its members apart only when it is there once. */
  lemma RepeatedDistinct(toks: seq<string>, k: nat)
    requires toks != [] && NoRepeats(toks) && k > 0
    ensures NoRepeats(Repeated(toks, k)) <==> k == 1
  {
    if k == 1 {
      assert Repeated(toks, 0) == [] && Repeated(toks, 1) == [] + toks;
    } else {
      var before := Repeated(toks, k - 2);
      assert Repeated(toks, k) == before + toks + toks;
      assert (before + toks + toks)[|before|] == toks[0] && (before + toks + toks)[|before| + |toks|] == toks[0];
    }
  }

  /** A planned job is the job of a user with tokens. */
  lemma PlannedJob(s: Service, t: T.Table, p: Params, env: Env, job: Item<PushMessage>) returns (u: string)
    requires s.dispatchers == BOTH && job in PushOf(FullPlan(s, t, p, env))
    ensures PUSH in ChannelsOf(p.identity) && Filled(t, p, env).identity == p.identity
    ensures var e := PushStage(s, Filled(t, p, env), env);
            u in WithTokens(e) && job == Good(PushJob(e, u))
  {
    hide Plan, WsOf, PushOf, ChannelsOf, PushStage, WithTokens, PushJob, InAppUsers, PersistMap, CountMap;
    ExactFanout(s, t, p, env);
    var e := PushStage(s, Filled(t, p, env), env);
    var users := WithTokens(e);
    var i :| 0 <= i < |users| && PushJobs(e, users)[i] == job;
    u := users[i];
  }

  /** A planned job's tokens are all different exactly when one device lookup of its user
      worked, as is the case for every job when no recipient is listed twice. */
  lemma JobTokensDistinct(s: Service, t: T.Table, p: Params, env: Env, job: Item<PushMessage>)
    requires s.dispatchers == BOTH && s.subs.Some? && UniquePairs(s.subs.value)
    requires job in PushOf(FullPlan(s, t, p, env))
    ensures job.Good? && PUSH in ChannelsOf(p.identity)
    ensures var e := PushStage(s, Filled(t, p, env), env);
            NoRepeats(job.msg.deviceTokens) <==>
            Lookups(e.userIDs, env, |ChannelsOf(p.identity)| - 1, |e.userIDs|, job.msg.userID) == 1
    ensures NoRepeats(p.userIDs) ==> NoRepeats(job.msg.deviceTokens)
  {
    hide FullPlan, PushOf, ChannelsOf, PushStage, UniquePairs, NoRepeats, WithTokens, Usable,
         Matching, Registered, Lookups, Repeated, Filled, PushData;
    var u := PlannedJob(s, t, p, env, job);
    var q := Filled(t, p, env);
    var e, c := PushStage(s, q, env), |ChannelsOf(q.identity)| - 1;
    PushRecipients(s, q, env, u);
    HasTokens(e, u);
    StageTokens(s.subs.value, e.userIDs, env, c, u);
    var j :| 0 <= j < |e.userIDs| && e.userIDs[j] == u;
    if NoRepeats(p.userIDs) {
      SameUsers(t, p, env);
      UsableDistinct(s.subs.value, u);
    }
  }

  lemma SameUsers(t: T.Table, p: Params, env: Env)
    ensures Filled(t, p, env).userIDs == p.userIDs
  {
  }

  lemma StageTokens(rows: Rows, users: seq<string>, env: Env, c: nat, u: string)
    requires UniquePairs(rows)
    ensures var k := Lookups(users, env, c, |users|, u);
            var toks := Repeated(Usable(Matching(rows, u)), k);
            toks != [] ==> (NoRepeats(toks) <==> k == 1)
  {
    hide Usable, Matching, UniquePairs, Repeated, NoRepeats;
    UsableDistinct(rows, u);
    var k := Lookups(users, env, c, |users|, u);
    RepeatedSome(Usable(Matching(rows, u)), k);
    if k > 0 && Usable(Matching(rows, u)) != [] {
      RepeatedDistinct(Usable(Matching(rows, u)), k);
    }
  }

  // ----- the same answers lead to the same audience

  /** Every recipient passes the same gates, and the same device lookups work. */
  ghost predicate SameAnswers(s: Service, p: Params, a: Env, b: Env) {
    && (s.prefs.Some? ==>
          forall ch, c, i :: 0 <= i < |p.userIDs| ==>
            (Passes(s.prefs.value, p, ch, a, c, i) <==> Passes(s.prefs.value, p, ch, b, c, i)))
    && forall c, i :: a.subsFails(c, i) <==> b.subsFails(c, i)
  }

  /** Parameters that differ at most in what Process fills in. */
  predicate SameEvent(p: Params, q: Params) {
    q == p.(persisted := q.persisted, unread := q.unread)
  }

  lemma {:induction false} SameKept(s: Service, p: Params, q: Params, ch: string, a: Env, b: Env, c: nat, n: nat)
    requires SameEvent(p, q) && s.prefs.Some? && SameAnswers(s, p, a, b) && n <= |p.userIDs|
    ensures Kept(s.prefs.value, q, ch, b, c, n) == Kept(s.prefs.value, p, ch, a, c, n)
    decreases n
  {
    hide Allowed, PrefOf;
    if n > 0 {
      SameKept(s, p, q, ch, a, b, c, n - 1);
      assert Passes(s.prefs.value, p, ch, a, c, n - 1) <==> Passes(s.prefs.value, p, ch, b, c, n - 1);
    }
  }

  lemma SameGated(s: Service, p: Params, q: Params, ch: string, a: Env, b: Env, c: nat)
    requires SameEvent(p, q) && SameAnswers(s, p, a, b)
    ensures SameEvent(Gated(s.prefs, p, ch, a, c), Gated(s.prefs, q, ch, b, c))
  {
    if s.prefs.Some? {
      SameKept(s, p, q, ch, a, b, c, |p.userIDs|);
    }
  }

  lemma SameAudience(s: Service, p: Params, q: Params, a: Env, b: Env)
    requires SameEvent(p, q) && SameAnswers(s, p, a, b)
    ensures InAppUsers(s, q, b) == InAppUsers(s, p, a)
  {
    SameGated(s, p, q, IN_APP, a, b, 0);
  }

  lemma FilledSame(t: T.Table, p: Params, env: Env)
    ensures SameEvent(p, Filled(t, p, env))
  {
  }

  // ----- what was persisted

  /** Creation i was u's last successful one among the first n. */
  predicate LastStored(p: Params, env: Env, n: nat, u: string, i: nat)
    requires n <= |p.userIDs|
  {
    && i < n && p.userIDs[i] == u && !env.createFails(i)
    && forall j :: i < j < n && p.userIDs[j] == u ==> env.createFails(j)
  }

  /** A recipient's stored notification is the row of its last successful creation. */
  lemma {:induction false} PersistedLast(t: T.Table, p: Params, env: Env, n: nat, u: string)
    requires n <= |p.userIDs|
    ensures u in PersistMap(p, env, n) <==> exists i: nat :: i < n && p.userIDs[i] == u && !env.createFails(i)
    ensures u in PersistMap(p, env, n) ==>
              exists i: nat :: && LastStored(p, env, n, u, i)
                               && PersistMap(p, env, n)[u] == Stored(env.ids(i), env.now(i))
                               && RowFor(p, env, i) in T.Get(PersistTable(t, p, env, n), u)
    decreases n
  {
    if n > 0 {
      PersistedLast(t, p, env, n - 1, u);
      if u in PersistMap(p, env, n) {
        var i: nat := n - 1;
        if p.userIDs[n - 1] != u || env.createFails(n - 1) {
          i :| LastStored(p, env, n - 1, u, i) && PersistMap(p, env, n - 1)[u] == Stored(env.ids(i), env.now(i))
               && RowFor(p, env, i) in T.Get(PersistTable(t, p, env, n - 1), u);
        }
        assert LastStored(p, env, n, u, i);
      }
    }
  }

  /** The id in a recipient's message names a stored, unread row of that recipient with the
      event's text: the row of its last successful creation. */
  lemma MessageNamesOwnRow(s: Service, t: T.Table, p: Params, env: Env, u: string)
    requires !IsTransient(p.identity) && u in Filled(t, p, env).persisted
    ensures var q := Filled(t, p, env);
            var payload := UserMessage(q, u).payload;
            && "id" in payload && payload["id"].Str?
            && exists i: nat :: && LastStored(p, env, |p.userIDs|, u, i)
                                && RowFor(p, env, i) in T.Get(StoreAfter(t, p, env), u)
                                && RowFor(p, env, i).id == payload["id"].s
                                && RowFor(p, env, i).userID == u && !RowFor(p, env, i).read
                                && RowFor(p, env, i).title == p.title && RowFor(p, env, i).body == p.body
  {
    var n := |p.userIDs|;
    PersistedLast(t, p, env, n, u);
    var i: nat :| LastStored(p, env, n, u, i) && PersistMap(p, env, n)[u] == Stored(env.ids(i), env.now(i))
                  && RowFor(p, env, i) in T.Get(PersistTable(t, p, env, n), u);
    assert RowFor(p, env, i).userID == u;
  }

  /** The unread number in a message is the recipient's count once everything is stored. */
  lemma {:induction false} CountsExact(t: T.Table, users: seq<string>, env: Env, n: nat, u: string)
    requires n <= |users|
    ensures u in CountMap(t, users, env, n) <==> exists i: nat :: i < n && users[i] == u && !env.countFails(i)
    ensures u in CountMap(t, users, env, n) ==> CountMap(t, users, env, n)[u] == T.CountUnread(t, u)
    decreases n
  {
    if n > 0 {
      CountsExact(t, users, env, n - 1, u);
    }
  }

  /** How often u was stored. */
  function Created(p: Params, env: Env, n: nat, u: string): nat
    requires n <= |p.userIDs|
  {
    if n == 0 then 0
    else Created(p, env, n - 1, u) + if p.userIDs[n - 1] == u && !env.createFails(n - 1) then 1 else 0
  }

  /** Storing raises each recipient's unread count by the rows stored for it, and no one
      else's. */
  lemma {:induction false} PersistRaisesUnread(t: T.Table, p: Params, env: Env, n: nat, u: string)
    requires n <= |p.userIDs|
    ensures T.CountUnread(PersistTable(t, p, env, n), u) == T.CountUnread(t, u) + Created(p, env, n, u)
    decreases n
  {
    hide T.CountUnread, T.Create;
    if n > 0 {
      PersistRaisesUnread(t, p, env, n - 1, u);
      CreateRaises(PersistTable(t, p, env, n - 1), RowFor(p, env, n - 1), u);
    }
  }

  lemma CreateRaises(t: T.Table, row: T.Row, u: string)
    requires !row.read
    ensures T.CountUnread(T.Create(t, row), u) == T.CountUnread(t, u) + if row.userID == u then 1 else 0
  {
    T.CreateEntry(T.Get(t, row.userID), row);
  }

  // ----- payloads

  /** What every in-app payload says: the four shared fields, no device tokens, every other
      extra field untouched, and per recipient at most id, created_at and unread_count. */
  lemma PayloadExact(p: Params, u: string, k: string)
    ensures var payload := UserPayload(p, u);
            && "device_tokens" !in payload
            && payload["event_type"] == Str(p.identity)
            && payload["title"] == Str(p.title) && payload["body"] == Str(p.body)
            && (p.link != "" ==> "link" in payload && payload["link"] == Str(p.link))
            && (k !in {"device_tokens", "event_type", "title", "body", "link", "id", "created_at", "unread_count"} ==>
                  (k in payload <==> k in p.extra) && (k in p.extra ==> payload[k] == p.extra[k]))
            && (u in p.unread ==> "unread_count" in payload && payload["unread_count"] == Int(p.unread[u]))
            && (u !in p.unread && "unread_count" !in p.extra ==> "unread_count" !in payload)
  {
  }

  /** Push data holds string fields only, the identity under event_type. */
  lemma PushDataExact(p: Params, k: string)
    ensures var data := PushData(p);
            && data["event_type"] == p.identity
            && (k !in {"event_type", "link"} ==>
                  (k in data <==> k in p.extra && p.extra[k].Str?) && (k in data ==> data[k] == p.extra[k].s))
            && ("link" in data <==> p.link != "" || ("link" in p.extra && p.extra["link"].Str?))
            && (p.link != "" ==> data["link"] == p.link)
  {
  }
}
