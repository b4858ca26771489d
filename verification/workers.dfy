/** Draining the in-app queue: the consume loop of one dispatch worker, and any number of
    workers and producers sharing the list. internal/queue/queue.go and
    cmd/worker-dispatch/main.go. */
module DispatchWorkers {

  import opened Contract
  import opened Queues
  import opened Channels

  /** What Centrifugo is asked to publish. */
  datatype Publication = Publication(channel: string, event: string, payload: Fields)

  function PublicationOf(m: WSMessage): Publication {
    Publication(ChannelFromRoomID(m.roomID), m.event, m.payload)
  }

  // ----- one worker

  /** What a worker meets at one turn of its loop, after producers pushed `arrivals`. */
  datatype Turn = Turn(arrivals: seq<Item<WSMessage>>, reply: Reply)

  datatype Reply = Cancelled | NoMessage | Broken | Short | Message(publishFails: bool)

  /** The waiting list oldest first, what the worker has popped, and its effects. */
  datatype Progress = Progress(
    waiting: seq<Item<WSMessage>>,
    handled: seq<Item<WSMessage>>,
    published: seq<Publication>,
    dispatched: nat,
    failed: nat)

  function HandleOne(x: Progress, item: Item<WSMessage>, publishFails: bool): Progress {
    var y := x.(handled := x.handled + [item]);
    if item.Malformed? then y
    else if publishFails then y.(failed := y.failed + 1)
    else y.(published := y.published + [PublicationOf(item.msg)], dispatched := y.dispatched + 1)
  }

  predicate Ends(r: Reply) {
    r.Cancelled? || r.Broken?
  }

  function TurnOf(x: Progress, t: Turn): Progress {
    var y := x.(waiting := x.waiting + t.arrivals);
    if t.reply.Message? && y.waiting != [] then
      HandleOne(y.(waiting := y.waiting[1..]), y.waiting[0], t.reply.publishFails)
    else y
  }

  /** Turns up to and including the one that ends the loop. */
  function TurnsOf(x: Progress, turns: seq<Turn>, n: nat): Progress
    requires n <= |turns|
  {
    if n == 0 then x else TurnOf(TurnsOf(x, turns, n - 1), turns[n - 1])
  }

  class DispatchWorker {
    const queue: RedisList<Item<WSMessage>>
    var dispatched: nat
    var failed: nat
    var published: seq<Publication>
    ghost var handled: seq<Item<WSMessage>>

    constructor (queue: RedisList<Item<WSMessage>>)
      ensures this.queue == queue && dispatched == failed == 0 && published == [] && handled == []
    {
      this.queue, dispatched, failed, published, handled := queue, 0, 0, [], [];
    }

    ghost function State(): Progress
      reads this, queue
    {
      Progress(queue.Fifo(), handled, published, dispatched, failed)
    }

    /** One popped entry; never an error, so no entry can end the loop. */
    method Handle(item: Item<WSMessage>, publishFails: bool) returns (err: bool)
      modifies this
      ensures !err
      ensures State() == HandleOne(old(State()), item, publishFails)
      ensures item.Malformed? ==> dispatched == old(dispatched) && failed == old(failed) && published == old(published)
      ensures item.Good? && publishFails ==>
                dispatched == old(dispatched) && failed == old(failed) + 1 && published == old(published)
      ensures item.Good? && !publishFails ==>
                && dispatched == old(dispatched) + 1 && failed == old(failed)
                && published == old(published) +
                     [Publication("noti:" + item.msg.roomID, item.msg.event, item.msg.payload)]
    {
      handled := handled + [item];
      if item.Malformed? {
        return false;
      }
      var channel := ChannelFromRoomID(item.msg.roomID);
      if publishFails {
        failed := failed + 1;
        return false;
      }
      assert channel == "noti:" + item.msg.roomID;
      published := published + [Publication(channel, item.msg.event, item.msg.payload)];
      dispatched := dispatched + 1;
      return false;
    }

    /** The loop: it ends only when cancelled or when the list cannot be read. */
    method Consume(turns: seq<Turn>) returns (n: nat)
      modifies this, queue
      ensures n <= |turns| && State() == TurnsOf(old(State()), turns, n)
      ensures n < |turns| ==> n > 0 && Ends(turns[n - 1].reply)
      ensures forall i :: 0 <= i < n - 1 ==> !Ends(turns[i].reply)
      ensures (forall i :: 0 <= i < |turns| ==> !turns[i].reply.Cancelled? && !turns[i].reply.Broken?) ==> n == |turns|
      ensures forall k :: 0 <= k < |turns| && (turns[k].reply.Cancelled? || turns[k].reply.Broken?)
                          && (forall i :: 0 <= i < k ==> !turns[i].reply.Cancelled? && !turns[i].reply.Broken?) ==>
                n == k + 1
    {
      n := 0;
      while n < |turns|
        invariant n <= |turns| && State() == TurnsOf(old(State()), turns, n)
        invariant forall i :: 0 <= i < n ==> !Ends(turns[i].reply)
      {
        Arrive(turns[n].arrivals);
        var reply := turns[n].reply;
        n := n + 1;
        match reply {
          case Cancelled => return;
          case Broken => return;
          case NoMessage =>
          case Short =>
          case Message(publishFails) =>
            var m := queue.Pop();
            if m.Some? {
              var err := Handle(m.value, publishFails);
              if err {
                return;
              }
            }
        }
      }
    }

    /** Producers push while the worker waits. */
    method Arrive(arrivals: seq<Item<WSMessage>>)
      modifies queue
      ensures State() == old(State()).(waiting := old(State()).waiting + arrivals)
    {
      for i := 0 to |arrivals|
        invariant State() == old(State()).(waiting := old(State()).waiting + arrivals[..i])
      {
        assert arrivals[..i + 1] == arrivals[..i] + [arrivals[i]];
        var _ := queue.Enqueue(arrivals[i], false);
      }
      assert arrivals[..|arrivals|] == arrivals;
    }
  }

  function Arrived(turns: seq<Turn>, n: nat): seq<Item<WSMessage>>
    requires n <= |turns|
  {
    if n == 0 then [] else Arrived(turns, n - 1) + turns[n - 1].arrivals
  }

  function Malformeds(items: seq<Item<WSMessage>>): nat {
    if items == [] then 0
    else Malformeds(items[..|items| - 1]) + if items[|items| - 1].Malformed? then 1 else 0
  }

  /** The publications are those of some of the handled entries, in that order. */
  predicate FromHandled(published: seq<Publication>, handled: seq<Item<WSMessage>>)
    decreases |handled|
  {
    published == [] ||
    (handled != [] &&
     var item, before := handled[|handled| - 1], handled[..|handled| - 1];
     (|| FromHandled(published, before)
      || (item.Good? && published[|published| - 1] == PublicationOf(item.msg)
          && FromHandled(published[..|published| - 1], before))))
  }

  /** Each handled entry is counted once, and published exactly when dispatched. */
  predicate Accounted(x: Progress) {
    && FromHandled(x.published, x.handled)
    && |x.handled| == Malformeds(x.handled) + x.dispatched + x.failed
    && |x.published| == x.dispatched
  }

  lemma HandleAccounted(x: Progress, item: Item<WSMessage>, publishFails: bool)
    requires Accounted(x)
    ensures Accounted(HandleOne(x, item, publishFails))
  {
    var more := x.handled + [item];
    assert more[..|more| - 1] == x.handled;
    if item.Good? {
      var pubs := x.published + [PublicationOf(item.msg)];
      assert pubs[..|pubs| - 1] == x.published;
    }
  }

  lemma TurnConserves(x: Progress, t: Turn)
    requires Accounted(x)
    ensures Accounted(TurnOf(x, t))
    ensures TurnOf(x, t).handled + TurnOf(x, t).waiting == x.handled + (x.waiting + t.arrivals)
  {
    hide Accounted, Malformeds;
    var w := x.waiting + t.arrivals;
    SameAccount(x, w);
    if t.reply.Message? && w != [] {
      SameAccount(x, w[1..]);
      HandleAccounted(x.(waiting := w[1..]), w[0], t.reply.publishFails);
      assert w == [w[0]] + w[1..];
      assert x.handled + [w[0]] + w[1..] == x.handled + w;
    }
  }

  lemma SameAccount(x: Progress, w: seq<Item<WSMessage>>)
    ensures Accounted(x.(waiting := w)) == Accounted(x)
  {
  }

  lemma Extended<T>(h: seq<T>, w: seq<T>, start: seq<T>, come: seq<T>, more: seq<T>)
    requires h + w == start + come
    ensures h + (w + more) == start + (come + more)
  {
    assert h + (w + more) == h + w + more;
    assert start + come + more == start + (come + more);
  }

  /** With one worker, what was handled followed by what waits is everything enqueued, in
      order: nothing is lost, repeated or overtaken; and each handled entry is counted as
      malformed, dispatched or failed, and published exactly when dispatched. */
  lemma {:induction false} OneWorkerConserves(x: Progress, turns: seq<Turn>, n: nat)
    requires n <= |turns| && Accounted(x)
    ensures var y := TurnsOf(x, turns, n);
            y.handled + y.waiting == x.handled + x.waiting + Arrived(turns, n) && Accounted(y)
    decreases n
  {
    hide Accounted, TurnOf;
    if n == 0 {
      assert x.handled + x.waiting + [] == x.handled + x.waiting;
    } else {
      OneWorkerConserves(x, turns, n - 1);
      var y := TurnsOf(x, turns, n - 1);
      TurnConserves(y, turns[n - 1]);
      Extended(y.handled, y.waiting, x.handled + x.waiting, Arrived(turns, n - 1), turns[n - 1].arrivals);
    }
  }

  /** The turns from k on that bring a message, if one waits. */
  function Offers(turns: seq<Turn>, k: nat, n: nat): nat
    requires k <= n <= |turns|
    decreases n
  {
    if n == k then 0 else Offers(turns, k, n - 1) + if turns[n - 1].reply.Message? then 1 else 0
  }

  lemma {:induction false} OffersTaken(x: Progress, turns: seq<Turn>, k: nat, n: nat)
    requires k <= n <= |turns| && forall i :: k <= i < n ==> turns[i].arrivals == []
    ensures |TurnsOf(x, turns, n).waiting| ==
            if |TurnsOf(x, turns, k).waiting| <= Offers(turns, k, n) then 0
            else |TurnsOf(x, turns, k).waiting| - Offers(turns, k, n)
    decreases n
  {
    hide PublicationOf;
    if n > k {
      OffersTaken(x, turns, k, n - 1);
      var y := TurnsOf(x, turns, n - 1);
      assert y.waiting + [] == y.waiting;
    }
  }

  lemma {:induction false} Handed(x: Progress, turns: seq<Turn>, n: nat)
    requires n <= |turns|
    ensures TurnsOf(x, turns, n).handled + TurnsOf(x, turns, n).waiting == x.handled + x.waiting + Arrived(turns, n)
    decreases n
  {
    hide TurnOf;
    if n == 0 {
      assert x.handled + x.waiting + [] == x.handled + x.waiting;
    } else {
      Handed(x, turns, n - 1);
      var y := TurnsOf(x, turns, n - 1);
      TurnMoves(y, turns[n - 1]);
      Extended(y.handled, y.waiting, x.handled + x.waiting, Arrived(turns, n - 1), turns[n - 1].arrivals);
    }
  }

  lemma TurnMoves(x: Progress, t: Turn)
    ensures TurnOf(x, t).handled + TurnOf(x, t).waiting == x.handled + (x.waiting + t.arrivals)
  {
    hide PublicationOf;
    var w := x.waiting + t.arrivals;
    if t.reply.Message? && w != [] {
      assert w == [w[0]] + w[1..];
      assert x.handled + [w[0]] + w[1..] == x.handled + w;
    }
  }

  /** Idle timeouts and short replies never stop the loop: once as many messages were offered
      after the last arrival as had ever arrived, nothing waits and everything was handled,
      in order. */
  lemma EverythingHandled(x: Progress, turns: seq<Turn>, k: nat)
    requires k <= |turns| && forall i :: k <= i < |turns| ==> turns[i].arrivals == []
    requires Offers(turns, k, |turns|) >= |x.waiting| + |Arrived(turns, k)|
    ensures var y := TurnsOf(x, turns, |turns|);
            y.waiting == [] && y.handled == x.handled + x.waiting + Arrived(turns, k)
  {
    hide TurnsOf, Arrived, Offers;
    var n := |turns|;
    HandledGrows(x, turns, k);
    Handed(x, turns, k);
    Handed(x, turns, n);
    OffersTaken(x, turns, k, n);
    NoMoreArrive(turns, k, n);
    var y := TurnsOf(x, turns, n);
    assert y.handled + [] == y.handled;
  }

  lemma {:induction false} HandledGrows(x: Progress, turns: seq<Turn>, n: nat)
    requires n <= |turns|
    ensures |x.handled| <= |TurnsOf(x, turns, n).handled|
    decreases n
  {
    if n > 0 {
      HandledGrows(x, turns, n - 1);
    }
  }

  lemma {:induction false} NoMoreArrive(turns: seq<Turn>, k: nat, n: nat)
    requires k <= n <= |turns| && forall i :: k <= i < n ==> turns[i].arrivals == []
    ensures Arrived(turns, n) == Arrived(turns, k)
    decreases n
  {
    if n > k {
      NoMoreArrive(turns, k, n - 1);
    }
  }

  predicate AllFail(turns: seq<Turn>, n: nat)
    requires n <= |turns|
  {
    forall i :: 0 <= i < n ==> turns[i].reply.Message? ==> turns[i].reply.publishFails
  }

  /** While Centrifugo refuses everything, messages are dropped and counted, none published. */
  lemma {:induction false} RefusedAreDropped(x: Progress, turns: seq<Turn>, n: nat)
    requires n <= |turns| && AllFail(turns, n)
    ensures var y := TurnsOf(x, turns, n);
            && y.published == x.published && y.dispatched == x.dispatched
            && y.failed + Malformeds(y.handled) + |x.handled| == x.failed + Malformeds(x.handled) + |y.handled|
    decreases n
  {
    hide Malformeds, PublicationOf;
    if n > 0 {
      RefusedAreDropped(x, turns, n - 1);
      var y, t := TurnsOf(x, turns, n - 1), turns[n - 1];
      var w := y.waiting + t.arrivals;
      if t.reply.Message? && w != [] {
        MalformedsStep(y.handled, w[0]);
      }
    }
  }

  lemma MalformedsStep(items: seq<Item<WSMessage>>, item: Item<WSMessage>)
    ensures Malformeds(items + [item]) == Malformeds(items) + if item.Malformed? then 1 else 0
  {
    assert (items + [item])[..|items|] == items;
  }

  // ----- any number of workers

  datatype Outcome = Skipped | Published | Dropped

  /** Messages are known by their number in enqueue order. The list holds numbers, newest
      first; each worker holds at most one. */
  datatype Shared = Shared(
    log: seq<Item<WSMessage>>,
    list: seq<nat>,
    held: map<nat, nat>,
    done: map<nat, Outcome>,
    publications: seq<nat>,
    dispatched: nat,
    failed: nat)

  datatype Action =
    | Enqueue(item: Item<WSMessage>)
    | Pop(worker: nat)
    | Finish(worker: nat, publishFails: bool)

  /** An action whose moment has not come changes nothing: popping while busy or from an
      empty list (a timeout), finishing while idle. */
  function Act(x: Shared, a: Action): Shared {
    match a
    case Enqueue(item) => x.(log := x.log + [item], list := [|x.log|] + x.list)
    case Pop(w) =>
      if w in x.held || x.list == [] then x
      else x.(list := x.list[..|x.list| - 1], held := x.held[w := x.list[|x.list| - 1]])
    case Finish(w, publishFails) =>
      if w !in x.held || x.held[w] >= |x.log| then x
      else
        var k := x.held[w];
        var y := x.(held := x.held - {w});
        if x.log[k].Malformed? then y.(done := x.done[k := Skipped])
        else if publishFails then y.(done := x.done[k := Dropped], failed := x.failed + 1)
        else y.(done := x.done[k := Published], publications := x.publications + [k], dispatched := x.dispatched + 1)
  }

  /** Messages popped so far; the list holds the others, newest first. */
  function Popped(x: Shared): int { |x.log| - |x.list| }

  predicate Waits(x: Shared) {
    && 0 <= Popped(x)
    && forall i :: 0 <= i < |x.list| ==> x.list[i] == |x.log| - 1 - i
  }

  /** A message held or done has been popped; it is not both, and nobody else holds it. */
  ghost predicate Apart(p: int, held: map<nat, nat>, done: map<nat, Outcome>) {
    && (forall w :: w in held ==> held[w] < p && held[w] !in done)
    && (forall v, w :: v in held && w in held && v != w ==> held[v] != held[w])
    && (forall k :: k in done ==> k < p)
  }

  /** Every popped message is held or done. */
  ghost predicate Covered(p: int, held: map<nat, nat>, done: map<nat, Outcome>) {
    && (forall k: nat :: k < p ==> k in done || k in held.Values)
    && p == |held| + |done|
  }

  ghost predicate Placed(x: Shared) {
    Apart(Popped(x), x.held, x.done) && Covered(Popped(x), x.held, x.done)
  }

  function WithOutcome(done: map<nat, Outcome>, o: Outcome): set<nat> {
    set k | k in done && done[k] == o
  }

  function OutcomeCount(done: map<nat, Outcome>, o: Outcome): nat {
    |WithOutcome(done, o)|
  }

  /** Counters count outcomes; what was published is what came out Published, once each. */
  ghost predicate Counted(x: Shared) {
    && x.dispatched == OutcomeCount(x.done, Published)
    && x.failed == OutcomeCount(x.done, Dropped)
    && |x.publications| == x.dispatched
    && (forall i, j :: 0 <= i < j < |x.publications| ==> x.publications[i] != x.publications[j])
    && (forall k :: k in x.publications <==> k in x.done && x.done[k] == Published)
    && (forall k :: k in x.done ==> k < |x.log| && (x.done[k] == Skipped <==> x.log[k].Malformed?))
  }

  ghost predicate Consistent(x: Shared) {
    Waits(x) && Placed(x) && Counted(x)
  }

  lemma EnqueueKeeps(x: Shared, item: Item<WSMessage>)
    requires Consistent(x)
    ensures Consistent(Act(x, Enqueue(item)))
  {
    hide Apart, Covered, OutcomeCount;
    var y := Act(x, Enqueue(item));
    assert Popped(y) == Popped(x);
  }

  lemma ValuesPlus(held: map<nat, nat>, w: nat, k: nat)
    requires w !in held
    ensures |held[w := k]| == |held| + 1
    ensures held[w := k].Values == held.Values + {k}
  {
    var more := held[w := k];
    assert more.Keys == held.Keys + {w};
    forall j | j in held.Values + {k} ensures j in more.Values {
      if j == k {
        assert more[w] == j;
      } else {
        var v :| v in held && held[v] == j;
        assert more[v] == j;
      }
    }
  }

  lemma ValuesMinus(held: map<nat, nat>, w: nat)
    requires w in held
    ensures |held - {w}| == |held| - 1
    ensures held.Values <= (held - {w}).Values + {held[w]}
  {
    var less := held - {w};
    assert less.Keys == held.Keys - {w};
    forall j | j in held.Values && j != held[w] ensures j in less.Values {
      var v :| v in held && held[v] == j;
      assert less[v] == j;
    }
  }

  lemma HeldPlus(p: nat, held: map<nat, nat>, done: map<nat, Outcome>, w: nat)
    requires w !in held && Apart(p, held, done) && Covered(p, held, done)
    ensures Apart(p + 1, held[w := p], done)
    ensures Covered(p + 1, held[w := p], done)
  {
    hide Apart;
    ApartPlus(p, held, done, w);
    ValuesPlus(held, w, p);
  }

  lemma ApartPlus(p: nat, held: map<nat, nat>, done: map<nat, Outcome>, w: nat)
    requires w !in held && Apart(p, held, done)
    ensures Apart(p + 1, held[w := p], done)
  {
  }

  lemma HeldMinus(p: nat, held: map<nat, nat>, done: map<nat, Outcome>, w: nat, o: Outcome)
    requires w in held && Apart(p, held, done) && Covered(p, held, done)
    ensures Apart(p, held - {w}, done[held[w] := o])
    ensures Covered(p, held - {w}, done[held[w] := o])
  {
    hide Covered;
    assert held[w] !in done;
    ApartMinus(p, held, done, w, o);
    CoveredMinus(p, held, done, w, o);
  }

  lemma ApartMinus(p: nat, held: map<nat, nat>, done: map<nat, Outcome>, w: nat, o: Outcome)
    requires w in held && Apart(p, held, done)
    ensures Apart(p, held - {w}, done[held[w] := o])
  {
  }

  lemma CoveredMinus(p: nat, held: map<nat, nat>, done: map<nat, Outcome>, w: nat, o: Outcome)
    requires w in held && held[w] !in done && Covered(p, held, done)
    ensures Covered(p, held - {w}, done[held[w] := o])
  {
    ValuesMinus(held, w);
    assert done[held[w] := o].Keys == done.Keys + {held[w]};
  }

  lemma SameCounted(x: Shared, y: Shared)
    requires Counted(x) && y.log == x.log && y.done == x.done && y.publications == x.publications
    requires y.dispatched == x.dispatched && y.failed == x.failed
    ensures Counted(y)
  {
  }

  lemma PopKeeps(x: Shared, w: nat)
    requires Consistent(x)
    ensures Consistent(Act(x, Pop(w)))
  {
    hide Counted, Apart, Covered;
    SameCounted(x, Act(x, Pop(w)));
    if w !in x.held && x.list != [] {
      assert x.list[|x.list| - 1] == Popped(x);
      HeldPlus(Popped(x), x.held, x.done, w);
    }
  }

  lemma CountStep(done: map<nat, Outcome>, k: nat, o: Outcome, p: Outcome)
    requires k !in done
    ensures OutcomeCount(done[k := o], p) == OutcomeCount(done, p) + if p == o then 1 else 0
  {
    assert WithOutcome(done[k := o], p) == WithOutcome(done, p) + if p == o then {k} else {};
  }

  lemma FinishPlaced(x: Shared, w: nat, publishFails: bool)
    requires Consistent(x) && w in x.held
    ensures Waits(Act(x, Finish(w, publishFails))) && Placed(Act(x, Finish(w, publishFails)))
  {
    hide Counted, Covered;
    var y := Act(x, Finish(w, publishFails));
    HeldMinus(Popped(x), x.held, x.done, w, y.done[x.held[w]]);
  }

  lemma FinishCounted(x: Shared, w: nat, publishFails: bool)
    requires Consistent(x) && w in x.held
    ensures Counted(Act(x, Finish(w, publishFails)))
  {
    hide OutcomeCount, Covered, Waits;
    var y := Act(x, Finish(w, publishFails));
    var k := x.held[w];
    assert k !in x.done;
    CountStep(x.done, k, y.done[k], Published);
    CountStep(x.done, k, y.done[k], Dropped);
  }

  /** Every step keeps the account. */
  lemma ActKeeps(x: Shared, a: Action)
    requires Consistent(x)
    ensures Consistent(Act(x, a))
  {
    hide Waits, Placed, Counted;
    match a
    case Enqueue(item) => EnqueueKeeps(x, item);
    case Pop(w) => PopKeeps(x, w);
    case Finish(w, publishFails) =>
      if w in x.held {
        FinishPlaced(x, w, publishFails);
        FinishCounted(x, w, publishFails);
      }
  }

  const EMPTY: Shared := Shared([], [], map[], map[], [], 0, 0)

  function Acts(x: Shared, actions: seq<Action>): Shared
    decreases |actions|
  {
    if actions == [] then x else Acts(Act(x, actions[0]), actions[1..])
  }

  lemma {:induction false} ActsKeep(x: Shared, actions: seq<Action>)
    requires Consistent(x)
    ensures Consistent(Acts(x, actions))
    decreases |actions|
  {
    hide Consistent, Act;
    if actions != [] {
      ActKeeps(x, actions[0]);
      ActsKeep(Act(x, actions[0]), actions[1..]);
    }
  }

  lemma OutcomesAddUp(done: map<nat, Outcome>)
    ensures |done| == OutcomeCount(done, Skipped) + OutcomeCount(done, Published) + OutcomeCount(done, Dropped)
  {
    assert done.Keys == WithOutcome(done, Skipped) + WithOutcome(done, Published) + WithOutcome(done, Dropped);
  }

  /** Over every interleaving of producers and workers: everything ever enqueued is waiting,
      held by one worker, skipped as malformed, dispatched or failed, in exactly one of
      those places; messages leave the list in enqueue order; none is published twice. */
  lemma MessagesConserved(actions: seq<Action>)
    ensures var x := Acts(EMPTY, actions);
            && |x.log| == |x.list| + |x.held| + OutcomeCount(x.done, Skipped) + x.dispatched + x.failed
            && (forall k: nat :: k < |x.log| ==>
                  (k < Popped(x) <==> k in x.done || k in x.held.Values) && !(k in x.done && k in x.held.Values))
            && (forall i :: 0 <= i < |x.list| ==> x.list[i] == |x.log| - 1 - i)
            && (forall i, j :: 0 <= i < j < |x.publications| ==> x.publications[i] != x.publications[j])
            && (forall k :: k in x.publications <==> k in x.done && x.done[k] == Published)
  {
    hide Acts, OutcomeCount;
    assert Consistent(EMPTY) by { EmptyConsistent(); }
    ActsKeep(EMPTY, actions);
    OutcomesAddUp(Acts(EMPTY, actions).done);
  }

  lemma NothingDone(done: map<nat, Outcome>, o: Outcome)
    requires done.Keys == {}
    ensures OutcomeCount(done, o) == 0
  {
    assert WithOutcome(done, o) <= done.Keys;
  }

  lemma EmptyConsistent()
    ensures Consistent(EMPTY)
  {
    NothingDone(EMPTY.done, Published);
    NothingDone(EMPTY.done, Dropped);
  }

  predicate AllDropped(actions: seq<Action>) {
    forall i :: 0 <= i < |actions| && actions[i].Finish? ==> actions[i].publishFails
  }

  /** A failure is counted only where a publish failed, and a publication made only where one
      worked. */
  lemma {:induction false} OutcomesExact(x: Shared, actions: seq<Action>)
    ensures NoneDropped(actions) ==> Acts(x, actions).failed == x.failed
    ensures AllDropped(actions) ==>
              Acts(x, actions).publications == x.publications && Acts(x, actions).dispatched == x.dispatched
    decreases |actions|
  {
    if actions != [] {
      assert forall i :: 0 <= i < |actions[1..]| ==> actions[1..][i] == actions[i + 1];
      OutcomesExact(Act(x, actions[0]), actions[1..]);
    }
  }

  /** Only worker w ever pops. */
  predicate Alone(actions: seq<Action>, w: nat) {
    forall i :: 0 <= i < |actions| && actions[i].Pop? ==> actions[i].worker == w
  }

  predicate HoldsLast(x: Shared, w: nat) {
    forall v :: v in x.held ==> v == w && x.held[v] == Popped(x) - 1
  }

  lemma AloneStep(x: Shared, a: Action, w: nat)
    requires Consistent(x) && HoldsLast(x, w) && (a.Pop? ==> a.worker == w)
    ensures HoldsLast(Act(x, a), w)
  {
    hide Covered, Counted;
    if a.Pop? && w !in x.held && x.list != [] {
      assert x.list[|x.list| - 1] == Popped(x);
    }
  }

  lemma {:induction false} AloneHolds(x: Shared, actions: seq<Action>, w: nat)
    requires Consistent(x) && HoldsLast(x, w) && Alone(actions, w)
    ensures HoldsLast(Acts(x, actions), w)
    decreases |actions|
  {
    hide Consistent, HoldsLast, Act;
    if actions != [] {
      assert forall i :: 0 <= i < |actions[1..]| ==> actions[1..][i] == actions[i + 1];
      AloneStep(x, actions[0], w);
      ActKeeps(x, actions[0]);
      AloneHolds(Act(x, actions[0]), actions[1..], w);
    }
  }

  /** With a single worker, the handled messages are a prefix of the enqueue order. */
  lemma SingleWorkerInOrder(actions: seq<Action>, w: nat)
    requires Alone(actions, w)
    ensures var x := Acts(EMPTY, actions);
            var n := if w in x.held then Popped(x) - 1 else Popped(x);
            0 <= n <= |x.log| && forall k: nat :: k in x.done <==> k < n
  {
    hide Acts, Counted;
    EmptyConsistent();
    ActsKeep(EMPTY, actions);
    AloneHolds(EMPTY, actions, w);
    var x := Acts(EMPTY, actions);
    if w in x.held {
      assert x.held[w] == Popped(x) - 1;
    }
  }

  // ----- the one worker is a run of the many

  function Arrivals(items: seq<Item<WSMessage>>): seq<Action> {
    seq(|items|, i requires 0 <= i < |items| => Enqueue(items[i]))
  }

  /** One turn of the loop, as actions of worker 0. */
  function ActionsOf(t: Turn): seq<Action> {
    Arrivals(t.arrivals) + if t.reply.Message? then [Pop(0), Finish(0, t.reply.publishFails)] else []
  }

  function ActionsFor(turns: seq<Turn>, n: nat): seq<Action>
    requires n <= |turns|
  {
    if n == 0 then [] else ActionsFor(turns, n - 1) + ActionsOf(turns[n - 1])
  }

  /** The same publications, by what they say and by message number. */
  ghost predicate SamePublications(published: seq<Publication>, log: seq<Item<WSMessage>>, numbers: seq<nat>) {
    && |published| == |numbers|
    && forall i :: 0 <= i < |numbers| ==>
         numbers[i] < |log| && log[numbers[i]].Good? && published[i] == PublicationOf(log[numbers[i]].msg)
  }

  /** Between turns the worker holds nothing; the list and the counters agree. */
  ghost predicate Matches(x: Progress, y: Shared) {
    && y.held == map[] && Waits(y) && Popped(y) <= |y.log|
    && x.handled == y.log[..Popped(y)] && x.waiting == y.log[Popped(y)..]
    && x.dispatched == y.dispatched && x.failed == y.failed
    && SamePublications(x.published, y.log, y.publications)
  }

  lemma {:induction false} ActsConcat(x: Shared, a: seq<Action>, b: seq<Action>)
    ensures Acts(x, a + b) == Acts(Acts(x, a), b)
    decreases |a|
  {
    hide Act;
    if a == [] {
      assert a + b == b;
    } else {
      assert (a + b)[1..] == a[1..] + b;
      ActsConcat(Act(x, a[0]), a[1..], b);
    }
  }

  lemma EnqueueMatches(x: Progress, y: Shared, item: Item<WSMessage>)
    requires Matches(x, y)
    ensures Matches(x.(waiting := x.waiting + [item]), Act(y, Enqueue(item)))
  {
  }

  lemma {:induction false} ArrivalsMatch(x: Progress, y: Shared, items: seq<Item<WSMessage>>)
    requires Matches(x, y)
    ensures Matches(x.(waiting := x.waiting + items), Acts(y, Arrivals(items)))
    decreases |items|
  {
    hide Matches, Act;
    if items == [] {
      assert x.waiting + [] == x.waiting;
    } else {
      EnqueueMatches(x, y, items[0]);
      var x', y' := x.(waiting := x.waiting + [items[0]]), Act(y, Enqueue(items[0]));
      ArrivalsMatch(x', y', items[1..]);
      assert x'.waiting + items[1..] == x.waiting + items;
      assert Arrivals(items)[0] == Enqueue(items[0]) && Arrivals(items)[1..] == Arrivals(items[1..]);
    }
  }

  lemma TwoActs(y: Shared, a: Action, b: Action)
    ensures Acts(y, [a, b]) == Act(Act(y, a), b)
  {
    hide Act;
    assert [a, b][1..] == [b] && [b][1..] == [];
    assert Acts(Act(y, a), [b]) == Acts(Act(Act(y, a), b), []);
  }

  /** Taking the oldest message and finishing it is handling the head of the list. */
  lemma MessageMatches(x: Progress, y: Shared, publishFails: bool)
    requires Matches(x, y)
    ensures var x' := if x.waiting == [] then x
                      else HandleOne(x.(waiting := x.waiting[1..]), x.waiting[0], publishFails);
            Matches(x', Acts(y, [Pop(0), Finish(0, publishFails)]))
  {
    hide Act, Acts;
    TwoActs(y, Pop(0), Finish(0, publishFails));
    if x.waiting != [] {
      Handled(y, publishFails);
      var k := Popped(y);
      assert y.log[..k + 1] == y.log[..k] + [y.log[k]];
    } else {
      NothingToPop(y, publishFails);
    }
  }

  lemma NothingToPop(y: Shared, publishFails: bool)
    requires y.held == map[] && y.list == []
    ensures Act(Act(y, Pop(0)), Finish(0, publishFails)) == y
  {
  }

  /** What popping and finishing the oldest message amounts to. */
  lemma Handled(y: Shared, publishFails: bool)
    requires y.held == map[] && Waits(y) && Popped(y) < |y.log|
    ensures var k, z := Popped(y), Act(Act(y, Pop(0)), Finish(0, publishFails));
            && z.log == y.log && z.held == map[] && z.list == y.list[..|y.list| - 1]
            && (if y.log[k].Malformed? then
                  z.dispatched == y.dispatched && z.failed == y.failed && z.publications == y.publications
                else if publishFails then
                  z.dispatched == y.dispatched && z.failed == y.failed + 1 && z.publications == y.publications
                else
                  z.dispatched == y.dispatched + 1 && z.failed == y.failed && z.publications == y.publications + [k])
  {
    assert y.list[|y.list| - 1] == Popped(y);
    var z := Act(y, Pop(0));
    assert z.held == map[0 := Popped(y)] && z.held - {0} == map[];
  }

  lemma TurnMatches(x: Progress, y: Shared, t: Turn)
    requires Matches(x, y)
    ensures Matches(TurnOf(x, t), Acts(y, ActionsOf(t)))
  {
    hide Matches, Acts, HandleOne;
    ArrivalsMatch(x, y, t.arrivals);
    var z := Acts(y, Arrivals(t.arrivals));
    if t.reply.Message? {
      ActsConcat(y, Arrivals(t.arrivals), [Pop(0), Finish(0, t.reply.publishFails)]);
      MessageMatches(x.(waiting := x.waiting + t.arrivals), z, t.reply.publishFails);
    } else {
      assert ActionsOf(t) == Arrivals(t.arrivals);
    }
  }

  /** The consume loop of one worker is a run of the shared list in which only worker 0
      acts: same order, same counters, same publications. */
  lemma {:induction false} OneWorkerRuns(x: Progress, y: Shared, turns: seq<Turn>, n: nat)
    requires n <= |turns| && Matches(x, y)
    ensures Matches(TurnsOf(x, turns, n), Acts(y, ActionsFor(turns, n)))
    decreases n
  {
    hide Matches, Act, TurnOf, ActionsOf;
    if n > 0 {
      OneWorkerRuns(x, y, turns, n - 1);
      TurnMatches(TurnsOf(x, turns, n - 1), Acts(y, ActionsFor(turns, n - 1)), turns[n - 1]);
      ActsConcat(y, ActionsFor(turns, n - 1), ActionsOf(turns[n - 1]));
    }
  }

  const IDLE: Progress := Progress([], [], [], 0, 0)

  lemma IdleMatches()
    ensures Matches(IDLE, EMPTY) && Accounted(IDLE) && IDLE.published == PublicationsOf(IDLE.handled)
  {
  }

  // ----- what clients see, in which order

  /** What the well-formed entries are published as, in order. */
  function PublicationsOf(items: seq<Item<WSMessage>>): seq<Publication> {
    if items == [] then []
    else
      var last := items[|items| - 1];
      PublicationsOf(items[..|items| - 1]) + if last.Good? then [PublicationOf(last.msg)] else []
  }

  predicate NoneFails(turns: seq<Turn>, n: nat)
    requires n <= |turns|
  {
    forall i :: 0 <= i < n ==> !(turns[i].reply.Message? && turns[i].reply.publishFails)
  }

  lemma PublicationsStep(items: seq<Item<WSMessage>>, item: Item<WSMessage>)
    ensures PublicationsOf(items + [item]) ==
            if item.Good? then PublicationsOf(items) + [PublicationOf(item.msg)] else PublicationsOf(items)
  {
    assert (items + [item])[..|items|] == items;
  }

  lemma TurnInOrder(x: Progress, t: Turn)
    requires x.published == PublicationsOf(x.handled) && !(t.reply.Message? && t.reply.publishFails)
    ensures TurnOf(x, t).published == PublicationsOf(TurnOf(x, t).handled)
  {
    hide PublicationsOf, PublicationOf;
    var w := x.waiting + t.arrivals;
    if t.reply.Message? && w != [] {
      PublicationsStep(x.handled, w[0]);
    }
  }

  /** With one worker and no failed publish, what is published is what was handled. */
  lemma {:induction false} PublishedInOrder(x: Progress, turns: seq<Turn>, n: nat)
    requires n <= |turns| && NoneFails(turns, n) && x.published == PublicationsOf(x.handled)
    ensures var y := TurnsOf(x, turns, n);
            y.published == PublicationsOf(y.handled)
    decreases n
  {
    hide TurnOf, PublicationsOf;
    if n > 0 {
      PublishedInOrder(x, turns, n - 1);
      TurnInOrder(TurnsOf(x, turns, n - 1), turns[n - 1]);
    }
  }

  /** The entries with these numbers. */
  function Numbered(log: seq<Item<WSMessage>>, numbers: seq<nat>): seq<Item<WSMessage>> {
    seq(|numbers|, i requires 0 <= i < |numbers| => if numbers[i] < |log| then log[numbers[i]] else Malformed(""))
  }

  /** What a run of many workers published, in order. */
  function Said(x: Shared): seq<Publication> {
    PublicationsOf(Numbered(x.log, x.publications))
  }

  /** Only workers 0 to n - 1 take messages. */
  predicate PopsBelow(actions: seq<Action>, n: nat) {
    forall i :: 0 <= i < |actions| && actions[i].Pop? ==> actions[i].worker < n
  }

  predicate NoneDropped(actions: seq<Action>) {
    forall i :: 0 <= i < |actions| && actions[i].Finish? ==> !actions[i].publishFails
  }

  /** Nothing waits and nobody is busy. */
  predicate Drained(x: Shared) {
    x.list == [] && x.held == map[]
  }

  /** With worker 0 alone, how many messages it is done with. */
  function Finished(x: Shared): int {
    if 0 in x.held then Popped(x) - 1 else Popped(x)
  }

  ghost predicate SaidInOrder(x: Shared) {
    && 0 <= Finished(x) <= |x.log|
    && Said(x) == PublicationsOf(x.log[..Finished(x)])
  }

  lemma NumberedMore(log: seq<Item<WSMessage>>, item: Item<WSMessage>, numbers: seq<nat>)
    requires forall i :: 0 <= i < |numbers| ==> numbers[i] < |log|
    ensures Numbered(log + [item], numbers) == Numbered(log, numbers)
  {
  }

  lemma NumberedStep(log: seq<Item<WSMessage>>, numbers: seq<nat>, k: nat)
    requires k < |log|
    ensures Numbered(log, numbers + [k]) == Numbered(log, numbers) + [log[k]]
  {
  }

  lemma NumbersKnown(x: Shared)
    requires Consistent(x)
    ensures forall i :: 0 <= i < |x.publications| ==> x.publications[i] < |x.log|
  {
    forall i | 0 <= i < |x.publications| ensures x.publications[i] < |x.log| {
      assert x.publications[i] in x.publications;
    }
  }

  lemma EnqueueInOrder(x: Shared, item: Item<WSMessage>)
    requires Consistent(x) && SaidInOrder(x)
    ensures SaidInOrder(Act(x, Enqueue(item)))
  {
    hide Consistent, Numbered, PublicationsOf;
    NumbersKnown(x);
    NumberedMore(x.log, item, x.publications);
    assert (x.log + [item])[..Finished(x)] == x.log[..Finished(x)];
  }

  lemma FinishInOrder(x: Shared)
    requires 0 in x.held && x.held[0] == Popped(x) - 1 && Popped(x) <= |x.log| && SaidInOrder(x)
    ensures SaidInOrder(Act(x, Finish(0, false)))
  {
    hide Numbered, PublicationsOf, PublicationOf;
    var k := x.held[0];
    assert x.log[..k + 1] == x.log[..k] + [x.log[k]];
    PublicationsStep(x.log[..k], x.log[k]);
    NumberedStep(x.log, x.publications, k);
    PublicationsStep(Numbered(x.log, x.publications), x.log[k]);
  }

  lemma StepInOrder(x: Shared, a: Action)
    requires Consistent(x) && HoldsLast(x, 0) && SaidInOrder(x)
    requires (a.Pop? ==> a.worker == 0) && (a.Finish? ==> !a.publishFails)
    ensures SaidInOrder(Act(x, a))
  {
    hide Placed, Counted, Said, PublicationsOf;
    match a
    case Enqueue(item) => EnqueueInOrder(x, item);
    case Pop(w) => assert Said(Act(x, a)) == Said(x) by { SameSaid(x, Act(x, a)); }
    case Finish(w, _) =>
      if w in x.held {
        FinishInOrder(x);
      }
  }

  lemma SameSaid(x: Shared, y: Shared)
    requires x.log == y.log && x.publications == y.publications
    ensures Said(x) == Said(y)
  {
  }

  lemma {:induction false} ActsInOrder(x: Shared, actions: seq<Action>)
    requires Consistent(x) && HoldsLast(x, 0) && SaidInOrder(x)
    requires PopsBelow(actions, 1) && NoneDropped(actions)
    ensures SaidInOrder(Acts(x, actions))
    decreases |actions|
  {
    hide Consistent, HoldsLast, SaidInOrder, Act;
    if actions != [] {
      assert forall i :: 0 <= i < |actions[1..]| ==> actions[1..][i] == actions[i + 1];
      AloneStep(x, actions[0], 0);
      ActKeeps(x, actions[0]);
      StepInOrder(x, actions[0]);
      ActsInOrder(Act(x, actions[0]), actions[1..]);
    }
  }

  /** One worker, any interleaving with the producers, no failed publish: what has been
      published is the messages done with, in enqueue order. */
  lemma OneWorkerInOrder(actions: seq<Action>)
    requires PopsBelow(actions, 1) && NoneDropped(actions)
    ensures var x := Acts(EMPTY, actions);
            && 0 <= Finished(x) <= |x.log|
            && Said(x) == PublicationsOf(x.log[..Finished(x)])
            && (Drained(x) ==> Finished(x) == |x.log|)
  {
    hide Acts;
    EmptyConsistent();
    assert Numbered([], []) == [];
    ActsInOrder(EMPTY, actions);
  }

  lemma PublicationsOfTwo(a: WSMessage, b: WSMessage)
    ensures PublicationsOf([Good(a), Good(b)]) == [PublicationOf(a), PublicationOf(b)]
  {
    hide PublicationOf;
    var items: seq<Item<WSMessage>> := [Good(a), Good(b)];
    assert items[..1] == [Good(a)] && items[..1][..0] == [];
    assert PublicationsOf(items[..1]) == [PublicationOf(a)];
  }

  /** Both messages enqueued, one popped by each worker. */
  lemma BothHeld(a: Item<WSMessage>, b: Item<WSMessage>)
    ensures Act(Act(Act(Act(EMPTY, Enqueue(a)), Enqueue(b)), Pop(0)), Pop(1))
            == Shared([a, b], [], map[0 := 0, 1 := 1], map[], [], 0, 0)
  {
    var x := Act(Act(EMPTY, Enqueue(a)), Enqueue(b));
    assert x == Shared([a, b], [1, 0], map[], map[], [], 0, 0);
    var y := Act(x, Pop(0));
    assert y == Shared([a, b], [1], map[0 := 0], map[], [], 0, 0);
  }

  lemma LastFirst(a: Item<WSMessage>, b: Item<WSMessage>)
    requires a.Good? && b.Good?
    ensures var x := Shared([a, b], [], map[0 := 0, 1 := 1], map[], [], 0, 0);
            Act(Act(x, Finish(1, false)), Finish(0, false))
            == Shared([a, b], [], map[], map[1 := Published, 0 := Published], [1, 0], 2, 0)
  {
    var x := Shared([a, b], [], map[0 := 0, 1 := 1], map[], [], 0, 0);
    assert x.held - {1} == map[0 := 0];
    assert map[0 := 0] - {0} == map[];
  }

  /** Two workers can swap two messages: the second popped is published first. */
  lemma TwoWorkersReorder(a: WSMessage, b: WSMessage)
    ensures var x := Acts(EMPTY, [Enqueue(Good(a)), Enqueue(Good(b)), Pop(0), Pop(1), Finish(1, false), Finish(0, false)]);
            && x.log == [Good(a), Good(b)] && Drained(x) && x.dispatched == 2 && x.failed == 0
            && x.publications == [1, 0] && Said(x) == [PublicationOf(b), PublicationOf(a)]
  {
    hide Act, Acts, PublicationOf, PublicationsOf;
    BothHeld(Good(a), Good(b));
    LastFirst(Good(a), Good(b));
    SixActs(EMPTY, Enqueue(Good(a)), Enqueue(Good(b)), Pop(0), Pop(1), Finish(1, false), Finish(0, false));
    PublicationsOfTwo(b, a);
    assert Numbered([Good(a), Good(b)], [1, 0]) == [Good(b), Good(a)];
  }

  lemma SixActs(x: Shared, a: Action, b: Action, c: Action, d: Action, e: Action, f: Action)
    ensures Acts(x, [a, b, c, d, e, f]) == Act(Act(Act(Act(Act(Act(x, a), b), c), d), e), f)
  {
    hide Act;
    TwoActs(x, a, b);
    TwoActs(Act(Act(x, a), b), c, d);
    TwoActs(Act(Act(Act(Act(x, a), b), c), d), e, f);
    ActsConcat(x, [a, b], [c, d, e, f]);
    ActsConcat(Act(Act(x, a), b), [c, d], [e, f]);
    assert [a, b] + [c, d, e, f] == [a, b, c, d, e, f] && [c, d] + [e, f] == [c, d, e, f];
  }
}
