/** Messages and the Redis list that carries them: pkg/event and internal/queue. */
module Queues {

  import opened Wrappers
  import opened Contract

  datatype WSMessage = WSMessage(roomID: string, event: string, payload: Fields)

  datatype PushMessage = PushMessage(
    userID: string,
    deviceTokens: seq<string>,
    title: string,
    body: string,
    link: string,
    eventType: string,
    data: map<string, string>)

  /** A list entry: the JSON of a message, or bytes that decode to none. */
  datatype Item<T> = Good(msg: T) | Malformed(raw: string)

  function Reversed<T>(s: seq<T>): seq<T> {
    if s == [] then [] else Reversed(s[1..]) + [s[0]]
  }

  lemma {:induction false} ReversedConcat<T>(a: seq<T>, b: seq<T>)
    ensures Reversed(a + b) == Reversed(b) + Reversed(a)
  {
    if a == [] {
      assert a + b == b;
    } else {
      assert (a + b)[1..] == a[1..] + b;
      ReversedConcat(a[1..], b);
    }
  }

  lemma {:induction false} ReversedLast<T>(s: seq<T>)
    requires s != []
    ensures Reversed(s) == [s[|s| - 1]] + Reversed(s[..|s| - 1])
  {
    var last := [s[|s| - 1]];
    assert s == s[..|s| - 1] + last;
    ReversedConcat(s[..|s| - 1], last);
    assert last[1..] == [];
    assert Reversed(last) == last;
  }

  /** One Redis list: LPUSH adds at the head, BRPOP takes from the tail. */
  class RedisList<T> {
    var list: seq<T>

    constructor ()
      ensures Fifo() == []
    {
      list := [];
    }

    /** Waiting messages, the one to be popped next first. */
    ghost function Fifo(): seq<T>
      reads this
    {
      Reversed(list)
    }

    /** A failed push leaves the list alone; otherwise the message goes to the back. */
    method Enqueue(m: T, fails: bool) returns (err: bool)
      modifies this
      ensures err == fails
      ensures if fails then Fifo() == old(Fifo()) else Fifo() == old(Fifo()) + [m]
    {
      if fails {
        return true;
      }
      list := [m] + list;
      assert list[1..] == old(list);
      return false;
    }

    /** Nothing comes back from an empty list. */
    method Pop() returns (m: Option<T>)
      modifies this
      ensures old(Fifo()) == [] <==> m == None
      ensures m.Some? ==> old(Fifo()) == [m.value] + Fifo()
      ensures m == None ==> Fifo() == old(Fifo())
    {
      if list == [] {
        return None;
      }
      ReversedLast(list);
      m := Some(list[|list| - 1]);
      list := list[..|list| - 1];
    }
  }
}
