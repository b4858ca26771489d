/** Reading, clearing and deleting through the API, and the messages that keep the user's
    other devices in step: internal/api/notification_handler.go and read_sync.go. */
module Api {

  import opened Contract
  import opened Queues
  import opened Channels
  import opened MemoryStore
  import T = Tables

  datatype Status = Unauthorized | Forbidden | BadRequest | InternalError | NotFound | NoContent | OK(updated: nat)

  function ReadMessage(u: string, id: string, unread: nat): WSMessage {
    WSMessage(UserRoom(u), EVENT_READ, map["id" := Str(id), "unread_count" := Int(unread)])
  }

  function ReadAllMessage(u: string): WSMessage {
    WSMessage(UserRoom(u), EVENT_READ_ALL, map["unread_count" := Int(0)])
  }

  /** What the two sync messages say: where they go, under which name, which row was read, and
      the number left. */
  lemma SyncSays(u: string, id: string, unread: nat)
    ensures ReadMessage(u, id, unread)
            == WSMessage("user:" + u, "notification_read", map["id" := Str(id), "unread_count" := Int(unread)])
    ensures ReadAllMessage(u) == WSMessage("user:" + u, "notification_read_all", map["unread_count" := Int(0)])
  {
  }

  /** Best effort: a failed enqueue is forgotten. */
  class ReadSync {
    const ws: RedisList<Item<WSMessage>>

    constructor (ws: RedisList<Item<WSMessage>>)
      ensures this.ws == ws
    {
      this.ws := ws;
    }

    method NotificationRead(u: string, id: string, unread: nat, enqueueFails: bool)
      modifies ws
      ensures !enqueueFails ==>
                ws.Fifo() == old(ws.Fifo()) +
                  [Good(WSMessage("user:" + u, "notification_read", map["id" := Str(id), "unread_count" := Int(unread)]))]
      ensures if enqueueFails then ws.Fifo() == old(ws.Fifo())
              else ws.Fifo() == old(ws.Fifo()) + [Good(ReadMessage(u, id, unread))]
    {
      SyncSays(u, id, unread);
      var _ := ws.Enqueue(Good(WSMessage(UserRoom(u), EVENT_READ,
                                         map["id" := Str(id), "unread_count" := Int(unread)])), enqueueFails);
    }

    method NotificationReadAll(u: string, enqueueFails: bool)
      modifies ws
      ensures !enqueueFails ==>
                ws.Fifo() == old(ws.Fifo()) +
                  [Good(WSMessage("user:" + u, "notification_read_all", map["unread_count" := Int(0)]))]
      ensures if enqueueFails then ws.Fifo() == old(ws.Fifo())
              else ws.Fifo() == old(ws.Fifo()) + [Good(ReadAllMessage(u))]
    {
      SyncSays(u, "", 0);
      var _ := ws.Enqueue(Good(WSMessage(UserRoom(u), EVENT_READ_ALL, map["unread_count" := Int(0)])), enqueueFails);
    }
  }

  /** The calls that may fail while one request is served. A failed store call changes
      nothing. */
  datatype Faults = Faults(store: bool, count: bool, enqueue: bool)

  class NotificationHandler {
    const store: NotificationStore
    const readSync: ReadSync?

    constructor (store: NotificationStore, readSync: ReadSync?)
      ensures this.store == store && this.readSync == readSync
    {
      this.store, this.readSync := store, readSync;
    }

    ghost function SyncQueue(): set<object>
      reads readSync
    {
      if readSync == null then {} else {readSync.ws}
    }

    ghost function Synced(): seq<Item<WSMessage>>
      reads readSync, if readSync == null then {} else {readSync.ws}
    {
      if readSync == null then [] else readSync.ws.Fifo()
    }

    method MarkRead(caller: string, id: string, f: Faults) returns (r: Status)
      requires store.Valid()
      modifies store.Objects`read, store`Contents, SyncQueue()
      ensures store.Valid()
      ensures r == if caller == "" then Unauthorized
                   else if id == "" then BadRequest
                   else if f.store then InternalError
                   else if !T.Owns(old(store.Contents), caller, id) then NotFound
                   else NoContent
      ensures store.Contents == if r == NoContent then T.MarkRead(old(store.Contents), caller, id)
                                else old(store.Contents)
      ensures if r == NoContent && readSync != null && !f.count && !f.enqueue
              then Synced() == old(Synced()) +
                     [Good(ReadMessage(caller, id, T.CountUnread(store.Contents, caller)))]
              else Synced() == old(Synced())
    {
      hide TwoIndexes, Shown, T.MarkRead, T.Owns, T.CountUnread;
      if caller == "" {
        return Unauthorized;
      }
      if id == "" {
        return BadRequest;
      }
      if f.store {
        return InternalError;
      }
      var updated := store.MarkRead(caller, id);
      if !updated {
        T.MarkReadAbsent(old(store.Contents), caller, id);
        return NotFound;
      }
      if readSync != null && !f.count {
        var unread := store.CountUnread(caller);
        readSync.NotificationRead(caller, id, unread, f.enqueue);
      }
      return NoContent;
    }

    /** The user named in the path, if any, must be the caller. */
    method MarkAllRead(caller: string, pathUser: string, f: Faults) returns (r: Status)
      requires store.Valid()
      modifies store.Objects`read, store`Contents, SyncQueue()
      ensures store.Valid()
      ensures r == if caller == "" then Unauthorized
                   else if pathUser != "" && pathUser != caller then Forbidden
                   else if f.store then InternalError
                   else OK(T.CountUnread(old(store.Contents), caller))
      ensures store.Contents == if r.OK? then T.MarkAllRead(old(store.Contents), caller)
                                else old(store.Contents)
      ensures if r.OK? && readSync != null && !f.enqueue
              then Synced() == old(Synced()) + [Good(ReadAllMessage(caller))]
              else Synced() == old(Synced())
    {
      if caller == "" {
        return Unauthorized;
      }
      if pathUser != "" && pathUser != caller {
        return Forbidden;
      }
      if f.store {
        return InternalError;
      }
      var count := store.MarkAllRead(caller);
      if readSync != null {
        readSync.NotificationReadAll(caller, f.enqueue);
      }
      return OK(count);
    }

    /** Deleting tells nobody. */
    method Delete(caller: string, id: string, f: Faults) returns (r: Status)
      requires store.Valid()
      modifies store`byID, store`byUser, store`Contents
      ensures store.Valid()
      ensures r == if caller == "" then Unauthorized
                   else if id == "" then BadRequest
                   else if f.store then InternalError
                   else if !T.Owns(old(store.Contents), caller, id) then NotFound
                   else NoContent
      ensures store.Contents == if r == NoContent then T.Delete(old(store.Contents), caller, id)
                                else old(store.Contents)
    {
      if caller == "" {
        return Unauthorized;
      }
      if id == "" {
        return BadRequest;
      }
      if f.store {
        return InternalError;
      }
      var deleted := store.Delete(caller, id);
      if !deleted {
        T.DeleteAbsent(old(store.Contents), caller, id);
        return NotFound;
      }
      return NoContent;
    }
  }
}
