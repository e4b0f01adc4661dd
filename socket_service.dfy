/**
 * The server's per-connection handlers: authentication, message dispatch,
 * disconnect and the direct emit to a user. Persistence is the two collections
 * `users` and `messages`; every emit, room broadcast and publish is appended to
 * one shared event log, so their order is observable. Each store or database call
 * that may throw is given as a flag.
 */
module SocketServer {
  import opened Wrappers
  import opened Models
  import opened Events
  import Redis

  const RateLimitText: string := "Rate limit exceeded"
  const SendFailedText: string := "Failed to send message"

  /** JavaScript truthiness of an optional string: absent and "" are false. */
  predicate Truthy(s: Option<string>)
  {
    s.Some? && s.value != ""
  }

  /** How an unset `socket.userId` reads inside a template string. */
  function SenderKey(userId: Option<string>): string
  {
    if userId.Some? then userId.value else "undefined"
  }

  /** One live connection; `userId` stays unset until authentication succeeds. */
  class Socket {
    const id: string
    var userId: Option<string>

    constructor(id: string)
      ensures this.id == id && userId == None
    {
      this.id := id;
      userId := None;
    }
  }

  /** Whether each fallible call of one dispatch throws. */
  datatype Faults = Faults(
    incrFails: bool,
    expireFails: bool,
    saveFails: bool,
    lookupFails: bool,
    statusSaveFails: bool,
    publishFails: bool)

  /**
   * The first save succeeds unless it throws. Validation fails unless the sender
   * and the receiver cast to ObjectIds and the room id and the text are non-empty
   * strings; an `_id` already in the collection is a duplicate key.
   */
  predicate Saves(sender: Option<string>, data: OutgoingMessage, newId: string,
                  messages: map<string, MessageDoc>, saveFails: bool)
    // what is stored refers to both users by well-formed ObjectIds
    ensures Saves(sender, data, newId, messages, saveFails) ==>
              && sender.Some?
              && IsObjectIdText(NewDoc(sender.value, data, newId, 0).senderId)
              && IsObjectIdText(NewDoc(sender.value, data, newId, 0).receiverId)
  {
    && !saveFails
    && sender.Some? && IsObjectIdText(sender.value)
    && IsObjectIdText(data.receiverId)
    && data.roomId != "" && data.body != ""
    && newId !in messages
  }

  /** The message as first saved, with status `sent` and both user ids as their ObjectIds print. */
  function NewDoc(sender: string, data: OutgoingMessage, newId: string, now: nat): (r: MessageDoc)
    ensures r.id == newId && r.status == Sent && r.timestamp == now
    ensures r.roomId == data.roomId && r.body == data.body
    ensures IsObjectIdText(sender) ==> IsObjectIdText(r.senderId)
    ensures IsObjectIdText(data.receiverId) ==> IsObjectIdText(r.receiverId)
  {
    MessageDoc(newId, CanonicalId(sender), CanonicalId(data.receiverId), data.roomId, data.body, Sent, now)
  }

  /** The events one dispatch appends and the message collection after it. */
  datatype DispatchOutcome = DispatchOutcome(events: seq<Event>, messages: map<string, MessageDoc>)

  predicate IsRoomEvent(e: Event)
  {
    e.ToRoom?
  }

  /**
   * One `send_message` after the rate check answered `allowed`, given the receiver's
   * presence lookup `receiverSocket` and whether publishing reaches the channel.
   */
  function Dispatch(socketId: string, sender: Option<string>, data: OutgoingMessage, now: nat, newId: string,
                    allowed: bool, messages: map<string, MessageDoc>, receiverSocket: Option<string>,
                    saveFails: bool, statusSaveFails: bool, publishes: bool): (r: DispatchOutcome)
    // a rejected send tells only the sender and touches nothing else
    ensures !allowed ==>
              r == DispatchOutcome([ToSocket(socketId, "error", ErrorNotice(RateLimitText))], messages)
    // a failed save tells only the sender and stores nothing
    ensures allowed && !Saves(sender, data, newId, messages, saveFails) ==>
              r == DispatchOutcome([ToSocket(socketId, "error", ErrorNotice(SendFailedText))], messages)
    // a saved message is stored as sent, and becomes delivered exactly when the
    // receiver has a binding and the second save succeeds
    ensures allowed && Saves(sender, data, newId, messages, saveFails) ==>
              r.messages == messages[newId := NewDoc(sender.value, data, newId, now)
                                              .(status := if Truthy(receiverSocket) && !statusSaveFails then Delivered else Sent)]
  {
    if !allowed then
      DispatchOutcome([ToSocket(socketId, "error", ErrorNotice(RateLimitText))], messages)
    else if !Saves(sender, data, newId, messages, saveFails) then
      DispatchOutcome([ToSocket(socketId, "error", ErrorNotice(SendFailedText))], messages)
    else
      FanOut(socketId, data, NewDoc(sender.value, data, newId, now), messages, receiverSocket, statusSaveFails, publishes)
  }

  /**
   * Everything after the first save of `doc`: store it, broadcast it, mark it
   * delivered when the receiver has a binding, then publish.
   */
  function FanOut(socketId: string, data: OutgoingMessage, doc: MessageDoc, messages: map<string, MessageDoc>,
                  receiverSocket: Option<string>, statusSaveFails: bool, publishes: bool): (r: DispatchOutcome)
    // the broadcast always comes first
    ensures |r.events| >= 1 && r.events[0] == ToRoom(data.roomId, "new_message", NewMessage(doc, data.tempId, data.roomId))
    // the document is stored, delivered exactly when the receiver has a socket and the status save works
    ensures r.messages == messages[doc.id := doc.(status := if Truthy(receiverSocket) && !statusSaveFails then Delivered else doc.status)]
  {
    var response := NewMessage(doc, data.tempId, data.roomId);
    var broadcast := ToRoom(data.roomId, "new_message", response);
    var publish := if publishes then [Published("new_message", response)] else [];
    if Truthy(receiverSocket) then
      if statusSaveFails then
        DispatchOutcome([broadcast, ToSocket(socketId, "error", ErrorNotice(SendFailedText))], messages[doc.id := doc])
      else
        DispatchOutcome([broadcast, ToRoom(data.roomId, "message_status_update", StatusUpdate(doc.id, Delivered))] + publish,
                        messages[doc.id := doc.(status := Delivered)])
    else
      DispatchOutcome([broadcast] + publish, messages[doc.id := doc])
  }

  /**
   * Guards and order of one dispatch. A room sees nothing unless the first save
   * succeeded, and then it first sees the saved message with status sent, the
   * client's tempId and the room. A failed status save, after the broadcast, ends
   * the dispatch with the send error to the sender and no publish. A status update only ever stands second, and
   * stands there exactly when the message became delivered. A publish only ever
   * stands last, carries the broadcast payload, and happens exactly after a
   * dispatch that raised no error while the channel is reachable. A dispatch that
   * raised no error emits nothing beyond these, and nothing to the sender.
   */
  lemma DispatchGuarantees(socketId: string, sender: Option<string>, data: OutgoingMessage, now: nat, newId: string,
                           allowed: bool, messages: map<string, MessageDoc>, receiverSocket: Option<string>,
                           saveFails: bool, statusSaveFails: bool, publishes: bool)
    ensures var r := Dispatch(socketId, sender, data, now, newId, allowed, messages, receiverSocket,
                              saveFails, statusSaveFails, publishes);
            var saved := allowed && Saves(sender, data, newId, messages, saveFails);
            var delivered := saved && Truthy(receiverSocket) && !statusSaveFails;
            var clean := saved && !(Truthy(receiverSocket) && statusSaveFails);
            && (!saved ==> forall i :: 0 <= i < |r.events| ==> !IsRoomEvent(r.events[i]))
            && (saved ==> |r.events| >= 1 && r.events[0] == ToRoom(data.roomId, "new_message",
                            NewMessage(NewDoc(sender.value, data, newId, now), data.tempId, data.roomId)))
            && (delivered ==>
                  |r.events| >= 2 && r.events[1] == ToRoom(data.roomId, "message_status_update", StatusUpdate(newId, Delivered)))
            && (forall i :: 0 <= i < |r.events| && r.events[i].ToRoom? && r.events[i].name == "message_status_update" ==>
                  i == 1 && delivered)
            && (clean && publishes ==> r.events[|r.events| - 1] == Published("new_message", r.events[0].payload))
            && (forall i :: 0 <= i < |r.events| && r.events[i].Published? ==> i == |r.events| - 1 && clean && publishes)
            && (saved && Truthy(receiverSocket) && statusSaveFails ==>
                  r.events == [r.events[0], ToSocket(socketId, "error", ErrorNotice(SendFailedText))])
            // a clean send emits nothing else, and tells the sender nothing
            && (clean ==> |r.events| == 1 + (if delivered then 1 else 0) + (if publishes then 1 else 0))
            && (clean ==> forall i :: 0 <= i < |r.events| ==> !r.events[i].ToSocket?)
  {
  }

  /** Marks the user offline with `lastSeen` and no socket; an unknown id changes nothing. */
  function MarkOffline(users: map<string, UserDoc>, userId: string, now: nat): (r: map<string, UserDoc>)
    ensures r.Keys == users.Keys
    ensures userId in users ==> r[userId] == users[userId].(status := Offline, lastSeen := now, socketId := None)
    ensures forall v :: v in users && v != userId ==> r[v] == users[v]
  {
    if userId in users then users[userId := users[userId].(status := Offline, lastSeen := now, socketId := None)] else users
  }

  /** Marks the user online on the given socket; an unknown id changes nothing. */
  function MarkOnline(users: map<string, UserDoc>, userId: string, socketId: string): (r: map<string, UserDoc>)
    ensures r.Keys == users.Keys
    ensures userId in users ==> r[userId] == users[userId].(status := Online, socketId := Some(socketId))
    ensures forall v :: v in users && v != userId ==> r[v] == users[v]
  {
    if userId in users then users[userId := users[userId].(status := Online, socketId := Some(socketId))] else users
  }

  class SocketService {
    const redis: Redis.RedisService
    const log: EventLog
    /** The user collection, by `_id`. */
    var users: map<string, UserDoc>
    /** The message collection, by `_id`. */
    var messages: map<string, MessageDoc>

    /** The presence service publishes into the same log this service emits into. */
    predicate Valid()
    {
      redis.log == log
    }

    constructor(redis: Redis.RedisService, users: map<string, UserDoc>, messages: map<string, MessageDoc>)
      ensures Valid() && this.redis == redis && this.users == users && this.messages == messages
    {
      this.redis := redis;
      this.log := redis.log;
      this.users := users;
      this.messages := messages;
    }

    /** The rate check of one dispatch by the socket's user. */
    function RateAfter(counters: map<string, Redis.Counter>, userId: Option<string>, redisNow: nat, f: Faults): Redis.RateOutcome
      reads redis
    {
      Redis.RateStep(redis.isConnected, counters, SenderKey(userId), redisNow, f.incrFails, f.expireFails)
    }

    /** The receiver's presence lookup of one dispatch. */
    function ReceiverSocket(receiverId: string, f: Faults): Option<string>
      reads redis
    {
      Redis.Lookup(redis.Tables(), Redis.UsesStore(redis.isConnected, f.lookupFails), receiverId)
    }

    /**
     * `authenticate`: the presence write cannot throw. The user update throws when
     * the id does not cast to an ObjectId or the database call fails (`updateFails`);
     * then `socket.userId` keeps its old value and nothing is thrown. Users are keyed
     * by the canonical id. Authenticating again on the same socket overwrites both.
     */
    method HandleAuthentication(socket: Socket, userId: string, storeFails: bool, updateFails: bool)
      modifies socket`userId, redis`store, redis`userSockets, this`users
      ensures redis.Tables() == Redis.Bind(old(redis.Tables()), Redis.UsesStore(redis.isConnected, storeFails), userId, socket.id)
      ensures updateFails || !IsObjectIdText(userId) ==> socket.userId == old(socket.userId) && users == old(users)
      ensures !updateFails && IsObjectIdText(userId) ==>
                socket.userId == Some(userId) && users == MarkOnline(old(users), CanonicalId(userId), socket.id)
    {
      redis.SetUserSocket(userId, socket.id, storeFails);
      if updateFails || !IsObjectIdText(userId) {
        return;
      }
      users := MarkOnline(users, CanonicalId(userId), socket.id);
      socket.userId := Some(userId);
    }

    /**
     * `send_message`: rate check, save with status sent, broadcast `new_message`,
     * then `delivered` and a status update if the receiver has a binding, then
     * publish. `newId` is the `_id` the new message receives, `now` its timestamp
     * in milliseconds and `redisNow` the store's clock in seconds.
     */
    method HandleMessage(socket: Socket, data: OutgoingMessage, now: nat, redisNow: nat, newId: string, f: Faults)
      requires Valid()
      modifies this`messages, redis`counters, log
      ensures redis.counters == RateAfter(old(redis.counters), socket.userId, redisNow, f).counters
      ensures |log.events| >= |old(log.events)| && log.events[..|old(log.events)|] == old(log.events)
      ensures DispatchOutcome(log.events[|old(log.events)|..], messages)
              == Dispatch(socket.id, socket.userId, data, now, newId, RateAfter(old(redis.counters), socket.userId, redisNow, f).allowed,
                          old(messages), ReceiverSocket(data.receiverId, f), f.saveFails, f.statusSaveFails,
                          redis.isConnected && !f.publishFails)
    {
      ghost var rate := RateAfter(redis.counters, socket.userId, redisNow, f);
      var allowed := redis.CheckRateLimit(SenderKey(socket.userId), redisNow, f.incrFails, f.expireFails);
      assert allowed == rate.allowed;
      if !allowed {
        ghost var events0 := log.events;
        log.events := log.events + [ToSocket(socket.id, "error", ErrorNotice(RateLimitText))];
        assert log.events[|events0|..] == [ToSocket(socket.id, "error", ErrorNotice(RateLimitText))];
        return;
      }
      SaveAndFanOut(socket, data, now, newId, f);
    }

    /** The part of `send_message` that follows a rate check that allowed it. */
    method SaveAndFanOut(socket: Socket, data: OutgoingMessage, now: nat, newId: string, f: Faults)
      requires Valid()
      modifies this`messages, log
      ensures |log.events| >= |old(log.events)| && log.events[..|old(log.events)|] == old(log.events)
      ensures DispatchOutcome(log.events[|old(log.events)|..], messages)
              == Dispatch(socket.id, socket.userId, data, now, newId, true, old(messages), ReceiverSocket(data.receiverId, f),
                          f.saveFails, f.statusSaveFails, redis.isConnected && !f.publishFails)
    {
      ghost var events0 := log.events;
      ghost var o := Dispatch(socket.id, socket.userId, data, now, newId, true, messages, ReceiverSocket(data.receiverId, f),
                              f.saveFails, f.statusSaveFails, redis.isConnected && !f.publishFails);
      if !Saves(socket.userId, data, newId, messages, f.saveFails) {
        log.events := log.events + [ToSocket(socket.id, "error", ErrorNotice(SendFailedText))];
        assert log.events[|events0|..] == o.events;
        return;
      }
      Deliver(socket, data, NewDoc(socket.userId.value, data, newId, now), f);
    }

    /** The part of `send_message` after the first save of `doc` succeeded. */
    method Deliver(socket: Socket, data: OutgoingMessage, doc: MessageDoc, f: Faults)
      requires Valid()
      modifies this`messages, log
      ensures |log.events| >= |old(log.events)| && log.events[..|old(log.events)|] == old(log.events)
      ensures DispatchOutcome(log.events[|old(log.events)|..], messages)
              == FanOut(socket.id, data, doc, old(messages), ReceiverSocket(data.receiverId, f),
                        f.statusSaveFails, redis.isConnected && !f.publishFails)
    {
      ghost var events0 := log.events;
      ghost var publishes := redis.isConnected && !f.publishFails;
      messages := messages[doc.id := doc];
      var receiverSocket := redis.GetUserSocket(data.receiverId, f.lookupFails);
      var response := NewMessage(doc, data.tempId, data.roomId);
      log.events := log.events + [ToRoom(data.roomId, "new_message", response)];
      if Truthy(receiverSocket) {
        if f.statusSaveFails {
          log.events := log.events + [ToSocket(socket.id, "error", ErrorNotice(SendFailedText))];
          assert log.events[|events0|..] == [ToRoom(data.roomId, "new_message", response), ToSocket(socket.id, "error", ErrorNotice(SendFailedText))];
          return;
        }
        messages := messages[doc.id := doc.(status := Delivered)];
        log.events := log.events + [ToRoom(data.roomId, "message_status_update", StatusUpdate(doc.id, Delivered))];
      }
      ghost var middle := log.events[|events0|..];
      redis.PublishMessage("new_message", response, f.publishFails);
      assert log.events[|events0|..] == middle + if publishes then [Published("new_message", response)] else [];
    }

    /**
     * `disconnect`: nothing for a socket that never authenticated; otherwise the user
     * is marked offline and then the presence binding is removed. If the user
     * update throws (the id does not cast, or the database call fails), the removal
     * is skipped; nothing is thrown.
     */
    method HandleDisconnect(socket: Socket, now: nat, updateFails: bool, storeFails: bool)
      modifies this`users, redis`store, redis`userSockets
      ensures !Truthy(socket.userId) || updateFails || !IsObjectIdText(socket.userId.value) ==>
                users == old(users) && redis.Tables() == old(redis.Tables())
      ensures Truthy(socket.userId) && !updateFails && IsObjectIdText(socket.userId.value) ==>
                && users == MarkOffline(old(users), CanonicalId(socket.userId.value), now)
                && redis.Tables() == Redis.Unbind(old(redis.Tables()), Redis.UsesStore(redis.isConnected, storeFails), socket.userId.value)
    {
      if Truthy(socket.userId) {
        if updateFails || !IsObjectIdText(socket.userId.value) {
          return;
        }
        users := MarkOffline(users, CanonicalId(socket.userId.value), now);
        redis.RemoveUserSocket(socket.userId.value, storeFails);
      }
    }

    /** Emits to the user's socket when the user has a binding; otherwise nothing. */
    method EmitToUser(userId: string, event: string, data: string, lookupFails: bool)
      requires Valid()
      modifies log
      ensures var bound := Redis.Lookup(redis.Tables(), Redis.UsesStore(redis.isConnected, lookupFails), userId);
              log.events == old(log.events) + if Truthy(bound) then [ToSocket(bound.value, event, Opaque(data))] else []
    {
      var socketId := redis.GetUserSocket(userId, lookupFails);
      if Truthy(socketId) {
        log.events := log.events + [ToSocket(socketId.value, event, Opaque(data))];
      }
    }
  }
}
