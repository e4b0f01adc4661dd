/**
 * The presence table and the per-user rate limiter of the server, over a backing
 * key-value store that may be disconnected, with an in-process fallback map.
 *
 * The backing store's keyspace is shown as two maps: `store` for the string keys
 * written by SET/GET/DEL and `counters` for the integer keys of INCR/EXPIRE.
 * `KeysNeverCollide` shows that no key of one kind is ever a key of the other, so
 * no command of this service meets a value of the wrong type.
 * Time (`now`) is in seconds, the unit of EXPIRE.
 */
module Redis {
  import opened Wrappers
  import opened Events

  /** Length of a rate-limit window, in seconds. */
  const RateWindowSeconds: nat := 60
  /** Messages a user may send in one window. */
  const RateLimitPerWindow: nat := 30

  function PresenceKey(userId: string): string
  {
    "user:" + userId + ":socket"
  }

  function RateKey(userId: string): string
  {
    "ratelimit:" + userId
  }

  lemma PresenceKeyInjective(a: string, b: string)
    ensures PresenceKey(a) == PresenceKey(b) <==> a == b
  {
    if PresenceKey(a) == PresenceKey(b) {
      var k := PresenceKey(a);
      assert a == k[5..|k| - 7];
      assert b == k[5..|k| - 7];
    }
  }

  lemma RateKeyInjective(a: string, b: string)
    ensures RateKey(a) == RateKey(b) <==> a == b
  {
    if RateKey(a) == RateKey(b) {
      var k := RateKey(a);
      assert a == k[10..];
      assert b == k[10..];
    }
  }

  /** A presence key starts with 'u' and a rate key with 'r', whatever the ids. */
  lemma KeysNeverCollide(a: string, b: string)
    ensures PresenceKey(a) != RateKey(b)
  {
    assert PresenceKey(a)[0] == 'u';
    assert RateKey(b)[0] == 'r';
  }

  // ---------------------------------------------------------------------------
  // Presence

  /** The two places a presence binding can live: the backing store and the local map. */
  datatype Presence = Presence(store: map<string, string>, local: map<string, string>)

  /** A presence call goes to the backing store only when it is connected and the call does not throw. */
  predicate UsesStore(connected: bool, fails: bool)
  {
    connected && !fails
  }

  /** The socket bound to `userId` in the table a call uses. */
  function Lookup(p: Presence, viaStore: bool, userId: string): (r: Option<string>)
    ensures viaStore ==> (r.Some? <==> PresenceKey(userId) in p.store)
    ensures !viaStore ==> (r.Some? <==> userId in p.local)
    ensures r.Some? ==> r.value == if viaStore then p.store[PresenceKey(userId)] else p.local[userId]
  {
    if viaStore then
      if PresenceKey(userId) in p.store then Some(p.store[PresenceKey(userId)]) else None
    else
      if userId in p.local then Some(p.local[userId]) else None
  }

  /** Binds `userId` to `socketId` in one table; every other binding, in either table, is kept. */
  function Bind(p: Presence, viaStore: bool, userId: string, socketId: string): (r: Presence)
    ensures Lookup(r, viaStore, userId) == Some(socketId)
    ensures forall v :: v != userId ==> Lookup(r, viaStore, v) == Lookup(p, viaStore, v)
    ensures forall b, v :: b != viaStore ==> Lookup(r, b, v) == Lookup(p, b, v)
  {
    if viaStore then
      var r := p.(store := p.store[PresenceKey(userId) := socketId]);
      forall v | v != userId ensures Lookup(r, viaStore, v) == Lookup(p, viaStore, v) {
        PresenceKeyInjective(v, userId);
      }
      r
    else
      p.(local := p.local[userId := socketId])
  }

  /** Deletes the binding of `userId` in one table, whatever socket it names; every other binding is kept. */
  function Unbind(p: Presence, viaStore: bool, userId: string): (r: Presence)
    ensures Lookup(r, viaStore, userId) == None
    ensures forall v :: v != userId ==> Lookup(r, viaStore, v) == Lookup(p, viaStore, v)
    ensures forall b, v :: b != viaStore ==> Lookup(r, b, v) == Lookup(p, b, v)
  {
    if viaStore then
      var r := p.(store := p.store - {PresenceKey(userId)});
      forall v | v != userId ensures Lookup(r, viaStore, v) == Lookup(p, viaStore, v) {
        PresenceKeyInjective(v, userId);
      }
      r
    else
      p.(local := p.local - {userId})
  }

  /**
   * The removal the disconnect handler evidently intends (it passes the closing
   * socket's id): delete the binding only while it still names that socket.
   */
  function UnbindIfCurrent(p: Presence, viaStore: bool, userId: string, socketId: string): (r: Presence)
    ensures Lookup(p, viaStore, userId) == Some(socketId) ==> r == Unbind(p, viaStore, userId)
    ensures Lookup(p, viaStore, userId) != Some(socketId) ==> r == p
  {
    if Lookup(p, viaStore, userId) == Some(socketId) then Unbind(p, viaStore, userId) else p
  }

  /** While the store is down, a binding written by one call is read back by the next. */
  lemma DisconnectedSetThenGet(p: Presence, setFails: bool, getFails: bool, userId: string, socketId: string)
    ensures Lookup(Bind(p, UsesStore(false, setFails), userId, socketId), UsesStore(false, getFails), userId) == Some(socketId)
  {
  }

  /** A second bind of the same user through the same table replaces the first; other users are untouched. */
  lemma LastWriterWins(p: Presence, viaStore: bool, userId: string, s1: string, s2: string, other: string)
    requires other != userId
    ensures Lookup(Bind(Bind(p, viaStore, userId, s1), viaStore, userId, s2), viaStore, userId) == Some(s2)
    ensures Lookup(Bind(Bind(p, viaStore, userId, s1), viaStore, userId, s2), viaStore, other) == Lookup(p, viaStore, other)
  {
  }

  /**
   * A bind that fell back to the local map (the store call threw) is not seen by a
   * later lookup that reaches the store: that lookup still returns the older socket.
   */
  lemma FallbackBindIsInvisibleToStore(p: Presence, userId: string, s1: string, s2: string)
    ensures Lookup(Bind(Bind(p, true, userId, s1), false, userId, s2), true, userId) == Some(s1)
  {
  }

  /**
   * As written, removal ignores which socket is closing: when a user's older socket
   * disconnects after a newer one authenticated, the newer binding is deleted.
   */
  lemma StaleDisconnectClearsNewerBinding(p: Presence, viaStore: bool, userId: string, older: string, newer: string)
    requires older != newer
    ensures var bound := Bind(Bind(p, viaStore, userId, older), viaStore, userId, newer);
            Lookup(bound, viaStore, userId) == Some(newer) && Lookup(Unbind(bound, viaStore, userId), viaStore, userId) == None
  {
  }

  /** With the conditional removal, the older socket's disconnect keeps the newer binding. */
  lemma UnbindIfCurrentKeepsNewerBinding(p: Presence, viaStore: bool, userId: string, older: string, newer: string)
    requires older != newer
    ensures var bound := Bind(Bind(p, viaStore, userId, older), viaStore, userId, newer);
            Lookup(UnbindIfCurrent(bound, viaStore, userId, older), viaStore, userId) == Some(newer)
            && Lookup(UnbindIfCurrent(bound, viaStore, userId, newer), viaStore, userId) == None
  {
  }

  // ---------------------------------------------------------------------------
  // Rate limiting

  /** An integer key of the store: its value and the second at which it expires, if any. */
  datatype Counter = Counter(count: nat, expiresAt: Option<nat>)

  predicate Live(c: Counter, now: nat)
  {
    c.expiresAt.None? || now < c.expiresAt.value
  }

  /** The value INCR would start from at time `now`: 0 for a missing or expired key. */
  function CountAt(counters: map<string, Counter>, key: string, now: nat): nat
  {
    if key in counters && Live(counters[key], now) then counters[key].count else 0
  }

  /** INCR: a missing or expired key restarts at 1 with no expiry; a live key keeps its expiry. */
  function Incr(counters: map<string, Counter>, key: string, now: nat): (r: map<string, Counter>)
    ensures key in r && Live(r[key], now)
    ensures r[key].count == CountAt(counters, key, now) + 1
    ensures CountAt(counters, key, now) > 0 ==> r[key].expiresAt == counters[key].expiresAt
    ensures r - {key} == counters - {key}
  {
    if key in counters && Live(counters[key], now) then
      counters[key := counters[key].(count := counters[key].count + 1)]
    else
      counters[key := Counter(1, None)]
  }

  /** EXPIRE: sets the expiry of an existing key to second `at`. */
  function Expire(counters: map<string, Counter>, key: string, at: nat): (r: map<string, Counter>)
    // no key is created, only the named key's expiry changes
    ensures r.Keys == counters.Keys
    ensures key in counters ==> r[key].count == counters[key].count && r[key].expiresAt == Some(at)
    ensures forall k :: k in counters && k != key ==> r[k] == counters[k]
  {
    if key in counters then counters[key := counters[key].(expiresAt := Some(at))] else counters
  }

  /** The answer of one rate check and the counters after it. */
  datatype RateOutcome = RateOutcome(allowed: bool, counters: map<string, Counter>)

  /**
   * One `checkRateLimit` call at second `now`. It fails open: disconnected, or when
   * INCR throws, the answer is true and no counter changes. Otherwise the counter
   * is incremented even when the call is rejected, and the answer is whether the
   * new count is at most 30. Only the call that starts a window sets the 60-second
   * expiry; if that EXPIRE throws, the answer is true and the counter is left
   * without expiry.
   */
  function RateStep(connected: bool, counters: map<string, Counter>, userId: string, now: nat,
                    incrFails: bool, expireFails: bool): (o: RateOutcome)
    ensures !connected || incrFails ==> o == RateOutcome(true, counters)
    ensures connected && !incrFails ==>
              && CountAt(o.counters, RateKey(userId), now) == CountAt(counters, RateKey(userId), now) + 1
              && o.allowed == (CountAt(counters, RateKey(userId), now) < RateLimitPerWindow)
    ensures connected && !incrFails && CountAt(counters, RateKey(userId), now) > 0 ==>
              o.counters[RateKey(userId)].expiresAt == counters[RateKey(userId)].expiresAt
    ensures connected && !incrFails && !expireFails && CountAt(counters, RateKey(userId), now) == 0 ==>
              o.counters[RateKey(userId)].expiresAt == Some(now + RateWindowSeconds)
    ensures connected && !incrFails && expireFails &&
            (RateKey(userId) !in counters || !Live(counters[RateKey(userId)], now)) ==>
              o.allowed && o.counters[RateKey(userId)] == Counter(1, None)
    ensures o.counters - {RateKey(userId)} == counters - {RateKey(userId)}
  {
    if !connected || incrFails then
      RateOutcome(true, counters)
    else
      var key := RateKey(userId);
      var incremented := Incr(counters, key, now);
      var count := incremented[key].count;
      if count == 1 then
        if expireFails then RateOutcome(true, incremented)
        else RateOutcome(count <= RateLimitPerWindow, Expire(incremented, key, now + RateWindowSeconds))
      else
        RateOutcome(count <= RateLimitPerWindow, incremented)
  }

  /** The answers to successive checks by one user at the given seconds, with the store connected and no call throwing. */
  function Run(counters: map<string, Counter>, userId: string, times: seq<nat>): (r: seq<bool>)
    ensures |r| == |times|
    decreases |times|
  {
    if times == [] then []
    else
      var o := RateStep(true, counters, userId, times[0], false, false);
      [o.allowed] + Run(o.counters, userId, times[1..])
  }

  /**
   * While a window that already counted `c >= 1` calls stays open (its expiry lies
   * after every call, or it has none), call `i` is allowed exactly when `c + i + 1 <= 30`.
   */
  lemma {:induction false} RunInOpenWindow(counters: map<string, Counter>, userId: string, times: seq<nat>, c: nat, e: Option<nat>)
    requires RateKey(userId) in counters && counters[RateKey(userId)] == Counter(c, e) && c >= 1
    requires forall i :: 0 <= i < |times| ==> Live(Counter(c, e), times[i])
    ensures forall i :: 0 <= i < |times| ==> Run(counters, userId, times)[i] == (c + i + 1 <= RateLimitPerWindow)
    decreases |times|
  {
    if times != [] {
      var key := RateKey(userId);
      var o := RateStep(true, counters, userId, times[0], false, false);
      assert o.counters[key] == Counter(c + 1, e);
      assert forall i :: 0 <= i < |times[1..]| ==> Live(Counter(c + 1, e), times[1..][i]) by {
        forall i | 0 <= i < |times[1..]| ensures Live(Counter(c + 1, e), times[1..][i]) {
          assert times[1..][i] == times[i + 1];
          assert Live(Counter(c, e), times[i + 1]);
        }
      }
      RunInOpenWindow(o.counters, userId, times[1..], c + 1, e);
      forall i | 0 <= i < |times|
        ensures Run(counters, userId, times)[i] == (c + i + 1 <= RateLimitPerWindow)
      {
        if i > 0 {
          assert Run(counters, userId, times)[i] == Run(o.counters, userId, times[1..])[i - 1];
        }
      }
    }
  }

  /**
   * Starting with no live window, calls made before the window that the first call
   * opens has expired are allowed for the first 30 and rejected from the 31st on.
   */
  lemma WindowAllowsThirty(counters: map<string, Counter>, userId: string, times: seq<nat>)
    requires |times| > 0
    requires CountAt(counters, RateKey(userId), times[0]) == 0
    requires forall i :: 0 <= i < |times| ==> times[i] < times[0] + RateWindowSeconds
    ensures forall i :: 0 <= i < |times| ==> Run(counters, userId, times)[i] == (i < RateLimitPerWindow)
  {
    var key := RateKey(userId);
    var o := RateStep(true, counters, userId, times[0], false, false);
    assert o.counters[key] == Counter(1, Some(times[0] + RateWindowSeconds));
    RunInOpenWindow(o.counters, userId, times[1..], 1, Some(times[0] + RateWindowSeconds));
    forall i | 0 <= i < |times|
      ensures Run(counters, userId, times)[i] == (i < RateLimitPerWindow)
    {
      if i > 0 {
        assert Run(counters, userId, times)[i] == Run(o.counters, userId, times[1..])[i - 1];
      }
    }
  }

  /**
   * When the EXPIRE that should open a window throws, the counter never expires:
   * the call itself is allowed, the next 29 are too, and every later call is
   * rejected however much time passes.
   */
  lemma FailedExpireNeverResets(counters: map<string, Counter>, userId: string, first: nat, times: seq<nat>)
    requires RateKey(userId) !in counters || !Live(counters[RateKey(userId)], first)
    ensures var o := RateStep(true, counters, userId, first, false, true);
            && o.allowed
            && forall i :: 0 <= i < |times| ==> Run(o.counters, userId, times)[i] == (i + 2 <= RateLimitPerWindow)
  {
    var o := RateStep(true, counters, userId, first, false, true);
    RunInOpenWindow(o.counters, userId, times, 1, None);
  }

  // ---------------------------------------------------------------------------
  // The service object

  class RedisService {
    /** Flipped by the store client's 'connect' and 'error' events. */
    var isConnected: bool
    /** String keys of the backing store. */
    var store: map<string, string>
    /** Integer keys of the backing store. */
    var counters: map<string, Counter>
    /** The in-process fallback map from user id to socket id. */
    var userSockets: map<string, string>
    /** Where published messages are recorded. */
    const log: EventLog

    constructor(log: EventLog)
      ensures !isConnected && store == map[] && counters == map[] && userSockets == map[]
      ensures this.log == log
    {
      isConnected := false;
      store := map[];
      counters := map[];
      userSockets := map[];
      this.log := log;
    }

    function Tables(): Presence
      reads this
    {
      Presence(store, userSockets)
    }

    /** The store client's 'connect' (true) or 'error' (false) event. */
    method SetConnected(connected: bool)
      modifies this`isConnected
      ensures isConnected == connected
    {
      isConnected := connected;
    }

    /** Writes the binding to the store when connected, otherwise or when the write throws to the local map; never throws. */
    method SetUserSocket(userId: string, socketId: string, fails: bool)
      modifies this`store, this`userSockets
      ensures Tables() == Bind(old(Tables()), UsesStore(isConnected, fails), userId, socketId)
    {
      if isConnected && !fails {
        store := store[PresenceKey(userId) := socketId];
      } else {
        userSockets := userSockets[userId := socketId];
      }
    }

    /** Reads the binding from the store when connected, otherwise or when the read throws from the local map; never throws. */
    method GetUserSocket(userId: string, fails: bool) returns (socketId: Option<string>)
      ensures socketId == Lookup(Tables(), UsesStore(isConnected, fails), userId)
      ensures !UsesStore(isConnected, fails) ==> (socketId.Some? <==> userId in userSockets)
    {
      if isConnected && !fails {
        var key := PresenceKey(userId);
        socketId := if key in store then Some(store[key]) else None;
      } else {
        socketId := if userId in userSockets then Some(userSockets[userId]) else None;
      }
    }

    /** Deletes the user's binding unconditionally, from the store or the local map; never throws. */
    method RemoveUserSocket(userId: string, fails: bool)
      modifies this`store, this`userSockets
      ensures Tables() == Unbind(old(Tables()), UsesStore(isConnected, fails), userId)
    {
      if isConnected && !fails {
        store := store - {PresenceKey(userId)};
      } else {
        userSockets := userSockets - {userId};
      }
    }

    /** One rate check; `incrFails` and `expireFails` say whether INCR or EXPIRE throws. */
    method CheckRateLimit(userId: string, now: nat, incrFails: bool, expireFails: bool) returns (allowed: bool)
      modifies this`counters
      ensures RateOutcome(allowed, counters) == RateStep(isConnected, old(counters), userId, now, incrFails, expireFails)
    {
      if !isConnected {
        return true;
      }
      if incrFails {
        return true;
      }
      var key := RateKey(userId);
      counters := Incr(counters, key, now);
      var count := counters[key].count;
      if count == 1 {
        if expireFails {
          return true;
        }
        counters := Expire(counters, key, now + RateWindowSeconds);
      }
      allowed := count <= RateLimitPerWindow;
    }

    /** Publishes on the channel when connected and the call does not throw; otherwise nothing happens. */
    method PublishMessage(channel: string, payload: Payload, fails: bool)
      modifies log
      ensures log.events == old(log.events) + if isConnected && !fails then [Published(channel, payload)] else []
    {
      if !isConnected {
        return;
      }
      if !fails {
        log.events := log.events + [Published(channel, payload)];
      }
    }
  }
}
