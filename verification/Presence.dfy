/**
 * Presence over Redis: a connection is a key that expires, a user's
 * connections are a set that is cleaned up while it is read. The reference is
 * a registry of connections with expiry times and no cleanup at all.
 */
module Presence {
  import opened Prelude
  import opened Redis

  const PRESENCE_TTL_SECONDS: nat := 30

  // ---- the reference

  datatype Registration = Registration(userId: string, expiresAt: int)

  type Registry = map<string, Registration>

  predicate Connected(reg: Registry, connectionId: string, now: int) {
    connectionId in reg && reg[connectionId].expiresAt > now
  }

  /** Some connection of the user has not expired. */
  ghost predicate Online(reg: Registry, userId: string, now: int) {
    exists c :: Connected(reg, c, now) && reg[c].userId == userId
  }

  function Lease(userId: string, now: int): Registration {
    Registration(userId, now + PRESENCE_TTL_SECONDS * 1000)
  }

  function Refreshed(reg: Registry, connectionId: string, now: int): Registry {
    if Connected(reg, connectionId, now) then reg[connectionId := Lease(reg[connectionId].userId, now)] else reg
  }

  // ---- keys

  function ConnectionKey(connectionId: string): string {
    "presence:conn:" + connectionId
  }

  function UserConnectionsKey(userId: string): string {
    "presence:user:" + userId + ":connections"
  }

  lemma ConnectionKeyInjective(c: string, d: string)
    requires ConnectionKey(c) == ConnectionKey(d)
    ensures c == d
  {
    assert ConnectionKey(c)[14..] == c && ConnectionKey(d)[14..] == d;
  }

  lemma UserKeyInjective(u: string, v: string)
    requires UserConnectionsKey(u) == UserConnectionsKey(v)
    ensures u == v
  {
    assert |UserConnectionsKey(u)| == 14 + |u| + 12 && |UserConnectionsKey(v)| == 14 + |v| + 12;
    assert UserConnectionsKey(u)[14..14 + |u|] == u && UserConnectionsKey(v)[14..14 + |v|] == v;
  }

  lemma KeysApart(c: string, u: string)
    ensures ConnectionKey(c) != UserConnectionsKey(u)
  {
    assert ConnectionKey(c)[9] == 'c' && UserConnectionsKey(u)[9] == 'u';
  }

  // ---- the store tracks the registry

  /** A connection's key is live exactly while the connection is. */
  ghost predicate ConnectionTracked(s: KeyValues, reg: Registry, c: string, now: int) {
    && (Live(s, ConnectionKey(c), now) <==> Connected(reg, c, now))
    && (Connected(reg, c, now) ==> s[ConnectionKey(c)] == StoreEntry(Text(reg[c].userId), reg[c].expiresAt))
  }

  /** A user's set holds all live connections of the user and, live or not, only connections of the user. */
  ghost predicate UserTracked(s: KeyValues, reg: Registry, u: string, now: int) {
    var key := UserConnectionsKey(u);
    && (key in s ==> s[key].value.Members? && s[key].expiresAt == 0)
    && (forall c | Connected(reg, c, now) && reg[c].userId == u :: c in MembersAt(s, key, now))
    && (forall c | c in MembersAt(s, key, now) :: c in reg && reg[c].userId == u)
  }

  ghost predicate Tracks(s: KeyValues, reg: Registry, now: int) {
    && (forall c :: ConnectionTracked(s, reg, c, now))
    && (forall u :: UserTracked(s, reg, u, now))
    && (forall c | c in reg :: reg[c].userId != "" && reg[c].expiresAt != 0)
  }

  /** Time passing keeps the two in step. */
  lemma TracksLater(s: KeyValues, reg: Registry, now: int, later: int)
    requires Tracks(s, reg, now) && now <= later
    ensures Tracks(s, reg, later)
  {
    forall c
      ensures ConnectionTracked(s, reg, c, later)
    {
      assert ConnectionTracked(s, reg, c, now);
    }
    forall u
      ensures UserTracked(s, reg, u, later)
    {
      assert UserTracked(s, reg, u, now);
      assert MembersAt(s, UserConnectionsKey(u), later) == MembersAt(s, UserConnectionsKey(u), now);
    }
  }

  lemma NothingTracked(now: int)
    ensures Tracks(map[], map[], now)
  {
  }

  /** Reading a connection's key, and so dropping it if it expired, keeps the two in step. */
  lemma PurgeTracks(s: KeyValues, reg: Registry, c: string, now: int)
    requires Tracks(s, reg, now)
    ensures Tracks(Purge(s, ConnectionKey(c), now), reg, now)
  {
    var s' := Purge(s, ConnectionKey(c), now);
    forall d
      ensures ConnectionTracked(s', reg, d, now)
    {
      assert ConnectionTracked(s, reg, d, now);
    }
    forall u
      ensures UserTracked(s', reg, u, now)
    {
      assert UserTracked(s, reg, u, now);
      KeysApart(c, u);
    }
  }

  /** Removing a connection that is not live from its user's set keeps the two in step. */
  lemma RemoveTracks(s: KeyValues, reg: Registry, u: string, c: string, now: int)
    requires Tracks(s, reg, now) && !(Connected(reg, c, now) && reg[c].userId == u)
    ensures Tracks(WithoutMember(s, UserConnectionsKey(u), c, now), reg, now)
    ensures c !in MembersAt(WithoutMember(s, UserConnectionsKey(u), c, now), UserConnectionsKey(u), now)
  {
    var s' := WithoutMember(s, UserConnectionsKey(u), c, now);
    assert UserTracked(s, reg, u, now);
    forall d
      ensures ConnectionTracked(s', reg, d, now)
    {
      assert ConnectionTracked(s, reg, d, now);
      KeysApart(d, u);
    }
    forall v
      ensures UserTracked(s', reg, v, now)
    {
      assert UserTracked(s, reg, v, now);
      if v != u && UserConnectionsKey(v) == UserConnectionsKey(u) { UserKeyInjective(v, u); }
    }
  }

  // ---- a registration that stops half-way

  /** As `UserTracked`, but for one connection, which may be missing from its user's set. */
  ghost predicate UserNearlyTracked(s: KeyValues, reg: Registry, u: string, missing: string, now: int) {
    var key := UserConnectionsKey(u);
    && (key in s ==> s[key].value.Members? && s[key].expiresAt == 0)
    && (forall c | Connected(reg, c, now) && reg[c].userId == u && c != missing :: c in MembersAt(s, key, now))
    && (forall c | c in MembersAt(s, key, now) :: c in reg && reg[c].userId == u)
  }

  /** The store tracks the registry, but may not list the connection `missing`. */
  ghost predicate NearlyTracks(s: KeyValues, reg: Registry, missing: string, now: int) {
    && (forall c :: ConnectionTracked(s, reg, c, now))
    && (forall u :: UserNearlyTracked(s, reg, u, missing, now))
    && (forall c | c in reg :: reg[c].userId != "" && reg[c].expiresAt != 0)
  }

  /** The connection's key is set, and its user's set not yet. */
  lemma KeyOnly(s: KeyValues, reg: Registry, u: string, c: string, now: nat)
    requires Tracks(s, reg, now) && u != "" && (c in reg ==> reg[c].userId == u)
    ensures NearlyTracks(Put(s, ConnectionKey(c), Text(u), now + PRESENCE_TTL_SECONDS * 1000), reg[c := Lease(u, now)], c, now)
  {
    var s', reg' := Put(s, ConnectionKey(c), Text(u), now + PRESENCE_TTL_SECONDS * 1000), reg[c := Lease(u, now)];
    forall d
      ensures ConnectionTracked(s', reg', d, now)
    {
      assert ConnectionTracked(s, reg, d, now);
      if d != c && ConnectionKey(d) == ConnectionKey(c) { ConnectionKeyInjective(d, c); }
    }
    forall v
      ensures UserNearlyTracked(s', reg', v, c, now)
    {
      assert UserTracked(s, reg, v, now);
      KeysApart(c, v);
    }
  }

  /** Listing the connection completes the registration. */
  lemma Listed(s: KeyValues, reg: Registry, u: string, c: string, now: int)
    requires NearlyTracks(s, reg, c, now) && c in reg && reg[c].userId == u
    ensures
      var key := UserConnectionsKey(u);
      Tracks(Put(s, key, Members(MembersAt(s, key, now) + {c}), 0), reg, now)
  {
    var key := UserConnectionsKey(u);
    var s' := Put(s, key, Members(MembersAt(s, key, now) + {c}), 0);
    forall d
      ensures ConnectionTracked(s', reg, d, now)
    {
      assert ConnectionTracked(s, reg, d, now);
      KeysApart(d, u);
    }
    forall v
      ensures UserTracked(s', reg, v, now)
    {
      assert UserNearlyTracked(s, reg, v, c, now);
      if v != u && UserConnectionsKey(v) == key { UserKeyInjective(v, u); }
    }
  }

  /** A connection that is not listed shows nobody online who is not, and once it has expired nothing is missing. */
  lemma NearlyTracksHeals(s: KeyValues, reg: Registry, missing: string, now: int, later: int)
    requires NearlyTracks(s, reg, missing, now) && now <= later
    ensures forall u, c | c in MembersAt(s, UserConnectionsKey(u), later) && Live(s, ConnectionKey(c), later) :: Online(reg, u, later)
    ensures !Connected(reg, missing, later) ==> Tracks(s, reg, later)
  {
    forall c
      ensures ConnectionTracked(s, reg, c, later)
    {
      assert ConnectionTracked(s, reg, c, now);
    }
    forall u
      ensures UserNearlyTracked(s, reg, u, missing, later)
    {
      assert UserNearlyTracked(s, reg, u, missing, now);
      assert MembersAt(s, UserConnectionsKey(u), later) == MembersAt(s, UserConnectionsKey(u), now);
    }
    hide Live, MembersAt;
    if !Connected(reg, missing, later) {
      forall u
        ensures UserTracked(s, reg, u, later)
      {
        assert UserNearlyTracked(s, reg, u, missing, later);
      }
    }
    forall u, c | c in MembersAt(s, UserConnectionsKey(u), later) && Live(s, ConnectionKey(c), later)
      ensures Online(reg, u, later)
    {
      assert UserNearlyTracked(s, reg, u, missing, later) && ConnectionTracked(s, reg, c, later);
    }
  }

  lemma RefreshTracks(s: KeyValues, reg: Registry, c: string, now: nat)
    requires Tracks(s, reg, now) && Connected(reg, c, now)
    ensures ConnectionKey(c) in s
    ensures Tracks(s[ConnectionKey(c) := s[ConnectionKey(c)].(expiresAt := now + PRESENCE_TTL_SECONDS * 1000)],
                   Refreshed(reg, c, now), now)
  {
    assert ConnectionTracked(s, reg, c, now);
    var s' := s[ConnectionKey(c) := s[ConnectionKey(c)].(expiresAt := now + PRESENCE_TTL_SECONDS * 1000)];
    var reg' := Refreshed(reg, c, now);
    forall d
      ensures ConnectionTracked(s', reg', d, now)
    {
      assert ConnectionTracked(s, reg, d, now);
      if d != c && ConnectionKey(d) == ConnectionKey(c) { ConnectionKeyInjective(d, c); }
    }
    forall v
      ensures UserTracked(s', reg', v, now)
    {
      assert UserTracked(s, reg, v, now);
      KeysApart(c, v);
    }
  }

  /** Deleting a connection's key ends the connection but leaves it in its user's set. */
  lemma DeleteTracks(s: KeyValues, reg: Registry, c: string, now: int)
    requires Tracks(s, reg, now) && c in reg && now != 0
    ensures Tracks(s - {ConnectionKey(c)}, reg[c := reg[c].(expiresAt := now)], now)
  {
    var s', reg' := s - {ConnectionKey(c)}, reg[c := reg[c].(expiresAt := now)];
    forall d
      ensures ConnectionTracked(s', reg', d, now)
    {
      assert ConnectionTracked(s, reg, d, now);
      if d != c && ConnectionKey(d) == ConnectionKey(c) { ConnectionKeyInjective(d, c); }
    }
    forall v
      ensures UserTracked(s', reg', v, now)
    {
      assert UserTracked(s, reg, v, now);
      KeysApart(c, v);
    }
  }

  /** A connection that is dead and in no set can be forgotten. */
  lemma ForgetTracks(s: KeyValues, reg: Registry, u: string, c: string, now: int)
    requires Tracks(s, reg, now) && !Connected(reg, c, now) && (c in reg ==> reg[c].userId == u)
    requires c !in MembersAt(s, UserConnectionsKey(u), now)
    ensures Tracks(s, reg - {c}, now)
  {
    forall d
      ensures ConnectionTracked(s, reg - {c}, d, now)
    {
      assert ConnectionTracked(s, reg, d, now);
    }
    forall v
      ensures UserTracked(s, reg - {c}, v, now)
    {
      assert UserTracked(s, reg, v, now);
    }
  }

  // ---- the operations

  /** `isUserOnline`: reads the set, and cleans it up on the way. Without Redis nobody is online. */
  method IsUserOnline(redis: FakeRedis?, userId: string, now: int, ghost reg: Registry) returns (online: bool)
    requires redis != null ==> Tracks(redis.store, reg, now)
    modifies redis
    ensures redis == null ==> !online
    ensures redis != null ==> Tracks(redis.store, reg, now) && online == Online(reg, userId, now)
    ensures redis != null ==> redis.published == old(redis.published)
  {
    hide Tracks;
    if redis == null {
      return false;
    }
    SetMembers(redis.store, reg, userId, now);
    var connections := redis.SMembers(UserConnectionsKey(userId), now);
    online := false;
    var rest := connections;
    while rest != {}
      invariant Tracks(redis.store, reg, now) && rest <= connections && redis.published == old(redis.published)
      invariant online == exists c :: c in connections - rest && Connected(reg, c, now)
      decreases |rest|
    {
      var connectionId :| connectionId in rest;
      KeyRead(redis.store, reg, connectionId, now);
      PurgeTracks(redis.store, reg, connectionId, now);
      var found := redis.Get(ConnectionKey(connectionId), now);
      if found.Some? && found.value != Text("") {
        online := true;
      } else {
        RemoveTracks(redis.store, reg, userId, connectionId, now);
        var _ := redis.SRem(UserConnectionsKey(userId), connectionId, now);
      }
      rest := rest - {connectionId};
      assert forall c :: c in connections - rest <==> c in connections - (rest + {connectionId}) || c == connectionId;
    }
  }

  lemma SetMembers(s: KeyValues, reg: Registry, u: string, now: int)
    requires Tracks(s, reg, now)
    ensures Purge(s, UserConnectionsKey(u), now) == s
    ensures Online(reg, u, now) <==> exists c :: c in MembersAt(s, UserConnectionsKey(u), now) && Connected(reg, c, now)
    ensures forall c | c in MembersAt(s, UserConnectionsKey(u), now) :: c in reg && reg[c].userId == u
  {
    assert UserTracked(s, reg, u, now);
  }

  lemma KeyRead(s: KeyValues, reg: Registry, c: string, now: int)
    requires Tracks(s, reg, now)
    ensures Lookup(s, ConnectionKey(c), now) == if Connected(reg, c, now) then Some(Text(reg[c].userId)) else None
    ensures c in reg ==> reg[c].userId != ""
  {
    assert ConnectionTracked(s, reg, c, now);
  }

  /**
   * `registerPresence`: announces the user exactly when no live connection was
   * there. With a server that may fail, any command can; then nothing is
   * announced, and the store knows the connection, or does not, or has its key
   * but does not list it.
   */
  method RegisterPresence(redis: FakeRedis?, userId: string, connectionId: string, now: nat, faulty: bool, ghost reg: Registry)
      returns (announced: bool)
    requires redis != null ==> Tracks(redis.store, reg, now)
    requires userId != "" && (connectionId in reg ==> reg[connectionId].userId == userId)
    modifies redis
    ensures redis == null ==> !announced
    ensures redis != null && (announced || !faulty) ==>
              Tracks(redis.store, reg[connectionId := Registration(userId, now + 30_000)], now) && announced == !Online(reg, userId, now)
    ensures redis != null ==>
              || Tracks(redis.store, reg, now)
              || Tracks(redis.store, reg[connectionId := Registration(userId, now + 30_000)], now)
              || NearlyTracks(redis.store, reg[connectionId := Registration(userId, now + 30_000)], connectionId, now)
    ensures redis != null ==>
              redis.published == old(redis.published) + if announced then [PresenceEvent(userId, true)] else []
  {
    hide Tracks, NearlyTracks;
    var failed: bool := *;
    if redis == null || (faulty && failed) {
      return false;
    }
    var wasOnline := IsUserOnline(redis, userId, now, reg);
    KeyOnly(redis.store, reg, userId, connectionId, now);
    failed := *;
    if faulty && failed {
      return false;
    }
    var _ := redis.Set(ConnectionKey(connectionId), Text(userId), PRESENCE_TTL_SECONDS, false, now);
    failed := *;
    if faulty && failed {
      return false;
    }
    Listed(redis.store, reg[connectionId := Lease(userId, now)], userId, connectionId, now);
    var _ := redis.SAdd(UserConnectionsKey(userId), connectionId, now);
    if !wasOnline {
      failed := *;
      if faulty && failed {
        return false;
      }
      redis.Publish(PresenceEvent(userId, true));
    }
    return !wasOnline;
  }

  /** `refreshPresence`: extends a live connection, and only a live one. */
  method RefreshPresence(redis: FakeRedis?, connectionId: string, now: nat, faulty: bool, ghost reg: Registry)
    requires redis != null ==> Tracks(redis.store, reg, now)
    modifies redis
    ensures redis != null ==>
              || Tracks(redis.store, if connectionId in reg && reg[connectionId].expiresAt > now
                                     then reg[connectionId := Registration(reg[connectionId].userId, now + 30_000)] else reg, now)
              || (faulty && Tracks(redis.store, reg, now))
    ensures redis != null ==> redis.published == old(redis.published)
  {
    var failed: bool := *;
    if redis == null || (faulty && failed) {
      return;
    }
    KeyRead(redis.store, reg, connectionId, now);
    PurgeTracks(redis.store, reg, connectionId, now);
    if Connected(reg, connectionId, now) {
      RefreshTracks(redis.store, reg, connectionId, now);
    }
    hide Tracks;
    var _ := redis.Expire(ConnectionKey(connectionId), PRESENCE_TTL_SECONDS, now);
  }

  /** The registry when a connection's key is gone but its entry is not. */
  function Ended(reg: Registry, connectionId: string, now: int): Registry {
    if connectionId in reg then reg[connectionId := reg[connectionId].(expiresAt := now)] else reg
  }

  /**
   * `unregisterPresence`: announces the user exactly when no live connection
   * remains. When a command fails nothing is announced, and the connection is
   * as it was, ended, or forgotten.
   */
  method UnregisterPresence(redis: FakeRedis?, userId: string, connectionId: string, now: nat, faulty: bool, ghost reg: Registry)
      returns (announced: bool)
    requires redis != null ==> Tracks(redis.store, reg, now)
    requires now > 0 && (connectionId in reg ==> reg[connectionId].userId == userId)
    modifies redis
    ensures redis == null ==> !announced
    ensures redis != null && (announced || !faulty) ==>
              Tracks(redis.store, reg - {connectionId}, now) && announced == !Online(reg - {connectionId}, userId, now)
    ensures redis != null ==>
              || Tracks(redis.store, reg, now)
              || Tracks(redis.store, Ended(reg, connectionId, now), now)
              || Tracks(redis.store, reg - {connectionId}, now)
    ensures redis != null ==>
              redis.published == old(redis.published) + if announced then [PresenceEvent(userId, false)] else []
  {
    var failed: bool := *;
    if redis == null || (faulty && failed) {
      return false;
    }
    ghost var dead := Ended(reg, connectionId, now);
    DropTracks(redis.store, reg, connectionId, now);
    hide Tracks;
    var _ := redis.Del(ConnectionKey(connectionId));
    failed := *;
    if faulty && failed {
      return false;
    }
    RemoveTracks(redis.store, dead, userId, connectionId, now);
    var _ := redis.SRem(UserConnectionsKey(userId), connectionId, now);
    ForgetTracks(redis.store, dead, userId, connectionId, now);
    assert dead - {connectionId} == reg - {connectionId};
    failed := *;
    if faulty && failed {
      return false;
    }
    var stillOnline := IsUserOnline(redis, userId, now, reg - {connectionId});
    if !stillOnline {
      failed := *;
      if faulty && failed {
        return false;
      }
      redis.Publish(PresenceEvent(userId, false));
    }
    return !stillOnline;
  }

  lemma DropTracks(s: KeyValues, reg: Registry, c: string, now: nat)
    requires Tracks(s, reg, now) && now > 0
    ensures Tracks(s - {ConnectionKey(c)}, Ended(reg, c, now), now)
  {
    if c in reg {
      DeleteTracks(s, reg, c, now);
    } else {
      forall d
        ensures ConnectionTracked(s - {ConnectionKey(c)}, reg, d, now)
      {
        assert ConnectionTracked(s, reg, d, now) && ConnectionTracked(s, reg, c, now);
      }
      forall v
        ensures UserTracked(s - {ConnectionKey(c)}, reg, v, now)
      {
        assert UserTracked(s, reg, v, now);
        KeysApart(c, v);
      }
    }
  }
}
