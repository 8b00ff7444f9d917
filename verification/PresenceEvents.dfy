/**
 * The announcements of whole presence runs: exactly when each user's
 * announcements alternate, what the last one says, and that a run of the
 * operations over Redis is a run of the registry.
 */
module PresenceEvents {
  import opened Redis
  import opened Presence

  datatype Op =
    | Register(userId: string, connectionId: string)
    | Refresh(connectionId: string)
    | Unregister(userId: string, connectionId: string)
    | Wait(to: int)

  /** The registry, the clock and what was published. */
  datatype World = World(reg: Registry, now: int, published: seq<PresenceEvent>)

  /** The contracts of the three operations, and time passing. */
  ghost function After(w: World, op: Op): World {
    match op
    case Register(u, c) =>
      World(w.reg[c := Lease(u, w.now)], w.now,
            w.published + if Online(w.reg, u, w.now) then [] else [PresenceEvent(u, true)])
    case Refresh(c) => w.(reg := Refreshed(w.reg, c, w.now))
    case Unregister(u, c) =>
      World(w.reg - {c}, w.now,
            w.published + if Online(w.reg - {c}, u, w.now) then [] else [PresenceEvent(u, false)])
    case Wait(to) => w.(now := if to < w.now then w.now else to)
  }

  /** Connection ids belong to one user. */
  predicate Proper(w: World, op: Op) {
    match op
    case Register(u, c) => c in w.reg ==> w.reg[c].userId == u
    case Unregister(u, c) => c in w.reg ==> w.reg[c].userId == u
    case _ => true
  }

  /** Only registered connections are unregistered. */
  predicate Registered(w: World, op: Op) {
    op.Unregister? ==> op.connectionId in w.reg
  }

  ghost predicate NoneExpired(w: World) {
    forall c | c in w.reg :: w.reg[c].expiresAt > w.now
  }

  ghost predicate Run(worlds: seq<World>, ops: seq<Op>) {
    && |worlds| == |ops| + 1
    && worlds[0].reg == map[] && worlds[0].published == []
    && (forall i | 0 <= i < |ops| :: Proper(worlds[i], ops[i]) && worlds[i + 1] == After(worlds[i], ops[i]))
  }

  /** One user's announcements. */
  function EventsOf(events: seq<PresenceEvent>, userId: string): seq<bool> {
    if events == [] then []
    else
      var e := events[|events| - 1];
      EventsOf(events[..|events| - 1], userId) + if e.userId == userId then [e.online] else []
  }

  ghost predicate Alternates(bits: seq<bool>) {
    forall i | 0 <= i < |bits| :: bits[i] <==> i % 2 == 0
  }

  /** Online, offline, online, ... and the parity says where the user stands. */
  ghost predicate InStep(w: World, userId: string) {
    && Alternates(EventsOf(w.published, userId))
    && (Online(w.reg, userId, w.now) <==> |EventsOf(w.published, userId)| % 2 == 1)
  }

  lemma EventsOfSnoc(events: seq<PresenceEvent>, e: PresenceEvent, userId: string)
    ensures EventsOf(events + [e], userId) == EventsOf(events, userId) + if e.userId == userId then [e.online] else []
  {
    assert (events + [e])[..|events|] == events;
  }

  lemma RegisterInStep(w: World, u: string, c: string, userId: string)
    requires InStep(w, userId) && NoneExpired(w) && Proper(w, Register(u, c))
    ensures InStep(After(w, Register(u, c)), userId)
  {
    var w' := After(w, Register(u, c));
    EventsOfSnoc(w.published, PresenceEvent(u, true), userId);
    assert w.published + [] == w.published;
    assert Connected(w'.reg, c, w.now) && w'.reg[c].userId == u;
    if userId != u {
      forall d
        ensures Connected(w'.reg, d, w.now) && w'.reg[d].userId == userId <==> Connected(w.reg, d, w.now) && w.reg[d].userId == userId
      {
      }
    }
  }

  lemma UnregisterInStep(w: World, u: string, c: string, userId: string)
    requires InStep(w, userId) && NoneExpired(w) && Proper(w, Unregister(u, c)) && Registered(w, Unregister(u, c))
    ensures InStep(After(w, Unregister(u, c)), userId)
  {
    var w' := After(w, Unregister(u, c));
    EventsOfSnoc(w.published, PresenceEvent(u, false), userId);
    assert w.published + [] == w.published;
    assert Connected(w.reg, c, w.now);
    if userId != u {
      forall d
        ensures Connected(w'.reg, d, w.now) && w'.reg[d].userId == userId <==> Connected(w.reg, d, w.now) && w.reg[d].userId == userId
      {
      }
    }
  }

  lemma QuietInStep(w: World, op: Op, userId: string)
    requires InStep(w, userId) && NoneExpired(w) && NoneExpired(After(w, op)) && (op.Refresh? || op.Wait?)
    ensures InStep(After(w, op), userId)
  {
    var w' := After(w, op);
    forall d
      ensures Connected(w'.reg, d, w'.now) <==> Connected(w.reg, d, w.now)
      ensures Connected(w.reg, d, w.now) ==> w'.reg[d].userId == w.reg[d].userId
    {
    }
    if Online(w'.reg, userId, w'.now) {
      var d :| Connected(w'.reg, d, w'.now) && w'.reg[d].userId == userId;
      assert Connected(w.reg, d, w.now) && w.reg[d].userId == userId;
    }
    if Online(w.reg, userId, w.now) {
      var d :| Connected(w.reg, d, w.now) && w.reg[d].userId == userId;
      assert Connected(w'.reg, d, w'.now) && w'.reg[d].userId == userId;
    }
  }

  /** Without expiry, every user's announcements alternate and match the state at every point. */
  lemma {:induction false} AnnouncementsAlternate(worlds: seq<World>, ops: seq<Op>, i: nat, userId: string)
    requires Run(worlds, ops) && i < |worlds|
    requires forall j | 0 <= j < |worlds| :: NoneExpired(worlds[j])
    requires forall j | 0 <= j < |ops| :: Registered(worlds[j], ops[j])
    ensures InStep(worlds[i], userId)
  {
    if i > 0 {
      AnnouncementsAlternate(worlds, ops, i - 1, userId);
      var w, op := worlds[i - 1], ops[i - 1];
      assert Proper(w, op) && Registered(w, op) && NoneExpired(w) && NoneExpired(worlds[i]);
      match op
      case Register(u, c) => RegisterInStep(w, u, c, userId);
      case Unregister(u, c) => UnregisterInStep(w, u, c, userId);
      case _ => QuietInStep(w, op, userId);
    }
  }

  // ---- exactly when announcements alternate

  /** The user's last live connection ran out, and no register or unregister of the user has come since. */
  ghost predicate Silent(worlds: seq<World>, ops: seq<Op>, i: nat, userId: string)
    requires |worlds| == |ops| + 1 && i < |worlds|
  {
    i > 0 && !Touches(ops[i - 1], userId)
    && (Silent(worlds, ops, i - 1, userId)
        || (Online(worlds[i - 1].reg, userId, worlds[i - 1].now) && !Online(worlds[i].reg, userId, worlds[i].now)))
  }

  predicate Touches(op: Op, userId: string) {
    (op.Register? || op.Unregister?) && op.userId == userId
  }

  /**
   * The two operations that repeat an announcement: registering a user who went
   * offline silently, and unregistering a user who is offline and was announced so.
   */
  ghost predicate Repeats(worlds: seq<World>, ops: seq<Op>, j: nat, userId: string)
    requires |worlds| == |ops| + 1 && j < |ops|
  {
    Touches(ops[j], userId)
    && (if ops[j].Register? then Silent(worlds, ops, j, userId)
        else !Online(worlds[j].reg, userId, worlds[j].now) && !Silent(worlds, ops, j, userId))
  }

  /** The announcements so far alternate, and leave the user announced online while online or silently gone. */
  ghost predicate Announced(worlds: seq<World>, ops: seq<Op>, i: nat, userId: string)
    requires |worlds| == |ops| + 1 && i < |worlds|
  {
    var events := EventsOf(worlds[i].published, userId);
    && Alternates(events)
    && (|events| % 2 == 1 <==> Online(worlds[i].reg, userId, worlds[i].now) || Silent(worlds, ops, i, userId))
  }

  lemma OthersDoNotCount(w: World, op: Op, userId: string)
    requires !Touches(op, userId)
    ensures EventsOf(After(w, op).published, userId) == EventsOf(w.published, userId)
  {
    if op.Register? { EventsOfSnoc(w.published, PresenceEvent(op.userId, true), userId); }
    if op.Unregister? { EventsOfSnoc(w.published, PresenceEvent(op.userId, false), userId); }
    assert w.published + [] == w.published;
  }

  /** An operation of another user, a refresh or time passing never brings the user online. */
  lemma OthersDoNotRevive(w: World, op: Op, userId: string)
    requires Proper(w, op) && !Touches(op, userId) && Online(After(w, op).reg, userId, After(w, op).now)
    ensures Online(w.reg, userId, w.now)
  {
    var w' := After(w, op);
    var c :| Connected(w'.reg, c, w'.now) && w'.reg[c].userId == userId;
    assert Connected(w.reg, c, w.now) && w.reg[c].userId == userId;
  }

  /** What an operation of the user announces. */
  lemma OwnEvents(w: World, op: Op, userId: string)
    requires Proper(w, op) && Touches(op, userId)
    ensures
      var before, after := EventsOf(w.published, userId), EventsOf(After(w, op).published, userId);
      if op.Register? then after == before + if Online(w.reg, userId, w.now) then [] else [true]
      else after == before + if Online(After(w, op).reg, userId, w.now) then [] else [false]
    ensures op.Register? ==> Online(After(w, op).reg, userId, After(w, op).now)
    ensures op.Unregister? && Online(After(w, op).reg, userId, w.now) ==> Online(w.reg, userId, w.now)
  {
    assert w.published + [] == w.published;
    var w' := After(w, op);
    if op.Register? {
      EventsOfSnoc(w.published, PresenceEvent(userId, true), userId);
      assert Connected(w'.reg, op.connectionId, w.now) && w'.reg[op.connectionId].userId == userId;
    } else {
      EventsOfSnoc(w.published, PresenceEvent(userId, false), userId);
      if Online(w'.reg, userId, w.now) {
        var c :| Connected(w'.reg, c, w.now) && w'.reg[c].userId == userId;
        assert Connected(w.reg, c, w.now) && w.reg[c].userId == userId;
      }
    }
  }

  lemma AlternatesSnoc(bits: seq<bool>, bit: bool)
    ensures Alternates(bits + [bit]) <==> Alternates(bits) && (bit <==> |bits| % 2 == 0)
  {
    if Alternates(bits + [bit]) {
      assert (bits + [bit])[|bits|] == bit;
      assert forall i | 0 <= i < |bits| :: bits[i] == (bits + [bit])[i];
    }
  }

  /** A user who is silently gone is offline. */
  lemma {:induction false} SilentIsOffline(worlds: seq<World>, ops: seq<Op>, i: nat, userId: string)
    requires Run(worlds, ops) && i < |worlds| && Silent(worlds, ops, i, userId)
    ensures !Online(worlds[i].reg, userId, worlds[i].now)
  {
    if Online(worlds[i].reg, userId, worlds[i].now) {
      assert Proper(worlds[i - 1], ops[i - 1]) && worlds[i] == After(worlds[i - 1], ops[i - 1]);
      hide Online, After;
      OthersDoNotRevive(worlds[i - 1], ops[i - 1], userId);
      SilentIsOffline(worlds, ops, i - 1, userId);
    }
  }

  lemma OwnOp(worlds: seq<World>, ops: seq<Op>, i: nat, userId: string)
    requires Run(worlds, ops) && i < |ops| && Announced(worlds, ops, i, userId) && Touches(ops[i], userId)
    ensures Repeats(worlds, ops, i, userId) ==> !Alternates(EventsOf(worlds[i + 1].published, userId))
    ensures !Repeats(worlds, ops, i, userId) ==> Announced(worlds, ops, i + 1, userId)
  {
    var w, op := worlds[i], ops[i];
    assert Proper(w, op) && worlds[i + 1] == After(w, op) && worlds[i + 1].now == w.now;
    OwnEvents(w, op, userId);
    if Silent(worlds, ops, i, userId) {
      SilentIsOffline(worlds, ops, i, userId);
    }
    hide Online, After, Run, EventsOf, Alternates;
    var events := EventsOf(w.published, userId);
    AlternatesSnoc(events, op.Register?);
    assert events + [] == events;
  }

  lemma OthersOp(worlds: seq<World>, ops: seq<Op>, i: nat, userId: string)
    requires Run(worlds, ops) && i < |ops| && Announced(worlds, ops, i, userId) && !Touches(ops[i], userId)
    ensures Announced(worlds, ops, i + 1, userId)
  {
    var w, op := worlds[i], ops[i];
    assert Proper(w, op) && worlds[i + 1] == After(w, op);
    hide Online, After, Run, EventsOf, Alternates;
    OthersDoNotCount(w, op, userId);
    if Online(worlds[i + 1].reg, userId, worlds[i + 1].now) {
      OthersDoNotRevive(w, op, userId);
    }
  }

  /** Once an announcement is repeated, the alternation never recovers. */
  lemma {:induction false} StaysBroken(worlds: seq<World>, ops: seq<Op>, i: nat, j: nat, userId: string)
    requires Run(worlds, ops) && i <= j < |worlds| && !Alternates(EventsOf(worlds[i].published, userId))
    ensures !Alternates(EventsOf(worlds[j].published, userId))
  {
    if i < j {
      StaysBroken(worlds, ops, i, j - 1, userId);
      var w, op := worlds[j - 1], ops[j - 1];
      assert Proper(w, op) && worlds[j] == After(w, op);
      hide Online, After, Run, EventsOf, Alternates;
      var events := EventsOf(w.published, userId);
      assert events + [] == events;
      if Touches(op, userId) {
        OwnEvents(w, op, userId);
        AlternatesSnoc(events, op.Register?);
      } else {
        OthersDoNotCount(w, op, userId);
      }
    }
  }

  lemma {:induction false} UnrepeatedIsAnnounced(worlds: seq<World>, ops: seq<Op>, i: nat, userId: string)
    requires Run(worlds, ops) && i < |worlds| && forall j | 0 <= j < i :: !Repeats(worlds, ops, j, userId)
    ensures Announced(worlds, ops, i, userId)
  {
    hide Alternates, EventsOf, After, Repeats;
    if i == 0 {
      NothingAnnounced(worlds, ops, userId);
    } else {
      UnrepeatedIsAnnounced(worlds, ops, i - 1, userId);
      hide Run, Announced, Silent;
      if Touches(ops[i - 1], userId) {
        OwnOp(worlds, ops, i - 1, userId);
      } else {
        OthersOp(worlds, ops, i - 1, userId);
      }
    }
  }

  lemma NothingAnnounced(worlds: seq<World>, ops: seq<Op>, userId: string)
    requires Run(worlds, ops)
    ensures Announced(worlds, ops, 0, userId)
  {
  }

  /**
   * In every run, expiry and stray unregisters included, a user's announcements
   * alternate if and only if no register came while the user was silently gone
   * and no unregister while the user was offline and announced so.
   */
  lemma AlternateExactly(worlds: seq<World>, ops: seq<Op>, i: nat, userId: string)
    requires Run(worlds, ops) && i < |worlds|
    ensures Alternates(EventsOf(worlds[i].published, userId)) <==> forall j | 0 <= j < i :: !Repeats(worlds, ops, j, userId)
  {
    hide Alternates, EventsOf, After, Repeats, Silent;
    if forall j | 0 <= j < i :: !Repeats(worlds, ops, j, userId) {
      UnrepeatedIsAnnounced(worlds, ops, i, userId);
    } else {
      var j := FirstRepeat(worlds, ops, i, userId);
      UnrepeatedIsAnnounced(worlds, ops, j, userId);
      hide Run, Announced;
      OwnOp(worlds, ops, j, userId);
      StaysBroken(worlds, ops, j + 1, i, userId);
    }
  }

  lemma {:induction false} FirstRepeat(worlds: seq<World>, ops: seq<Op>, i: nat, userId: string) returns (j: nat)
    requires |worlds| == |ops| + 1 && i < |worlds| && exists m :: 0 <= m < i && Repeats(worlds, ops, m, userId)
    ensures j < i && Repeats(worlds, ops, j, userId) && Touches(ops[j], userId)
    ensures forall m | 0 <= m < j :: !Repeats(worlds, ops, m, userId)
  {
    hide Silent, Online;
    if m :| 0 <= m < i - 1 && Repeats(worlds, ops, m, userId) {
      j := FirstRepeat(worlds, ops, i - 1, userId);
    } else {
      j := i - 1;
    }
  }

  /** And then the last announcement is "online" exactly while the user is online or silently gone. */
  lemma LastAnnouncement(worlds: seq<World>, ops: seq<Op>, i: nat, userId: string)
    requires Run(worlds, ops) && i < |worlds| && Alternates(EventsOf(worlds[i].published, userId))
    ensures
      var events := EventsOf(worlds[i].published, userId);
      (events != [] && events[|events| - 1])
      <==> Online(worlds[i].reg, userId, worlds[i].now) || Silent(worlds, ops, i, userId)
  {
    hide Online, After, Repeats, Silent, Run;
    AlternateExactly(worlds, ops, i, userId);
    UnrepeatedIsAnnounced(worlds, ops, i, userId);
  }

  // ---- the two ways to repeat

  /** A silent expiry makes the user come online twice in a row. */
  lemma ExpiryRepeatsOnline(u: string, c: string, d: string, now: int) returns (worlds: seq<World>, ops: seq<Op>)
    requires c != d
    ensures ops == [Register(u, c), Wait(now + 30_000), Register(u, d)]
    ensures Run(worlds, ops) && EventsOf(worlds[3].published, u) == [true, true]
  {
    ops := [Register(u, c), Wait(now + 30_000), Register(u, d)];
    var w0 := World(map[], now, []);
    var w1 := After(w0, Register(u, c));
    var w2 := After(w1, Wait(now + 30_000));
    worlds := [w0, w1, w2, After(w2, Register(u, d))];
    assert !Online(w0.reg, u, now) && !Online(w2.reg, u, w2.now);
    EventsOfSnoc([], PresenceEvent(u, true), u);
    EventsOfSnoc([PresenceEvent(u, true)], PresenceEvent(u, true), u);
    assert w1.published == [] + [PresenceEvent(u, true)] == w2.published;
  }

  /** Two expired connections. */
  lemma TwoExpire(u: string, c: string, d: string, now: int) returns (w1: World, w2: World)
    requires c != d
    ensures w1 == After(World(map[], now, []), Register(u, c)) && w2 == After(w1, Register(u, d))
    ensures w2 == World(map[c := Lease(u, now), d := Lease(u, now)], now, [PresenceEvent(u, true)])
    ensures w1.reg == map[c := Lease(u, now)]
  {
    w1 := After(World(map[], now, []), Register(u, c));
    w2 := After(w1, Register(u, d));
    assert !Online(map[], u, now);
    assert Connected(w1.reg, c, now) && w1.reg[c].userId == u;
    assert [PresenceEvent(u, true)] + [] == [PresenceEvent(u, true)];
  }

  /** An unregister when all of the user's connections have expired. */
  lemma ExpiredLeaves(w: World, u: string, c: string)
    requires forall d | d in w.reg :: w.reg[d].expiresAt <= w.now
    ensures After(w, Unregister(u, c)) == World(w.reg - {c}, w.now, w.published + [PresenceEvent(u, false)])
  {
  }

  /** Two connections that expired and are then both unregistered make the user go offline twice in a row. */
  lemma ExpiryRepeatsOffline(u: string, c: string, d: string, now: int) returns (worlds: seq<World>, ops: seq<Op>)
    requires c != d
    ensures ops == [Register(u, c), Register(u, d), Wait(now + 30_000), Unregister(u, c), Unregister(u, d)]
    ensures Run(worlds, ops) && forall i | 0 <= i < |ops| :: Registered(worlds[i], ops[i])
    ensures EventsOf(worlds[5].published, u) == [true, false, false]
  {
    ops := [Register(u, c), Register(u, d), Wait(now + 30_000), Unregister(u, c), Unregister(u, d)];
    var on, off := PresenceEvent(u, true), PresenceEvent(u, false);
    var w1, w2 := TwoExpire(u, c, d, now);
    var w3 := w2.(now := now + 30_000);
    assert w3 == After(w2, Wait(now + 30_000));
    hide After, Online;
    ExpiredLeaves(w3, u, c);
    var w4 := World(w3.reg - {c}, w3.now, [on] + [off]);
    ExpiredLeaves(w4, u, d);
    var w5 := World(w4.reg - {d}, w4.now, [on] + [off] + [off]);
    worlds := [World(map[], now, []), w1, w2, w3, w4, w5];
    EventsOfSnoc([], on, u);
    EventsOfSnoc([on], off, u);
    EventsOfSnoc([on] + [off], off, u);
    assert [on] == [] + [on];
  }

  // ---- over Redis

  ghost function Replayed(w: World, ops: seq<Op>): (worlds: seq<World>)
    ensures |worlds| == |ops| + 1 && worlds[0] == w
    ensures forall i | 0 <= i < |ops| :: worlds[i + 1] == After(worlds[i], ops[i])
  {
    if ops == [] then [w]
    else
      var before := Replayed(w, ops[..|ops| - 1]);
      before + [After(before[|ops| - 1], ops[|ops| - 1])]
  }

  ghost predicate RunOk(w: World, ops: seq<Op>) {
    && (forall i | 0 <= i < |ops| :: Proper(Replayed(w, ops)[i], ops[i]))
    && (forall i | 0 <= i < |ops| && ops[i].Register? :: ops[i].userId != "")
  }

  /**
   * Any run of the operations over Redis is the run of the registry: the keys
   * and sets stay in step with it, exactly its announcements are published, and
   * a query at the end answers whether some connection is live.
   */
  method Replay(redis: FakeRedis, ops: seq<Op>, start: nat, userId: string) returns (online: bool, ghost last: World)
    requires redis.store == map[] && redis.published == [] && start > 0
    requires RunOk(World(map[], start, []), ops)
    modifies redis
    ensures last == Replayed(World(map[], start, []), ops)[|ops|]
    ensures Tracks(redis.store, last.reg, last.now) && redis.published == last.published
    ensures online == Online(last.reg, userId, last.now)
  {
    ghost var worlds := Replayed(World(map[], start, []), ops);
    var now := start;
    NothingTracked(start);
    hide Tracks, Online, Replayed;
    for i := 0 to |ops|
      invariant now == worlds[i].now && now > 0
      invariant Tracks(redis.store, worlds[i].reg, now) && redis.published == worlds[i].published
    {
      assert worlds[i + 1] == After(worlds[i], ops[i]) && Proper(worlds[i], ops[i]);
      match ops[i]
      case Register(u, c) =>
        var _ := RegisterPresence(redis, u, c, now, false, worlds[i].reg);
      case Refresh(c) =>
        RefreshPresence(redis, c, now, false, worlds[i].reg);
      case Unregister(u, c) =>
        var _ := UnregisterPresence(redis, u, c, now, false, worlds[i].reg);
      case Wait(to) =>
        var later: nat := if to < now then now else to;
        TracksLater(redis.store, worlds[i].reg, now, later);
        now := later;
    }
    last := worlds[|ops|];
    online := IsUserOnline(redis, userId, now, last.reg);
  }
}
