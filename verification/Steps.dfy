/**
 * The other statements that touch the four tables: dead-lettering, the REST
 * insert, the room bump, and the outbox claim, finish and failure updates.
 * Each keeps the invariant and only moves rows forward.
 */
module Steps {
  import opened Prelude
  import opened Ranking
  import opened Store
  import opened Invariant
  import opened Refinement
  import opened PlainCommits
  import opened Commits

  // ---- rows only move forward

  predicate MovesTo(s: WriteStatus, t: WriteStatus) {
    s == t || s == PENDING || (s == PERSISTED && t == FANOUTED)
  }

  predicate WriteAdvances(w: WriteRow, w': WriteRow) {
    && w'.id == w.id && w'.roomId == w.roomId && w'.content == w.content && w'.acceptedAt == w.acceptedAt
    && MovesTo(w.status, w'.status)
  }

  /** New messages of a room that existed before carry numbers no old message of it has reached. */
  ghost predicate SortsAfter(db: Db, m: MessageRow) {
    m.roomId in db.rooms ==> db.rooms[m.roomId].nextMessageSeq <= m.roomSequence
  }

  ghost predicate RoomsAdvance(rooms: Rooms, rooms': Rooms) {
    forall r | r in rooms ::
      && r in rooms'
      && rooms[r].nextMessageSeq <= rooms'[r].nextMessageSeq
      && rooms[r].lastMessageAt <= rooms'[r].lastMessageAt
  }

  ghost predicate WritesAdvance(writes: Writes, writes': Writes) {
    forall k | k in writes :: k in writes' && WriteAdvances(writes[k], writes'[k])
  }

  ghost predicate MessagesAdvance(db: Db, messages': Messages) {
    && (forall id | id in db.messages :: id in messages' && messages'[id] == db.messages[id])
    && (forall id | id in messages' && id !in db.messages :: SortsAfter(db, messages'[id]))
  }

  ghost predicate OutboxAdvances(outbox: Outbox, outbox': Outbox) {
    forall id | id in outbox ::
      && id in outbox'
      && outbox[id].attempts <= outbox'[id].attempts
      && outbox[id].origin == outbox'[id].origin
  }

  /** Message rows are never altered, statuses and counters only grow, nothing is deleted. */
  ghost predicate Advances(db: Db, db': Db) {
    && db.users <= db'.users
    && RoomsAdvance(db.rooms, db'.rooms)
    && WritesAdvance(db.writes, db'.writes)
    && MessagesAdvance(db, db'.messages)
    && OutboxAdvances(db.outbox, db'.outbox)
  }

  lemma AdvancesReflexive(db: Db)
    ensures Advances(db, db)
  {
  }

  lemma AdvancesTransitive(a: Db, b: Db, c: Db)
    requires Advances(a, b) && Advances(b, c)
    ensures Advances(a, c)
  {
    forall id | id in c.messages && id !in a.messages
      ensures SortsAfter(a, c.messages[id])
    {
      if id in b.messages {
        assert SortsAfter(a, b.messages[id]);
      } else {
        assert SortsAfter(b, c.messages[id]);
      }
    }
  }

  // ---- dead letters

  /** UPDATE MessageWrite SET status = DEAD WHERE id = ... AND status = PENDING. */
  ghost function MarkDead(db: Db, id: nat): Db {
    db.(writes := map k | k in db.writes ::
      if db.writes[k].id == id && db.writes[k].status == PENDING then db.writes[k].(status := DEAD) else db.writes[k])
  }

  function DeadRow(c: Command): WriteRow {
    WriteRow(c.messageId, c.roomId, c.body, c.acceptedAt, DEAD, None)
  }

  /** INSERT of a DEAD row; any constraint violation is swallowed and changes nothing. */
  ghost function CreateDead(db: Db, c: Command): Db {
    if KeyOf(c) !in db.writes && Insertable(db, map[KeyOf(c) := c])
    then db.(writes := db.writes[KeyOf(c) := DeadRow(c)])
    else db
  }

  /** `markMessageWriteCommandDead` when no other client comes in between. */
  ghost function DeadLetter(db: Db, c: Command): Db {
    if KeyOf(c) in db.writes then MarkDead(db, db.writes[KeyOf(c)].id) else CreateDead(db, c)
  }

  /**
   * When a dead-lettered command really ends DEAD: its row was pending or dead
   * already, or there was none and one could be inserted. In all other cases
   * the entry is acknowledged without a dead row.
   */
  lemma DeadLetterLeavesDead(db: Db, c: Command)
    requires UniqueWriteIds(db.writes)
    ensures
      var after := DeadLetter(db, c).writes;
      (KeyOf(c) in after && after[KeyOf(c)].status == DEAD)
      <==> if KeyOf(c) in db.writes then db.writes[KeyOf(c)].status == PENDING || db.writes[KeyOf(c)].status == DEAD
           else Insertable(db, map[KeyOf(c) := c])
  {
    hide Insertable;
  }

  lemma SameMessagesSameLinks(db: Db, db': Db)
    requires Linked(db) && Schema(db')
    requires db'.users == db.users && db'.rooms.Keys == db.rooms.Keys
    requires db'.messages == db.messages && db'.outbox == db.outbox
    requires forall k | k in db.writes :: k in db'.writes && WriteAdvances(db.writes[k], db'.writes[k])
    requires forall k | k in db.writes && db.writes[k].status != PENDING :: db'.writes[k] == db.writes[k]
    requires forall k | k in db'.writes && (k in db.writes ==> db'.writes[k] != db.writes[k]) :: db'.writes[k].status == DEAD
    ensures Linked(db')
  {
    forall id | id in db.messages
      ensures Placed(db', id)
      ensures id.Stable? ==> Backed(db', id)
    {
      assert Placed(db, id);
      if id.Stable? { assert Backed(db, id); }
    }
    forall k | k in db'.writes
      ensures Settled(db', k)
    {
      if k in db.writes { assert Settled(db, k); }
    }
    forall id | id in db.outbox
      ensures Queued(db', id)
    {
      assert Queued(db, id);
      if db.outbox[id].status == PUBLISHED {
        var k :| k in db.writes && db.writes[k].id == id.rank && db.writes[k].status == FANOUTED;
        assert k in db'.writes && db'.writes[k] == db.writes[k];
      }
    }
  }

  lemma SequenceOnly(db: Db, db': Db)
    requires Sequenced(db) && db'.messages == db.messages && db'.rooms.Keys == db.rooms.Keys
    requires forall r | r in db.rooms :: db'.rooms[r].nextMessageSeq == db.rooms[r].nextMessageSeq
    ensures Sequenced(db')
  {
    forall id | id in db.messages
      ensures InRange(db', id)
    {
      assert InRange(db, id);
    }
  }

  lemma MarkDeadSteps(db: Db, id: nat)
    requires Inv(db)
    ensures Inv(MarkDead(db, id)) && Advances(db, MarkDead(db, id))
  {
    SameMessagesSameLinks(db, MarkDead(db, id));
    SequenceOnly(db, MarkDead(db, id));
  }

  lemma CreateDeadAdvances(db: Db, c: Command)
    ensures Advances(db, CreateDead(db, c))
    ensures Schema(db) ==> Schema(CreateDead(db, c))
  {
    assert KeyOf(c) in map[KeyOf(c) := c];
  }

  lemma CreateDeadSteps(db: Db, c: Command)
    requires Inv(db)
    ensures Inv(CreateDead(db, c)) && Advances(db, CreateDead(db, c))
  {
    hide Sequenced, Insertable, Advances;
    CreateDeadAdvances(db, c);
    SameMessagesSameLinks(db, CreateDead(db, c));
    SequenceOnly(db, CreateDead(db, c));
  }

  // ---- the REST insert

  datatype RestMessage = RestMessage(
    id: nat,
    senderId: string,
    roomId: string,
    content: string,
    requestId: Option<string>,
    createdAt: int
  )

  datatype RestError = RoomNotFound | UniqueViolation | ForeignKeyViolation

  function RestRow(m: RestMessage, number: int): MessageRow {
    MessageRow(m.content, m.createdAt, m.senderId, m.requestId, m.roomId, number)
  }

  /** `createMessageRow`: lock the room, take its number, insert; an error rolls the increment back. */
  ghost function RestCreate(db: Db, m: RestMessage): Result<Db, RestError> {
    if m.roomId !in db.rooms then Err(RoomNotFound)
    else
      var room := db.rooms[m.roomId];
      var row := RestRow(m, room.nextMessageSeq);
      if Conflicts(db.messages, Uuid(m.id), row) then Err(UniqueViolation)
      else if m.senderId !in db.users then Err(ForeignKeyViolation)
      else Ok(db.(rooms := db.rooms[m.roomId := room.(nextMessageSeq := room.nextMessageSeq + 1)],
                  messages := db.messages[Uuid(m.id) := row]))
  }

  lemma RestKeepsUnique(messages: Messages, id: MessageId, row: MessageRow)
    requires UniqueRequests(messages) && !Conflicts(messages, id, row)
    ensures UniqueRequests(messages[id := row])
  {
    var after := messages[id := row];
    forall a, b, k | a in after && b in after && HasKey(after[a], k) && HasKey(after[b], k)
      ensures a == b
    {
      assert a != id ==> a in messages && HasKey(messages[a], k);
      assert b != id ==> b in messages && HasKey(messages[b], k);
    }
  }

  lemma RestLinks(db: Db, m: RestMessage)
    requires Linked(db) && RestCreate(db, m).Ok?
    ensures Linked(RestCreate(db, m).value)
  {
    var db', row := RestCreate(db, m).value, RestRow(m, db.rooms[m.roomId].nextMessageSeq);
    RestKeepsUnique(db.messages, Uuid(m.id), row);
    forall id | id in db'.messages
      ensures Placed(db', id)
      ensures id.Stable? ==> Backed(db', id)
    {
      if id in db.messages { assert Placed(db, id); }
      if id.Stable? { assert Backed(db, id); }
    }
    forall k | k in db'.writes
      ensures Settled(db', k)
    {
      assert Settled(db, k);
      if db.writes[k].status == PERSISTED || db.writes[k].status == FANOUTED {
        MessageSurvives(db.messages, db'.messages, k, db.writes[k].persistedAt);
      }
    }
    forall id | id in db'.outbox
      ensures Queued(db', id)
    {
      assert Queued(db, id);
    }
  }

  lemma RestSequence(db: Db, m: RestMessage)
    requires Sequenced(db) && RestCreate(db, m).Ok?
    ensures Sequenced(RestCreate(db, m).value)
  {
    var db', new' := RestCreate(db, m).value, Uuid(m.id);
    forall id | id in db'.messages
      ensures InRange(db', id)
    {
      if id != new' { assert InRange(db, id); }
    }
    forall a, b | a in db'.messages && b in db'.messages && SameSlot(db'.messages[a], db'.messages[b])
      ensures a == b
    {
      if a != new' { assert InRange(db, a); }
      if b != new' { assert InRange(db, b); }
    }
    forall r, n | r in db'.rooms && 1 <= n < db'.rooms[r].nextMessageSeq
      ensures HasSlot(db'.messages, r, n)
    {
      if r == m.roomId && n == db.rooms[r].nextMessageSeq {
        assert db'.messages[new'].roomSequence == n;
      } else {
        assert HasSlot(db.messages, r, n);
        var id :| id in db.messages && db.messages[id].roomId == r && db.messages[id].roomSequence == n;
        assert id in db'.messages && db'.messages[id] == db.messages[id];
      }
    }
  }

  lemma RestSteps(db: Db, m: RestMessage)
    requires Inv(db) && RestCreate(db, m).Ok?
    ensures Inv(RestCreate(db, m).value) && Advances(db, RestCreate(db, m).value)
  {
    RestLinks(db, m);
    RestSequence(db, m);
  }

  /** A REST create fails on uniqueness exactly when its id or its (sender, request) is taken, never on the number. */
  lemma RestViolation(db: Db, m: RestMessage)
    requires Inv(db) && m.roomId in db.rooms
    ensures RestCreate(db, m) == Err(UniqueViolation)
       <==> Uuid(m.id) in db.messages
            || (m.requestId.Some? && KeyTaken(db.messages, Key(m.senderId, m.requestId.value)))
  {
    var number := db.rooms[m.roomId].nextMessageSeq;
    forall o | o in db.messages && db.messages[o].roomId == m.roomId
      ensures db.messages[o].roomSequence != number
    {
      assert InRange(db, o);
    }
    if m.requestId.Some? {
      var k := Key(m.senderId, m.requestId.value);
      assert forall o | o in db.messages ::
          HasKey(db.messages[o], k) <==> db.messages[o].senderId == m.senderId && db.messages[o].requestId == m.requestId;
    }
  }

  // ---- rooms and users

  /** UPDATE Room SET lastMessageAt = GREATEST(lastMessageAt, at). */
  ghost function TouchRoom(db: Db, roomId: string, at: int): Db {
    if roomId !in db.rooms then db
    else db.(rooms := db.rooms[roomId := db.rooms[roomId].(lastMessageAt := MaxOf({db.rooms[roomId].lastMessageAt, at}))])
  }

  ghost function AddRoom(db: Db, roomId: string, at: int): Db {
    if roomId in db.rooms then db else db.(rooms := db.rooms[roomId := RoomRow(1, at)])
  }

  ghost function AddUser(db: Db, userId: string): Db {
    db.(users := db.users + {userId})
  }

  /** Links survive when rooms and users only grow and outbox rows only leave or keep PUBLISHED. */
  lemma LinksCarryOver(db: Db, db': Db)
    requires Linked(db) && db.users <= db'.users && db.rooms.Keys <= db'.rooms.Keys
    requires db'.writes == db.writes && db'.messages == db.messages && db'.outbox.Keys == db.outbox.Keys
    requires forall id | id in db.outbox && db'.outbox[id].status == PUBLISHED :: db.outbox[id].status == PUBLISHED
    ensures Linked(db')
  {
    forall id | id in db.messages
      ensures Placed(db', id)
      ensures id.Stable? ==> Backed(db', id)
    {
      assert Placed(db, id);
      if id.Stable? { assert Backed(db, id); }
    }
    forall k | k in db.writes
      ensures Settled(db', k)
    {
      assert Settled(db, k);
    }
    forall id | id in db.outbox
      ensures Queued(db', id)
    {
      assert Queued(db, id);
    }
  }

  lemma TouchRoomAdvances(db: Db, roomId: string, at: int)
    ensures Advances(db, TouchRoom(db, roomId, at))
    ensures forall r | r in db.rooms :: TouchRoom(db, roomId, at).rooms[r].nextMessageSeq == db.rooms[r].nextMessageSeq
  {
  }

  lemma TouchRoomSteps(db: Db, roomId: string, at: int)
    requires Inv(db)
    ensures Inv(TouchRoom(db, roomId, at)) && Advances(db, TouchRoom(db, roomId, at))
  {
    TouchRoomAdvances(db, roomId, at);
    LinksCarryOver(db, TouchRoom(db, roomId, at));
    SequenceOnly(db, TouchRoom(db, roomId, at));
  }

  lemma AddRoomSequence(db: Db, roomId: string, at: int)
    requires Sequenced(db) && forall id | id in db.messages :: Placed(db, id)
    ensures Sequenced(AddRoom(db, roomId, at))
  {
    var db' := AddRoom(db, roomId, at);
    forall id | id in db.messages
      ensures InRange(db', id)
    {
      assert InRange(db, id);
    }
    forall r, n | r in db'.rooms && 1 <= n < db'.rooms[r].nextMessageSeq
      ensures HasSlot(db.messages, r, n)
    {
      assert r in db.rooms && db'.rooms[r] == db.rooms[r];
    }
  }

  lemma AddRoomSteps(db: Db, roomId: string, at: int)
    requires Inv(db)
    ensures Inv(AddRoom(db, roomId, at)) && Advances(db, AddRoom(db, roomId, at))
  {
    LinksCarryOver(db, AddRoom(db, roomId, at));
    AddRoomSequence(db, roomId, at);
  }

  lemma AddUserSteps(db: Db, userId: string)
    requires Inv(db)
    ensures Inv(AddUser(db, userId)) && Advances(db, AddUser(db, userId))
  {
    LinksCarryOver(db, AddUser(db, userId));
    SequenceOnly(db, AddUser(db, userId));
  }

  // ---- the outbox

  predicate Claimable(row: OutboxRow, now: int, staleLockMs: int) {
    || ((row.status == WAITING || row.status == FAILED) && (row.nextAttemptAt.None? || row.nextAttemptAt.value <= now))
    || (row.status == PUBLISHING && row.lockedAt.Some? && row.lockedAt.value < now - staleLockMs)
  }

  function ClaimedRow(row: OutboxRow, now: int): OutboxRow {
    row.(status := PUBLISHING, attempts := row.attempts + 1, lockedAt := Some(now), nextAttemptAt := None)
  }

  function ClaimedOutbox(outbox: Outbox, ids: set<MessageId>, now: int): Outbox {
    map id | id in outbox :: if id in ids then ClaimedRow(outbox[id], now) else outbox[id]
  }

  ghost function ClaimRows(db: Db, ids: set<MessageId>, now: int): Db {
    db.(outbox := ClaimedOutbox(db.outbox, ids, now))
  }

  /** Quadratic backoff between one second and one minute. */
  function RetryDelay(attempts: nat): (ms: int)
    ensures 1_000 <= ms <= 60_000
    ensures attempts <= 7 ==> ms == (if attempts == 0 then 1_000 else attempts * attempts * 1_000)
    ensures attempts >= 8 ==> ms == 60_000
  {
    var quadratic := attempts * attempts * 1_000;
    var floored := if quadratic < 1_000 then 1_000 else quadratic;
    assert attempts >= 8 ==> quadratic >= 8 * 8 * 1_000 by { if attempts >= 8 { assert attempts * attempts >= 8 * 8; } }
    if floored > 60_000 then 60_000 else floored
  }

  function FailedRow(row: OutboxRow, attempts: nat, now: int): OutboxRow {
    row.(status := FAILED, nextAttemptAt := Some(now + RetryDelay(attempts)), lockedAt := None)
  }

  ghost function FailRow(db: Db, id: MessageId, attempts: nat, now: int): Db {
    if id !in db.outbox then db
    else db.(outbox := db.outbox[id := FailedRow(db.outbox[id], attempts, now)])
  }

  ghost function Fanout(writes: Writes, id: MessageId): Writes {
    map k | k in writes ::
      if Stable(writes[k].id) == id && writes[k].status == PERSISTED then writes[k].(status := FANOUTED) else writes[k]
  }

  /** The two-statement transaction that follows a successful publish. */
  ghost function FinishRow(db: Db, id: MessageId): Db {
    db.(outbox := if id in db.outbox then db.outbox[id := db.outbox[id].(status := PUBLISHED, lockedAt := None)] else db.outbox,
        writes := Fanout(db.writes, id))
  }

  lemma OutboxOnly(db: Db, db': Db)
    requires Inv(db) && db' == db.(outbox := db'.outbox) && db'.outbox.Keys == db.outbox.Keys
    requires forall id | id in db.outbox ::
               && (db'.outbox[id].status == PUBLISHED ==> db.outbox[id].status == PUBLISHED)
               && db.outbox[id].attempts <= db'.outbox[id].attempts && db.outbox[id].origin == db'.outbox[id].origin
    ensures Inv(db') && Advances(db, db')
  {
    LinksCarryOver(db, db');
    SequenceOnly(db, db');
  }

  lemma ClaimSteps(db: Db, ids: set<MessageId>, now: int)
    requires Inv(db)
    ensures Inv(ClaimRows(db, ids, now)) && Advances(db, ClaimRows(db, ids, now))
  {
    OutboxOnly(db, ClaimRows(db, ids, now));
  }

  lemma FailSteps(db: Db, id: MessageId, attempts: nat, now: int)
    requires Inv(db)
    ensures Inv(FailRow(db, id, attempts, now)) && Advances(db, FailRow(db, id, attempts, now))
  {
    OutboxOnly(db, FailRow(db, id, attempts, now));
  }

  lemma FinishLinks(db: Db, id: MessageId)
    requires Linked(db)
    ensures Linked(FinishRow(db, id))
  {
    var db' := FinishRow(db, id);
    forall m | m in db.messages
      ensures Placed(db', m)
      ensures m.Stable? ==> Backed(db', m)
    {
      assert Placed(db, m);
      if m.Stable? { assert Backed(db, m); }
    }
    forall k | k in db'.writes
      ensures Settled(db', k)
    {
      assert Settled(db, k);
    }
    forall o | o in db'.outbox
      ensures Queued(db', o)
    {
      FinishQueued(db, id, o);
    }
  }

  lemma FinishQueued(db: Db, id: MessageId, o: MessageId)
    requires Linked(db) && o in db.outbox
    ensures Queued(FinishRow(db, id), o)
  {
    var db' := FinishRow(db, id);
    assert Queued(db, o);
    if o == id {
      assert Backed(db, id);
      var k := Key(db.messages[id].senderId, db.messages[id].requestId.value);
      assert k in db'.writes && db'.writes[k].id == id.rank && db'.writes[k].status == FANOUTED;
    } else if db.outbox[o].status == PUBLISHED {
      var k :| k in db.writes && db.writes[k].id == o.rank && db.writes[k].status == FANOUTED;
      assert k in db'.writes && db'.writes[k].id == o.rank && db'.writes[k].status == FANOUTED;
    }
  }

  lemma FinishAdvances(db: Db, id: MessageId)
    ensures Advances(db, FinishRow(db, id))
  {
    var writes := Fanout(db.writes, id);
    assert forall k | k in db.writes :: k in writes && WriteAdvances(db.writes[k], writes[k]);
  }

  lemma FinishSteps(db: Db, id: MessageId)
    requires Inv(db)
    ensures Inv(FinishRow(db, id)) && Advances(db, FinishRow(db, id))
  {
    FinishLinks(db, id);
    SequenceOnly(db, FinishRow(db, id));
    FinishAdvances(db, id);
  }

  // ---- the batch commit

  lemma NewMessagesSortAfter(db: Db, batch: Batch, id: MessageId)
    requires Inv(db) && Accepts(db, batch)
    requires id in MessagesOf(db, batch) && id !in db.messages
    ensures SortsAfter(db, MessagesOf(db, batch)[id])
  {
    var k :| k in CandsOf(db, batch) && id == Stable(WritesOf(db, batch)[k].id);
    NewSlot(db, batch, k);
  }

  lemma RoomsAfterAdvance(rooms: Rooms, writes: Writes, cands: set<Key>)
    requires cands <= writes.Keys
    ensures RoomsAdvance(rooms, WithRooms(rooms, writes, cands, cands))
  {
  }

  lemma StatusesAdvance(db: Db, batch: Batch)
    requires Schema(db) && Accepts(db, batch)
    ensures WritesAdvance(db.writes, CommitAccepted(db, batch).db.writes)
  {
    var writes, after := WritesOf(db, batch), CommitAccepted(db, batch).db.writes;
    assert forall k | k in writes :: k in after && SameWrite(after[k], writes[k]);
  }

  lemma OutboxOnlyGrows(outbox: Outbox, added: Outbox)
    ensures OutboxAdvances(outbox, WithOutbox(outbox, added))
  {
  }

  /** Commits only append messages, number them above the old ones, and move rows forward. */
  lemma CommitAdvances(db: Db, batch: Batch)
    requires Inv(db) && Accepts(db, batch)
    ensures Advances(db, CommitAccepted(db, batch).db)
  {
    CommitShape(db, batch);
    RoomsAfterAdvance(db.rooms, WritesOf(db, batch), CandsOf(db, batch));
    StatusesAdvance(db, batch);
    OutboxOnlyGrows(db.outbox, NewOutbox(WritesOf(db, batch), batch, CandsOf(db, batch)));
    forall id | id in MessagesOf(db, batch) && id !in db.messages
      ensures SortsAfter(db, MessagesOf(db, batch)[id])
    {
      NewMessagesSortAfter(db, batch, id);
    }
  }

  lemma CommitSteps(db: Db, cmds: seq<Command>)
    requires Inv(db) && CommitCommands(db, cmds).Ok?
    ensures Inv(CommitCommands(db, cmds).value.db) && Advances(db, CommitCommands(db, cmds).value.db)
  {
    CommitKeepsInvariant(db, cmds);
    if cmds != [] {
      CommitAdvances(db, Dedupe(cmds).value);
    }
  }
}
