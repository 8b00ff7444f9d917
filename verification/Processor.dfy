/**
 * The write processor: deduplication, the batch transaction statement by
 * statement with rollback, dead-lettering, and the outbox drain.
 */
module Processor {
  import opened Prelude
  import opened Ranking
  import opened Store
  import opened Invariant
  import opened Commits
  import opened Steps
  import opened Database
  import opened BatchHandling

  // ---- keys as the processor builds them

  /** `messageWriteKey`: sender and request joined by a colon. */
  function FlatKey(k: Key): string {
    k.senderId + ":" + k.requestId
  }

  predicate ColonFree(k: Key) {
    ':' !in k.senderId
  }

  /** Flat keys identify (sender, request) when sender ids, being UUIDs, hold no colon. */
  lemma FlatKeyInjective(j: Key, k: Key)
    requires ColonFree(j) && ColonFree(k) && FlatKey(j) == FlatKey(k)
    ensures j == k
  {
    FirstColon(j);
    FirstColon(k);
    var a := |j.senderId|;
    assert j.senderId == FlatKey(j)[..a] && k.senderId == FlatKey(k)[..a];
    assert j.requestId == FlatKey(j)[a + 1..] && k.requestId == FlatKey(k)[a + 1..];
  }

  lemma FirstColon(k: Key)
    requires ColonFree(k)
    ensures FlatKey(k)[|k.senderId|] == ':'
    ensures forall i | 0 <= i < |k.senderId| :: FlatKey(k)[i] != ':'
  {
    assert forall i | 0 <= i < |k.senderId| :: FlatKey(k)[i] == k.senderId[i];
  }

  /** With a colon in a sender id two different requests can share a flat key. */
  lemma FlatKeysCanCollide()
    ensures exists j, k :: j != k && FlatKey(j) == FlatKey(k) && ColonFree(j)
  {
    var j, k := Key("a", "b:c"), Key("a:b", "c");
    assert j.senderId[0] == 'a' && |j.senderId| == 1;
    assert FlatKey(j) == "a:b:c" == FlatKey(k);
  }

  ghost predicate SharesFlatKey(a: string, b: string) {
    exists r, s :: FlatKey(Key(a, r)) == FlatKey(Key(b, s))
  }

  /** Requests of two senders can share a flat key exactly when one sender id starts with the other and a colon. */
  lemma FlatKeysCollideExactly(a: string, b: string)
    requires a != b
    ensures SharesFlatKey(a, b) <==> a + ":" <= b || b + ":" <= a
  {
    if SharesFlatKey(a, b) {
      var r, s :| FlatKey(Key(a, r)) == FlatKey(Key(b, s));
      SharedPrefix(a, r, b, s);
    }
    if a + ":" <= b { CollidingRequests(a, b); }
    if b + ":" <= a {
      CollidingRequests(b, a);
      var r, s :| FlatKey(Key(b, r)) == FlatKey(Key(a, s));
      assert FlatKey(Key(a, s)) == FlatKey(Key(b, r));
    }
  }

  lemma SharedPrefix(a: string, r: string, b: string, s: string)
    requires a != b && FlatKey(Key(a, r)) == FlatKey(Key(b, s))
    ensures a + ":" <= b || b + ":" <= a
  {
    var flat := FlatKey(Key(a, r));
    assert flat == a + ":" + r == b + ":" + s;
    assert flat[..|a|] == a && flat[..|b|] == b && flat[|a|] == ':' == flat[|b|];
    if |a| < |b| {
      assert b[..|a|] == a && b[|a|] == ':';
      assert a + ":" == b[..|a| + 1];
    } else {
      assert a[..|b|] == b;
      if |a| > |b| { assert b + ":" == a[..|b| + 1]; }
    }
  }

  lemma CollidingRequests(a: string, b: string)
    requires a + ":" <= b
    ensures SharesFlatKey(a, b)
  {
    var rest := b[|a| + 1..];
    assert b == a + ":" + rest;
    assert FlatKey(Key(a, rest + ":")) == FlatKey(Key(b, ""));
  }

  /** `list` holds the commands of `batch`, one per key. */
  ghost predicate Lists(list: seq<Command>, batch: Batch) {
    && (forall i | 0 <= i < |list| :: KeyOf(list[i]) in batch && batch[KeyOf(list[i])] == list[i])
    && (forall k | k in batch :: batch[k] in list)
    && DistinctKeys(list)
  }

  ghost predicate DistinctKeys(list: seq<Command>) {
    forall i, j | 0 <= i < j < |list| :: KeyOf(list[i]) != KeyOf(list[j])
  }

  /** The record set the statements join with. */
  function BatchOf(list: seq<Command>): Batch
    requires DistinctKeys(list)
  {
    map c | c in list :: KeyOf(c) := c
  }

  lemma BatchOfListed(list: seq<Command>, batch: Batch)
    requires Lists(list, batch) && WellKeyed(batch)
    ensures BatchOf(list) == batch
  {
    forall k | k in batch
      ensures k in BatchOf(list)
    {
      assert batch[k] in list && KeyOf(batch[k]) == k;
    }
  }

  lemma {:induction false} ConflictSticks(cmds: seq<Command>, i: nat)
    requires i <= |cmds| && Dedupe(cmds[..i]).Err?
    ensures Dedupe(cmds) == Err(ConflictingCommands)
    decreases |cmds|
  {
    if i == |cmds| {
      assert cmds[..i] == cmds;
      if Dedupe(cmds[..i - 1]).Err? {
        assert cmds[..i - 1][..i - 1] == cmds[..i - 1];
        ConflictSticks(cmds[..i - 1], i - 1);
      }
    } else {
      assert cmds[..|cmds| - 1][..i] == cmds[..i];
      ConflictSticks(cmds[..|cmds| - 1], i);
    }
  }

  ghost predicate Indexes(byKey: map<string, Command>, batch: Batch) {
    && (forall k | k in batch :: FlatKey(k) in byKey && byKey[FlatKey(k)] == batch[k])
    && (forall flat | flat in byKey :: exists k :: k in batch && flat == FlatKey(k))
  }

  method DedupeMessageWriteCommands(cmds: seq<Command>) returns (r: Result<seq<Command>, CommitError>)
    requires forall c | c in cmds :: ColonFree(KeyOf(c))
    ensures Dedupe(cmds).Err? ==> r == Err(Dedupe(cmds).error)
    ensures Dedupe(cmds).Ok? ==> r.Ok? && Lists(r.value, Dedupe(cmds).value)
  {
    var byKey: map<string, Command> := map[];
    var deduped: seq<Command> := [];
    for i := 0 to |cmds|
      invariant Dedupe(cmds[..i]).Ok?
      invariant Lists(deduped, Dedupe(cmds[..i]).value)
      invariant Indexes(byKey, Dedupe(cmds[..i]).value)
    {
      var command := cmds[i];
      var key := FlatKey(KeyOf(command));
      ghost var batch := Dedupe(cmds[..i]).value;
      assert cmds[..i + 1][..i] == cmds[..i];
      DedupeFacts(cmds[..i]);
      KeyFound(byKey, batch, KeyOf(command), cmds[..i]);
      if key !in byKey {
        byKey := byKey[key := command];
        deduped := deduped + [command];
        ListsMore(deduped[..|deduped| - 1], batch, command);
        IndexesMore(cmds[..i], batch, command);
      } else if byKey[key].messageId != command.messageId
             || byKey[key].roomId != command.roomId
             || byKey[key].body != command.body
      {
        ConflictSticks(cmds, i + 1);
        return Err(ConflictingCommands);
      }
    }
    assert cmds[..|cmds|] == cmds;
    return Ok(deduped);
  }

  lemma KeyFound(byKey: map<string, Command>, batch: Batch, k: Key, cmds: seq<Command>)
    requires Indexes(byKey, batch) && ColonFree(k)
    requires forall j | j in batch :: batch[j] in cmds && KeyOf(batch[j]) == j
    requires forall c | c in cmds :: ColonFree(KeyOf(c))
    ensures FlatKey(k) in byKey <==> k in batch
    ensures k in batch ==> byKey[FlatKey(k)] == batch[k]
  {
    if FlatKey(k) in byKey {
      var j :| j in batch && FlatKey(k) == FlatKey(j);
      FlatKeyInjective(j, k);
    }
  }

  lemma ListsMore(list: seq<Command>, batch: Batch, c: Command)
    requires Lists(list, batch) && KeyOf(c) !in batch
    ensures Lists(list + [c], batch[KeyOf(c) := c])
  {
    var more := batch[KeyOf(c) := c];
    assert c in list + [c];
    forall k | k in more
      ensures more[k] in list + [c]
    {
      if k != KeyOf(c) { assert batch[k] in list; }
    }
  }

  lemma IndexesMore(cmds: seq<Command>, batch: Batch, c: Command)
    requires forall j | j in batch :: batch[j] in cmds && KeyOf(batch[j]) == j
    requires ColonFree(KeyOf(c)) && forall d | d in cmds :: ColonFree(KeyOf(d))
    requires KeyOf(c) !in batch
    ensures forall j | j in batch :: FlatKey(j) != FlatKey(KeyOf(c))
  {
    forall j | j in batch
      ensures FlatKey(j) != FlatKey(KeyOf(c))
    {
      if FlatKey(j) == FlatKey(KeyOf(c)) {
        FlatKeyInjective(j, KeyOf(c));
      }
    }
  }

  // ---- room bumps

  ghost function RowTimes(rows: seq<MessageRow>, roomId: string): set<int> {
    set i | 0 <= i < |rows| && rows[i].roomId == roomId :: rows[i].createdAt
  }

  lemma RowTimesMore(rows: seq<MessageRow>, i: nat, roomId: string)
    requires i < |rows|
    ensures RowTimes(rows[..i + 1], roomId)
         == RowTimes(rows[..i], roomId) + if rows[i].roomId == roomId then {rows[i].createdAt} else {}
  {
    var before, after := RowTimes(rows[..i], roomId), RowTimes(rows[..i + 1], roomId);
    forall t | t in after
      ensures t in before || (rows[i].roomId == roomId && t == rows[i].createdAt)
    {
      var j :| 0 <= j < i + 1 && rows[..i + 1][j].roomId == roomId && t == rows[..i + 1][j].createdAt;
      assert j < i ==> rows[..i][j] == rows[j];
    }
    forall t | t in before
      ensures t in after
    {
      var j :| 0 <= j < i && rows[..i][j].roomId == roomId && t == rows[..i][j].createdAt;
      assert rows[..i + 1][j] == rows[j];
    }
    if rows[i].roomId == roomId {
      assert rows[..i + 1][i] == rows[i];
      assert rows[i].createdAt in after;
    }
  }

  ghost predicate MaxPerRoom(rows: seq<MessageRow>, maxByRoom: map<string, int>) {
    && (forall r | r in maxByRoom :: IsMax(RowTimes(rows, r), maxByRoom[r]))
    && (forall r | r !in maxByRoom :: RowTimes(rows, r) == {})
  }

  lemma MaxPerRoomMore(rows: seq<MessageRow>, i: nat, maxByRoom: map<string, int>)
    requires i < |rows| && MaxPerRoom(rows[..i], maxByRoom)
    ensures
      var message := rows[i];
      MaxPerRoom(rows[..i + 1],
        if message.roomId !in maxByRoom || message.createdAt > maxByRoom[message.roomId]
        then maxByRoom[message.roomId := message.createdAt] else maxByRoom)
  {
    forall r
      ensures RowTimes(rows[..i + 1], r)
           == RowTimes(rows[..i], r) + if rows[i].roomId == r then {rows[i].createdAt} else {}
    {
      RowTimesMore(rows, i, r);
    }
    hide RowTimes;
  }

  method LatestPerRoom(rows: seq<MessageRow>) returns (maxByRoom: map<string, int>)
    ensures MaxPerRoom(rows, maxByRoom)
  {
    hide MaxPerRoom;
    maxByRoom := map[];
    NoRoomTimes();
    assert rows[..0] == [];
    for i := 0 to |rows|
      invariant MaxPerRoom(rows[..i], maxByRoom)
    {
      var message := rows[i];
      MaxPerRoomMore(rows, i, maxByRoom);
      if message.roomId !in maxByRoom || message.createdAt > maxByRoom[message.roomId] {
        maxByRoom := maxByRoom[message.roomId := message.createdAt];
      }
    }
    assert rows[..|rows|] == rows;
  }

  lemma NoRoomTimes()
    ensures MaxPerRoom([], map[])
  {
  }

  /** The rows the statement returns, as the room bump reads them. */
  ghost predicate Returns(rows: seq<MessageId>, messages: Messages, writes: Writes, keys: set<Key>)
    requires keys <= writes.Keys
  {
    && (forall id :: id in rows <==> id in IdsOf(writes, keys))
    && (forall k | k in keys ::
          && Stable(writes[k].id) in messages
          && messages[Stable(writes[k].id)].roomId == writes[k].roomId
          && messages[Stable(writes[k].id)].createdAt == writes[k].acceptedAt)
  }

  function RowsOf(rows: seq<MessageId>, messages: Messages): (r: seq<MessageRow>)
    requires forall id | id in rows :: id in messages
    ensures |r| == |rows|
    ensures forall i | 0 <= i < |rows| :: r[i] == messages[rows[i]]
  {
    seq(|rows|, i requires 0 <= i < |rows| => messages[rows[i]])
  }

  lemma ReturnedTimes(rows: seq<MessageId>, messages: Messages, writes: Writes, keys: set<Key>, roomId: string)
    requires keys <= writes.Keys && Returns(rows, messages, writes, keys)
    requires forall id | id in rows :: id in messages
    ensures RowTimes(RowsOf(rows, messages), roomId) == Times(writes, keys, roomId)
  {
    var r := RowsOf(rows, messages);
    forall t | t in RowTimes(r, roomId)
      ensures t in Times(writes, keys, roomId)
    {
      var i :| 0 <= i < |r| && r[i].roomId == roomId && t == r[i].createdAt;
      assert rows[i] in rows;
      var k :| k in keys && rows[i] == Stable(writes[k].id);
      assert writes[k].acceptedAt in Times(writes, keys, roomId);
    }
    forall t | t in Times(writes, keys, roomId)
      ensures t in RowTimes(r, roomId)
    {
      var k :| k in keys && writes[k].roomId == roomId && t == writes[k].acceptedAt;
      assert Stable(writes[k].id) in rows;
      var i :| 0 <= i < |rows| && rows[i] == Stable(writes[k].id);
      assert r[i].createdAt in RowTimes(r, roomId);
    }
  }

  lemma BumpRoom(row: RoomRow, count: nat, times: set<int>)
    ensures RoomAfter(RoomAfter(row, count, {}), 0, times) == RoomAfter(row, count, times)
  {
    assert MaxOf({row.lastMessageAt} + {}) == row.lastMessageAt;
  }

  lemma BumpedRooms(rooms: Rooms, writes: Writes, cands: set<Key>, keys: set<Key>, bumped: Rooms)
    requires cands <= writes.Keys && keys <= writes.Keys && bumped.Keys == rooms.Keys
    requires forall r | r in rooms :: bumped[r] == RoomAfter(Numbered(rooms, writes, cands)[r], 0, Times(writes, keys, r))
    ensures bumped == WithRooms(rooms, writes, cands, keys)
  {
    hide Window, Times, RoomAfter, MaxOf;
    forall r | r in rooms
      ensures bumped[r] == RoomAfter(rooms[r], |Window(writes, cands, r)|, Times(writes, keys, r))
    {
      BumpRoom(rooms[r], |Window(writes, cands, r)|, Times(writes, keys, r));
    }
  }

  lemma ReturnedRows(db: Db, batch: Batch, rows: seq<MessageId>)
    requires Schema(db) && batch.Keys <= db.writes.Keys
    requires forall id :: id in rows <==> id in PersistStatement(db, batch).inserted
    ensures
      var inserted := Inserted(db, db.writes, Candidates(db.messages, db.writes, batch));
      Returns(rows, PersistStatement(db, batch).db.messages, db.writes, inserted)
  {
  }

  /** Persisting and then bumping the rooms is the whole transaction. */
  lemma PersistThenBump(db: Db, batch: Batch, rows: seq<MessageId>, bumped: Rooms)
    requires Schema(db) && Accepts(db, batch)
    requires
      var p := PersistStatement(db.(writes := WritesOf(db, batch)), batch);
      && (forall id :: id in rows <==> id in p.inserted)
      && (forall id | id in rows :: id in p.db.messages)
      && bumped.Keys == p.db.rooms.Keys
      && forall r | r in bumped :: bumped[r] == RoomAfter(p.db.rooms[r], 0, RowTimes(RowsOf(rows, p.db.messages), r))
    ensures
      var p := PersistStatement(db.(writes := WritesOf(db, batch)), batch);
      CommitAccepted(db, batch) == Committed(p.db.(rooms := bumped), p.inserted)
  {
    hide Window, Times, MaxOf, WithStatuses, RowTimes, RoomAfter, Conflicts, HasMessage, Joined, UniqueWriteIds, RowFor;
    var start := db.(writes := WritesOf(db, batch));
    var p, cands := PersistStatement(start, batch), CandsOf(db, batch);
    var inserted := Inserted(start, start.writes, cands);
    ReturnedRows(start, batch, rows);
    forall r | r in bumped
      ensures bumped[r] == RoomAfter(Numbered(db.rooms, start.writes, cands)[r], 0, Times(start.writes, inserted, r))
    {
      ReturnedTimes(rows, p.db.messages, start.writes, inserted, r);
    }
    BumpedRooms(db.rooms, start.writes, cands, inserted, bumped);
  }

  // ---- the batch transaction

  datatype Failure = Rejected(error: CommitError) | Unavailable

  /** A room's time becomes the greatest of itself and the times of the room's rows; its counter stays. */
  ghost predicate Bumped(rows: seq<MessageRow>, roomId: string, before: RoomRow, after: RoomRow) {
    && after.nextMessageSeq == before.nextMessageSeq && before.lastMessageAt <= after.lastMessageAt
    && (forall i | 0 <= i < |rows| && rows[i].roomId == roomId :: rows[i].createdAt <= after.lastMessageAt)
    && (after.lastMessageAt == before.lastMessageAt
        || exists i :: 0 <= i < |rows| && rows[i].roomId == roomId && rows[i].createdAt == after.lastMessageAt)
  }

  lemma GreatestIsBumped(rows: seq<MessageRow>, roomId: string, row: RoomRow)
    ensures Bumped(rows, roomId, row, RoomAfter(row, 0, RowTimes(rows, roomId)))
  {
    var at := RoomAfter(row, 0, RowTimes(rows, roomId)).lastMessageAt;
    assert IsMax({row.lastMessageAt} + RowTimes(rows, roomId), at);
    forall i | 0 <= i < |rows| && rows[i].roomId == roomId
      ensures rows[i].createdAt in RowTimes(rows, roomId)
    {
    }
  }

  method UpdateRoomsLastMessageAt(db: MessageDatabase, rows: seq<MessageRow>)
    modifies db`rooms
    ensures db.rooms.Keys == old(db.rooms).Keys
    ensures forall r | r in db.rooms :: Bumped(rows, r, old(db.rooms)[r], db.rooms[r])
    ensures forall r | r in db.rooms :: db.rooms[r] == RoomAfter(old(db.rooms)[r], 0, RowTimes(rows, r))
  {
    var maxByRoom := LatestPerRoom(rows);
    db.BumpRooms(maxByRoom);
    forall r | r in db.rooms
      ensures db.rooms[r] == RoomAfter(old(db.rooms)[r], 0, RowTimes(rows, r))
      ensures Bumped(rows, r, old(db.rooms)[r], db.rooms[r])
    {
      GreatestIsBumped(rows, r, old(db.rooms)[r]);
      var last := old(db.rooms)[r].lastMessageAt;
      assert IsMax({last} + RowTimes(rows, r), db.rooms[r].lastMessageAt);
    }
  }

  lemma PersistedAreThere(db: Db, batch: Batch)
    requires Schema(db) && batch.Keys <= db.writes.Keys
    ensures PersistStatement(db, batch).inserted <= PersistStatement(db, batch).db.messages.Keys
  {
  }

  lemma InsertedSchemaIf(db: Db, batch: Batch)
    requires Schema(db)
    ensures Insertable(db, batch) ==> Schema(db.(writes := WithInserted(db.writes, batch)))
  {
  }

  lemma AllMatchListed(writes: Writes, list: seq<Command>)
    requires DistinctKeys(list)
    requires forall i | 0 <= i < |list| :: KeyOf(list[i]) in writes && Matches(writes[KeyOf(list[i])], list[i])
    ensures AllMatch(writes, BatchOf(list))
  {
    forall k | k in BatchOf(list)
      ensures k in writes && Matches(writes[k], BatchOf(list)[k])
    {
      var i :| 0 <= i < |list| && KeyOf(list[i]) == k && BatchOf(list)[k] == list[i];
    }
  }

  /** The check of every command against the write row of its key. */
  method MatchWrites(db: MessageDatabase, deduped: seq<Command>) returns (ok: bool)
    requires DistinctKeys(deduped)
    ensures ok == AllMatch(db.writes, BatchOf(deduped))
  {
    for i := 0 to |deduped|
      invariant forall j | 0 <= j < i ::
                  KeyOf(deduped[j]) in db.writes && Matches(db.writes[KeyOf(deduped[j])], deduped[j])
    {
      var command := deduped[i];
      if KeyOf(command) !in db.writes
         || db.writes[KeyOf(command)].id != command.messageId
         || db.writes[KeyOf(command)].roomId != command.roomId
         || db.writes[KeyOf(command)].content != command.body
      {
        assert command in deduped && BatchOf(deduped)[KeyOf(command)] == command;
        return false;
      }
    }
    AllMatchListed(db.writes, deduped);
    return true;
  }

  /** The last two statements of the transaction. */
  method PersistAndBump(db: MessageDatabase, ghost start: Db, batch: Batch) returns (rows: seq<MessageId>)
    requires Schema(start) && Accepts(start, batch)
    requires db.Snapshot() == start.(writes := WritesOf(start, batch))
    modifies db
    ensures db.Snapshot() == CommitAccepted(start, batch).db
    ensures forall id :: id in rows <==> id in CommitAccepted(start, batch).inserted
    ensures InOrder(db.messages, rows)
  {
    hide Insertable, AllMatch, WithInserted, Candidates, Inserted, NewMessages, NewOutbox, WithStatuses, Joined, Numbered, WithRooms, IdsOf;
    var persisted := db.PersistMessages(batch);
    PersistedAreThere(start.(writes := WritesOf(start, batch)), batch);
    rows := db.Ordered(persisted);
    UpdateRoomsLastMessageAt(db, RowsOf(rows, db.messages));
    PersistThenBump(start, batch, rows, db.rooms);
  }

  method RunTransaction(db: MessageDatabase, deduped: seq<Command>) returns (r: Result<seq<MessageId>, Failure>)
    requires db.Valid() && DistinctKeys(deduped)
    modifies db
    ensures var spec := CommitBatch(old(db.Snapshot()), BatchOf(deduped));
      match r
      case Ok(rows) =>
        spec.Ok? && db.Snapshot() == spec.value.db && (forall id :: id in rows <==> id in spec.value.inserted) && InOrder(db.messages, rows)
      case Err(Rejected(e)) => spec == Err(e) && db.Snapshot() == old(db.Snapshot())
      case Err(Unavailable) =>
        !db.reliable && (db.Snapshot() == old(db.Snapshot()) || (spec.Ok? && db.Snapshot() == spec.value.db))
  {
    hide CommitAccepted, AllMatch, Sequenced, BatchOf;
    var batch := BatchOf(deduped);
    var saved := db.writes;
    var lost: bool := *;
    if lost && !db.reliable {
      return Err(Unavailable);
    }
    InsertedSchemaIf(db.Snapshot(), batch);
    var inserted := db.InsertMissingWrites(batch);
    if !inserted {
      return Err(Rejected(ConstraintViolation));
    }
    var matching := MatchWrites(db, deduped);
    if !matching {
      db.RollbackWrites(saved);
      return Err(Rejected(MismatchedRequest));
    }
    var rows := PersistAndBump(db, old(db.Snapshot()), batch);
    lost := *;
    if lost && !db.reliable {
      return Err(Unavailable);
    }
    return Ok(rows);
  }

  /**
   * `processMessageWriteCommands`: the tables end exactly as the specification
   * says, or, when the transaction throws, exactly as they were. A connection
   * that fails may hide whether the commit went through.
   */
  method ProcessMessageWriteCommands(db: MessageDatabase, cmds: seq<Command>) returns (r: Result<seq<MessageId>, Failure>)
    requires db.Valid() && forall c | c in cmds :: ColonFree(KeyOf(c))
    modifies db
    ensures db.Valid() && Advances(old(db.Snapshot()), db.Snapshot())
    ensures var spec := CommitCommands(old(db.Snapshot()), cmds);
      match r
      case Ok(rows) =>
        spec.Ok? && db.Snapshot() == spec.value.db && (forall id :: id in rows <==> id in spec.value.inserted) && InOrder(db.messages, rows)
      case Err(Rejected(e)) => spec == Err(e) && db.Snapshot() == old(db.Snapshot())
      case Err(Unavailable) =>
        !db.reliable && (db.Snapshot() == old(db.Snapshot()) || (spec.Ok? && db.Snapshot() == spec.value.db))
  {
    hide CommitAccepted, CommitBatch;
    CommitStepsIf(db.Snapshot(), cmds);
    if cmds == [] {
      return Ok([]);
    }
    var deduped := DedupeMessageWriteCommands(cmds);
    if deduped.Err? {
      return Err(Rejected(deduped.error));
    }
    DedupeFacts(cmds);
    BatchOfListed(deduped.value, Dedupe(cmds).value);
    r := RunTransaction(db, deduped.value);
  }

  lemma CommitStepsIf(db: Db, cmds: seq<Command>)
    requires Inv(db)
    ensures Advances(db, db)
    ensures CommitCommands(db, cmds).Ok? ==>
              Inv(CommitCommands(db, cmds).value.db) && Advances(db, CommitCommands(db, cmds).value.db)
  {
    if CommitCommands(db, cmds).Ok? {
      CommitSteps(db, cmds);
    }
  }

  // ---- dead letters

  /** Any failure on the way is swallowed, so the row need not end up DEAD. */
  method MarkMessageWriteCommandDead(db: MessageDatabase, command: Command)
    requires db.Valid()
    modifies db
    ensures db.Valid() && Advances(old(db.Snapshot()), db.Snapshot())
    ensures db.Snapshot() == DeadLetter(old(db.Snapshot()), command)
         || (!db.reliable && db.Snapshot() == old(db.Snapshot()))
  {
    DeadLetterSteps(db.Snapshot(), command);
    var lost: bool := *;
    if lost && !db.reliable {
      return;
    }
    if KeyOf(command) in db.writes {
      db.UpdateWriteDead(db.writes[KeyOf(command)].id);
    } else {
      var created := db.CreateDeadWrite(command);
    }
  }

  /** What one command does to the tables on its own. */
  ghost predicate ProcessedAlone(before: Db, after: Db, command: Command, attempt: nat, maxAttempts: nat, ok: bool)
    requires Schema(before)
  {
    match CommitCommands(before, [command])
    case Ok(c) => ok && after == c.db
    case Err(_) =>
      if attempt >= maxAttempts then ok && after == DeadLetter(before, command)
      else !ok && after == before
  }

  method ProcessMessageWriteCommand(db: MessageDatabase, command: Command, attempt: nat, maxAttempts: nat)
    returns (r: Result<seq<MessageId>, Failure>)
    requires db.Valid() && ColonFree(KeyOf(command))
    modifies db
    ensures db.Valid() && Advances(old(db.Snapshot()), db.Snapshot())
    ensures db.reliable ==>
              ProcessedAlone(old(db.Snapshot()), db.Snapshot(), command, attempt, maxAttempts, r.Ok?)
    ensures r.Ok? && attempt < maxAttempts ==> Recorded(db.writes, command)
  {
    hide CommitCommands, DeadLetter;
    r := ProcessMessageWriteCommands(db, [command]);
    if r.Ok? {
      CommitRecords(old(db.Snapshot()), [command]);
      assert command in [command];
    } else if attempt >= maxAttempts {
      AdvancesTransitiveTo(old(db.Snapshot()), db.Snapshot(), DeadLetter(db.Snapshot(), command));
      MarkMessageWriteCommandDead(db, command);
      return Ok([]);
    }
  }

  lemma AdvancesTransitiveTo(a: Db, b: Db, c: Db)
    ensures Advances(a, b) && Advances(b, c) ==> Advances(a, c)
  {
    if Advances(a, b) && Advances(b, c) {
      AdvancesTransitive(a, b, c);
    }
  }
}
