/**
 * The database client: the tables, updated in place, and one method per SQL
 * statement. Each states the whole new table contents in terms of the old.
 */
module Database {
  import opened Prelude
  import opened Ranking
  import opened Store
  import opened Invariant
  import opened Steps

  /** Rows by (createdAt, id), none twice. */
  ghost predicate InOrder(messages: Messages, rows: seq<MessageId>) {
    && (forall id | id in rows :: id in messages)
    && forall i, j | 0 <= i < j < |rows| ::
         && rows[i] != rows[j]
         && Before(Stamp(messages[rows[i]].createdAt, rows[i]), Stamp(messages[rows[j]].createdAt, rows[j]))
  }

  function ClaimedIds(claimed: seq<(MessageId, nat)>): set<MessageId> {
    set i | 0 <= i < |claimed| :: claimed[i].0
  }

  /** Distinct claimable rows, each with the number of its new attempt. */
  ghost predicate ClaimsFrom(outbox: Outbox, claimed: seq<(MessageId, nat)>, staleLockMs: nat, now: int) {
    && (forall i | 0 <= i < |claimed| ::
          && claimed[i].0 in outbox
          && Claimable(outbox[claimed[i].0], now, staleLockMs)
          && claimed[i].1 == outbox[claimed[i].0].attempts + 1)
    && (forall i, j | 0 <= i < j < |claimed| :: claimed[i].0 != claimed[j].0)
  }

  lemma NothingClaimed(outbox: Outbox, staleLockMs: nat, now: int)
    ensures ClaimsFrom(outbox, [], staleLockMs, now)
    ensures ClaimedOutbox(outbox, ClaimedIds([]), now) == outbox
  {
  }

  lemma OneMoreClaim(outbox: Outbox, claimed: seq<(MessageId, nat)>, id: MessageId, staleLockMs: nat, now: int)
    requires ClaimsFrom(outbox, claimed, staleLockMs, now)
    requires id in outbox && id !in ClaimedIds(claimed) && Claimable(outbox[id], now, staleLockMs)
    ensures
      var more := claimed + [(id, outbox[id].attempts + 1)];
      && ClaimsFrom(outbox, more, staleLockMs, now) && ClaimedIds(more) == ClaimedIds(claimed) + {id}
      && ClaimedOutbox(outbox, ClaimedIds(more), now)
         == ClaimedOutbox(outbox, ClaimedIds(claimed), now)[id := ClaimedRow(outbox[id], now)]
  {
    hide Claimable, ClaimedRow;
    var more := claimed + [(id, outbox[id].attempts + 1)];
    assert more[|claimed|].0 == id && forall i | 0 <= i < |claimed| :: more[i] == claimed[i];
    assert ClaimedIds(more) == ClaimedIds(claimed) + {id};
  }

  /** No claimable row that is left out comes before one that is taken. */
  ghost predicate OldestFirst(outbox: Outbox, place: MessageId -> Stamp, ids: set<MessageId>, staleLockMs: nat, now: int) {
    forall a, b | a in ids && b in outbox && b !in ids && Claimable(outbox[b], now, staleLockMs) :: !Before(place(b), place(a))
  }

  predicate FirstInLine(place: MessageId -> Stamp, ids: set<MessageId>, id: MessageId) {
    id in ids && forall o | o in ids :: !Before(place(o), place(id))
  }

  lemma {:induction false} SomeRowIsFirst(place: MessageId -> Stamp, ids: set<MessageId>)
    requires ids != {}
    ensures exists id :: FirstInLine(place, ids, id)
  {
    var x :| x in ids;
    if ids == {x} {
      assert FirstInLine(place, ids, x);
    } else {
      SomeRowIsFirst(place, ids - {x});
      var m :| FirstInLine(place, ids - {x}, m);
      assert FirstInLine(place, ids, if Before(place(x), place(m)) then x else m);
    }
  }

  lemma FirstMeans(place: MessageId -> Stamp, ids: set<MessageId>, id: MessageId)
    requires FirstInLine(place, ids, id)
    ensures id in ids && forall o | o in ids :: !Before(place(o), place(id))
  {
  }

  class MessageDatabase {
    var users: set<string>
    var rooms: Rooms
    var writes: Writes
    var messages: Messages
    var outbox: Outbox

    /** Whether every statement reaches the server and its answer comes back. */
    const reliable: bool

    /** Whether no other drainer holds row locks, so that SKIP LOCKED skips nothing. */
    const alone: bool

    /** The (createdAt, id) a message's outbox row has, or will have: both are written once. */
    const place: MessageId -> Stamp

    ghost function Snapshot(): Db
      reads this
    {
      Db(users, rooms, writes, messages, outbox)
    }

    ghost predicate Valid()
      reads this
    {
      Inv(Snapshot())
    }

    /** INSERT INTO MessageWrite ... ON CONFLICT (sender, request) DO NOTHING. */
    method InsertMissingWrites(batch: Batch) returns (ok: bool)
      modifies this`writes
      ensures ok == Insertable(old(Snapshot()), batch)
      ensures writes == if ok then WithInserted(old(writes), batch) else old(writes)
    {
      ok := Insertable(Db(users, rooms, writes, messages, outbox), batch);
      if ok {
        writes := WithInserted(writes, batch);
      }
    }

    /** ROLLBACK of the statement above, the only one that precedes a check. */
    method RollbackWrites(saved: Writes)
      modifies this`writes
      ensures writes == saved
    {
      writes := saved;
    }

    /** The statement that numbers, inserts and enqueues the messages and moves the statuses. */
    method PersistMessages(batch: Batch) returns (persisted: set<MessageId>)
      requires Schema(Snapshot()) && batch.Keys <= writes.Keys
      modifies this
      ensures Committed(Snapshot(), persisted) == PersistStatement(old(Snapshot()), batch)
    {
      var after := PersistStatement(Db(users, rooms, writes, messages, outbox), batch);
      rooms, writes, messages, outbox := after.db.rooms, after.db.writes, after.db.messages, after.db.outbox;
      persisted := after.inserted;
    }

    /** ORDER BY createdAt, id. */
    method Ordered(ids: set<MessageId>) returns (rows: seq<MessageId>)
      requires ids <= messages.Keys
      ensures forall id :: id in rows <==> id in ids
      ensures InOrder(messages, rows)
    {
      rows := [];
      var rest := ids;
      while rest != {}
        invariant rest <= ids
        invariant forall id :: id in rows <==> id in ids && id !in rest
        invariant forall i, id | 0 <= i < |rows| && id in rest ::
                    Before(Stamp(messages[rows[i]].createdAt, rows[i]), Stamp(messages[id].createdAt, id))
        invariant forall i, j | 0 <= i < j < |rows| ::
                    Before(Stamp(messages[rows[i]].createdAt, rows[i]), Stamp(messages[rows[j]].createdAt, rows[j]))
        decreases rest
      {
        EarliestExists(messages, rest);
        var next :| next in rest && forall o | o in rest && o != next ::
                      Before(Stamp(messages[next].createdAt, next), Stamp(messages[o].createdAt, o));
        rows := rows + [next];
        rest := rest - {next};
      }
    }

    /** UPDATE Room SET lastMessageAt = GREATEST(lastMessageAt, the room's maximum). */
    method BumpRooms(maxByRoom: map<string, int>)
      modifies this`rooms
      ensures rooms.Keys == old(rooms).Keys
      ensures forall r | r in rooms :: rooms[r] == RoomAfter(old(rooms)[r], 0, if r in maxByRoom then {maxByRoom[r]} else {})
    {
      rooms := map r | r in rooms :: RoomAfter(rooms[r], 0, if r in maxByRoom then {maxByRoom[r]} else {});
    }

    /** UPDATE MessageWrite SET status = DEAD WHERE id = ... AND status = PENDING. */
    method UpdateWriteDead(id: nat)
      modifies this`writes
      ensures Snapshot() == MarkDead(old(Snapshot()), id)
    {
      writes := map k | k in writes ::
        if writes[k].id == id && writes[k].status == PENDING then writes[k].(status := DEAD) else writes[k];
    }

    /** INSERT of a DEAD write row; false when a constraint rejects it. */
    method CreateDeadWrite(c: Command) returns (ok: bool)
      modifies this`writes
      ensures Snapshot() == CreateDead(old(Snapshot()), c)
    {
      ok := KeyOf(c) !in writes && Insertable(Db(users, rooms, writes, messages, outbox), map[KeyOf(c) := c]);
      if ok {
        writes := writes[KeyOf(c) := DeadRow(c)];
      }
    }

    /**
     * The claim: up to `limit` claimable rows. Rows locked by another drainer
     * are skipped; without one, the claim takes the oldest rows and stops only
     * at the limit.
     */
    method ClaimOutbox(limit: nat, staleLockMs: nat, now: int) returns (claimed: seq<(MessageId, nat)>)
      modifies this`outbox
      ensures |claimed| <= limit && ClaimsFrom(old(outbox), claimed, staleLockMs, now)
      ensures alone ==> |claimed| == limit || forall id | id in old(outbox) && Claimable(old(outbox)[id], now, staleLockMs) ::
                id in ClaimedIds(claimed)
      ensures alone ==> OldestFirst(old(outbox), place, ClaimedIds(claimed), staleLockMs, now)
      ensures Snapshot() == ClaimRows(old(Snapshot()), ClaimedIds(claimed), now)
    {
      hide Claimable, ClaimsFrom, ClaimedOutbox, ClaimedRow, Before, FirstInLine;
      claimed := [];
      ghost var before := outbox;
      var open := set id | id in outbox && Claimable(outbox[id], now, staleLockMs);
      NothingClaimed(before, staleLockMs, now);
      var skipped: bool := *;
      while |claimed| < limit && (alone || !skipped) && open != {}
        invariant |claimed| <= limit && ClaimsFrom(before, claimed, staleLockMs, now)
        invariant forall id :: id in open <==> id in before && Claimable(before[id], now, staleLockMs) && id !in ClaimedIds(claimed)
        invariant open <= outbox.Keys && forall id | id in open :: outbox[id] == before[id]
        invariant outbox == ClaimedOutbox(before, ClaimedIds(claimed), now)
        invariant alone ==> forall a, b | a in ClaimedIds(claimed) && b in open :: !Before(place(b), place(a))
        decreases limit - |claimed|
      {
        SomeRowIsFirst(place, open);
        var first :| FirstInLine(place, open, first);
        FirstMeans(place, open, first);
        var other :| other in open;
        var id := if alone then first else other;
        OneMoreClaim(before, claimed, id, staleLockMs, now);
        claimed := claimed + [(id, outbox[id].attempts + 1)];
        outbox := outbox[id := ClaimedRow(outbox[id], now)];
        open := open - {id};
        skipped := *;
      }
    }

    /** SELECT ... FROM Message WHERE id IN (...). */
    method FindMessages(ids: set<MessageId>) returns (found: Messages)
      ensures found == Restrict(messages, ids)
    {
      found := Restrict(messages, ids);
    }

    /** After a publish: the outbox row and its write, in one transaction. */
    method FinishOutbox(id: MessageId)
      modifies this`outbox, this`writes
      ensures Snapshot() == FinishRow(old(Snapshot()), id)
    {
      if id in outbox {
        outbox := outbox[id := outbox[id].(status := PUBLISHED, lockedAt := None)];
      }
      writes := map k | k in writes ::
        if Stable(writes[k].id) == id && writes[k].status == PERSISTED then writes[k].(status := FANOUTED) else writes[k];
    }

    method UpdateOutboxFailed(id: MessageId, attempts: nat, now: int)
      modifies this`outbox
      ensures Snapshot() == FailRow(old(Snapshot()), id, attempts, now)
    {
      if id in outbox {
        outbox := outbox[id := FailedRow(outbox[id], attempts, now)];
      }
    }

    /** `createMessageRow`: one transaction, rolled back whole when the insert is rejected. */
    method CreateMessageRow(m: RestMessage) returns (r: Result<MessageRow, RestError>)
      modifies this`rooms, this`messages
      ensures match RestCreate(old(Snapshot()), m)
        case Err(e) => r == Err(e) && Snapshot() == old(Snapshot())
        case Ok(after) => r == Ok(after.messages[Uuid(m.id)]) && Snapshot() == after
    {
      if m.roomId !in rooms {
        return Err(RoomNotFound);
      }
      var saved := rooms;
      var row := RestRow(m, rooms[m.roomId].nextMessageSeq);
      rooms := rooms[m.roomId := rooms[m.roomId].(nextMessageSeq := rooms[m.roomId].nextMessageSeq + 1)];
      if Conflicts(messages, Uuid(m.id), row) {
        rooms := saved;
        return Err(UniqueViolation);
      }
      if m.senderId !in users {
        rooms := saved;
        return Err(ForeignKeyViolation);
      }
      messages := messages[Uuid(m.id) := row];
      return Ok(row);
    }

    /** `findMessageByRequestId`. */
    method FindMessageByRequestId(k: Key) returns (id: Option<MessageId>)
      ensures id == if KeyTaken(messages, k) then Some(MessageOf(messages, k)) else None
    {
      return if KeyTaken(messages, k) then Some(MessageOf(messages, k)) else None;
    }

    /** `updateLastMessageAt`. */
    method UpdateLastMessageAt(roomId: string, at: int)
      modifies this`rooms
      ensures Snapshot() == TouchRoom(old(Snapshot()), roomId, at)
    {
      if roomId in rooms {
        rooms := rooms[roomId := rooms[roomId].(lastMessageAt := MaxOf({rooms[roomId].lastMessageAt, at}))];
      }
    }
  }

  lemma {:induction false} EarliestExists(messages: Messages, ids: set<MessageId>)
    requires ids != {} && ids <= messages.Keys
    ensures exists id :: id in ids && forall o | o in ids && o != id ::
              Before(Stamp(messages[id].createdAt, id), Stamp(messages[o].createdAt, o))
  {
    var x := Pick(ids);
    if ids == {x} {
      assert x in ids;
    } else {
      EarliestExists(messages, ids - {x});
      var y :| y in ids - {x} && forall o | o in ids - {x} && o != y ::
                 Before(Stamp(messages[y].createdAt, y), Stamp(messages[o].createdAt, o));
      var id := if Before(Stamp(messages[x].createdAt, x), Stamp(messages[y].createdAt, y)) then x else y;
      assert id in ids;
      forall o | o in ids && o != id
        ensures Before(Stamp(messages[id].createdAt, id), Stamp(messages[o].createdAt, o))
      {
        assert o == x || o in ids - {x};
      }
    }
  }
}
