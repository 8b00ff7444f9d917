/**
 * What holds between the tables after every step, and the simple form of the
 * transaction: the same rows with the sequence numbers erased. Under the
 * invariant the real transaction refines the simple one, so that everything
 * except numbering can be reasoned about without ranks.
 */
module Invariant {
  import opened Prelude
  import opened Ranking
  import opened Store

  // ---- the invariant

  ghost predicate UniqueRequests(messages: Messages) {
    forall a, b, k | a in messages && b in messages && HasKey(messages[a], k) && HasKey(messages[b], k) :: a == b
  }

  ghost predicate Placed(db: Db, id: MessageId)
    requires id in db.messages
  {
    db.messages[id].roomId in db.rooms && db.messages[id].senderId in db.users
  }

  /** A writer-inserted message agrees with its write row and has an outbox row. */
  ghost predicate Backed(db: Db, id: MessageId)
    requires id in db.messages
  {
    var m := db.messages[id];
    && m.requestId.Some?
    && var k := Key(m.senderId, m.requestId.value);
    && k in db.writes
    && db.writes[k].id == id.rank
    && db.writes[k].roomId == m.roomId
    && db.writes[k].content == m.content
    && db.writes[k].acceptedAt == m.createdAt
    && (db.writes[k].status == PERSISTED || db.writes[k].status == FANOUTED)
    && id in db.outbox
  }

  ghost predicate HasMessageAt(messages: Messages, k: Key, at: Option<int>) {
    exists id :: id in messages && HasKey(messages[id], k) && at == Some(messages[id].createdAt)
  }

  /** A persisted write has a message with its key, created when the row says. */
  ghost predicate Settled(db: Db, k: Key)
    requires k in db.writes
  {
    db.writes[k].status == PERSISTED || db.writes[k].status == FANOUTED ==>
      HasMessageAt(db.messages, k, db.writes[k].persistedAt)
  }

  ghost predicate WriteIs(writes: Writes, id: nat, status: WriteStatus) {
    exists k :: k in writes && writes[k].id == id && writes[k].status == status
  }

  /** An outbox row belongs to a writer-inserted message; published means fanned out. */
  ghost predicate Queued(db: Db, id: MessageId)
    requires id in db.outbox
  {
    && id.Stable?
    && id in db.messages
    && (db.outbox[id].status == PUBLISHED ==> WriteIs(db.writes, id.rank, FANOUTED))
  }

  ghost predicate Linked(db: Db) {
    && Schema(db)
    && UniqueRequests(db.messages)
    && (forall id | id in db.messages :: Placed(db, id))
    && (forall id | id in db.messages && id.Stable? :: Backed(db, id))
    && (forall k | k in db.writes :: Settled(db, k))
    && (forall id | id in db.outbox :: Queued(db, id))
  }

  ghost predicate InRange(db: Db, id: MessageId)
    requires id in db.messages
  {
    var m := db.messages[id];
    m.roomId in db.rooms && 1 <= m.roomSequence < db.rooms[m.roomId].nextMessageSeq
  }

  ghost predicate SameSlot(a: MessageRow, b: MessageRow) {
    a.roomId == b.roomId && a.roomSequence == b.roomSequence
  }

  ghost predicate HasSlot(messages: Messages, roomId: string, number: int) {
    exists id :: id in messages && messages[id].roomId == roomId && messages[id].roomSequence == number
  }

  /** In every room the numbers are exactly 1 .. nextMessageSeq - 1, none repeated. */
  ghost predicate Sequenced(db: Db) {
    && (forall id | id in db.messages :: InRange(db, id))
    && (forall a, b | a in db.messages && b in db.messages && SameSlot(db.messages[a], db.messages[b]) :: a == b)
    && (forall r | r in db.rooms :: 1 <= db.rooms[r].nextMessageSeq)
    && (forall r, n | r in db.rooms && 1 <= n < db.rooms[r].nextMessageSeq :: HasSlot(db.messages, r, n))
  }

  ghost predicate Inv(db: Db) {
    Linked(db) && Sequenced(db)
  }

  // ---- room order as sets of numbers

  function NumbersOf(messages: Messages, roomId: string): set<int> {
    set id | id in messages && messages[id].roomId == roomId :: messages[id].roomSequence
  }

  function Below(next: int): (numbers: set<int>)
    ensures forall n :: n in numbers <==> 1 <= n < next
  {
    if next <= 1 then {} else Below(next - 1) + {next - 1}
  }

  function NextNumber(rooms: Rooms, roomId: string): int {
    if roomId in rooms then rooms[roomId].nextMessageSeq else 1
  }

  /** The invariant in other words: a room's numbers are exactly 1 to next - 1; a room that is not there has none. */
  lemma RoomNumbersExact(db: Db, roomId: string)
    requires Sequenced(db)
    ensures NumbersOf(db.messages, roomId) == Below(NextNumber(db.rooms, roomId))
  {
    forall n | n in NumbersOf(db.messages, roomId)
      ensures 1 <= n < NextNumber(db.rooms, roomId)
    {
      var id :| id in db.messages && db.messages[id].roomId == roomId && db.messages[id].roomSequence == n;
      assert InRange(db, id);
    }
    forall n | n in Below(NextNumber(db.rooms, roomId))
      ensures n in NumbersOf(db.messages, roomId)
    {
      assert HasSlot(db.messages, roomId, n);
    }
  }

  // ---- erasing sequence numbers

  ghost function EraseRows(messages: Messages): Messages {
    map id | id in messages :: messages[id].(roomSequence := 0)
  }

  ghost function Erase(db: Db): Db {
    db.(messages := EraseRows(db.messages))
  }

  lemma EraseKeepsKeys(messages: Messages)
    ensures forall k :: KeyTaken(EraseRows(messages), k) <==> KeyTaken(messages, k)
    ensures forall k, at :: HasMessageAt(EraseRows(messages), k, at) <==> HasMessageAt(messages, k, at)
    ensures UniqueRequests(EraseRows(messages)) <==> UniqueRequests(messages)
  {
    var e := EraseRows(messages);
    assert e.Keys == messages.Keys;
    assert forall id, k | id in e :: HasKey(e[id], k) <==> HasKey(messages[id], k);
    forall k
      ensures KeyTaken(e, k) <==> KeyTaken(messages, k)
    {
      if id :| id in e && HasKey(e[id], k) { assert id in messages && HasKey(messages[id], k); }
      if id :| id in messages && HasKey(messages[id], k) { assert id in e && HasKey(e[id], k); }
    }
    forall k, at
      ensures HasMessageAt(e, k, at) <==> HasMessageAt(messages, k, at)
    {
      if id :| id in e && HasKey(e[id], k) && at == Some(e[id].createdAt) { assert HasKey(messages[id], k); }
      if id :| id in messages && HasKey(messages[id], k) && at == Some(messages[id].createdAt) { assert HasKey(e[id], k); }
    }
  }

  lemma EraseTwice(messages: Messages)
    ensures EraseRows(messages).Keys == messages.Keys && EraseRows(EraseRows(messages)) == EraseRows(messages)
  {
  }

  lemma EraseKeepsPlaced(db: Db, id: MessageId)
    requires id in db.messages
    ensures Placed(Erase(db), id) <==> Placed(db, id)
    ensures id.Stable? ==> (Backed(Erase(db), id) <==> Backed(db, id))
  {
    EraseTwice(db.messages);
  }

  lemma EraseKeepsSettled(db: Db, k: Key)
    requires k in db.writes
    ensures Settled(Erase(db), k) <==> Settled(db, k)
  {
    EraseKeepsKeys(db.messages);
    hide EraseRows, KeyTaken, HasMessageAt, UniqueRequests;
  }

  lemma EraseKeepsQueued(db: Db, id: MessageId)
    requires id in db.outbox
    ensures Queued(Erase(db), id) <==> Queued(db, id)
  {
    EraseTwice(db.messages);
  }

  /** The links between the tables do not mention sequence numbers. */
  lemma EraseKeepsLinks(db: Db)
    ensures Linked(Erase(db)) <==> Linked(db)
    ensures Erase(Erase(db)) == Erase(db)
  {
    EraseTwice(db.messages);
    EraseKeepsKeys(db.messages);
    hide EraseRows, Placed, Backed, Settled, Queued, UniqueRequests;
    forall id | id in db.messages
      ensures Placed(Erase(db), id) <==> Placed(db, id)
      ensures id.Stable? ==> (Backed(Erase(db), id) <==> Backed(db, id))
    {
      EraseKeepsPlaced(db, id);
    }
    forall k | k in db.writes
      ensures Settled(Erase(db), k) <==> Settled(db, k)
    {
      EraseKeepsSettled(db, k);
    }
    forall id | id in db.outbox
      ensures Queued(Erase(db), id) <==> Queued(db, id)
    {
      EraseKeepsQueued(db, id);
    }
  }

  // ---- the simple form of the transaction

  ghost function PlainRows(writes: Writes, keys: set<Key>): Messages
    requires UniqueWriteIds(writes) && keys <= writes.Keys
  {
    map k | k in keys :: Stable(writes[k].id) := RowFor(writes, k, 0)
  }

  ghost function PlainStatus(messages: Messages, batch: Batch, writes: Writes, k: Key): WriteRow
    requires k in writes
  {
    if k in batch && KeyTaken(messages, k) then Persist(writes[k], messages[MessageOf(messages, k)].createdAt)
    else writes[k]
  }

  ghost function PlainStatuses(messages: Messages, batch: Batch, writes: Writes): (after: Writes)
    ensures after.Keys == writes.Keys
    ensures forall k | k in writes :: after[k] == PlainStatus(messages, batch, writes, k)
    ensures forall k | k in writes :: SameWrite(after[k], writes[k]) && (k !in batch ==> after[k] == writes[k])
  {
    map k | k in writes :: PlainStatus(messages, batch, writes, k)
  }

  /** Messages after a plain commit. */
  ghost function PlainMessagesOf(p: Db, batch: Batch): (messages: Messages)
    requires Schema(p) && Accepts(p, batch)
    ensures forall id | id in p.messages :: id in messages && messages[id] == p.messages[id]
    ensures forall k | k in CandsOf(p, batch) ::
              && Stable(WritesOf(p, batch)[k].id) in messages
              && messages[Stable(WritesOf(p, batch)[k].id)] == RowFor(WritesOf(p, batch), k, 0)
    ensures forall id | id in messages && id !in p.messages ::
              exists k :: k in CandsOf(p, batch) && id == Stable(WritesOf(p, batch)[k].id)
  {
    p.messages + PlainRows(WritesOf(p, batch), CandsOf(p, batch))
  }

  /** The write rows after a plain commit; only statuses of the batch move, and only forward. */
  ghost function PlainWritesOf(p: Db, batch: Batch): Writes
    requires Schema(p) && Accepts(p, batch)
  {
    PlainStatuses(PlainMessagesOf(p, batch), batch, WritesOf(p, batch))
  }

  ghost function PlainOutboxOf(p: Db, batch: Batch): (outbox: Outbox)
    requires Schema(p) && Accepts(p, batch)
    ensures forall id | id in p.outbox :: id in outbox && outbox[id] == p.outbox[id]
    ensures forall k | k in CandsOf(p, batch) :: Stable(WritesOf(p, batch)[k].id) in outbox
    ensures forall id | id in outbox && id !in p.outbox ::
              exists k :: k in CandsOf(p, batch) && id == Stable(WritesOf(p, batch)[k].id)
                          && outbox[id] == OutboxRow(WAITING, 0, None, None, batch[k].origin)
  {
    WithOutbox(p.outbox, NewOutbox(WritesOf(p, batch), batch, CandsOf(p, batch)))
  }

  ghost function PlainRoomsOf(p: Db, batch: Batch): (rooms: Rooms)
    requires Schema(p) && Accepts(p, batch)
    ensures rooms.Keys == p.rooms.Keys
  {
    WithRooms(p.rooms, WritesOf(p, batch), CandsOf(p, batch), CandsOf(p, batch))
  }

  ghost function PlainCommit(p: Db, batch: Batch): (p': Db)
    requires Schema(p) && Accepts(p, batch)
    ensures Schema(p')
  {
    Db(p.users, PlainRoomsOf(p, batch), PlainWritesOf(p, batch), PlainMessagesOf(p, batch), PlainOutboxOf(p, batch))
  }
}
