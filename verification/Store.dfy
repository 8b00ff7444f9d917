/**
 * The four tables a message passes through, and the transaction that turns a
 * batch of buffered commands into rows: deduplicate, insert the missing write
 * rows, reject mismatches, number and insert the messages, enqueue the outbox
 * rows, move the write statuses, and bump each room.
 */
module Store {
  import opened Prelude
  import opened Ranking

  datatype Key = Key(senderId: string, requestId: string)

  /** A decoded queue entry. `messageId` is the rank of the stable id it carries. */
  datatype Command = Command(
    messageId: nat,
    requestId: string,
    senderId: string,
    roomId: string,
    body: string,
    acceptedAt: int,
    origin: Option<string>
  )

  datatype RoomRow = RoomRow(nextMessageSeq: int, lastMessageAt: int)

  datatype WriteStatus = PENDING | PERSISTED | FANOUTED | DEAD

  /** A row of MessageWrite; the table is keyed by its unique (sender, request) index. */
  datatype WriteRow = WriteRow(
    id: nat,
    roomId: string,
    content: string,
    acceptedAt: int,
    status: WriteStatus,
    persistedAt: Option<int>
  )

  datatype MessageRow = MessageRow(
    content: string,
    createdAt: int,
    senderId: string,
    requestId: Option<string>,
    roomId: string,
    roomSequence: int
  )

  datatype OutboxStatus = WAITING | PUBLISHING | PUBLISHED | FAILED

  /** A row of MessageOutbox. The event type is constant, so the table is keyed by message id. */
  datatype OutboxRow = OutboxRow(
    status: OutboxStatus,
    attempts: nat,
    nextAttemptAt: Option<int>,
    lockedAt: Option<int>,
    origin: Option<string>
  )

  type Rooms = map<string, RoomRow>
  type Writes = map<Key, WriteRow>
  type Messages = map<MessageId, MessageRow>
  type Outbox = map<MessageId, OutboxRow>

  datatype Db = Db(
    users: set<string>,
    rooms: Rooms,
    writes: Writes,
    messages: Messages,
    outbox: Outbox
  )

  /** Commands with distinct keys, as left by deduplication. */
  type Batch = map<Key, Command>

  datatype CommitError = ConflictingCommands | ConstraintViolation | MismatchedRequest

  datatype Committed = Committed(db: Db, inserted: set<MessageId>)

  function KeyOf(c: Command): Key {
    Key(c.senderId, c.requestId)
  }

  /** The fields two commands, or a command and its write row, must agree on. */
  predicate SameRequestBody(a: Command, b: Command) {
    a.messageId == b.messageId && a.roomId == b.roomId && a.body == b.body
  }

  predicate Matches(w: WriteRow, c: Command) {
    w.id == c.messageId && w.roomId == c.roomId && w.content == c.body
  }

  // ---- constraints the schema enforces

  ghost predicate UniqueWriteIds(writes: Writes) {
    forall j, k | j in writes && k in writes && writes[j].id == writes[k].id :: j == k
  }

  ghost predicate Schema(db: Db) {
    && UniqueWriteIds(db.writes)
    && forall k | k in db.writes :: db.writes[k].roomId in db.rooms && k.senderId in db.users
  }

  // ---- deduplication

  /** The first command of each key; an error when a later one disagrees with it. */
  function Dedupe(cmds: seq<Command>): Result<Batch, CommitError> {
    if cmds == [] then Ok(map[]) else
      match Dedupe(cmds[..|cmds| - 1])
      case Err(e) => Err(e)
      case Ok(batch) =>
        var c := cmds[|cmds| - 1];
        if KeyOf(c) !in batch then Ok(batch[KeyOf(c) := c])
        else if SameRequestBody(batch[KeyOf(c)], c) then Ok(batch)
        else Err(ConflictingCommands)
  }

  // ---- the write rows

  function PendingRow(c: Command): WriteRow {
    WriteRow(c.messageId, c.roomId, c.body, c.acceptedAt, PENDING, None)
  }

  /** INSERT ... ON CONFLICT (sender, request) DO NOTHING, once no constraint objects. */
  function WithInserted(writes: Writes, batch: Batch): Writes {
    map k | k in writes.Keys + batch.Keys :: if k in writes then writes[k] else PendingRow(batch[k])
  }

  /** The rooms and senders of the rows to insert exist. */
  predicate ForeignKeysHold(db: Db, batch: Batch) {
    forall k | k in batch && k !in db.writes :: batch[k].roomId in db.rooms && k.senderId in db.users
  }

  /** Their ids are not taken by stored rows ... */
  predicate IdsFree(writes: Writes, batch: Batch) {
    forall j, k | j in writes && k in batch && k !in writes :: writes[j].id != batch[k].messageId
  }

  /** ... nor by each other. */
  predicate IdsDistinct(writes: Writes, batch: Batch) {
    forall j, k | j in batch && k in batch && j !in writes && k !in writes && j != k :: batch[j].messageId != batch[k].messageId
  }

  /** Foreign keys and the primary key, for the rows that are really inserted. */
  predicate Insertable(db: Db, batch: Batch) {
    ForeignKeysHold(db, batch) && IdsFree(db.writes, batch) && IdsDistinct(db.writes, batch)
  }

  predicate AllMatch(writes: Writes, batch: Batch) {
    forall k | k in batch :: k in writes && Matches(writes[k], batch[k])
  }

  predicate Accepts(db: Db, batch: Batch) {
    Insertable(db, batch) && AllMatch(WithInserted(db.writes, batch), batch)
  }

  lemma InsertedSchema(db: Db, batch: Batch)
    requires Schema(db) && Insertable(db, batch)
    ensures Schema(db.(writes := WithInserted(db.writes, batch)))
  {
  }

  // ---- the messages

  predicate HasKey(m: MessageRow, k: Key) {
    m.senderId == k.senderId && m.requestId == Some(k.requestId)
  }

  predicate KeyTaken(messages: Messages, k: Key) {
    exists id :: id in messages && HasKey(messages[id], k)
  }

  predicate HasMessage(messages: Messages, k: Key, id: nat) {
    Stable(id) in messages || KeyTaken(messages, k)
  }

  /** Write rows of the batch that are not DEAD and have no message yet. */
  function Candidates(messages: Messages, writes: Writes, batch: Batch): set<Key>
    requires batch.Keys <= writes.Keys
  {
    set k | k in batch && writes[k].status != DEAD && !HasMessage(messages, k, writes[k].id)
  }

  function StampOf(w: WriteRow): Stamp {
    Stamp(w.acceptedAt, Stable(w.id))
  }

  /** The candidates of one room: the window ROW_NUMBER and COUNT range over. */
  function Window(writes: Writes, keys: set<Key>, roomId: string): set<Stamp>
    requires keys <= writes.Keys
  {
    set k | k in keys && writes[k].roomId == roomId :: StampOf(writes[k])
  }

  /** The message of write row `k`, at position `number` of its room. */
  function RowFor(writes: Writes, k: Key, number: int): MessageRow
    requires k in writes
  {
    MessageRow(writes[k].content, writes[k].acceptedAt, k.senderId, Some(k.requestId), writes[k].roomId, number)
  }

  function AllocatedSeq(rooms: Rooms, writes: Writes, cands: set<Key>, k: Key): int
    requires cands <= writes.Keys && k in writes && writes[k].roomId in rooms
  {
    rooms[writes[k].roomId].nextMessageSeq + Rank(Window(writes, cands, writes[k].roomId), StampOf(writes[k]))
  }

  /** What the unique indexes of Message make ON CONFLICT DO NOTHING skip. */
  predicate Conflicts(messages: Messages, id: MessageId, row: MessageRow) {
    || id in messages
    || (exists o :: o in messages && messages[o].roomId == row.roomId && messages[o].roomSequence == row.roomSequence)
    || (exists o :: o in messages && messages[o].senderId == row.senderId
                    && messages[o].requestId == row.requestId && row.requestId.Some?)
  }

  function Inserted(db: Db, writes: Writes, cands: set<Key>): set<Key>
    requires cands <= writes.Keys
    requires forall k | k in cands :: writes[k].roomId in db.rooms
  {
    set k | k in cands && !Conflicts(db.messages, Stable(writes[k].id),
                                     RowFor(writes, k, AllocatedSeq(db.rooms, writes, cands, k)))
  }

  function NewMessages(rooms: Rooms, writes: Writes, cands: set<Key>, keys: set<Key>): Messages
    requires UniqueWriteIds(writes) && keys <= cands <= writes.Keys
    requires forall k | k in cands :: writes[k].roomId in rooms
  {
    map k | k in keys :: Stable(writes[k].id) := RowFor(writes, k, AllocatedSeq(rooms, writes, cands, k))
  }

  // ---- outbox, statuses, rooms

  function NewOutbox(writes: Writes, batch: Batch, keys: set<Key>): Outbox
    requires UniqueWriteIds(writes) && keys <= batch.Keys <= writes.Keys
  {
    map k | k in keys :: Stable(writes[k].id) := OutboxRow(WAITING, 0, None, None, batch[k].origin)
  }

  /** ON CONFLICT (event, message) DO NOTHING: rows already there win. */
  function WithOutbox(outbox: Outbox, added: Outbox): Outbox {
    added + outbox
  }

  /** Messages the batch joins, by id or by (sender, request). */
  function Joined(messages: Messages, writes: Writes, batch: Batch): set<MessageId>
    requires batch.Keys <= writes.Keys
  {
    set id | id in messages && exists k :: k in batch && (id == Stable(writes[k].id) || HasKey(messages[id], k))
  }

  lemma {:induction false} FirstIdExists(ids: set<MessageId>)
    requires ids != {}
    ensures exists id :: id in ids && forall o | o in ids && o != id :: IdBefore(id, o)
  {
    var x := Pick(ids);
    if ids == {x} {
      assert x in ids;
    } else {
      FirstIdExists(ids - {x});
      var y :| y in ids - {x} && forall o | o in ids - {x} && o != y :: IdBefore(y, o);
      var id := if IdBefore(x, y) then x else y;
      assert id in ids;
      forall o | o in ids && o != id
        ensures IdBefore(id, o)
      {
        assert o == x || o in ids - {x};
      }
    }
  }

  /** The message with a key; the first by id, though the unique index leaves no choice. */
  function MessageOf(messages: Messages, k: Key): (id: MessageId)
    requires KeyTaken(messages, k)
    ensures id in messages && HasKey(messages[id], k)
  {
    var ids := set id | id in messages && HasKey(messages[id], k);
    assert ids != {} by {
      var id :| id in messages && HasKey(messages[id], k);
      assert id in ids;
    }
    FirstIdExists(ids);
    var id :| id in ids && forall o | o in ids && o != id :: IdBefore(id, o);
    id
  }

  function Persist(w: WriteRow, at: int): WriteRow {
    if w.status == DEAD || w.status == FANOUTED then w
    else w.(status := PERSISTED, persistedAt := Some(at))
  }

  /** The same write, at most persisted in between. */
  predicate SameWrite(after: WriteRow, before: WriteRow) {
    && after.id == before.id && after.roomId == before.roomId
    && after.content == before.content && after.acceptedAt == before.acceptedAt
    && (after.status == before.status || (before.status == PENDING && after.status == PERSISTED))
    && (before.status == DEAD || before.status == FANOUTED ==> after == before)
  }

  function Restrict(messages: Messages, ids: set<MessageId>): Messages {
    map id | id in messages && id in ids :: messages[id]
  }

  /** UPDATE MessageWrite ... FROM all_messages. */
  function WithStatuses(messages: Messages, writes: Writes, joined: set<MessageId>): (after: Writes)
    ensures after.Keys == writes.Keys
    ensures forall k | k in after :: SameWrite(after[k], writes[k])
  {
    map k | k in writes ::
      if KeyTaken(Restrict(messages, joined), k)
      then Persist(writes[k], messages[MessageOf(Restrict(messages, joined), k)].createdAt)
      else writes[k]
  }

  function Times(writes: Writes, keys: set<Key>, roomId: string): set<int>
    requires keys <= writes.Keys
  {
    set k | k in keys && writes[k].roomId == roomId :: writes[k].acceptedAt
  }

  function RoomAfter(row: RoomRow, count: nat, times: set<int>): RoomRow {
    RoomRow(row.nextMessageSeq + count, MaxOf({row.lastMessageAt} + times))
  }

  /** Sequence allocation for the candidates, then GREATEST over what was inserted. */
  function WithRooms(rooms: Rooms, writes: Writes, cands: set<Key>, inserted: set<Key>): Rooms
    requires cands <= writes.Keys && inserted <= writes.Keys
  {
    map r | r in rooms :: RoomAfter(rooms[r], |Window(writes, cands, r)|, Times(writes, inserted, r))
  }

  // ---- the transaction

  /** Rooms once the candidates' numbers are allocated. */
  function Numbered(rooms: Rooms, writes: Writes, cands: set<Key>): Rooms
    requires cands <= writes.Keys
  {
    map r | r in rooms :: RoomAfter(rooms[r], |Window(writes, cands, r)|, {})
  }

  function IdsOf(writes: Writes, keys: set<Key>): set<MessageId>
    requires keys <= writes.Keys
  {
    set k | k in keys :: Stable(writes[k].id)
  }

  /**
   * The one statement, a chain of WITH clauses over one snapshot, that numbers
   * and inserts the messages, enqueues the outbox rows and moves the statuses
   * of a batch whose write rows are in place.
   */
  function PersistStatement(db: Db, batch: Batch): Committed
    requires Schema(db) && batch.Keys <= db.writes.Keys
  {
    var cands := Candidates(db.messages, db.writes, batch);
    var inserted := Inserted(db, db.writes, cands);
    var messages := db.messages + NewMessages(db.rooms, db.writes, cands, inserted);
    Committed(
      Db(db.users,
         Numbered(db.rooms, db.writes, cands),
         WithStatuses(messages, db.writes, Joined(messages, db.writes, batch)),
         messages,
         WithOutbox(db.outbox, NewOutbox(db.writes, batch, inserted))),
      IdsOf(db.writes, inserted))
  }

  /** The working sets of one accepted batch. */
  ghost function WritesOf(db: Db, batch: Batch): (writes: Writes)
    requires Schema(db) && Accepts(db, batch)
    ensures Schema(db.(writes := writes))
    ensures writes.Keys == db.writes.Keys + batch.Keys
    ensures forall k | k in db.writes :: writes[k] == db.writes[k]
    ensures forall k | k in batch && k !in db.writes :: writes[k] == PendingRow(batch[k])
  {
    InsertedSchema(db, batch);
    WithInserted(db.writes, batch)
  }

  ghost function CandsOf(db: Db, batch: Batch): (cands: set<Key>)
    requires Schema(db) && Accepts(db, batch)
    ensures cands <= batch.Keys
    ensures forall k | k in cands :: !KeyTaken(db.messages, k) && Stable(WritesOf(db, batch)[k].id) !in db.messages
  {
    Candidates(db.messages, WritesOf(db, batch), batch)
  }

  ghost function CommitAccepted(db: Db, batch: Batch): (c: Committed)
    requires Schema(db) && Accepts(db, batch)
    ensures Schema(c.db)
  {
    var writes, cands := WritesOf(db, batch), CandsOf(db, batch);
    var inserted := Inserted(db, writes, cands);
    var messages := db.messages + NewMessages(db.rooms, writes, cands, inserted);
    Committed(
      Db(db.users,
         WithRooms(db.rooms, writes, cands, inserted),
         WithStatuses(messages, writes, Joined(messages, writes, batch)),
         messages,
         WithOutbox(db.outbox, NewOutbox(writes, batch, inserted))),
      IdsOf(writes, inserted))
  }

  /** Messages once the candidates are inserted. */
  ghost function MessagesOf(db: Db, batch: Batch): (messages: Messages)
    requires Schema(db) && Accepts(db, batch)
    ensures forall id | id in db.messages :: id in messages && messages[id] == db.messages[id]
    ensures forall k | k in CandsOf(db, batch) :: Stable(WritesOf(db, batch)[k].id) in messages
    ensures forall id | id in messages && id !in db.messages ::
              exists k :: k in CandsOf(db, batch) && id == Stable(WritesOf(db, batch)[k].id)
    ensures forall k | k in CandsOf(db, batch) ::
              messages[Stable(WritesOf(db, batch)[k].id)]
              == RowFor(WritesOf(db, batch), k, AllocatedSeq(db.rooms, WritesOf(db, batch), CandsOf(db, batch), k))
  {
    db.messages + NewMessages(db.rooms, WritesOf(db, batch), CandsOf(db, batch), CandsOf(db, batch))
  }

  ghost function CommitBatch(db: Db, batch: Batch): (r: Result<Committed, CommitError>)
    requires Schema(db)
    ensures r.Ok? ==> Schema(r.value.db)
  {
    if !Insertable(db, batch) then Err(ConstraintViolation)
    else if !AllMatch(WithInserted(db.writes, batch), batch) then Err(MismatchedRequest)
    else Ok(CommitAccepted(db, batch))
  }

  ghost function CommitCommands(db: Db, cmds: seq<Command>): (r: Result<Committed, CommitError>)
    requires Schema(db)
    ensures r.Ok? ==> Schema(r.value.db)
  {
    if cmds == [] then Ok(Committed(db, {}))
    else
      match Dedupe(cmds)
      case Err(e) => Err(e)
      case Ok(batch) => CommitBatch(db, batch)
  }
}
