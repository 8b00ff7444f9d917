/**
 * Fanout never changes what is stored or acknowledged. With fanout's progress
 * erased (outbox rows as they were inserted, fanned-out writes as persisted
 * ones) commits, dead letters and whole batches do the same on tables whose
 * rows have been fanned out as on tables where nothing has.
 */
module FanoutErasure {
  import opened Prelude
  import opened Ranking
  import opened Store
  import opened Invariant
  import opened Refinement
  import opened PlainCommits
  import opened Steps
  import opened BatchSplit
  import opened BatchHandling
  import opened Transparency
  import opened Commuting
  import opened Effects

  function UnfannedWrite(w: WriteRow): WriteRow {
    if w.status == FANOUTED then w.(status := PERSISTED) else w
  }

  function UnfannedWrites(writes: Writes): (r: Writes)
    ensures r.Keys == writes.Keys && forall k | k in writes :: r[k] == UnfannedWrite(writes[k])
  {
    map k | k in writes :: UnfannedWrite(writes[k])
  }

  function UnfannedOutbox(outbox: Outbox): (r: Outbox)
    ensures r.Keys == outbox.Keys && forall id | id in outbox :: r[id] == OutboxRow(WAITING, 0, None, None, outbox[id].origin)
  {
    map id | id in outbox :: OutboxRow(WAITING, 0, None, None, outbox[id].origin)
  }

  /** The tables as if nothing had ever been claimed or fanned out. */
  ghost function Unfanned(db: Db): Db {
    db.(writes := UnfannedWrites(db.writes), outbox := UnfannedOutbox(db.outbox))
  }

  lemma UnfannedLinks(db: Db)
    requires Linked(db)
    ensures Linked(Unfanned(db))
  {
    var u := Unfanned(db);
    forall id | id in u.messages
      ensures Placed(u, id) && (id.Stable? ==> Backed(u, id))
    {
      assert Placed(db, id);
      assert id.Stable? ==> Backed(db, id);
    }
    forall k | k in u.writes
      ensures Settled(u, k)
    {
      assert Settled(db, k);
    }
    forall id | id in u.outbox
      ensures Queued(u, id)
    {
      assert Queued(db, id);
    }
  }

  lemma UnfannedIsSound(db: Db)
    requires Inv(db)
    ensures Inv(Unfanned(db)) && Schema(Unfanned(db)) && Schema(db)
  {
    UnfannedLinks(db);
    SequenceOnly(db, Unfanned(db));
  }

  /** The same, for sound tables. */
  ghost function Erasure(db: Db): (u: Db)
    requires Inv(db)
    ensures Inv(u) && u == Unfanned(db)
  {
    UnfannedIsSound(db);
    Unfanned(db)
  }

  // ---- a commit

  lemma SameAcceptance(db: Db, batch: Batch)
    ensures Accepts(Unfanned(db), batch) <==> Accepts(db, batch)
    ensures Insertable(Unfanned(db), batch) <==> Insertable(db, batch)
  {
    var u := Unfanned(db);
    assert Insertable(u, batch) <==> Insertable(db, batch);
    forall k | k in batch
      ensures Matches(WithInserted(u.writes, batch)[k], batch[k]) <==> Matches(WithInserted(db.writes, batch)[k], batch[k])
    {
    }
  }

  lemma SameInserted(writes: Writes, batch: Batch)
    ensures WithInserted(UnfannedWrites(writes), batch) == UnfannedWrites(WithInserted(writes, batch))
  {
  }

  lemma SameCandidates(messages: Messages, writes: Writes, batch: Batch)
    requires batch.Keys <= writes.Keys
    ensures Candidates(messages, UnfannedWrites(writes), batch) == Candidates(messages, writes, batch)
  {
    hide HasMessage;
  }

  lemma SameWorkingSets(db: Db, batch: Batch)
    requires Schema(db) && Schema(Unfanned(db)) && Accepts(db, batch) && Accepts(Unfanned(db), batch)
    ensures WritesOf(Unfanned(db), batch) == UnfannedWrites(WritesOf(db, batch))
    ensures CandsOf(Unfanned(db), batch) == CandsOf(db, batch)
  {
    hide Schema, Accepts, Candidates, WithInserted, UnfannedWrites;
    SameInserted(db.writes, batch);
    SameCandidates(db.messages, WritesOf(db, batch), batch);
  }

  /** Rows about to get a message are pending, so erasing fanout leaves them alone. */
  lemma SamePending(db: Db, batch: Batch)
    requires Inv(db) && Schema(db) && Accepts(db, batch)
    ensures forall k | k in CandsOf(db, batch) :: UnfannedWrites(WritesOf(db, batch))[k] == WritesOf(db, batch)[k]
  {
    forall k | k in CandsOf(db, batch)
      ensures UnfannedWrites(WritesOf(db, batch))[k] == WritesOf(db, batch)[k]
    {
      CandidateWasPending(db, batch, k);
    }
  }

  lemma WindowCongruent(v: Writes, w: Writes, keys: set<Key>, r: string)
    requires keys <= v.Keys && keys <= w.Keys && forall k | k in keys :: v[k] == w[k]
    ensures Window(v, keys, r) == Window(w, keys, r)
  {
  }

  lemma NewMessagesCongruent(rooms: Rooms, v: Writes, w: Writes, cands: set<Key>)
    requires UniqueWriteIds(v) && UniqueWriteIds(w) && cands <= v.Keys && cands <= w.Keys
    requires (forall k | k in cands :: v[k] == w[k]) && forall k | k in cands :: w[k].roomId in rooms
    ensures NewMessages(rooms, v, cands, cands) == NewMessages(rooms, w, cands, cands)
  {
    hide Window, Rank, UniqueWriteIds;
    forall k | k in cands
      ensures RowFor(v, k, AllocatedSeq(rooms, v, cands, k)) == RowFor(w, k, AllocatedSeq(rooms, w, cands, k))
    {
      WindowCongruent(v, w, cands, w[k].roomId);
    }
    hide RowFor, AllocatedSeq;
  }

  lemma SameOutboxAfter(outbox: Outbox, added: Outbox)
    requires forall id | id in added :: added[id] == OutboxRow(WAITING, 0, None, None, added[id].origin)
    ensures WithOutbox(UnfannedOutbox(outbox), added) == UnfannedOutbox(WithOutbox(outbox, added))
  {
  }

  lemma AddedAreWaiting(writes: Writes, batch: Batch, keys: set<Key>)
    requires UniqueWriteIds(writes) && keys <= batch.Keys <= writes.Keys
    ensures
      var added := NewOutbox(writes, batch, keys);
      forall id | id in added :: added[id] == OutboxRow(WAITING, 0, None, None, added[id].origin)
  {
  }

  /** A fanned-out write already carries its message's time, so persisting it again would change nothing. */
  lemma SameStatuses(messages: Messages, batch: Batch, writes: Writes)
    requires forall k | k in writes && writes[k].status == FANOUTED && KeyTaken(messages, k) ::
               writes[k].persistedAt == Some(messages[MessageOf(messages, k)].createdAt)
    ensures PlainStatuses(messages, batch, UnfannedWrites(writes)) == UnfannedWrites(PlainStatuses(messages, batch, writes))
  {
  }

  lemma FannedOutIsTimed(db: Db, batch: Batch, k: Key)
    requires Inv(db) && Schema(db) && Accepts(db, batch) && k in WritesOf(db, batch) && WritesOf(db, batch)[k].status == FANOUTED
    ensures
      var plain := EraseRows(MessagesOf(db, batch));
      KeyTaken(plain, k) ==> WritesOf(db, batch)[k].persistedAt == Some(plain[MessageOf(plain, k)].createdAt)
  {
    var messages := MessagesOf(db, batch);
    var plain := EraseRows(messages);
    assert k in db.writes && Settled(db, k);
    InsertKeepsUnique(db, batch);
    EraseKeepsKeys(messages);
    hide Inv, Schema, Accepts, CandsOf, MessagesOf;
    var id :| id in db.messages && HasKey(db.messages[id], k) && db.writes[k].persistedAt == Some(db.messages[id].createdAt);
    assert id in plain && HasKey(plain[id], k);
    assert KeyTaken(plain, k) ==> HasKey(plain[MessageOf(plain, k)], k);
  }

  lemma MessagesShape(db: Db, batch: Batch)
    requires Schema(db) && Accepts(db, batch)
    ensures MessagesOf(db, batch) == db.messages + NewMessages(db.rooms, WritesOf(db, batch), CandsOf(db, batch), CandsOf(db, batch))
  {
    hide Accepts, WritesOf, CandsOf, NewMessages;
  }

  lemma SameMessages(db: Db, batch: Batch)
    requires Inv(db) && Schema(db) && Schema(Unfanned(db)) && Accepts(db, batch) && Accepts(Unfanned(db), batch)
    ensures MessagesOf(Unfanned(db), batch) == MessagesOf(db, batch)
  {
    SameWorkingSets(db, batch);
    SamePending(db, batch);
    assert UniqueWriteIds(WritesOf(db, batch)) && UniqueWriteIds(WritesOf(Unfanned(db), batch));
    hide Inv, Schema, UniqueWriteIds, Accepts, WritesOf, CandsOf, MessagesOf, NewMessages, UnfannedWrites;
    MessagesShape(db, batch);
    MessagesShape(Unfanned(db), batch);
    NewMessagesCongruent(db.rooms, WritesOf(Unfanned(db), batch), WritesOf(db, batch), CandsOf(db, batch));
  }

  lemma SameRooms(db: Db, batch: Batch)
    requires Inv(db) && Schema(db) && Schema(Unfanned(db)) && Accepts(db, batch) && Accepts(Unfanned(db), batch)
    ensures
      var u := Unfanned(db);
      WithRooms(u.rooms, WritesOf(u, batch), CandsOf(u, batch), CandsOf(u, batch))
      == WithRooms(db.rooms, WritesOf(db, batch), CandsOf(db, batch), CandsOf(db, batch))
  {
    SameWorkingSets(db, batch);
    SamePending(db, batch);
    hide Inv, Schema, Accepts, WritesOf, CandsOf, WithRooms, UnfannedWrites;
    RoomsCongruent(db.rooms, WritesOf(Unfanned(db), batch), WritesOf(db, batch), CandsOf(db, batch));
  }

  lemma SameQueue(db: Db, batch: Batch)
    requires Inv(db) && Schema(db) && Schema(Unfanned(db)) && Accepts(db, batch) && Accepts(Unfanned(db), batch)
    ensures
      var u := Unfanned(db);
      WithOutbox(u.outbox, NewOutbox(WritesOf(u, batch), batch, CandsOf(u, batch)))
      == UnfannedOutbox(WithOutbox(db.outbox, NewOutbox(WritesOf(db, batch), batch, CandsOf(db, batch))))
  {
    SameWorkingSets(db, batch);
    SamePending(db, batch);
    assert UniqueWriteIds(WritesOf(db, batch)) && UniqueWriteIds(WritesOf(Unfanned(db), batch));
    hide Inv, Schema, UniqueWriteIds, Accepts, WritesOf, CandsOf, NewOutbox, WithOutbox, UnfannedWrites, UnfannedOutbox;
    OutboxCongruent(WritesOf(Unfanned(db), batch), WritesOf(db, batch), batch, batch, CandsOf(db, batch));
    AddedAreWaiting(WritesOf(db, batch), batch, CandsOf(db, batch));
    SameOutboxAfter(db.outbox, NewOutbox(WritesOf(db, batch), batch, CandsOf(db, batch)));
  }

  lemma SameWrites(db: Db, batch: Batch)
    requires Inv(db) && Schema(db) && Schema(Unfanned(db)) && Accepts(db, batch) && Accepts(Unfanned(db), batch)
    ensures
      var u := Unfanned(db);
      PlainStatuses(EraseRows(MessagesOf(u, batch)), batch, WritesOf(u, batch))
      == UnfannedWrites(PlainStatuses(EraseRows(MessagesOf(db, batch)), batch, WritesOf(db, batch)))
  {
    hide Inv, Schema, Accepts, WritesOf, CandsOf, MessagesOf, EraseRows, PlainStatuses, UnfannedWrites;
    SameWorkingSets(db, batch);
    SameMessages(db, batch);
    forall k | k in WritesOf(db, batch) && WritesOf(db, batch)[k].status == FANOUTED
      ensures
        var plain := EraseRows(MessagesOf(db, batch));
        KeyTaken(plain, k) ==> WritesOf(db, batch)[k].persistedAt == Some(plain[MessageOf(plain, k)].createdAt)
    {
      FannedOutIsTimed(db, batch, k);
    }
    SameStatuses(EraseRows(MessagesOf(db, batch)), batch, WritesOf(db, batch));
  }

  lemma SameIds(writes: Writes, keys: set<Key>)
    requires keys <= writes.Keys
    ensures IdsOf(UnfannedWrites(writes), keys) == IdsOf(writes, keys)
  {
  }

  /** A commit does the same with fanout's progress erased. */
  lemma UnfannedCommit(db: Db, batch: Batch)
    requires Inv(db) && Inv(Unfanned(db)) && Schema(db) && Schema(Unfanned(db))
    requires Accepts(db, batch) && Accepts(Unfanned(db), batch)
    ensures
      var c, u := CommitAccepted(db, batch), CommitAccepted(Unfanned(db), batch);
      u == Committed(Unfanned(c.db), c.inserted)
  {
    hide Inv, Schema, Accepts, CommitAccepted, WritesOf, CandsOf, MessagesOf, EraseRows, PlainStatuses, UnfannedWrites, WithRooms,
      NewOutbox, WithOutbox, UnfannedOutbox, IdsOf;
    ShapeOfWrites(db, batch);
    ShapeOfWrites(Unfanned(db), batch);
    ShapeOfRooms(db, batch);
    ShapeOfRooms(Unfanned(db), batch);
    SameWorkingSets(db, batch);
    SameMessages(db, batch);
    SameRooms(db, batch);
    SameQueue(db, batch);
    SameWrites(db, batch);
    SameIds(WritesOf(db, batch), CandsOf(db, batch));
  }

  ghost function UnfannedResult(r: Result<Committed, CommitError>): Result<Committed, CommitError> {
    match r
    case Ok(c) => Ok(Committed(Unfanned(c.db), c.inserted))
    case Err(e) => Err(e)
  }

  lemma UnfannedCommands(db: Db, cmds: seq<Command>)
    requires Inv(db) && Schema(db) && Inv(Unfanned(db)) && Schema(Unfanned(db))
    ensures CommitCommands(Unfanned(db), cmds) == UnfannedResult(CommitCommands(db, cmds))
  {
    hide Inv, Schema, Insertable, AllMatch, CommitAccepted, Unfanned, Dedupe;
    if cmds != [] && Dedupe(cmds).Ok? {
      var batch := Dedupe(cmds).value;
      SameAcceptance(db, batch);
      if Accepts(db, batch) {
        UnfannedCommit(db, batch);
      }
    }
  }

  // ---- whole batches

  lemma UnfannedDeadLetter(db: Db, c: Command)
    requires Schema(db) && Schema(Unfanned(db))
    ensures DeadLetter(Unfanned(db), c) == Unfanned(DeadLetter(db, c))
  {
    DeadLetterExactly(db, c);
    DeadLetterExactly(Unfanned(db), c);
    hide Schema, DeadLetter;
    assert Storable(Unfanned(db), c) <==> Storable(db, c);
    hide Storable;
    var k := Key(c.senderId, c.requestId);
    DeadRowUnfanned(db.writes, k, WriteRow(c.messageId, c.roomId, c.body, c.acceptedAt, DEAD, None));
    if k in db.writes { DeadRowUnfanned(db.writes, k, db.writes[k].(status := DEAD)); }
  }

  lemma DeadRowUnfanned(writes: Writes, k: Key, w: WriteRow)
    requires w.status == DEAD
    ensures UnfannedWrites(writes)[k := w] == UnfannedWrites(writes[k := w])
  {
  }

  ghost function UnfannedOutcome(o: Outcome): Outcome {
    Outcome(Unfanned(o.db), o.settlements)
  }

  lemma UnfannedSettling(db: Db, e: Entry, maxAttempts: nat)
    requires Inv(db) && Inv(Unfanned(db))
    requires CommitCommands(Unfanned(db), [e.command]) == UnfannedResult(CommitCommands(db, [e.command]))
    requires DeadLetter(Unfanned(db), e.command) == Unfanned(DeadLetter(db, e.command))
    ensures HandleOne(Unfanned(db), e, maxAttempts) == UnfannedOutcome(HandleOne(db, e, maxAttempts))
  {
    hide Inv, Linked, Sequenced, CommitCommands, DeadLetter, Unfanned;
  }

  lemma UnfannedOne(db: Db, e: Entry, maxAttempts: nat)
    requires Inv(db)
    ensures Inv(Unfanned(db)) && HandleOne(Unfanned(db), e, maxAttempts) == UnfannedOutcome(HandleOne(db, e, maxAttempts))
  {
    UnfannedIsSound(db);
    hide *;
    UnfannedCommands(db, [e.command]);
    UnfannedDeadLetter(db, e.command);
    UnfannedSettling(db, e, maxAttempts);
  }

  /** Handling a batch acknowledges and stores the same whatever fanout has already done. */
  lemma {:induction false} UnfannedBatch(db: Db, entries: seq<Entry>, maxAttempts: nat)
    requires Inv(db)
    ensures Inv(Unfanned(db)) && HandleBatch(Unfanned(db), entries, maxAttempts) == UnfannedOutcome(HandleBatch(db, entries, maxAttempts))
    decreases |entries|
  {
    UnfannedIsSound(db);
    NothingCommits(db);
    hide Inv, Schema, CommitCommands, Unfanned, HandleOne;
    UnfannedCommands(db, Commands(entries));
    if CommitCommands(db, Commands(entries)).Err? {
      if |entries| > 1 {
        var midpoint := (|entries| + 1) / 2;
        UnfannedBatch(db, entries[..midpoint], maxAttempts);
        UnfannedBatch(HandleBatch(db, entries[..midpoint], maxAttempts).db, entries[midpoint..], maxAttempts);
      } else {
        UnfannedOne(db, entries[0], maxAttempts);
      }
    }
  }
}
