/**
 * The transaction as its callers see it: it keeps the invariant, records every
 * command it accepts, changes nothing the second time, and folds.
 */
module Commits {
  import opened Prelude
  import opened Ranking
  import opened Store
  import opened Invariant
  import opened Refinement
  import opened PlainCommits

  lemma AcceptedKeepsInvariant(db: Db, batch: Batch)
    requires Inv(db) && Accepts(db, batch)
    ensures Inv(CommitAccepted(db, batch).db)
  {
    CommitRefinesPlain(db, batch);
    EraseKeepsLinks(db);
    PlainKeepsLinks(Erase(db), batch);
    EraseKeepsLinks(CommitAccepted(db, batch).db);
    CommitKeepsSequence(db, batch);
  }

  /** Every commit, of any batch, keeps all the invariants of the tables. */
  lemma CommitKeepsInvariant(db: Db, cmds: seq<Command>)
    requires Inv(db)
    ensures CommitCommands(db, cmds).Ok? ==> Inv(CommitCommands(db, cmds).value.db)
  {
    if cmds != [] && Dedupe(cmds).Ok? && Accepts(db, Dedupe(cmds).value) {
      AcceptedKeepsInvariant(db, Dedupe(cmds).value);
    }
  }

  // ---- recorded commands

  /** The command's write row is there, agrees with it, and is no longer pending. */
  ghost predicate Recorded(writes: Writes, c: Command) {
    KeyOf(c) in writes && Matches(writes[KeyOf(c)], c) && writes[KeyOf(c)].status != PENDING
  }

  ghost predicate WellKeyed(batch: Batch) {
    forall k | k in batch :: KeyOf(batch[k]) == k
  }

  lemma {:induction false} DedupeFacts(cmds: seq<Command>)
    requires Dedupe(cmds).Ok?
    ensures WellKeyed(Dedupe(cmds).value)
    ensures forall c | c in cmds :: KeyOf(c) in Dedupe(cmds).value && SameRequestBody(Dedupe(cmds).value[KeyOf(c)], c)
    ensures forall k | k in Dedupe(cmds).value :: Dedupe(cmds).value[k] in cmds
  {
    if cmds != [] {
      var rest, c := cmds[..|cmds| - 1], cmds[|cmds| - 1];
      DedupeFacts(rest);
      assert cmds == rest + [c];
      var before, after := Dedupe(rest).value, Dedupe(cmds).value;
      assert after == if KeyOf(c) in before then before else before[KeyOf(c) := c];
      hide Dedupe;
      forall d | d in cmds
        ensures KeyOf(d) in after && SameRequestBody(after[KeyOf(d)], d)
      {
        assert d in rest || d == c;
      }
    }
  }

  lemma OwnIdIsOwnKey(p: Db, batch: Batch, k: Key)
    requires Linked(p) && Accepts(p, batch) && k in batch
    requires Stable(WritesOf(p, batch)[k].id) in p.messages
    ensures KeyTaken(p.messages, k)
  {
    var id := Stable(WritesOf(p, batch)[k].id);
    assert Backed(p, id);
    var j := Key(p.messages[id].senderId, p.messages[id].requestId.value);
    assert WritesOf(p, batch)[j].id == id.rank;
    assert j == k && HasKey(p.messages[id], k);
  }

  lemma LiveKeyIsTaken(p: Db, batch: Batch, k: Key)
    requires Linked(p) && Accepts(p, batch) && k in batch && WritesOf(p, batch)[k].status != DEAD
    ensures KeyTaken(PlainMessagesOf(p, batch), k)
  {
    KeysAfter(p, batch, k);
    if k !in CandsOf(p, batch) && !KeyTaken(p.messages, k) {
      OwnIdIsOwnKey(p, batch, k);
    }
  }

  lemma TakenIsNotPending(messages: Messages, batch: Batch, writes: Writes, k: Key)
    requires k in batch && k in writes && (writes[k].status != DEAD ==> KeyTaken(messages, k))
    ensures PlainStatus(messages, batch, writes, k).status != PENDING
    ensures SameWrite(PlainStatus(messages, batch, writes, k), writes[k])
  {
  }

  /** After a plain commit no write of the batch is pending. */
  lemma PlainRecords(p: Db, batch: Batch, k: Key)
    requires Linked(p) && Accepts(p, batch) && k in batch && KeyOf(batch[k]) == k
    ensures Recorded(PlainWritesOf(p, batch), batch[k])
  {
    if WritesOf(p, batch)[k].status != DEAD {
      LiveKeyIsTaken(p, batch, k);
    }
    TakenIsNotPending(PlainMessagesOf(p, batch), batch, WritesOf(p, batch), k);
    assert Matches(WritesOf(p, batch)[k], batch[k]);
  }

  lemma AcceptedRecords(db: Db, batch: Batch)
    requires Inv(db) && Accepts(db, batch) && WellKeyed(batch)
    ensures forall k | k in batch :: Recorded(CommitAccepted(db, batch).db.writes, batch[k])
  {
    CommitRefinesPlain(db, batch);
    EraseKeepsLinks(db);
    forall k | k in batch
      ensures Recorded(PlainCommit(Erase(db), batch).writes, batch[k])
    {
      PlainRecords(Erase(db), batch, k);
    }
  }

  /** A commit leaves every command of the batch recorded: DEAD before, or persisted. */
  lemma CommitRecords(db: Db, cmds: seq<Command>)
    requires Inv(db) && CommitCommands(db, cmds).Ok?
    ensures forall c | c in cmds :: Recorded(CommitCommands(db, cmds).value.db.writes, c)
  {
    if cmds != [] {
      DedupeFacts(cmds);
      AcceptedRecords(db, Dedupe(cmds).value);
    }
  }

  // ---- idempotence

  ghost predicate AllRecorded(db: Db, batch: Batch) {
    WellKeyed(batch) && forall k | k in batch :: Recorded(db.writes, batch[k])
  }

  lemma RecordedHasNoCandidates(db: Db, batch: Batch)
    requires Linked(db) && AllRecorded(db, batch)
    ensures Accepts(db, batch)
    ensures WithInserted(db.writes, batch) == db.writes
    ensures CandsOf(db, batch) == {}
  {
    assert forall k | k in batch :: k in db.writes;
    forall k | k in batch
      ensures k !in CandsOf(db, batch)
    {
      if db.writes[k].status != DEAD {
        PersistedIsTaken(db, k);
      }
    }
  }

  lemma PersistAgain(db: Db, k: Key)
    requires Linked(db) && k in db.writes && db.writes[k].status != PENDING && KeyTaken(db.messages, k)
    ensures Persist(db.writes[k], db.messages[MessageOf(db.messages, k)].createdAt) == db.writes[k]
  {
    assert Settled(db, k);
  }

  lemma NoRoomTouched(rooms: Rooms, writes: Writes)
    ensures WithRooms(rooms, writes, {}, {}) == rooms
  {
    forall r | r in rooms
      ensures WithRooms(rooms, writes, {}, {})[r] == rooms[r]
    {
      assert Window(writes, {}, r) == {} && Times(writes, {}, r) == {};
    }
  }

  lemma NoRowQueued(outbox: Outbox, writes: Writes, batch: Batch)
    requires UniqueWriteIds(writes) && batch.Keys <= writes.Keys
    ensures WithOutbox(outbox, NewOutbox(writes, batch, {})) == outbox
  {
    assert NewOutbox(writes, batch, {}) == map[];
  }

  lemma StatusesSettled(db: Db, batch: Batch)
    requires Linked(db) && AllRecorded(db, batch)
    ensures PlainStatuses(db.messages, batch, db.writes) == db.writes
  {
    forall k | k in db.writes
      ensures PlainStatus(db.messages, batch, db.writes, k) == db.writes[k]
    {
      if k in batch && KeyTaken(db.messages, k) {
        PersistAgain(db, k);
      }
    }
  }

  lemma RoomsUntouched(db: Db, batch: Batch)
    requires Schema(db) && Accepts(db, batch) && CandsOf(db, batch) == {}
    ensures PlainRoomsOf(db, batch) == db.rooms
  {
    NoRoomTouched(db.rooms, WritesOf(db, batch));
  }

  lemma OutboxUntouched(db: Db, batch: Batch)
    requires Schema(db) && Accepts(db, batch) && CandsOf(db, batch) == {}
    ensures PlainOutboxOf(db, batch) == db.outbox
  {
    NoRowQueued(db.outbox, WritesOf(db, batch), batch);
  }

  lemma MessagesUntouched(db: Db, batch: Batch)
    requires Schema(db) && Accepts(db, batch) && CandsOf(db, batch) == {}
    ensures MessagesOf(db, batch) == db.messages
  {
    assert NewMessages(db.rooms, WritesOf(db, batch), {}, {}) == map[];
  }

  lemma AcceptedIdempotent(db: Db, batch: Batch)
    requires Inv(db) && AllRecorded(db, batch)
    ensures Accepts(db, batch) && CommitAccepted(db, batch) == Committed(db, {})
  {
    RecordedHasNoCandidates(db, batch);
    RoomsUntouched(db, batch);
    OutboxUntouched(db, batch);
    MessagesUntouched(db, batch);
    CommitShape(db, batch);
    EraseKeepsLinks(db);
    StatusesSettled(Erase(db), batch);
  }

  lemma SameBodySameRecord(writes: Writes, a: Command, b: Command)
    requires KeyOf(a) == KeyOf(b) && SameRequestBody(a, b)
    ensures Recorded(writes, a) <==> Recorded(writes, b)
  {
  }

  /** Recorded commands never conflict with each other: they all match one row per key. */
  lemma {:induction false} RecordedDedupes(writes: Writes, cmds: seq<Command>)
    requires forall c | c in cmds :: Recorded(writes, c)
    ensures Dedupe(cmds).Ok?
  {
    if cmds != [] {
      var rest, c := cmds[..|cmds| - 1], cmds[|cmds| - 1];
      assert forall d | d in rest :: d in cmds;
      RecordedDedupes(writes, rest);
      DedupeFacts(rest);
      if KeyOf(c) in Dedupe(rest).value {
        assert Recorded(writes, Dedupe(rest).value[KeyOf(c)]) && Recorded(writes, c);
      }
    }
  }

  /**
   * Re-running recorded commands, in any order and combination, changes no
   * table and returns no messages, whatever their statuses have become since.
   */
  lemma CommitIdempotent(db: Db, cmds: seq<Command>)
    requires Inv(db) && forall c | c in cmds :: Recorded(db.writes, c)
    ensures CommitCommands(db, cmds) == Ok(Committed(db, {}))
  {
    if cmds != [] {
      RecordedDedupes(db.writes, cmds);
      DedupeFacts(cmds);
      AcceptedIdempotent(db, Dedupe(cmds).value);
    }
  }
}
