/**
 * What each operation on the tables does, column by column: which rows a commit
 * adds and with what in them, which rows it leaves alone, and when it is
 * rejected; and the same for dead letters.
 */
module Effects {
  import opened Prelude
  import opened Ranking
  import opened Store
  import opened Invariant
  import opened Refinement
  import opened PlainCommits
  import opened Commits
  import opened Steps
  import opened BatchHandling

  // ---- one command per request

  predicate SameRequest(c: Command, d: Command) {
    c.senderId == d.senderId && c.requestId == d.requestId
  }

  /** One request, two different messages. */
  predicate Clash(c: Command, d: Command) {
    SameRequest(c, d) && !(c.messageId == d.messageId && c.roomId == d.roomId && c.body == d.body)
  }

  ghost predicate HasClash(cmds: seq<Command>) {
    exists c, d :: c in cmds && d in cmds && Clash(c, d)
  }

  predicate FirstOfRequest(cmds: seq<Command>, i: nat)
    requires i < |cmds|
  {
    forall j | 0 <= j < i :: !SameRequest(cmds[j], cmds[i])
  }

  /** Deduplication fails exactly when two commands of one request differ in id, room or body. */
  lemma {:induction false} DedupeFailsExactly(cmds: seq<Command>)
    ensures Dedupe(cmds).Err? <==> HasClash(cmds)
    ensures Dedupe(cmds).Err? ==> Dedupe(cmds) == Err(ConflictingCommands)
  {
    if cmds != [] {
      var rest, c := cmds[..|cmds| - 1], cmds[|cmds| - 1];
      assert cmds == rest + [c];
      DedupeFailsExactly(rest);
      if HasClash(rest) {
        var d, e :| d in rest && e in rest && Clash(d, e);
        assert d in cmds && e in cmds;
      } else {
        DedupeFacts(rest);
        LastClashes(rest, c);
      }
    }
  }

  lemma LastClashes(rest: seq<Command>, c: Command)
    requires Dedupe(rest).Ok? && !HasClash(rest)
    ensures HasClash(rest + [c]) <==>
              KeyOf(c) in Dedupe(rest).value && !SameRequestBody(Dedupe(rest).value[KeyOf(c)], c)
  {
    DedupeFacts(rest);
    hide Dedupe;
    var batch, cmds := Dedupe(rest).value, rest + [c];
    if HasClash(cmds) {
      var d, e :| d in cmds && e in cmds && Clash(d, e);
      assert d in rest || d == c;
      assert e in rest || e == c;
      var other := if d in rest then d else e;
      assert other in rest && SameRequestBody(batch[KeyOf(other)], other) && KeyOf(other) == KeyOf(c);
    }
    if KeyOf(c) in batch && !SameRequestBody(batch[KeyOf(c)], c) {
      assert batch[KeyOf(c)] in cmds && c in cmds && Clash(batch[KeyOf(c)], c);
    }
  }

  /** The first command of a request is the one kept. */
  lemma {:induction false} FirstIsKept(cmds: seq<Command>, i: nat)
    requires Dedupe(cmds).Ok? && i < |cmds| && FirstOfRequest(cmds, i)
    ensures KeyOf(cmds[i]) in Dedupe(cmds).value && Dedupe(cmds).value[KeyOf(cmds[i])] == cmds[i]
  {
    var rest := cmds[..|cmds| - 1];
    if i < |rest| {
      assert rest[i] == cmds[i];
      FirstIsKept(rest, i);
    } else {
      DedupeFacts(rest);
      forall k | k in Dedupe(rest).value
        ensures k != KeyOf(cmds[i])
      {
        var j :| 0 <= j < |rest| && rest[j] == Dedupe(rest).value[k];
        assert !SameRequest(cmds[j], cmds[i]);
      }
    }
  }

  // ---- when a commit is rejected

  /** The row or message a request already has. */
  predicate Written(writes: Writes, c: Command) {
    Key(c.senderId, c.requestId) in writes
  }

  ghost predicate MessageStored(messages: Messages, c: Command) {
    exists id :: id in messages && messages[id].senderId == c.senderId && messages[id].requestId == Some(c.requestId)
  }

  /** A request without a row whose room or sender does not exist, or whose id another row or another such request has. */
  ghost predicate Unstorable(db: Db, cmds: seq<Command>) {
    exists c :: c in cmds && !Written(db.writes, c) && NoPlace(db, cmds, c)
  }

  ghost predicate NoPlace(db: Db, cmds: seq<Command>, c: Command) {
    || c.roomId !in db.rooms
    || c.senderId !in db.users
    || (exists k :: k in db.writes && db.writes[k].id == c.messageId)
    || (exists d :: d in cmds && !Written(db.writes, d) && !SameRequest(c, d) && d.messageId == c.messageId)
  }

  /** A request whose row has another id, room or body. */
  ghost predicate Mismatched(writes: Writes, cmds: seq<Command>) {
    exists c :: c in cmds && Written(writes, c) && Differs(writes[Key(c.senderId, c.requestId)], c)
  }

  predicate Differs(w: WriteRow, c: Command) {
    !(w.id == c.messageId && w.roomId == c.roomId && w.content == c.body)
  }

  /** When a commit fails, and why: a clash inside the batch first, then the constraints, then a mismatch with a row. */
  lemma CommitFailsExactly(db: Db, cmds: seq<Command>)
    requires Schema(db)
    ensures CommitCommands(db, cmds) == Err(ConflictingCommands) <==> HasClash(cmds)
    ensures CommitCommands(db, cmds) == Err(ConstraintViolation) <==> !HasClash(cmds) && Unstorable(db, cmds)
    ensures CommitCommands(db, cmds) == Err(MismatchedRequest)
       <==> !HasClash(cmds) && !Unstorable(db, cmds) && Mismatched(db.writes, cmds)
  {
    hide Schema, CommitAccepted;
    DedupeFailsExactly(cmds);
    if !HasClash(cmds) {
      DedupeFacts(cmds);
      UnstorableBatch(db, cmds);
      MismatchedBatch(db, cmds);
    }
    hide Dedupe, HasClash, Insertable, AllMatch, WithInserted, Unstorable, Mismatched;
    if cmds == [] { NothingFails(db); }
  }

  lemma NothingFails(db: Db)
    ensures !HasClash([]) && !Unstorable(db, []) && !Mismatched(db.writes, [])
  {
  }

  lemma UnstorableBatch(db: Db, cmds: seq<Command>)
    requires Dedupe(cmds).Ok?
    ensures Insertable(db, Dedupe(cmds).value) <==> !Unstorable(db, cmds)
  {
    DedupeFacts(cmds);
    var batch := Dedupe(cmds).value;
    hide Dedupe;
    if Unstorable(db, cmds) {
      var c :| c in cmds && !Written(db.writes, c) && NoPlace(db, cmds, c);
      var k := KeyOf(c);
      assert k in batch && k !in db.writes && batch[k].messageId == c.messageId && batch[k].roomId == c.roomId;
      if d :| d in cmds && !Written(db.writes, d) && !SameRequest(c, d) && d.messageId == c.messageId {
        assert KeyOf(d) in batch && batch[KeyOf(d)].messageId == d.messageId;
      }
    }
    if !Insertable(db, batch) {
      RejectedCommand(db, cmds, batch);
    }
  }

  lemma RejectedCommand(db: Db, cmds: seq<Command>, batch: Batch)
    requires !Insertable(db, batch) && WellKeyed(batch) && forall k | k in batch :: batch[k] in cmds
    ensures Unstorable(db, cmds)
  {
    if !ForeignKeysHold(db, batch) {
      var k :| k in batch && k !in db.writes && !(batch[k].roomId in db.rooms && k.senderId in db.users);
      assert batch[k] in cmds && KeyOf(batch[k]) == k && NoPlace(db, cmds, batch[k]);
    } else if !IdsFree(db.writes, batch) {
      var j, k :| j in db.writes && k in batch && k !in db.writes && db.writes[j].id == batch[k].messageId;
      assert batch[k] in cmds && KeyOf(batch[k]) == k && NoPlace(db, cmds, batch[k]);
    } else {
      var j, k :| j in batch && k in batch && j !in db.writes && k !in db.writes && j != k && batch[j].messageId == batch[k].messageId;
      assert batch[j] in cmds && batch[k] in cmds && KeyOf(batch[j]) == j && KeyOf(batch[k]) == k;
      assert !SameRequest(batch[j], batch[k]);
      assert NoPlace(db, cmds, batch[j]);
    }
  }

  lemma MismatchedBatch(db: Db, cmds: seq<Command>)
    requires Dedupe(cmds).Ok?
    ensures AllMatch(WithInserted(db.writes, Dedupe(cmds).value), Dedupe(cmds).value) <==> !Mismatched(db.writes, cmds)
  {
    DedupeFacts(cmds);
    var batch := Dedupe(cmds).value;
    hide Dedupe;
    var writes := WithInserted(db.writes, batch);
    forall k | k in batch
      ensures Matches(writes[k], batch[k]) <==> !(k in db.writes && Differs(db.writes[k], batch[k]))
    {
    }
    if Mismatched(db.writes, cmds) {
      var c :| c in cmds && Written(db.writes, c) && Differs(db.writes[Key(c.senderId, c.requestId)], c);
      assert KeyOf(c) in batch && SameRequestBody(batch[KeyOf(c)], c);
    }
    if !AllMatch(writes, batch) {
      var k :| k in batch && !Matches(writes[k], batch[k]);
      assert batch[k] in cmds && KeyOf(batch[k]) == k;
      assert Written(db.writes, batch[k]) && Differs(db.writes[k], batch[k]);
    }
  }

  // ---- what a commit adds

  /** The write row a commit works with: the one there, or a new pending one. */
  ghost predicate WorksWith(db: Db, c: Command, w: WriteRow) {
    if Written(db.writes, c) then w == db.writes[Key(c.senderId, c.requestId)]
    else w == WriteRow(c.messageId, c.roomId, c.body, c.acceptedAt, PENDING, None)
  }

  /** The message, outbox row and write row of a request that had no message, and the room that counts it. */
  ghost predicate StoredFresh(db: Db, after: Db, inserted: set<MessageId>, c: Command, w: WriteRow) {
    var id, k := Stable(w.id), Key(c.senderId, c.requestId);
    && id in inserted && id !in db.messages && id in after.messages && id in after.outbox && k in after.writes
    && w.roomId in db.rooms && w.roomId in after.rooms
    && var m := after.messages[id];
    && m.content == w.content && m.createdAt == w.acceptedAt && m.senderId == c.senderId
    && m.requestId == Some(c.requestId) && m.roomId == w.roomId
    && db.rooms[w.roomId].nextMessageSeq <= m.roomSequence < after.rooms[w.roomId].nextMessageSeq
    && after.outbox[id] == OutboxRow(WAITING, 0, None, None, c.origin)
    && after.writes[k] == WriteRow(w.id, w.roomId, w.content, w.acceptedAt, PERSISTED, Some(w.acceptedAt))
  }

  lemma WorkedWith(db: Db, batch: Batch, c: Command)
    requires Schema(db) && Accepts(db, batch) && KeyOf(c) in batch && batch[KeyOf(c)] == c
    ensures WorksWith(db, c, WritesOf(db, batch)[KeyOf(c)])
  {
  }

  lemma CandidateOf(db: Db, batch: Batch, c: Command)
    requires Inv(db) && Schema(db) && Accepts(db, batch) && KeyOf(c) in batch && batch[KeyOf(c)] == c
    requires !MessageStored(db.messages, c) && WritesOf(db, batch)[KeyOf(c)].status != DEAD
    ensures KeyOf(c) in CandsOf(db, batch)
  {
    var k := KeyOf(c);
    assert !KeyTaken(db.messages, k);
    if Stable(WritesOf(db, batch)[k].id) in db.messages {
      OwnIdIsOwnKey(db, batch, k);
    }
  }

  /** The message of a new row. */
  ghost predicate MessageFor(m: MessageRow, k: Key, w: WriteRow) {
    && m.content == w.content && m.createdAt == w.acceptedAt && m.senderId == k.senderId
    && m.requestId == Some(k.requestId) && m.roomId == w.roomId
  }

  lemma CandidateMessage(db: Db, batch: Batch, k: Key)
    requires Inv(db) && Schema(db) && Accepts(db, batch) && k in CandsOf(db, batch)
    ensures
      var w, messages := WritesOf(db, batch)[k], MessagesOf(db, batch);
      var id := Stable(w.id);
      && id !in db.messages && id in messages && w.roomId in db.rooms && MessageFor(messages[id], k, w)
      && db.rooms[w.roomId].nextMessageSeq <= messages[id].roomSequence
         < db.rooms[w.roomId].nextMessageSeq + |Window(WritesOf(db, batch), CandsOf(db, batch), w.roomId)|
  {
    NewSlot(db, batch, k);
    hide Inv, Accepts, Window;
  }

  lemma CandidateQueued(db: Db, batch: Batch, k: Key)
    requires Inv(db) && Schema(db) && Accepts(db, batch) && k in CandsOf(db, batch)
    ensures
      var outbox := WithOutbox(db.outbox, NewOutbox(WritesOf(db, batch), batch, CandsOf(db, batch)));
      var id := Stable(WritesOf(db, batch)[k].id);
      id in outbox && outbox[id] == OutboxRow(WAITING, 0, None, None, batch[k].origin)
  {
    var id := Stable(WritesOf(db, batch)[k].id);
    assert id in db.outbox ==> Queued(db, id);
    hide Inv, Accepts;
  }

  lemma CandidatePersisted(db: Db, batch: Batch, k: Key)
    requires Inv(db) && Schema(db) && Accepts(db, batch) && k in CandsOf(db, batch)
    ensures
      var w := WritesOf(db, batch)[k];
      && k in CommitAccepted(db, batch).db.writes
      && CommitAccepted(db, batch).db.writes[k] == WriteRow(w.id, w.roomId, w.content, w.acceptedAt, PERSISTED, Some(w.acceptedAt))
  {
    var w, id := WritesOf(db, batch)[k], Stable(WritesOf(db, batch)[k].id);
    var plain := EraseRows(MessagesOf(db, batch));
    CommitShape(db, batch);
    CandidateMessage(db, batch, k);
    InsertKeepsUnique(db, batch);
    EraseKeepsKeys(MessagesOf(db, batch));
    CandidateWasPending(db, batch, k);
    hide Inv, Schema, Accepts, CommitAccepted, WritesOf, CandsOf, MessagesOf, WithRooms, NewOutbox, WithOutbox;
    assert id in plain && HasKey(plain[id], k);
    assert HasKey(plain[MessageOf(plain, k)], k) && MessageOf(plain, k) == id;
  }

  lemma RoomCounts(db: Db, batch: Batch, r: string)
    requires Schema(db) && Accepts(db, batch) && r in db.rooms
    ensures
      var writes, cands := WritesOf(db, batch), CandsOf(db, batch);
      WithRooms(db.rooms, writes, cands, cands)[r].nextMessageSeq == db.rooms[r].nextMessageSeq + |Window(writes, cands, r)|
  {
  }

  /** Where the rows of a new message are after the commit. */
  lemma CandidateRows(db: Db, batch: Batch, k: Key)
    requires Inv(db) && Schema(db) && Accepts(db, batch) && k in CandsOf(db, batch)
    ensures
      var w, c := WritesOf(db, batch)[k], CommitAccepted(db, batch);
      var id, after := Stable(w.id), c.db;
      && id in c.inserted && id !in db.messages && id in after.messages && MessageFor(after.messages[id], k, w)
      && w.roomId in db.rooms && w.roomId in after.rooms
      && db.rooms[w.roomId].nextMessageSeq <= after.messages[id].roomSequence < after.rooms[w.roomId].nextMessageSeq
      && id in after.outbox && after.outbox[id] == OutboxRow(WAITING, 0, None, None, batch[k].origin)
  {
    CandidateMessage(db, batch, k);
    CandidateQueued(db, batch, k);
    CommitShape(db, batch);
    RoomCounts(db, batch, WritesOf(db, batch)[k].roomId);
    assert Stable(WritesOf(db, batch)[k].id) in IdsOf(WritesOf(db, batch), CandsOf(db, batch));
    hide *;
  }

  lemma CandidateStored(db: Db, batch: Batch, c: Command)
    requires Inv(db) && Schema(db) && Accepts(db, batch) && KeyOf(c) in batch && batch[KeyOf(c)] == c
    requires KeyOf(c) in CandsOf(db, batch)
    ensures StoredFresh(db, CommitAccepted(db, batch).db, CommitAccepted(db, batch).inserted, c, WritesOf(db, batch)[KeyOf(c)])
  {
    CandidateRows(db, batch, KeyOf(c));
    CandidatePersisted(db, batch, KeyOf(c));
    hide Inv, Schema, Accepts, CommitAccepted, WritesOf, CandsOf;
  }

  /** What a commit made of a list of commands, for the command of one request. */
  lemma CommitOf(db: Db, cmds: seq<Command>, i: nat) returns (batch: Batch)
    requires Inv(db) && CommitCommands(db, cmds).Ok? && i < |cmds| && FirstOfRequest(cmds, i)
    ensures Schema(db) && Accepts(db, batch) && CommitCommands(db, cmds).value == CommitAccepted(db, batch)
    ensures KeyOf(cmds[i]) in batch && batch[KeyOf(cmds[i])] == cmds[i]
  {
    batch := Dedupe(cmds).value;
    FirstIsKept(cmds, i);
  }

  /**
   * A request that has no message gets one: the row that was there, or one with
   * the command's own columns, is persisted; its message, numbered past all
   * others of the room, and a waiting outbox row with the command's origin are
   * added. Of several commands of one request the first counts.
   */
  lemma RequestStored(db: Db, cmds: seq<Command>, i: nat, w: WriteRow)
    requires Inv(db) && CommitCommands(db, cmds).Ok? && i < |cmds| && FirstOfRequest(cmds, i)
    requires !MessageStored(db.messages, cmds[i]) && WorksWith(db, cmds[i], w) && w.status != DEAD
    ensures StoredFresh(db, CommitCommands(db, cmds).value.db, CommitCommands(db, cmds).value.inserted, cmds[i], w)
  {
    var batch := CommitOf(db, cmds, i);
    WorkedWith(db, batch, cmds[i]);
    hide Inv, Schema, Accepts, CommitCommands, CommitAccepted, CandsOf, WritesOf, StoredFresh, MessageStored;
    CandidateOf(db, batch, cmds[i]);
    CandidateStored(db, batch, cmds[i]);
  }

  /** A request whose message is stored, or whose row is dead: no message is added for it, and the row takes the message's time. */
  ghost predicate SettledBefore(db: Db, after: Db, c: Command, w: WriteRow) {
    var k := Key(c.senderId, c.requestId);
    && k in after.writes
    && (forall id | id in after.messages && after.messages[id].senderId == c.senderId
                    && after.messages[id].requestId == Some(c.requestId) :: id in db.messages)
    && (!MessageStored(db.messages, c) || w.status == DEAD || w.status == FANOUTED ==> after.writes[k] == w)
    && (forall id | id in db.messages && db.messages[id].senderId == c.senderId && db.messages[id].requestId == Some(c.requestId)
                    && w.status != DEAD && w.status != FANOUTED ::
          after.writes[k] == WriteRow(w.id, w.roomId, w.content, w.acceptedAt, PERSISTED, Some(db.messages[id].createdAt)))
  }

  lemma NotCandidate(db: Db, batch: Batch, c: Command)
    requires Inv(db) && Schema(db) && Accepts(db, batch) && KeyOf(c) in batch && batch[KeyOf(c)] == c
    requires MessageStored(db.messages, c) || WritesOf(db, batch)[KeyOf(c)].status == DEAD
    ensures KeyOf(c) !in CandsOf(db, batch)
    ensures forall id | id in MessagesOf(db, batch) && HasKey(MessagesOf(db, batch)[id], KeyOf(c)) :: id in db.messages
  {
    assert MessageStored(db.messages, c) ==> KeyTaken(db.messages, KeyOf(c));
    forall id | id in MessagesOf(db, batch) && HasKey(MessagesOf(db, batch)[id], KeyOf(c))
      ensures id in db.messages
    {
      InsertedKey(db, batch, id, KeyOf(c));
    }
  }

  lemma StatusSettled(messages: Messages, batch: Batch, writes: Writes, k: Key, id: MessageId)
    requires UniqueRequests(messages) && k in batch && k in writes && id in messages && HasKey(messages[id], k)
    ensures
      var w := writes[k];
      PlainStatuses(EraseRows(messages), batch, writes)[k]
      == if w.status == DEAD || w.status == FANOUTED then w
         else WriteRow(w.id, w.roomId, w.content, w.acceptedAt, PERSISTED, Some(messages[id].createdAt))
  {
    var plain := EraseRows(messages);
    EraseKeepsKeys(messages);
    assert id in plain && HasKey(plain[id], k);
    assert HasKey(plain[MessageOf(plain, k)], k);
  }

  lemma DeadStays(messages: Messages, batch: Batch, writes: Writes, k: Key)
    requires k in writes && writes[k].status == DEAD
    ensures PlainStatuses(messages, batch, writes)[k] == writes[k]
  {
  }

  /** The row of a request that gets no message. */
  lemma SettledRow(db: Db, batch: Batch, c: Command)
    requires Inv(db) && Schema(db) && Accepts(db, batch) && KeyOf(c) in batch && batch[KeyOf(c)] == c
    ensures
      var w, k := WritesOf(db, batch)[KeyOf(c)], KeyOf(c);
      var row := PlainStatuses(EraseRows(MessagesOf(db, batch)), batch, WritesOf(db, batch))[k];
      && (w.status == DEAD ==> row == w)
      && forall id | id in db.messages && HasKey(db.messages[id], k) ::
           row == if w.status == DEAD || w.status == FANOUTED then w
                  else WriteRow(w.id, w.roomId, w.content, w.acceptedAt, PERSISTED, Some(db.messages[id].createdAt))
  {
    var k, messages, writes := KeyOf(c), MessagesOf(db, batch), WritesOf(db, batch);
    InsertKeepsUnique(db, batch);
    MessagesTouched(db, batch);
    hide Inv, Schema, Accepts, WritesOf, CandsOf, MessagesOf, PlainStatuses, EraseRows, UniqueRequests;
    if writes[k].status == DEAD { DeadStays(EraseRows(messages), batch, writes, k); }
    forall id | id in db.messages && HasKey(db.messages[id], k)
      ensures
        var w := writes[k];
        PlainStatuses(EraseRows(messages), batch, writes)[k]
        == if w.status == DEAD || w.status == FANOUTED then w
           else WriteRow(w.id, w.roomId, w.content, w.acceptedAt, PERSISTED, Some(db.messages[id].createdAt))
    {
      StatusSettled(messages, batch, writes, k, id);
    }
  }

  lemma SettledFacts(db: Db, after: Db, c: Command, w: WriteRow)
    requires KeyOf(c) in after.writes && (MessageStored(db.messages, c) || w.status == DEAD)
    requires forall id | id in after.messages && HasKey(after.messages[id], KeyOf(c)) :: id in db.messages
    requires w.status == DEAD ==> after.writes[KeyOf(c)] == w
    requires forall id | id in db.messages && HasKey(db.messages[id], KeyOf(c)) ::
               after.writes[KeyOf(c)] ==
                 if w.status == DEAD || w.status == FANOUTED then w
                 else WriteRow(w.id, w.roomId, w.content, w.acceptedAt, PERSISTED, Some(db.messages[id].createdAt))
    ensures SettledBefore(db, after, c, w)
  {
    if MessageStored(db.messages, c) {
      var id :| id in db.messages && HasKey(db.messages[id], KeyOf(c));
    }
  }

  lemma SettledStays(db: Db, batch: Batch, c: Command)
    requires Inv(db) && Schema(db) && Accepts(db, batch) && KeyOf(c) in batch && batch[KeyOf(c)] == c
    requires MessageStored(db.messages, c) || WritesOf(db, batch)[KeyOf(c)].status == DEAD
    ensures SettledBefore(db, CommitAccepted(db, batch).db, c, WritesOf(db, batch)[KeyOf(c)])
  {
    hide *;
    ShapeOfWrites(db, batch);
    CommitWrites(db, batch);
    NotCandidate(db, batch, c);
    SettledRow(db, batch, c);
    SettledFacts(db, CommitAccepted(db, batch).db, c, WritesOf(db, batch)[KeyOf(c)]);
  }

  lemma RequestSettled(db: Db, cmds: seq<Command>, i: nat, w: WriteRow)
    requires Inv(db) && CommitCommands(db, cmds).Ok? && i < |cmds| && FirstOfRequest(cmds, i)
    requires WorksWith(db, cmds[i], w) && (MessageStored(db.messages, cmds[i]) || w.status == DEAD)
    ensures SettledBefore(db, CommitCommands(db, cmds).value.db, cmds[i], w)
  {
    var batch := CommitOf(db, cmds, i);
    WorkedWith(db, batch, cmds[i]);
    hide Inv, Schema, Accepts, CommitCommands, CommitAccepted, WritesOf, SettledBefore, MessageStored;
    SettledStays(db, batch, cmds[i]);
  }

  // ---- room times, and what a commit leaves alone

  /** The greatest of a room's time and the times of the messages added to it. */
  ghost predicate GreatestOf(before: Messages, after: Messages, r: string, old': int, new': int) {
    && old' <= new'
    && (forall id | id in after && id !in before && after[id].roomId == r :: after[id].createdAt <= new')
    && (new' == old' || exists id :: id in after && id !in before && after[id].roomId == r && after[id].createdAt == new')
  }

  /** A room's time after a commit: what it was, or the time of the newest message the commit added to it. */
  ghost predicate TimeOfNewest(db: Db, after: Db, r: string)
    requires r in db.rooms && r in after.rooms
  {
    GreatestOf(db.messages, after.messages, r, db.rooms[r].lastMessageAt, after.rooms[r].lastMessageAt)
  }

  /** Rows of requests that are not in the batch, old messages and outbox rows, users; and what is new is the batch's. */
  ghost predicate OnlyBatchTouched(db: Db, after: Db, inserted: set<MessageId>, cmds: seq<Command>) {
    && after.users == db.users && after.rooms.Keys == db.rooms.Keys
    && (forall k | k in db.writes :: k in after.writes)
    && (forall k | k in after.writes && (forall c | c in cmds :: k != Key(c.senderId, c.requestId)) ::
          k in db.writes && after.writes[k] == db.writes[k])
    && (forall id | id in db.messages :: id in after.messages && after.messages[id] == db.messages[id])
    && (forall id | id in db.outbox :: id in after.outbox && after.outbox[id] == db.outbox[id])
    && inserted == after.messages.Keys - db.messages.Keys == after.outbox.Keys - db.outbox.Keys
    && (forall id | id in inserted :: exists c :: c in cmds && id == Stable(c.messageId))
  }

  lemma SameRooms(rooms: Rooms, writes: Writes, cands: set<Key>)
    requires cands <= writes.Keys
    ensures WithRooms(rooms, writes, cands, cands).Keys == rooms.Keys
  {
  }

  lemma ShapeOfWrites(db: Db, batch: Batch)
    requires Inv(db) && Schema(db) && Accepts(db, batch)
    ensures CommitAccepted(db, batch).db.users == db.users
    ensures CommitAccepted(db, batch).db.writes == PlainStatuses(EraseRows(MessagesOf(db, batch)), batch, WritesOf(db, batch))
    ensures CommitAccepted(db, batch).db.messages == MessagesOf(db, batch)
    ensures CommitAccepted(db, batch).inserted == IdsOf(WritesOf(db, batch), CandsOf(db, batch))
  {
    hide *;
    CommitShape(db, batch);
  }

  lemma ShapeOfRooms(db: Db, batch: Batch)
    requires Inv(db) && Schema(db) && Accepts(db, batch)
    ensures CommitAccepted(db, batch).db.rooms == WithRooms(db.rooms, WritesOf(db, batch), CandsOf(db, batch), CandsOf(db, batch))
    ensures CommitAccepted(db, batch).db.outbox == WithOutbox(db.outbox, NewOutbox(WritesOf(db, batch), batch, CandsOf(db, batch)))
  {
    hide *;
    CommitShape(db, batch);
  }

  lemma WritesTouched(db: Db, batch: Batch)
    requires Schema(db) && Accepts(db, batch)
    ensures
      var after := PlainStatuses(EraseRows(MessagesOf(db, batch)), batch, WritesOf(db, batch));
      after.Keys == db.writes.Keys + batch.Keys && forall k | k in db.writes && k !in batch :: after[k] == db.writes[k]
  {
    hide Accepts, MessagesOf, EraseRows, PlainStatuses;
  }

  lemma OutboxAdds(outbox: Outbox, writes: Writes, batch: Batch, keys: set<Key>)
    requires UniqueWriteIds(writes) && keys <= batch.Keys <= writes.Keys && IdsOf(writes, keys) !! outbox.Keys
    ensures
      var after := WithOutbox(outbox, NewOutbox(writes, batch, keys));
      (forall id | id in outbox :: id in after && after[id] == outbox[id]) && after.Keys - outbox.Keys == IdsOf(writes, keys)
  {
    assert NewOutbox(writes, batch, keys).Keys == IdsOf(writes, keys);
    hide NewOutbox, IdsOf;
  }

  lemma NewIdsAreNew(db: Db, batch: Batch)
    requires Inv(db) && Schema(db) && Accepts(db, batch)
    ensures IdsOf(WritesOf(db, batch), CandsOf(db, batch)) !! db.messages.Keys
    ensures IdsOf(WritesOf(db, batch), CandsOf(db, batch)) !! db.outbox.Keys
  {
    forall id | id in db.outbox
      ensures id in db.messages
    {
      assert Queued(db, id);
    }
    hide Inv, Accepts, WritesOf, CandsOf;
  }

  lemma OutboxTouched(db: Db, batch: Batch)
    requires Inv(db) && Schema(db) && Accepts(db, batch)
    ensures
      var ids := IdsOf(WritesOf(db, batch), CandsOf(db, batch));
      var after := WithOutbox(db.outbox, NewOutbox(WritesOf(db, batch), batch, CandsOf(db, batch)));
      && (forall id | id in db.outbox :: id in after && after[id] == db.outbox[id])
      && after.Keys - db.outbox.Keys == ids && ids !! db.messages.Keys
  {
    NewIdsAreNew(db, batch);
    OutboxAdds(db.outbox, WritesOf(db, batch), batch, CandsOf(db, batch));
  }

  lemma MessagesTouched(db: Db, batch: Batch)
    requires Schema(db) && Accepts(db, batch)
    ensures
      var ids := IdsOf(WritesOf(db, batch), CandsOf(db, batch));
      && (forall id | id in db.messages :: id in MessagesOf(db, batch) && MessagesOf(db, batch)[id] == db.messages[id])
      && MessagesOf(db, batch).Keys == db.messages.Keys + ids
  {
    hide Accepts, MessagesOf, RowFor, AllocatedSeq;
  }

  lemma NewIds(db: Db, batch: Batch)
    requires Schema(db) && Accepts(db, batch)
    ensures forall id | id in IdsOf(WritesOf(db, batch), CandsOf(db, batch)) :: exists k :: k in batch && id == Stable(batch[k].messageId)
  {
    forall k | k in CandsOf(db, batch)
      ensures WritesOf(db, batch)[k].id == batch[k].messageId
    {
      assert Matches(WithInserted(db.writes, batch)[k], batch[k]);
    }
    hide Accepts, CandsOf;
  }

  lemma CommitWrites(db: Db, batch: Batch)
    requires Inv(db) && Schema(db) && Accepts(db, batch)
    ensures
      var after := CommitAccepted(db, batch).db;
      && after.users == db.users && after.writes.Keys == db.writes.Keys + batch.Keys
      && forall k | k in db.writes && k !in batch :: after.writes[k] == db.writes[k]
  {
    hide *;
    ShapeOfWrites(db, batch);
    WritesTouched(db, batch);
  }

  lemma CommitOutbox(db: Db, batch: Batch)
    requires Inv(db) && Schema(db) && Accepts(db, batch)
    ensures
      var c := CommitAccepted(db, batch);
      && c.db.rooms.Keys == db.rooms.Keys
      && (forall id | id in db.outbox :: id in c.db.outbox && c.db.outbox[id] == db.outbox[id])
      && c.inserted == c.db.outbox.Keys - db.outbox.Keys
  {
    hide *;
    ShapeOfWrites(db, batch);
    ShapeOfRooms(db, batch);
    OutboxTouched(db, batch);
    SameRooms(db.rooms, WritesOf(db, batch), CandsOf(db, batch));
  }

  lemma CommitMessages(db: Db, batch: Batch)
    requires Inv(db) && Schema(db) && Accepts(db, batch)
    ensures
      var c := CommitAccepted(db, batch);
      && (forall id | id in db.messages :: id in c.db.messages && c.db.messages[id] == db.messages[id])
      && c.inserted == c.db.messages.Keys - db.messages.Keys
  {
    hide *;
    ShapeOfWrites(db, batch);
    OutboxTouched(db, batch);
    MessagesTouched(db, batch);
  }

  lemma CommitIds(db: Db, batch: Batch)
    requires Inv(db) && Schema(db) && Accepts(db, batch)
    ensures forall id | id in CommitAccepted(db, batch).inserted :: exists k :: k in batch && id == Stable(batch[k].messageId)
  {
    hide *;
    ShapeOfWrites(db, batch);
    NewIds(db, batch);
  }

  lemma InvHasSchema(db: Db)
    requires Inv(db)
    ensures Schema(db)
  {
  }

  lemma NothingTouched(db: Db)
    requires Schema(db)
    ensures CommitCommands(db, []) == Ok(Committed(db, {})) && OnlyBatchTouched(db, db, {}, [])
    ensures forall r | r in db.rooms :: TimeOfNewest(db, db, r)
  {
  }

  /** The batch a successful commit of some commands works on. */
  lemma CommitIsAccepted(db: Db, cmds: seq<Command>) returns (batch: Batch)
    requires Inv(db) && cmds != [] && CommitCommands(db, cmds).Ok?
    ensures Schema(db) && Accepts(db, batch) && CommitCommands(db, cmds).value == CommitAccepted(db, batch)
    ensures WellKeyed(batch) && forall k | k in batch :: batch[k] in cmds
  {
    batch := Dedupe(cmds).value;
    DedupeFacts(cmds);
    hide Inv, Dedupe;
  }

  lemma BatchIsTouched(db: Db, batch: Batch, cmds: seq<Command>)
    requires Inv(db) && Schema(db) && Accepts(db, batch) && WellKeyed(batch) && forall k | k in batch :: batch[k] in cmds
    ensures OnlyBatchTouched(db, CommitAccepted(db, batch).db, CommitAccepted(db, batch).inserted, cmds)
  {
    hide Inv, Linked, Sequenced, Schema, UniqueWriteIds, Accepts, Insertable, AllMatch, WithInserted, CommitAccepted;
    CommitWrites(db, batch);
    CommitOutbox(db, batch);
    CommitMessages(db, batch);
    CommitIds(db, batch);
    BatchOfCommands(batch, cmds, db, CommitAccepted(db, batch).db, CommitAccepted(db, batch).inserted);
  }

  /** A commit touches nothing but the rows of its own requests, and only adds messages and outbox rows, one for one. */
  lemma OnlyBatchIsTouched(db: Db, cmds: seq<Command>)
    requires Inv(db) && CommitCommands(db, cmds).Ok?
    ensures OnlyBatchTouched(db, CommitCommands(db, cmds).value.db, CommitCommands(db, cmds).value.inserted, cmds)
  {
    InvHasSchema(db);
    hide *;
    if cmds == [] {
      NothingTouched(db);
    } else {
      var batch := CommitIsAccepted(db, cmds);
      BatchIsTouched(db, batch, cmds);
    }
  }

  lemma BatchOfCommands(batch: Batch, cmds: seq<Command>, db: Db, after: Db, inserted: set<MessageId>)
    requires WellKeyed(batch) && forall k | k in batch :: batch[k] in cmds
    requires after.writes.Keys == db.writes.Keys + batch.Keys
    requires forall k | k in db.writes && k !in batch :: after.writes[k] == db.writes[k]
    requires forall id | id in inserted :: exists k :: k in batch && id == Stable(batch[k].messageId)
    ensures forall k | k in after.writes && (forall c | c in cmds :: k != Key(c.senderId, c.requestId)) ::
              k in db.writes && after.writes[k] == db.writes[k]
    ensures forall id | id in inserted :: exists c :: c in cmds && id == Stable(c.messageId)
  {
    forall k | k in batch
      ensures exists c :: c in cmds && k == Key(c.senderId, c.requestId)
    {
      assert batch[k] in cmds && k == KeyOf(batch[k]);
    }
    forall id | id in inserted
      ensures exists c :: c in cmds && id == Stable(c.messageId)
    {
      var k :| k in batch && id == Stable(batch[k].messageId);
      assert batch[k] in cmds;
    }
  }

  lemma TimesOfNew(db: Db, batch: Batch, r: string)
    requires Inv(db) && Schema(db) && Accepts(db, batch)
    ensures
      var messages := MessagesOf(db, batch);
      forall at :: at in Times(WritesOf(db, batch), CandsOf(db, batch), r)
        <==> exists id :: id in messages && id !in db.messages && messages[id].roomId == r && messages[id].createdAt == at
  {
    var writes, cands, messages := WritesOf(db, batch), CandsOf(db, batch), MessagesOf(db, batch);
    hide Inv, Accepts, WritesOf, CandsOf, MessagesOf, AllocatedSeq;
    forall at | at in Times(writes, cands, r)
      ensures exists id :: id in messages && id !in db.messages && messages[id].roomId == r && messages[id].createdAt == at
    {
      var k :| k in cands && writes[k].roomId == r && writes[k].acceptedAt == at;
      assert Stable(writes[k].id) in messages && Stable(writes[k].id) !in db.messages;
    }
    forall id | id in messages && id !in db.messages && messages[id].roomId == r
      ensures messages[id].createdAt in Times(writes, cands, r)
    {
      var k :| k in cands && id == Stable(writes[k].id);
    }
  }

  lemma GreatestTime(before: Messages, after: Messages, r: string, row: RoomRow, count: nat, times: set<int>)
    requires forall at :: at in times
               <==> exists id :: id in after && id !in before && after[id].roomId == r && after[id].createdAt == at
    ensures GreatestOf(before, after, r, row.lastMessageAt, RoomAfter(row, count, times).lastMessageAt)
  {
    assert IsMax({row.lastMessageAt} + times, RoomAfter(row, count, times).lastMessageAt);
    forall id | id in after && id !in before && after[id].roomId == r
      ensures after[id].createdAt in times
    {
    }
  }

  lemma RoomRowAfter(rooms: Rooms, writes: Writes, cands: set<Key>, r: string)
    requires cands <= writes.Keys && r in rooms
    ensures
      var after := WithRooms(rooms, writes, cands, cands);
      r in after && after[r] == RoomAfter(rooms[r], |Window(writes, cands, r)|, Times(writes, cands, r))
  {
  }

  lemma RoomTime(db: Db, batch: Batch, r: string)
    requires Inv(db) && Schema(db) && Accepts(db, batch) && r in db.rooms
    ensures r in CommitAccepted(db, batch).db.rooms && TimeOfNewest(db, CommitAccepted(db, batch).db, r)
  {
    hide Inv, Linked, Sequenced, Schema, UniqueWriteIds, Accepts, Insertable, AllMatch, WithInserted, CommitAccepted,
      WritesOf, CandsOf, MessagesOf, WithRooms, Window, Times, GreatestOf, RoomAfter;
    var writes, cands := WritesOf(db, batch), CandsOf(db, batch);
    ShapeOfWrites(db, batch);
    ShapeOfRooms(db, batch);
    TimesOfNew(db, batch, r);
    RoomRowAfter(db.rooms, writes, cands, r);
    GreatestTime(db.messages, MessagesOf(db, batch), r, db.rooms[r], |Window(writes, cands, r)|, Times(writes, cands, r));
  }

  lemma RoomTimesExact(db: Db, cmds: seq<Command>, r: string)
    requires Inv(db) && CommitCommands(db, cmds).Ok? && r in db.rooms
    ensures r in CommitCommands(db, cmds).value.db.rooms && TimeOfNewest(db, CommitCommands(db, cmds).value.db, r)
  {
    InvHasSchema(db);
    hide *;
    if cmds == [] {
      NothingTouched(db);
    } else {
      var batch := CommitIsAccepted(db, cmds);
      RoomTime(db, batch, r);
    }
  }

  // ---- order within a commit

  lemma SlotsInOrder(db: Db, batch: Batch, j: Key, k: Key)
    requires Inv(db) && Schema(db) && Accepts(db, batch) && j in CandsOf(db, batch) && k in CandsOf(db, batch) && j != k
    requires WritesOf(db, batch)[j].roomId == WritesOf(db, batch)[k].roomId
    ensures
      var v, w := WritesOf(db, batch)[j], WritesOf(db, batch)[k];
      && Stable(v.id) in MessagesOf(db, batch) && Stable(w.id) in MessagesOf(db, batch)
      && (Before(StampOf(v), StampOf(w)) <==>
          MessagesOf(db, batch)[Stable(v.id)].roomSequence < MessagesOf(db, batch)[Stable(w.id)].roomSequence)
  {
    var writes, cands := WritesOf(db, batch), CandsOf(db, batch);
    hide Inv, Accepts, Window, Rank;
    StampInWindow(writes, cands, j);
    StampInWindow(writes, cands, k);
    RankStrict(Window(writes, cands, writes[j].roomId), StampOf(writes[j]), StampOf(writes[k]));
  }

  lemma CandidateOfMessage(db: Db, batch: Batch, id: MessageId) returns (k: Key)
    requires Inv(db) && Schema(db) && Accepts(db, batch) && id in IdsOf(WritesOf(db, batch), CandsOf(db, batch))
    ensures k in CandsOf(db, batch) && id == Stable(WritesOf(db, batch)[k].id) && id in MessagesOf(db, batch)
    ensures MessageFor(MessagesOf(db, batch)[id], k, WritesOf(db, batch)[k])
  {
    k :| k in CandsOf(db, batch) && id == Stable(WritesOf(db, batch)[k].id);
    CandidateMessage(db, batch, k);
    hide Inv, Schema, Accepts, WritesOf, CandsOf, MessagesOf;
  }

  lemma StampsOf(v: WriteRow, w: WriteRow)
    ensures Before(StampOf(v), StampOf(w)) <==> v.acceptedAt < w.acceptedAt || (v.acceptedAt == w.acceptedAt && v.id < w.id)
  {
  }

  lemma MessagesInOrder(db: Db, batch: Batch, a: MessageId, b: MessageId)
    requires Inv(db) && Schema(db) && Accepts(db, batch) && a != b
    requires a in IdsOf(WritesOf(db, batch), CandsOf(db, batch)) && b in IdsOf(WritesOf(db, batch), CandsOf(db, batch))
    requires a in MessagesOf(db, batch) && b in MessagesOf(db, batch)
    requires MessagesOf(db, batch)[a].roomId == MessagesOf(db, batch)[b].roomId
    ensures
      var x, y := MessagesOf(db, batch)[a], MessagesOf(db, batch)[b];
      x.createdAt < y.createdAt || (x.createdAt == y.createdAt && a.rank < b.rank) <==> x.roomSequence < y.roomSequence
  {
    hide Inv, Schema, Accepts, WritesOf, CandsOf, MessagesOf, StampOf, Before, IdsOf;
    var j := CandidateOfMessage(db, batch, a);
    var k := CandidateOfMessage(db, batch, b);
    SlotsInOrder(db, batch, j, k);
    StampsOf(WritesOf(db, batch)[j], WritesOf(db, batch)[k]);
  }

  /** The messages one commit adds to a room are numbered in the order of their times, and of their ids at one time. */
  lemma CommitOrderFollowsTime(db: Db, cmds: seq<Command>, a: MessageId, b: MessageId)
    requires Inv(db) && CommitCommands(db, cmds).Ok? && a != b
    requires
      var c := CommitCommands(db, cmds).value;
      && {a, b} <= c.inserted && a in c.db.messages && b in c.db.messages && c.db.messages[a].roomId == c.db.messages[b].roomId
    ensures
      var x, y := CommitCommands(db, cmds).value.db.messages[a], CommitCommands(db, cmds).value.db.messages[b];
      x.createdAt < y.createdAt || (x.createdAt == y.createdAt && a.rank < b.rank) <==> x.roomSequence < y.roomSequence
  {
    assert a in {a, b} && b in {a, b};
    assert cmds != [];
    hide *;
    var batch := CommitIsAccepted(db, cmds);
    ShapeOfWrites(db, batch);
    MessagesInOrder(db, batch, a, b);
  }

  // ---- dead letters

  /** A request without a row whose room, sender and id allow one. */
  predicate Storable(db: Db, c: Command) {
    && !Written(db.writes, c) && c.roomId in db.rooms && c.senderId in db.users
    && forall k | k in db.writes :: db.writes[k].id != c.messageId
  }

  /**
   * What dead-lettering does: a pending row becomes dead and keeps its columns;
   * a request without a row gets one with the command's own columns, if the
   * constraints allow; nothing else changes.
   */
  lemma DeadLetterExactly(db: Db, c: Command)
    requires Schema(db)
    ensures
      var k := Key(c.senderId, c.requestId);
      DeadLetter(db, c) ==
        if k in db.writes && db.writes[k].status == PENDING then db.(writes := db.writes[k := db.writes[k].(status := DEAD)])
        else if Storable(db, c) then
          db.(writes := db.writes[k := WriteRow(c.messageId, c.roomId, c.body, c.acceptedAt, DEAD, None)])
        else db
  {
    var k := KeyOf(c);
    if k in db.writes {
      var w := db.writes[k];
      assert forall j | j in db.writes && db.writes[j].id == w.id :: j == k;
      var marked := if w.status == PENDING then db.writes[k := w.(status := DEAD)] else db.writes;
      assert MarkDead(db, w.id).writes == marked;
    } else {
      var one := map[k := c];
      assert k in one && one[k] == c && forall j | j in one :: j == k;
      assert Insertable(db, one) <==> Storable(db, c);
    }
  }

  /** A dead letter stored for a request that had no row is on record, and delivering the command again changes nothing. */
  lemma DeadLetterIsOnRecord(db: Db, c: Command)
    requires Inv(db) && Storable(db, c)
    ensures
      var after, k := DeadLetter(db, c), Key(c.senderId, c.requestId);
      && Schema(after) && Recorded(after.writes, c)
      && k in after.writes && after.writes[k].status == DEAD && !Differs(after.writes[k], c)
      && CommitCommands(after, [c]) == Ok(Committed(after, {}))
  {
    InvHasSchema(db);
    DeadLetterExactly(db, c);
    DeadLetterSteps(db, c);
    InvHasSchema(DeadLetter(db, c));
    hide Inv, DeadLetter, CommitCommands;
    CommitIdempotent(DeadLetter(db, c), [c]);
  }
}
