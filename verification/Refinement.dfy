/**
 * The transaction keeps room order gap-free and never meets its own
 * ON CONFLICT arm; with sequence numbers erased it is the simple form.
 */
module Refinement {
  import opened Prelude
  import opened Ranking
  import opened Store
  import opened Invariant

  lemma EraseKeepsCandidates(db: Db, batch: Batch)
    requires Schema(db) && Accepts(db, batch)
    ensures Schema(Erase(db)) && Accepts(Erase(db), batch)
    ensures WritesOf(Erase(db), batch) == WritesOf(db, batch)
    ensures CandsOf(Erase(db), batch) == CandsOf(db, batch)
  {
    EraseKeepsKeys(db.messages);
  }

  /** The window of a room identifies its candidates: stamps carry the primary key. */
  lemma StampInWindow(writes: Writes, cands: set<Key>, k: Key)
    requires cands <= writes.Keys && k in cands
    ensures StampOf(writes[k]) in Window(writes, cands, writes[k].roomId)
  {
  }

  /** New rows never share an id, a (sender, request) or a slot, so the statement cannot conflict with itself. */
  lemma NewRowsNeverConflict(rooms: Rooms, writes: Writes, cands: set<Key>, j: Key, k: Key)
    requires UniqueWriteIds(writes) && cands <= writes.Keys
    requires forall i | i in cands :: writes[i].roomId in rooms
    requires j in cands && k in cands && j != k
    ensures Stable(writes[j].id) != Stable(writes[k].id)
    ensures !SameSlot(RowFor(writes, j, AllocatedSeq(rooms, writes, cands, j)),
                      RowFor(writes, k, AllocatedSeq(rooms, writes, cands, k)))
    ensures !HasKey(RowFor(writes, j, 0), k)
  {
    if writes[j].roomId == writes[k].roomId {
      StampInWindow(writes, cands, j);
      StampInWindow(writes, cands, k);
      RankStrict(Window(writes, cands, writes[j].roomId), StampOf(writes[j]), StampOf(writes[k]));
    }
  }

  /** The ON CONFLICT DO NOTHING arm of the message insert never fires. */
  lemma NeverConflicts(db: Db, batch: Batch)
    requires Inv(db) && Accepts(db, batch)
    ensures Inserted(db, WritesOf(db, batch), CandsOf(db, batch)) == CandsOf(db, batch)
  {
    var writes, cands := WritesOf(db, batch), CandsOf(db, batch);
    forall k | k in cands
      ensures !Conflicts(db.messages, Stable(writes[k].id), RowFor(writes, k, AllocatedSeq(db.rooms, writes, cands, k)))
    {
      assert !KeyTaken(db.messages, k);
      forall o | o in db.messages
        ensures !(db.messages[o].senderId == k.senderId && db.messages[o].requestId == Some(k.requestId))
        ensures db.messages[o].roomId == writes[k].roomId ==>
                  db.messages[o].roomSequence < db.rooms[writes[k].roomId].nextMessageSeq
      {
        assert !HasKey(db.messages[o], k);
        assert InRange(db, o);
      }
    }
  }

  lemma EraseSum(a: Messages, b: Messages)
    ensures EraseRows(a + b) == EraseRows(a) + EraseRows(b)
  {
  }

  lemma EraseNew(rooms: Rooms, writes: Writes, cands: set<Key>)
    requires UniqueWriteIds(writes) && cands <= writes.Keys
    requires forall k | k in cands :: writes[k].roomId in rooms
    ensures EraseRows(NewMessages(rooms, writes, cands, cands)) == PlainRows(writes, cands)
  {
  }

  lemma EraseInserted(db: Db, batch: Batch)
    requires Schema(db) && Accepts(db, batch)
    ensures
      var writes, cands := WritesOf(db, batch), CandsOf(db, batch);
      EraseRows(db.messages + NewMessages(db.rooms, writes, cands, cands)) == EraseRows(db.messages) + PlainRows(writes, cands)
  {
    hide Accepts, EraseRows, PlainRows, NewMessages;
    var writes, cands := WritesOf(db, batch), CandsOf(db, batch);
    EraseNew(db.rooms, writes, cands);
    EraseSum(db.messages, NewMessages(db.rooms, writes, cands, cands));
  }

  /** A message with the id of a write of the batch has that write's key. */
  lemma IdImpliesKey(db: Db, batch: Batch, id: MessageId, j: Key)
    requires Linked(db) && Accepts(db, batch)
    requires j in batch && id in MessagesOf(db, batch) && id == Stable(WritesOf(db, batch)[j].id)
    ensures HasKey(MessagesOf(db, batch)[id], j)
  {
    var writes := WritesOf(db, batch);
    if id in db.messages {
      assert Backed(db, id);
    } else {
      var k :| k in CandsOf(db, batch) && id == Stable(writes[k].id);
      assert j == k;
    }
  }

  /** Finding the batch's messages by id or by key comes to finding them by key. */
  lemma JoinedByKey(messages: Messages, writes: Writes, batch: Batch, k: Key)
    requires batch.Keys <= writes.Keys
    requires forall id, j | j in batch && id in messages && id == Stable(writes[j].id) :: HasKey(messages[id], j)
    ensures KeyTaken(Restrict(messages, Joined(messages, writes, batch)), k) <==> k in batch && KeyTaken(messages, k)
  {
    var joined := Joined(messages, writes, batch);
    var found := Restrict(messages, joined);
    if KeyTaken(found, k) {
      var id :| id in found && HasKey(found[id], k);
      assert id in messages && HasKey(messages[id], k);
    }
    if k in batch && KeyTaken(messages, k) {
      var id :| id in messages && HasKey(messages[id], k);
      assert id in found && HasKey(found[id], k);
    }
  }

  /** The inserted rows keep (sender, request) unique. */
  lemma InsertKeepsUnique(db: Db, batch: Batch)
    requires Linked(db) && Accepts(db, batch)
    ensures UniqueRequests(MessagesOf(db, batch))
  {
    var messages := MessagesOf(db, batch);
    forall a, b, k | a in messages && b in messages && HasKey(messages[a], k) && HasKey(messages[b], k)
      ensures a == b
    {
      InsertedKey(db, batch, a, k);
      InsertedKey(db, batch, b, k);
    }
  }

  lemma InsertedKey(db: Db, batch: Batch, id: MessageId, k: Key)
    requires Schema(db) && Accepts(db, batch)
    requires id in MessagesOf(db, batch) && HasKey(MessagesOf(db, batch)[id], k)
    ensures id in db.messages ==> k !in CandsOf(db, batch) && HasKey(db.messages[id], k)
    ensures id !in db.messages ==> k in CandsOf(db, batch) && id == Stable(WritesOf(db, batch)[k].id)
  {
    if id in db.messages {
      assert KeyTaken(db.messages, k);
    } else {
      var j :| j in CandsOf(db, batch) && id == Stable(WritesOf(db, batch)[j].id);
    }
  }

  /** The status update of the transaction is the simple one. */
  lemma StatusesAgree(messages: Messages, writes: Writes, batch: Batch)
    requires batch.Keys <= writes.Keys
    requires UniqueRequests(messages)
    requires forall id, j | j in batch && id in messages && id == Stable(writes[j].id) :: HasKey(messages[id], j)
    ensures WithStatuses(messages, writes, Joined(messages, writes, batch))
         == PlainStatuses(EraseRows(messages), batch, writes)
  {
    var joined, plain := Joined(messages, writes, batch), EraseRows(messages);
    forall k | k in writes
      ensures WithStatuses(messages, writes, joined)[k] == PlainStatus(plain, batch, writes, k)
    {
      JoinedByKey(messages, writes, batch, k);
      EraseKeepsKeys(messages);
      if KeyTaken(Restrict(messages, joined), k) {
        var a, b := MessageOf(Restrict(messages, joined), k), MessageOf(plain, k);
        assert HasKey(messages[a], k) && HasKey(messages[b], k);
      }
    }
  }

  /** What the transaction leaves, its ON CONFLICT arm gone and its joins simplified. */
  lemma CommitShape(db: Db, batch: Batch)
    requires Inv(db) && Accepts(db, batch)
    ensures
      var writes, cands, messages := WritesOf(db, batch), CandsOf(db, batch), MessagesOf(db, batch);
      && CommitAccepted(db, batch).db
         == Db(db.users,
               WithRooms(db.rooms, writes, cands, cands),
               PlainStatuses(EraseRows(messages), batch, writes),
               messages,
               WithOutbox(db.outbox, NewOutbox(writes, batch, cands)))
      && CommitAccepted(db, batch).inserted == IdsOf(writes, cands)
  {
    var writes, messages := WritesOf(db, batch), MessagesOf(db, batch);
    NeverConflicts(db, batch);
    InsertKeepsUnique(db, batch);
    forall id, j | j in batch && id in messages && id == Stable(writes[j].id)
      ensures HasKey(messages[id], j)
    {
      IdImpliesKey(db, batch, id, j);
    }
    StatusesAgree(messages, writes, batch);
  }

  /** With sequence numbers erased, the transaction is the simple commit. */
  lemma CommitRefinesPlain(db: Db, batch: Batch)
    requires Inv(db) && Accepts(db, batch)
    ensures Schema(Erase(db)) && Accepts(Erase(db), batch)
    ensures Erase(CommitAccepted(db, batch).db) == PlainCommit(Erase(db), batch)
  {
    CommitShape(db, batch);
    EraseKeepsCandidates(db, batch);
    EraseInserted(db, batch);
  }

  // ---- room order

  lemma NewSlot(db: Db, batch: Batch, k: Key)
    requires Inv(db) && Accepts(db, batch) && k in CandsOf(db, batch)
    ensures
      var writes := WritesOf(db, batch);
      var r := writes[k].roomId;
      && r in db.rooms
      && var next := db.rooms[r].nextMessageSeq;
         next <= MessagesOf(db, batch)[Stable(writes[k].id)].roomSequence
         < next + |Window(writes, CandsOf(db, batch), r)|
  {
    var writes, cands := WritesOf(db, batch), CandsOf(db, batch);
    StampInWindow(writes, cands, k);
    RankInRange(Window(writes, cands, writes[k].roomId), StampOf(writes[k]));
  }

  lemma NewAboveOld(db: Db, batch: Batch, a: MessageId, b: MessageId)
    requires Inv(db) && Accepts(db, batch)
    requires a in MessagesOf(db, batch) && a !in db.messages && b in db.messages
    ensures !SameSlot(MessagesOf(db, batch)[a], db.messages[b])
  {
    var k :| k in CandsOf(db, batch) && a == Stable(WritesOf(db, batch)[k].id);
    NewSlot(db, batch, k);
    assert InRange(db, b);
  }

  lemma NewApart(db: Db, batch: Batch, a: MessageId, b: MessageId)
    requires Schema(db) && Accepts(db, batch)
    requires a in MessagesOf(db, batch) && a !in db.messages && b in MessagesOf(db, batch) && b !in db.messages && a != b
    ensures !SameSlot(MessagesOf(db, batch)[a], MessagesOf(db, batch)[b])
  {
    var writes, cands := WritesOf(db, batch), CandsOf(db, batch);
    var j :| j in cands && a == Stable(writes[j].id);
    var k :| k in cands && b == Stable(writes[k].id);
    NewRowsNeverConflict(db.rooms, writes, cands, j, k);
  }

  lemma SlotsStayDistinct(db: Db, batch: Batch, a: MessageId, b: MessageId)
    requires Inv(db) && Accepts(db, batch)
    requires a in MessagesOf(db, batch) && b in MessagesOf(db, batch) && a != b
    ensures !SameSlot(MessagesOf(db, batch)[a], MessagesOf(db, batch)[b])
  {
    hide Accepts;
    if a !in db.messages && b !in db.messages {
      NewApart(db, batch, a, b);
    } else if a !in db.messages {
      NewAboveOld(db, batch, a, b);
    } else if b !in db.messages {
      NewAboveOld(db, batch, b, a);
    }
  }

  lemma NumberAllocated(rooms: Rooms, writes: Writes, cands: set<Key>, r: string, n: int) returns (k: Key)
    requires UniqueWriteIds(writes) && cands <= writes.Keys && r in rooms
    requires rooms[r].nextMessageSeq <= n < rooms[r].nextMessageSeq + |Window(writes, cands, r)|
    ensures k in cands && writes[k].roomId == r && AllocatedSeq(rooms, writes, cands, k) == n
  {
    var p := RankOnto(Window(writes, cands, r), n - rooms[r].nextMessageSeq);
    k :| k in cands && writes[k].roomId == r && p == StampOf(writes[k]);
  }

  lemma NewNumbersUsed(db: Db, batch: Batch, r: string, n: int)
    requires Inv(db) && Accepts(db, batch) && r in db.rooms
    requires 1 <= n < db.rooms[r].nextMessageSeq + |Window(WritesOf(db, batch), CandsOf(db, batch), r)|
    ensures HasSlot(MessagesOf(db, batch), r, n)
  {
    var messages := MessagesOf(db, batch);
    if n < db.rooms[r].nextMessageSeq {
      assert HasSlot(db.messages, r, n);
      var id :| id in db.messages && db.messages[id].roomId == r && db.messages[id].roomSequence == n;
      assert id in messages;
    } else {
      var k := NumberAllocated(db.rooms, WritesOf(db, batch), CandsOf(db, batch), r, n);
      var id := Stable(WritesOf(db, batch)[k].id);
      assert id in messages && messages[id].roomId == r && messages[id].roomSequence == n;
    }
  }

  /** Gap-free order survives a commit. */
  lemma CommitKeepsSequence(db: Db, batch: Batch)
    requires Inv(db) && Accepts(db, batch)
    ensures Sequenced(CommitAccepted(db, batch).db)
  {
    CommitShape(db, batch);
    var after := CommitAccepted(db, batch).db;
    var messages := MessagesOf(db, batch);
    assert after.rooms == WithRooms(db.rooms, WritesOf(db, batch), CandsOf(db, batch), CandsOf(db, batch));
    forall id | id in messages
      ensures InRange(after, id)
    {
      if id in db.messages {
        assert InRange(db, id);
      } else {
        var k :| k in CandsOf(db, batch) && id == Stable(WritesOf(db, batch)[k].id);
        NewSlot(db, batch, k);
      }
    }
    forall a, b | a in messages && b in messages && SameSlot(messages[a], messages[b])
      ensures a == b
    {
      if a != b {
        SlotsStayDistinct(db, batch, a, b);
      }
    }
    forall r, n | r in after.rooms && 1 <= n < after.rooms[r].nextMessageSeq
      ensures HasSlot(messages, r, n)
    {
      NewNumbersUsed(db, batch, r, n);
    }
  }
}
