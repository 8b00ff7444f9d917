/**
 * The algebra of plain commits: a commit keeps the links between the tables,
 * committing a batch is committing its commands one at a time, and committing
 * what is already recorded changes nothing.
 */
module PlainCommits {
  import opened Prelude
  import opened Ranking
  import opened Store
  import opened Invariant

  lemma PlainInsertedKey(p: Db, batch: Batch, id: MessageId, k: Key)
    requires Schema(p) && Accepts(p, batch)
    requires id in PlainMessagesOf(p, batch) && HasKey(PlainMessagesOf(p, batch)[id], k)
    ensures id in p.messages ==> k !in CandsOf(p, batch) && HasKey(p.messages[id], k)
    ensures id !in p.messages ==> k in CandsOf(p, batch) && id == Stable(WritesOf(p, batch)[k].id)
  {
    if id in p.messages {
      assert KeyTaken(p.messages, k);
    } else {
      var j :| j in CandsOf(p, batch) && id == Stable(WritesOf(p, batch)[j].id);
    }
  }

  lemma PlainKeepsUnique(p: Db, batch: Batch)
    requires Linked(p) && Accepts(p, batch)
    ensures UniqueRequests(PlainMessagesOf(p, batch))
  {
    var messages := PlainMessagesOf(p, batch);
    forall a, b, k | a in messages && b in messages && HasKey(messages[a], k) && HasKey(messages[b], k)
      ensures a == b
    {
      PlainInsertedKey(p, batch, a, k);
      PlainInsertedKey(p, batch, b, k);
    }
  }

  /** Keys taken after a commit: those taken before, and the candidates. */
  lemma KeysAfter(p: Db, batch: Batch, k: Key)
    requires Schema(p) && Accepts(p, batch)
    ensures KeyTaken(PlainMessagesOf(p, batch), k) <==> KeyTaken(p.messages, k) || k in CandsOf(p, batch)
  {
    var messages := PlainMessagesOf(p, batch);
    if KeyTaken(messages, k) {
      PlainInsertedKey(p, batch, MessageOf(messages, k), k);
      if MessageOf(messages, k) in p.messages { assert HasKey(p.messages[MessageOf(messages, k)], k); }
    }
    if KeyTaken(p.messages, k) { assert HasKey(messages[MessageOf(p.messages, k)], k); }
    if k in CandsOf(p, batch) { assert HasKey(messages[Stable(WritesOf(p, batch)[k].id)], k); }
  }

  lemma PersistedIsTaken(p: Db, k: Key)
    requires k in p.writes && Settled(p, k)
    requires p.writes[k].status == PERSISTED || p.writes[k].status == FANOUTED
    ensures KeyTaken(p.messages, k)
  {
  }

  lemma CandidateWasPending(p: Db, batch: Batch, k: Key)
    requires Linked(p) && Accepts(p, batch) && k in CandsOf(p, batch)
    ensures WritesOf(p, batch)[k].status == PENDING
  {
    assert !KeyTaken(p.messages, k);
    if k in p.writes && p.writes[k].status != PENDING && p.writes[k].status != DEAD {
      PersistedIsTaken(p, k);
    }
  }

  lemma CandidateStatus(p: Db, batch: Batch, k: Key)
    requires Linked(p) && Accepts(p, batch) && k in CandsOf(p, batch)
    ensures PlainWritesOf(p, batch)[k].status == PERSISTED
  {
    KeysAfter(p, batch, k);
    CandidateWasPending(p, batch, k);
  }

  lemma PlainBacked(p: Db, batch: Batch, id: MessageId)
    requires Linked(p) && Accepts(p, batch)
    requires id in PlainMessagesOf(p, batch) && id.Stable?
    ensures Backed(PlainCommit(p, batch), id)
  {
    var p' := PlainCommit(p, batch);
    if id in p.messages {
      assert Backed(p, id);
      var k := Key(p.messages[id].senderId, p.messages[id].requestId.value);
    } else {
      var k :| k in CandsOf(p, batch) && id == Stable(WritesOf(p, batch)[k].id);
      CandidateStatus(p, batch, k);
    }
  }

  lemma MessageSurvives(before: Messages, after: Messages, k: Key, at: Option<int>)
    requires forall id | id in before :: id in after && after[id] == before[id]
    requires HasMessageAt(before, k, at)
    ensures HasMessageAt(after, k, at)
  {
    var id :| id in before && HasKey(before[id], k) && at == Some(before[id].createdAt);
    assert id in after && HasKey(after[id], k);
  }

  /** A row the status update touches points at the message it was matched with. */
  lemma TouchedIsSettled(messages: Messages, batch: Batch, writes: Writes, k: Key)
    requires k in writes && writes[k].status != FANOUTED
    requires k in batch && KeyTaken(messages, k)
    ensures
      var w := PlainStatus(messages, batch, writes, k);
      w.status == PERSISTED || w.status == FANOUTED ==> HasMessageAt(messages, k, w.persistedAt)
  {
    assert HasKey(messages[MessageOf(messages, k)], k);
  }

  lemma PlainSettled(p: Db, batch: Batch, k: Key)
    requires Linked(p) && Accepts(p, batch) && k in WritesOf(p, batch)
    ensures Settled(PlainCommit(p, batch), k)
  {
    var w, w' := WritesOf(p, batch)[k], PlainWritesOf(p, batch)[k];
    if k in batch && KeyTaken(PlainMessagesOf(p, batch), k) && w.status != FANOUTED {
      TouchedIsSettled(PlainMessagesOf(p, batch), batch, WritesOf(p, batch), k);
    } else if w'.status == PERSISTED || w'.status == FANOUTED {
      assert Settled(p, k);
      MessageSurvives(p.messages, PlainMessagesOf(p, batch), k, w.persistedAt);
    }
  }

  lemma PlainQueued(p: Db, batch: Batch, id: MessageId)
    requires Linked(p) && Accepts(p, batch) && id in PlainCommit(p, batch).outbox
    ensures Queued(PlainCommit(p, batch), id)
  {
    var p' := PlainCommit(p, batch);
    if id in p.outbox {
      assert Queued(p, id);
      if p.outbox[id].status == PUBLISHED {
        var k :| k in p.writes && p.writes[k].id == id.rank && p.writes[k].status == FANOUTED;
        assert k in p'.writes && p'.writes[k].id == id.rank && p'.writes[k].status == FANOUTED;
      }
    }
  }

  /** A commit keeps every link between the tables. */
  lemma PlainKeepsLinks(p: Db, batch: Batch)
    requires Linked(p) && Accepts(p, batch)
    ensures Linked(PlainCommit(p, batch))
  {
    var p' := PlainCommit(p, batch);
    PlainKeepsUnique(p, batch);
    forall id | id in p'.messages
      ensures Placed(p', id)
      ensures id.Stable? ==> Backed(p', id)
    {
      if id.Stable? { PlainBacked(p, batch, id); }
      if id in p.messages { assert Placed(p, id); }
    }
    forall k | k in p'.writes
      ensures Settled(p', k)
    {
      PlainSettled(p, batch, k);
    }
    forall id | id in p'.outbox
      ensures Queued(p', id)
    {
      PlainQueued(p, batch, id);
    }
  }
}
