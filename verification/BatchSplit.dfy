/**
 * Committing a batch and then one more command with a new key leaves the same
 * plain tables as committing all of them together, and is accepted exactly
 * when the larger batch is.
 */
module BatchSplit {
  import opened Prelude
  import opened Ranking
  import opened Store
  import opened Invariant
  import opened PlainCommits

  ghost predicate Extends(batch: Batch, k: Key, c: Command) {
    k == KeyOf(c) && k !in batch
  }

  /** What acceptance of a later command can see of an earlier commit of `batch`. */
  ghost predicate Follows(p: Db, batch: Batch, q: Db) {
    && q.users == p.users && q.rooms.Keys == p.rooms.Keys
    && q.writes.Keys == p.writes.Keys + batch.Keys
    && (forall j | j in p.writes :: SameWrite(q.writes[j], p.writes[j]))
    && (forall j | j in p.writes && j !in batch :: q.writes[j] == p.writes[j])
    && (forall j | j in batch && j !in p.writes :: SameWrite(q.writes[j], PendingRow(batch[j])))
  }

  lemma CommitFollows(p: Db, batch: Batch)
    requires Schema(p) && Accepts(p, batch)
    ensures Follows(p, batch, PlainCommit(p, batch))
  {
    var writes := PlainWritesOf(p, batch);
    assert forall j | j in writes :: SameWrite(writes[j], WritesOf(p, batch)[j]);
  }

  lemma AcceptsLess(p: Db, batch: Batch, k: Key, c: Command)
    requires Extends(batch, k, c) && Accepts(p, batch[k := c])
    ensures Accepts(p, batch)
  {
    var more := batch[k := c];
    assert forall j | j in batch :: j in more && more[j] == batch[j];
    forall j | j in batch
      ensures Matches(WithInserted(p.writes, batch)[j], batch[j])
    {
      assert Matches(WithInserted(p.writes, more)[j], more[j]);
    }
  }

  lemma AcceptsRest(p: Db, batch: Batch, q: Db, k: Key, c: Command)
    requires Follows(p, batch, q) && Extends(batch, k, c) && Accepts(p, batch[k := c])
    ensures Accepts(q, map[k := c])
  {
    var more, one := batch[k := c], map[k := c];
    assert forall j | j in batch :: j in more && more[j] == batch[j];
    assert k in more && more[k] == c;
    assert Matches(WithInserted(p.writes, more)[k], more[k]);
    assert Matches(WithInserted(q.writes, one)[k], one[k]);
    forall j | j in q.writes && k !in q.writes
      ensures q.writes[j].id != c.messageId
    {
      assert j in p.writes || j in batch;
    }
  }

  lemma MatchesMore(p: Db, batch: Batch, q: Db, k: Key, c: Command)
    requires Follows(p, batch, q) && Extends(batch, k, c)
    requires AllMatch(WithInserted(p.writes, batch), batch) && AllMatch(WithInserted(q.writes, map[k := c]), map[k := c])
    ensures AllMatch(WithInserted(p.writes, batch[k := c]), batch[k := c])
  {
    var more, one := batch[k := c], map[k := c];
    assert k in one && one[k] == c;
    forall j | j in more
      ensures Matches(WithInserted(p.writes, more)[j], more[j])
    {
      if j == k {
        assert Matches(WithInserted(q.writes, one)[k], one[k]);
      } else {
        assert j in batch && more[j] == batch[j];
        assert Matches(WithInserted(p.writes, batch)[j], batch[j]);
      }
    }
  }

  lemma AcceptsMore(p: Db, batch: Batch, q: Db, k: Key, c: Command)
    requires Follows(p, batch, q) && Extends(batch, k, c)
    requires Accepts(p, batch) && Accepts(q, map[k := c])
    ensures Accepts(p, batch[k := c])
  {
    hide Follows, Insertable, AllMatch, WithInserted;
    InsertsMore(p, batch, q, k, c);
    MatchesMore(p, batch, q, k, c);
  }

  lemma FreshIds(p: Db, batch: Batch, q: Db, k: Key, c: Command)
    requires Follows(p, batch, q) && Extends(batch, k, c)
    requires Insertable(q, map[k := c])
    ensures k in q.writes <==> k in p.writes
    ensures forall j | j in p.writes && k !in p.writes :: p.writes[j].id != c.messageId
    ensures forall j | j in batch && j !in p.writes && k !in p.writes :: batch[j].messageId != c.messageId
  {
    hide ForeignKeysHold, IdsDistinct;
    assert k in map[k := c] && map[k := c][k] == c;
    forall j | j in p.writes && k !in p.writes
      ensures p.writes[j].id != c.messageId
    {
      assert q.writes[j].id == p.writes[j].id;
    }
    forall j | j in batch && j !in p.writes && k !in p.writes
      ensures batch[j].messageId != c.messageId
    {
      assert j in q.writes && q.writes[j].id == batch[j].messageId;
    }
  }

  lemma MoreForeignKeys(p: Db, batch: Batch, q: Db, k: Key, c: Command)
    requires Follows(p, batch, q) && Extends(batch, k, c)
    requires ForeignKeysHold(p, batch) && ForeignKeysHold(q, map[k := c])
    ensures ForeignKeysHold(p, batch[k := c])
  {
    assert k in map[k := c] && map[k := c][k] == c;
  }

  lemma MoreIdsFree(writes: Writes, batch: Batch, k: Key, c: Command)
    requires IdsFree(writes, batch)
    requires forall j | j in writes && k !in writes :: writes[j].id != c.messageId
    ensures IdsFree(writes, batch[k := c])
  {
    assert forall j | j in batch[k := c] && j != k :: j in batch && batch[k := c][j] == batch[j];
  }

  lemma MoreIdsDistinct(writes: Writes, batch: Batch, k: Key, c: Command)
    requires IdsDistinct(writes, batch) && k !in batch
    requires forall j | j in batch && j !in writes && k !in writes :: batch[j].messageId != c.messageId
    ensures IdsDistinct(writes, batch[k := c])
  {
    assert forall j | j in batch[k := c] && j != k :: j in batch && batch[k := c][j] == batch[j];
  }

  lemma InsertsMore(p: Db, batch: Batch, q: Db, k: Key, c: Command)
    requires Follows(p, batch, q) && Extends(batch, k, c)
    requires Insertable(p, batch) && Insertable(q, map[k := c])
    ensures Insertable(p, batch[k := c])
  {
    hide Follows, ForeignKeysHold, IdsFree, IdsDistinct;
    FreshIds(p, batch, q, k, c);
    MoreForeignKeys(p, batch, q, k, c);
    MoreIdsFree(p.writes, batch, k, c);
    MoreIdsDistinct(p.writes, batch, k, c);
  }

  /** The larger batch is accepted exactly when the two commits are. */
  lemma AcceptsSplit(p: Db, batch: Batch, k: Key, c: Command)
    requires Linked(p) && Extends(batch, k, c)
    ensures Accepts(p, batch[k := c]) <==> Accepts(p, batch) && Accepts(PlainCommit(p, batch), map[k := c])
  {
    if Accepts(p, batch[k := c]) {
      AcceptsLess(p, batch, k, c);
    }
    if Accepts(p, batch) {
      CommitFollows(p, batch);
      if Accepts(p, batch[k := c]) {
        AcceptsRest(p, batch, PlainCommit(p, batch), k, c);
      }
      if Accepts(PlainCommit(p, batch), map[k := c]) {
        AcceptsMore(p, batch, PlainCommit(p, batch), k, c);
      }
    }
  }

  // ---- the tables of the two ways round, one component at a time

  /** `more` has the rows of `less`, and `single` the row of `k` in it. */
  ghost predicate RowsAgree(less: Writes, more: Writes, single: Writes, k: Key) {
    && UniqueWriteIds(less) && UniqueWriteIds(more) && UniqueWriteIds(single)
    && k in more && k in single && single[k] == more[k]
    && less.Keys <= more.Keys
    && forall j | j in less :: less[j] == more[j]
  }

  lemma CandidateSplit(before: Messages, after: Messages, less: Writes, more: Writes, single: Writes,
                       batch: Batch, k: Key, c: Command)
    requires RowsAgree(less, more, single, k)
    requires batch.Keys <= less.Keys && k !in batch
    requires HasMessage(after, k, more[k].id) <==> HasMessage(before, k, more[k].id)
    ensures batch[k := c].Keys <= more.Keys && map[k := c].Keys <= single.Keys
    ensures Candidates(before, more, batch[k := c])
         == Candidates(before, less, batch) + Candidates(after, single, map[k := c])
  {
    assert batch[k := c].Keys == batch.Keys + {k};
    assert map[k := c].Keys == {k};
  }

  lemma RowsAgreeOn(less: Writes, more: Writes, single: Writes, k: Key, a: set<Key>, b: set<Key>)
    requires RowsAgree(less, more, single, k) && a <= less.Keys && b <= {k} && k !in a
    ensures UniqueWriteIds(less) && UniqueWriteIds(more) && UniqueWriteIds(single)
    ensures k in more && k in single && more[k] == single[k]
    ensures forall j | j in a :: j in more && more[j] == less[j] && more[j].id != more[k].id
  {
  }

  lemma PlainRowsUnion(writes: Writes, a: set<Key>, b: set<Key>)
    requires UniqueWriteIds(writes) && a <= writes.Keys && b <= writes.Keys
    ensures PlainRows(writes, a + b) == PlainRows(writes, a) + PlainRows(writes, b)
  {
  }

  lemma PlainRowsCongruent(v: Writes, w: Writes, keys: set<Key>)
    requires UniqueWriteIds(v) && UniqueWriteIds(w) && keys <= v.Keys && keys <= w.Keys
    requires forall j | j in keys :: v[j] == w[j]
    ensures PlainRows(v, keys) == PlainRows(w, keys)
  {
    assert forall j | j in keys :: Stable(v[j].id) == Stable(w[j].id);
  }

  lemma PlainRowsSplit(less: Writes, more: Writes, single: Writes, k: Key, a: set<Key>, b: set<Key>)
    requires RowsAgree(less, more, single, k)
    requires a <= less.Keys && b <= {k} && k !in a
    ensures a + b <= more.Keys && b <= single.Keys
    ensures PlainRows(more, a + b) == PlainRows(less, a) + PlainRows(single, b)
  {
    hide RowsAgree, PlainRows;
    RowsAgreeOn(less, more, single, k, a, b);
    PlainRowsUnion(more, a, b);
    PlainRowsCongruent(more, less, a);
    PlainRowsCongruent(more, single, b);
  }

  lemma OutboxOfUnion(writes: Writes, batch: Batch, a: set<Key>, b: set<Key>)
    requires UniqueWriteIds(writes) && a + b <= batch.Keys <= writes.Keys && a !! b
    ensures NewOutbox(writes, batch, a + b) == NewOutbox(writes, batch, b) + NewOutbox(writes, batch, a)
  {
    var left, right := NewOutbox(writes, batch, a + b), NewOutbox(writes, batch, b) + NewOutbox(writes, batch, a);
    forall id | id in left
      ensures id in right && right[id] == left[id]
    {
      var j :| j in a + b && id == Stable(writes[j].id);
      assert j in b ==> id !in NewOutbox(writes, batch, a);
    }
  }

  lemma OutboxCongruent(v: Writes, w: Writes, batch: Batch, other: Batch, keys: set<Key>)
    requires UniqueWriteIds(v) && UniqueWriteIds(w)
    requires keys <= batch.Keys <= v.Keys && keys <= other.Keys <= w.Keys
    requires forall j | j in keys :: v[j] == w[j] && batch[j] == other[j]
    ensures NewOutbox(v, batch, keys) == NewOutbox(w, other, keys)
  {
    var left, right := NewOutbox(v, batch, keys), NewOutbox(w, other, keys);
    forall id | id in left
      ensures id in right && right[id] == left[id]
    {
      var j :| j in keys && id == Stable(v[j].id);
      assert id == Stable(w[j].id);
    }
    forall id | id in right
      ensures id in left
    {
      var j :| j in keys && id == Stable(w[j].id);
      assert id == Stable(v[j].id);
    }
  }

  lemma NewOutboxSplit(less: Writes, more: Writes, single: Writes, batch: Batch, k: Key, c: Command, a: set<Key>, b: set<Key>)
    requires RowsAgree(less, more, single, k)
    requires a <= batch.Keys <= less.Keys && b <= {k} && k !in batch
    ensures a + b <= batch[k := c].Keys <= more.Keys && b <= map[k := c].Keys <= single.Keys
    ensures NewOutbox(more, batch[k := c], a + b) == NewOutbox(single, map[k := c], b) + NewOutbox(less, batch, a)
  {
    assert batch[k := c].Keys == batch.Keys + {k} && map[k := c].Keys == {k};
    OutboxOfUnion(more, batch[k := c], a, b);
    OutboxCongruent(more, less, batch[k := c], batch, a);
    OutboxCongruent(more, single, batch[k := c], map[k := c], b);
  }

  lemma WindowSplit(less: Writes, more: Writes, single: Writes, k: Key, a: set<Key>, b: set<Key>, r: string)
    requires RowsAgree(less, more, single, k)
    requires a <= less.Keys && b <= {k} && k !in a
    ensures a + b <= more.Keys && b <= single.Keys
    ensures |Window(more, a + b, r)| == |Window(less, a, r)| + |Window(single, b, r)|
    ensures Times(more, a + b, r) == Times(less, a, r) + Times(single, b, r)
  {
    var whole, left, right := Window(more, a + b, r), Window(less, a, r), Window(single, b, r);
    forall p | p in left
      ensures p in whole && p !in right
    {
      var j :| j in a && less[j].roomId == r && p == StampOf(less[j]);
      assert p == StampOf(more[j]);
    }
    forall p | p in whole
      ensures p in left || p in right
    {
      var j :| j in a + b && more[j].roomId == r && p == StampOf(more[j]);
      assert j in a ==> p == StampOf(less[j]);
    }
    forall p | p in right
      ensures p in whole
    {
      assert k in b && p == StampOf(more[k]);
    }
    assert whole == left + right;
    TimesSplit(less, more, single, k, a, b, r);
  }

  lemma TimesSplit(less: Writes, more: Writes, single: Writes, k: Key, a: set<Key>, b: set<Key>, r: string)
    requires RowsAgree(less, more, single, k)
    requires a <= less.Keys && b <= {k} && k !in a && a + b <= more.Keys && b <= single.Keys
    ensures Times(more, a + b, r) == Times(less, a, r) + Times(single, b, r)
  {
    forall t | t in Times(more, a + b, r)
      ensures t in Times(less, a, r) + Times(single, b, r)
    {
      var j :| j in a + b && more[j].roomId == r && t == more[j].acceptedAt;
      if j in a { assert t == less[j].acceptedAt && t in Times(less, a, r); }
    }
    forall t | t in Times(less, a, r) + Times(single, b, r)
      ensures t in Times(more, a + b, r)
    {
      if t in Times(less, a, r) {
        var j :| j in a && less[j].roomId == r && t == less[j].acceptedAt;
        assert t == more[j].acceptedAt;
      } else {
        assert t == more[k].acceptedAt;
      }
    }
  }

  lemma RoomAfterTwice(row: RoomRow, m: nat, n: nat, s: set<int>, t: set<int>)
    ensures RoomAfter(row, m + n, s + t) == RoomAfter(RoomAfter(row, m, s), n, t)
  {
    assert {row.lastMessageAt} + (s + t) == ({row.lastMessageAt} + s) + t;
    MaxOfUnion({row.lastMessageAt} + s, t);
  }

  lemma RoomSplit(rooms: Rooms, less: Writes, more: Writes, single: Writes, k: Key, a: set<Key>, b: set<Key>, r: string)
    requires RowsAgree(less, more, single, k) && r in rooms
    requires a <= less.Keys && b <= {k} && k !in a && a + b <= more.Keys && b <= single.Keys
    ensures RoomAfter(rooms[r], |Window(more, a + b, r)|, Times(more, a + b, r))
         == RoomAfter(RoomAfter(rooms[r], |Window(less, a, r)|, Times(less, a, r)),
                      |Window(single, b, r)|, Times(single, b, r))
  {
    WindowSplit(less, more, single, k, a, b, r);
    RoomAfterTwice(rooms[r], |Window(less, a, r)|, |Window(single, b, r)|, Times(less, a, r), Times(single, b, r));
  }

  lemma RoomsSplit(rooms: Rooms, less: Writes, more: Writes, single: Writes, k: Key, a: set<Key>, b: set<Key>)
    requires RowsAgree(less, more, single, k)
    requires a <= less.Keys && b <= {k} && k !in a && a + b <= more.Keys && b <= single.Keys
    ensures WithRooms(rooms, more, a + b, a + b) == WithRooms(WithRooms(rooms, less, a, a), single, b, b)
  {
    forall r | r in rooms
      ensures RoomAfter(rooms[r], |Window(more, a + b, r)|, Times(more, a + b, r))
           == RoomAfter(RoomAfter(rooms[r], |Window(less, a, r)|, Times(less, a, r)),
                        |Window(single, b, r)|, Times(single, b, r))
    {
      RoomSplit(rooms, less, more, single, k, a, b, r);
    }
  }

  /** A row settled by the first commit reads the same after the second. */
  lemma StatusSplit(mid: Messages, last: Messages, batch: Batch, less: Writes, more: Writes, k: Key, c: Command, j: Key)
    requires UniqueRequests(last) && k !in batch && j != k
    requires j in less && j in more && more[j] == less[j]
    requires forall id | id in mid :: id in last && last[id] == mid[id]
    requires KeyTaken(last, j) <==> KeyTaken(mid, j)
    ensures PlainStatus(last, batch[k := c], more, j) == PlainStatus(mid, batch, less, j)
  {
    if KeyTaken(mid, j) {
      assert HasKey(last[MessageOf(mid, j)], j) && HasKey(last[MessageOf(last, j)], j);
    }
  }

  ghost predicate Splits(p: Db, batch: Batch, q: Db, k: Key, c: Command) {
    && Schema(p) && Schema(q) && Extends(batch, k, c)
    && Accepts(p, batch) && Accepts(p, batch[k := c]) && Accepts(q, map[k := c])
    && Follows(p, batch, q)
  }

  lemma InsertedSplit(p: Writes, q: Writes, batch: Batch, k: Key, c: Command)
    requires k !in batch && q.Keys == p.Keys + batch.Keys
    requires k in p ==> q[k] == p[k]
    ensures
      var less, more, single := WithInserted(p, batch), WithInserted(p, batch[k := c]), WithInserted(q, map[k := c]);
      && more.Keys == less.Keys + {k} == single.Keys && single[k] == more[k]
      && less.Keys == q.Keys
      && (forall j | j in less :: more[j] == less[j] && single[j] == q[j])
  {
    assert batch[k := c].Keys == batch.Keys + {k} && map[k := c].Keys == {k};
    assert forall j | j in batch :: batch[k := c][j] == batch[j];
  }

  lemma RowsSplit(p: Db, batch: Batch, q: Db, k: Key, c: Command)
    requires Splits(p, batch, q, k, c)
    ensures RowsAgree(WithInserted(p.writes, batch), WithInserted(p.writes, batch[k := c]),
                      WithInserted(q.writes, map[k := c]), k)
    ensures WithInserted(q.writes, map[k := c]).Keys == WithInserted(p.writes, batch[k := c]).Keys
    ensures forall j | j in q.writes :: WithInserted(q.writes, map[k := c])[j] == q.writes[j]
  {
    InsertedSplit(p.writes, q.writes, batch, k, c);
    InsertedSchema(p, batch);
    InsertedSchema(p, batch[k := c]);
    InsertedSchema(q, map[k := c]);
  }

  lemma CandidatesSplit(p: Db, batch: Batch, q: Db, k: Key, c: Command)
    requires Splits(p, batch, q, k, c)
    requires q.messages == PlainMessagesOf(p, batch)
    ensures CandsOf(p, batch[k := c]) == CandsOf(p, batch) + CandsOf(q, map[k := c])
    ensures CandsOf(q, map[k := c]) <= {k}
  {
    var less, more, single := WithInserted(p.writes, batch), WithInserted(p.writes, batch[k := c]), WithInserted(q.writes, map[k := c]);
    RowsSplit(p, batch, q, k, c);
    assert HasMessage(q.messages, k, more[k].id) <==> HasMessage(p.messages, k, more[k].id) by {
      NoMessageArrives(p, batch, more, k);
    }
    CandidateSplit(p.messages, q.messages, less, more, single, batch, k, c);
  }

  lemma NoMessageArrives(p: Db, batch: Batch, more: Writes, k: Key)
    requires Schema(p) && Accepts(p, batch) && k !in batch && k in more && UniqueWriteIds(more)
    requires forall j | j in WithInserted(p.writes, batch) :: j in more && more[j] == WithInserted(p.writes, batch)[j]
    ensures HasMessage(PlainMessagesOf(p, batch), k, more[k].id) <==> HasMessage(p.messages, k, more[k].id)
  {
    KeysAfter(p, batch, k);
    forall j | j in CandsOf(p, batch)
      ensures WritesOf(p, batch)[j].id != more[k].id
    {
      assert j != k;
    }
  }

  lemma MessagesJoin(base: Messages, less: Writes, more: Writes, single: Writes, k: Key, a: set<Key>, b: set<Key>)
    requires RowsAgree(less, more, single, k)
    requires a <= less.Keys && b <= {k} && k !in a && a + b <= more.Keys && b <= single.Keys
    ensures base + PlainRows(more, a + b) == (base + PlainRows(less, a)) + PlainRows(single, b)
  {
    PlainRowsSplit(less, more, single, k, a, b);
  }

  lemma MergeAssociates(x: Outbox, y: Outbox, z: Outbox)
    ensures (x + y) + z == x + (y + z)
  {
  }

  lemma OutboxJoin(base: Outbox, less: Writes, more: Writes, single: Writes, batch: Batch, k: Key, c: Command, a: set<Key>, b: set<Key>)
    requires RowsAgree(less, more, single, k)
    requires a <= batch.Keys <= less.Keys && b <= {k} && k !in batch
    requires a + b <= batch[k := c].Keys <= more.Keys && b <= map[k := c].Keys <= single.Keys
    ensures WithOutbox(base, NewOutbox(more, batch[k := c], a + b))
         == WithOutbox(WithOutbox(base, NewOutbox(less, batch, a)), NewOutbox(single, map[k := c], b))
  {
    NewOutboxSplit(less, more, single, batch, k, c, a, b);
    MergeAssociates(NewOutbox(single, map[k := c], b), NewOutbox(less, batch, a), base);
  }

  /** The tables agree, once the rows and the candidates are known to. */
  lemma MessagesSplit(p: Db, batch: Batch, q: Db, k: Key, c: Command)
    requires Splits(p, batch, q, k, c) && q.messages == PlainMessagesOf(p, batch)
    ensures PlainMessagesOf(p, batch[k := c]) == PlainMessagesOf(q, map[k := c])
  {
    RowsSplit(p, batch, q, k, c);
    CandidatesSplit(p, batch, q, k, c);
    MessagesJoin(p.messages, WritesOf(p, batch), WritesOf(p, batch[k := c]), WritesOf(q, map[k := c]), k,
                 CandsOf(p, batch), CandsOf(q, map[k := c]));
  }

  lemma OutboxSplit(p: Db, batch: Batch, q: Db, k: Key, c: Command)
    requires Splits(p, batch, q, k, c) && q.messages == PlainMessagesOf(p, batch)
    requires q.outbox == PlainOutboxOf(p, batch)
    ensures PlainOutboxOf(p, batch[k := c]) == PlainOutboxOf(q, map[k := c])
  {
    RowsSplit(p, batch, q, k, c);
    CandidatesSplit(p, batch, q, k, c);
    OutboxJoin(p.outbox, WritesOf(p, batch), WritesOf(p, batch[k := c]), WritesOf(q, map[k := c]), batch, k, c,
               CandsOf(p, batch), CandsOf(q, map[k := c]));
  }

  lemma RoomTableSplit(p: Db, batch: Batch, q: Db, k: Key, c: Command)
    requires Splits(p, batch, q, k, c) && q.messages == PlainMessagesOf(p, batch)
    requires q.rooms == PlainRoomsOf(p, batch)
    ensures PlainRoomsOf(p, batch[k := c]) == PlainRoomsOf(q, map[k := c])
  {
    RowsSplit(p, batch, q, k, c);
    CandidatesSplit(p, batch, q, k, c);
    RoomsSplit(p.rooms, WritesOf(p, batch), WritesOf(p, batch[k := c]), WritesOf(q, map[k := c]), k,
               CandsOf(p, batch), CandsOf(q, map[k := c]));
  }

  lemma OthersNotTaken(p: Db, k: Key, c: Command, j: Key)
    requires Schema(p) && Accepts(p, map[k := c]) && j != k
    ensures KeyTaken(PlainMessagesOf(p, map[k := c]), j) <==> KeyTaken(p.messages, j)
  {
    KeysAfter(p, map[k := c], j);
    assert map[k := c].Keys == {k};
  }

  /** Updating the statuses of all rows at once, or of the batch and then of the last command. */
  lemma StatusTableSplit(mid: Messages, last: Messages, batch: Batch, less: Writes, more: Writes, single: Writes, k: Key, c: Command)
    requires UniqueRequests(last) && k !in batch && batch.Keys <= less.Keys
    requires forall id | id in mid :: id in last && last[id] == mid[id]
    requires forall j | j != k :: KeyTaken(last, j) <==> KeyTaken(mid, j)
    requires more.Keys == less.Keys + {k} == single.Keys && single[k] == more[k]
    requires forall j | j in less :: more[j] == less[j]
    requires forall j | j in less :: single[j] == PlainStatus(mid, batch, less, j)
    ensures PlainStatuses(last, batch[k := c], more) == PlainStatuses(last, map[k := c], single)
  {
    forall j | j in more
      ensures PlainStatus(last, batch[k := c], more, j) == PlainStatus(last, map[k := c], single, j)
    {
      if j != k {
        StatusSplit(mid, last, batch, less, more, k, c, j);
      }
    }
  }

  lemma OnlyLastArrives(p: Db, k: Key, c: Command)
    requires Schema(p) && Accepts(p, map[k := c])
    ensures forall j | j != k :: KeyTaken(PlainMessagesOf(p, map[k := c]), j) <==> KeyTaken(p.messages, j)
    ensures forall id | id in p.messages ::
              id in PlainMessagesOf(p, map[k := c]) && PlainMessagesOf(p, map[k := c])[id] == p.messages[id]
  {
    forall j | j != k
      ensures KeyTaken(PlainMessagesOf(p, map[k := c]), j) <==> KeyTaken(p.messages, j)
    {
      OthersNotTaken(p, k, c, j);
    }
  }

  lemma StatusesSplit(p: Db, batch: Batch, q: Db, k: Key, c: Command)
    requires Schema(p) && Accepts(p, batch) && Accepts(p, batch[k := c])
    requires Schema(q) && Accepts(q, map[k := c])
    requires k !in batch && (k in p.writes ==> k in q.writes && q.writes[k] == p.writes[k])
    requires q.messages == PlainMessagesOf(p, batch) && q.writes == PlainWritesOf(p, batch)
    requires UniqueRequests(PlainMessagesOf(q, map[k := c]))
    requires PlainMessagesOf(p, batch[k := c]) == PlainMessagesOf(q, map[k := c])
    ensures PlainWritesOf(p, batch[k := c]) == PlainWritesOf(q, map[k := c])
  {
    InsertedSplit(p.writes, q.writes, batch, k, c);
    OnlyLastArrives(q, k, c);
    StatusTableSplit(q.messages, PlainMessagesOf(q, map[k := c]), batch, WithInserted(p.writes, batch),
                     WithInserted(p.writes, batch[k := c]), WithInserted(q.writes, map[k := c]), k, c);
  }

  /** Committing the larger batch is committing the smaller one and then the last command. */
  lemma CommitSplit(p: Db, batch: Batch, k: Key, c: Command)
    requires Linked(p) && Extends(batch, k, c) && Accepts(p, batch[k := c])
    ensures Accepts(p, batch) && Accepts(PlainCommit(p, batch), map[k := c])
    ensures PlainCommit(p, batch[k := c]) == PlainCommit(PlainCommit(p, batch), map[k := c])
  {
    AcceptsSplit(p, batch, k, c);
    CommitFollows(p, batch);
    MessagesSplit(p, batch, PlainCommit(p, batch), k, c);
    OutboxSplit(p, batch, PlainCommit(p, batch), k, c);
    RoomTableSplit(p, batch, PlainCommit(p, batch), k, c);
    PlainKeepsUnique(p, batch[k := c]);
    StatusesSplit(p, batch, PlainCommit(p, batch), k, c);
  }
}
