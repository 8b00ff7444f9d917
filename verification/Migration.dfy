/**
 * The migration that introduces room order: existing messages are numbered by
 * (createdAt, id) in each room, and each room's counter is set past them.
 * It establishes the invariant the transactions then keep.
 */
module Migration {
  import opened Prelude
  import opened Ranking
  import opened Store
  import opened Invariant
  import opened Steps
  import opened Runs

  function StampAt(messages: Messages, id: MessageId): Stamp
    requires id in messages
  {
    Stamp(messages[id].createdAt, id)
  }

  function RoomStamps(messages: Messages, roomId: string): set<Stamp> {
    set id | id in messages && messages[id].roomId == roomId :: StampAt(messages, id)
  }

  /** UPDATE Message SET roomSequence = ROW_NUMBER() ... */
  function WithSequence(messages: Messages): Messages {
    map id | id in messages ::
      messages[id].(roomSequence := Rank(RoomStamps(messages, messages[id].roomId), StampAt(messages, id)) + 1)
  }

  /** DEFAULT 1, then MAX(roomSequence) + 1 for the rooms that have messages. */
  function NextSeq(messages: Messages, roomId: string): int {
    if NumbersOf(messages, roomId) == {} then 1 else MaxOf(NumbersOf(messages, roomId)) + 1
  }

  function Backfill(db: Db): Db {
    var messages := WithSequence(db.messages);
    db.(messages := messages,
        rooms := map r | r in db.rooms :: db.rooms[r].(nextMessageSeq := NextSeq(messages, r)))
  }

  /** A room of `n` messages gets the numbers 1 to `n`. */
  lemma BackfilledNumbers(messages: Messages, roomId: string)
    ensures NumbersOf(WithSequence(messages), roomId) == Below(|RoomStamps(messages, roomId)| + 1)
  {
    var after, stamps := WithSequence(messages), RoomStamps(messages, roomId);
    forall n | n in NumbersOf(after, roomId)
      ensures 1 <= n <= |stamps|
    {
      var id :| id in after && after[id].roomId == roomId && after[id].roomSequence == n;
      RankInRange(stamps, StampAt(messages, id));
    }
    forall n | n in Below(|stamps| + 1)
      ensures n in NumbersOf(after, roomId)
    {
      var p := RankOnto(stamps, n - 1);
      assert p.id in after && after[p.id].roomId == roomId && after[p.id].roomSequence == n;
    }
  }

  lemma BackfilledNext(messages: Messages, roomId: string)
    ensures NextSeq(WithSequence(messages), roomId) == |RoomStamps(messages, roomId)| + 1
  {
    BackfilledNumbers(messages, roomId);
    var n := |RoomStamps(messages, roomId)|;
    if n > 0 {
      assert n in Below(n + 1);
    }
  }

  /** Backfilled numbers follow (createdAt, id) inside a room, so they are distinct. */
  lemma BackfillFollowsTime(messages: Messages, a: MessageId, b: MessageId)
    requires a in messages && b in messages && a != b && messages[a].roomId == messages[b].roomId
    ensures messages[a].createdAt < messages[b].createdAt || (messages[a].createdAt == messages[b].createdAt && IdBefore(a, b))
       <==> WithSequence(messages)[a].roomSequence < WithSequence(messages)[b].roomSequence
    ensures WithSequence(messages)[a].roomSequence != WithSequence(messages)[b].roomSequence
  {
    RankStrict(RoomStamps(messages, messages[a].roomId), StampAt(messages, a), StampAt(messages, b));
  }

  lemma BackfillSequences(db: Db)
    requires forall id | id in db.messages :: db.messages[id].roomId in db.rooms
    ensures Sequenced(Backfill(db))
  {
    var after := Backfill(db);
    forall r | r in db.rooms
      ensures after.rooms[r].nextMessageSeq == |RoomStamps(db.messages, r)| + 1
      ensures NumbersOf(after.messages, r) == Below(after.rooms[r].nextMessageSeq)
    {
      BackfilledNumbers(db.messages, r);
      BackfilledNext(db.messages, r);
    }
    forall id | id in after.messages
      ensures InRange(after, id)
    {
      assert after.messages[id].roomSequence in NumbersOf(after.messages, db.messages[id].roomId);
    }
    forall a, b | a in after.messages && b in after.messages && SameSlot(after.messages[a], after.messages[b])
      ensures a == b
    {
      if a != b { BackfillFollowsTime(db.messages, a, b); }
    }
    forall r, n | r in after.rooms && 1 <= n < after.rooms[r].nextMessageSeq
      ensures HasSlot(after.messages, r, n)
    {
      assert n in NumbersOf(after.messages, r);
    }
  }

  /** The migration sets sequence numbers and counters and nothing else. */
  ghost predicate OnlyNumbersChange(db: Db, after: Db) {
    && after.users == db.users && after.writes == db.writes && after.outbox == db.outbox
    && after.messages.Keys == db.messages.Keys && after.rooms.Keys == db.rooms.Keys
    && (forall id | id in db.messages :: after.messages[id] == db.messages[id].(roomSequence := after.messages[id].roomSequence))
    && (forall r | r in db.rooms :: after.rooms[r] == db.rooms[r].(nextMessageSeq := after.rooms[r].nextMessageSeq))
  }

  lemma BackfillErased(db: Db)
    ensures Erase(Backfill(db)) == Erase(db).(rooms := Backfill(db).rooms)
  {
  }

  /** The migration establishes the whole invariant: every run may start from its result. */
  lemma BackfillEstablishes(db: Db, now: int)
    requires Linked(db) && db.outbox == map[]
    ensures Inv(Backfill(db)) && Init(System(Backfill(db), now, map[], map[], map[], map[]))
    ensures OnlyNumbersChange(db, Backfill(db))
  {
    forall id | id in db.messages
      ensures db.messages[id].roomId in db.rooms
    {
      assert Placed(db, id);
    }
    BackfillSequences(db);
    EraseKeepsLinks(db);
    BackfillErased(db);
    LinksCarryOver(Erase(db), Erase(Backfill(db)));
    EraseKeepsLinks(Backfill(db));
  }
}
