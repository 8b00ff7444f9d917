/**
 * The writer's batch handler, with acknowledgements as a log: a batch is
 * committed whole or split in half, and a lone command is acked, dead-lettered
 * or handed back to the queue.
 */
module Writer {
  import opened Ranking
  import opened Store
  import opened Invariant
  import opened Commits
  import opened Steps
  import opened BatchHandling
  import opened Database
  import opened Processor
  import opened OutboxDrain
  import opened FanoutErasure

  lemma RecordedStays(a: Db, b: Db, c: Command)
    requires Advances(a, b) && Recorded(a.writes, c)
    ensures Recorded(b.writes, c)
  {
    assert WriteAdvances(a.writes[KeyOf(c)], b.writes[KeyOf(c)]);
  }

  /** A recorded command is dead, or a message with its key is stored. */
  lemma RecordedMeans(db: Db, c: Command)
    requires Inv(db) && Recorded(db.writes, c)
    ensures db.writes[KeyOf(c)].status == DEAD || KeyTaken(db.messages, KeyOf(c))
  {
    assert Settled(db, KeyOf(c));
  }

  /**
   * One settlement per entry, in order; an ack below the last delivery attempt
   * means the command is on record.
   */
  ghost predicate Settles(added: seq<Settlement>, entries: seq<Entry>, writes: Writes, maxAttempts: nat) {
    && |added| == |entries|
    && forall i | 0 <= i < |entries| ::
         && added[i].tag == entries[i].tag
         && (added[i].Acked? && entries[i].attempt < maxAttempts ==> Recorded(writes, entries[i].command))
  }

  /** In the tables: below the last attempt, what is acked is marked dead or stored under its key. */
  ghost predicate AckedIsStored(added: seq<Settlement>, entries: seq<Entry>, db: Db, maxAttempts: nat)
    requires |added| == |entries|
  {
    forall i | 0 <= i < |entries| && added[i].Acked? && entries[i].attempt < maxAttempts ::
      var k := KeyOf(entries[i].command);
      (k in db.writes && db.writes[k].status == DEAD) || KeyTaken(db.messages, k)
  }

  lemma SettledIsStored(added: seq<Settlement>, entries: seq<Entry>, db: Db, maxAttempts: nat)
    requires Inv(db) && Settles(added, entries, db.writes, maxAttempts)
    ensures AckedIsStored(added, entries, db, maxAttempts)
  {
    hide Inv, KeyTaken;
    forall i | 0 <= i < |entries| && added[i].Acked? && entries[i].attempt < maxAttempts
      ensures
        var k := KeyOf(entries[i].command);
        (k in db.writes && db.writes[k].status == DEAD) || KeyTaken(db.messages, k)
    {
      RecordedMeans(db, entries[i].command);
    }
  }

  lemma SettlesBoth(left: seq<Settlement>, right: seq<Settlement>, x: seq<Entry>, y: seq<Entry>, a: Db, b: Db, maxAttempts: nat)
    requires Settles(left, x, a.writes, maxAttempts) && Settles(right, y, b.writes, maxAttempts) && Advances(a, b)
    ensures Settles(left + right, x + y, b.writes, maxAttempts)
  {
    hide Advances;
    forall i | 0 <= i < |x| && left[i].Acked? && x[i].attempt < maxAttempts
      ensures Recorded(b.writes, x[i].command)
    {
      RecordedStays(a, b, x[i].command);
    }
  }

  lemma AcksSettle(entries: seq<Entry>, committed: Db, after: Db, maxAttempts: nat)
    requires Advances(committed, after)
    requires forall c | c in Commands(entries) :: Recorded(committed.writes, c)
    ensures Settles(Acks(entries), entries, after.writes, maxAttempts)
  {
    hide Advances;
    forall i | 0 <= i < |entries|
      ensures Recorded(after.writes, entries[i].command)
    {
      assert Commands(entries)[i] in Commands(entries);
      RecordedStays(committed, after, entries[i].command);
    }
  }

  /** One settlement per entry, in order, and what is acked below the last attempt is on record, and stored or dead. */
  ghost predicate Accounted(added: seq<Settlement>, entries: seq<Entry>, db: Db, maxAttempts: nat) {
    Settles(added, entries, db.writes, maxAttempts) && AckedIsStored(added, entries, db, maxAttempts)
  }

  lemma AccountedBoth(left: seq<Settlement>, right: seq<Settlement>, x: seq<Entry>, y: seq<Entry>, a: Db, b: Db, maxAttempts: nat)
    requires Accounted(left, x, a, maxAttempts) && Accounted(right, y, b, maxAttempts) && Advances(a, b) && Inv(b)
    ensures Accounted(left + right, x + y, b, maxAttempts)
  {
    hide Inv, Advances, AckedIsStored;
    SettlesBoth(left, right, x, y, a, b, maxAttempts);
    SettledIsStored(left + right, x + y, b, maxAttempts);
  }

  // ---- fanout after a commit

  /** At least `limit` events have gone out, or no outbox row was due at `at`. */
  ghost predicate CaughtUp(before: nat, after: nat, outbox: Outbox, at: int, limit: nat) {
    after >= before + limit || forall id | id in outbox :: !Claimable(outbox[id], at, 30_000)
  }

  ghost predicate SomeAcked(added: seq<Settlement>) {
    exists i :: 0 <= i < |added| && added[i].Acked?
  }

  lemma DrainCatchesUp(before: Outbox, after: Outbox, ids: set<MessageId>, limit: nat, at: int, events: nat)
    requires OthersUntouched(before, after, ids)
    requires |ids| == limit || forall id | id in before && Claimable(before[id], at, 30_000) :: id in ids
    requires forall id | id in ids :: id in after && after[id].status == PUBLISHED
    ensures CaughtUp(events, events + |ids|, after, at, limit)
  {
  }

  /** Having caught up since some point is having caught up since an earlier one, also when more is sent and no row changes. */
  lemma StillCaughtUp(earlier: nat, before: nat, after: nat, later: nat, outbox: Outbox, at: int, limit: nat)
    requires earlier <= before && after <= later && limit >= 100 && CaughtUp(before, after, outbox, at, limit)
    ensures CaughtUp(earlier, later, outbox, at, 100)
  {
  }

  lemma DrainErased(before: Db, after: Db)
    requires DrainKeeps(before, after)
    ensures Unfanned(after) == Unfanned(before)
  {
    assert UnfannedWrites(after.writes) == UnfannedWrites(before.writes);
    assert UnfannedOutbox(after.outbox) == UnfannedOutbox(before.outbox);
  }

  /** What was genuine stays so, and more genuine events may follow. */
  lemma StillGenuine(from: seq<RoomEvent>, middle: seq<RoomEvent>, to: seq<RoomEvent>, before: Db, after: Db)
    requires from <= middle <= to && Advances(before, after)
    requires Genuine(middle[|from|..], before.messages, before.outbox) && Genuine(to[|middle|..], after.messages, after.outbox)
    ensures Genuine(to[|from|..], after.messages, after.outbox)
  {
    assert to[|from|..] == middle[|from|..] + to[|middle|..];
  }

  lemma NothingAdded(events: seq<RoomEvent>, db: Db)
    ensures Genuine(events[|events|..], db.messages, db.outbox)
  {
  }

  lemma AcksSomething(batch: seq<Entry>)
    requires batch != []
    ensures SomeAcked(Acks(batch))
  {
    assert Acks(batch)[0].Acked?;
  }

  lemma AckedInHalves(left: seq<Settlement>, right: seq<Settlement>)
    ensures SomeAcked(left + right) <==> SomeAcked(left) || SomeAcked(right)
  {
    var both := left + right;
    assert forall i | 0 <= i < |left| :: both[i] == left[i];
    assert forall i | 0 <= i < |right| :: both[|left| + i] == right[i];
  }

  /** Erased, a commit of a batch is a commit of the batch on the erased tables. */
  lemma ErasedCommit(db: Db, batch: seq<Entry>)
    requires Inv(db) && Schema(db)
    ensures Schema(Erasure(db)) && CommitCommands(Erasure(db), Commands(batch)) == UnfannedResult(CommitCommands(db, Commands(batch)))
  {
    UnfannedIsSound(db);
    UnfannedCommands(db, Commands(batch));
  }

  /** Tables and settlements are those of the specified handling of some entries. */
  ghost predicate HandledAs(before: Db, after: Db, added: seq<Settlement>, entries: seq<Entry>, maxAttempts: nat)
    requires Inv(before)
  {
    Outcome(after, added) == HandleBatch(before, entries, maxAttempts)
  }

  lemma HandledWhole(db: Db, after: Db, batch: seq<Entry>, maxAttempts: nat)
    requires Inv(db) && Schema(db) && CommitCommands(db, Commands(batch)).Ok? && after == CommitCommands(db, Commands(batch)).value.db
    ensures HandledAs(db, after, Acks(batch), batch, maxAttempts)
  {
    hide Inv, Schema, CommitCommands, HandleOne;
  }

  lemma HandledHalves(db: Db, middle: Db, after: Db, left: seq<Settlement>, right: seq<Settlement>, batch: seq<Entry>, maxAttempts: nat)
    requires Inv(db) && Schema(db) && Inv(middle) && |batch| > 1 && CommitCommands(db, Commands(batch)).Err?
    requires HandledAs(db, middle, left, batch[..(|batch| + 1) / 2], maxAttempts)
    requires HandledAs(middle, after, right, batch[(|batch| + 1) / 2..], maxAttempts)
    ensures HandledAs(db, after, left + right, batch, maxAttempts)
  {
    hide Inv, Schema, CommitCommands, HandleOne;
  }

  lemma HandledAlone(db: Db, after: Db, added: seq<Settlement>, batch: seq<Entry>, maxAttempts: nat)
    requires Inv(db) && Schema(db) && |batch| == 1 && CommitCommands(db, Commands(batch)).Err?
    requires Outcome(after, added) == HandleOne(db, batch[0], maxAttempts)
    ensures HandledAs(db, after, added, batch, maxAttempts)
  {
    hide Inv, Schema, CommitCommands, HandleOne;
  }

  /** The same for the tables as they are and with fanout erased, whichever the conditions allow. */
  ghost predicate HandledLike(before: Db, after: Db, added: seq<Settlement>, entries: seq<Entry>, maxAttempts: nat, exactly: bool)
    requires Inv(before) && Inv(after)
  {
    && HandledAs(Erasure(before), Erasure(after), added, entries, maxAttempts)
    && (exactly ==> HandledAs(before, after, added, entries, maxAttempts))
    && (!SomeAcked(added) ==> after == before)
  }

  /** So the settlements are those of the entries one at a time, and the tables too, but for numbering and fanout's progress. */
  lemma HandledIsFold(before: Db, after: Db, added: seq<Settlement>, entries: seq<Entry>, maxAttempts: nat, exactly: bool)
    requires Inv(before) && Inv(after) && HandledLike(before, after, added, entries, maxAttempts, exactly)
    ensures Equivalent(Outcome(Erasure(after), added), HandleInOrder(Erasure(before), entries, maxAttempts))
  {
    hide Inv, HandleBatch, HandleInOrder, Unfanned;
    BatchRefinesFold(Erasure(before), Erasure(before), entries, maxAttempts);
  }

  lemma LikeWhole(db: Db, after: Db, batch: seq<Entry>, maxAttempts: nat, exactly: bool)
    requires Inv(db) && Schema(db) && Inv(after) && batch != [] && CommitCommands(db, Commands(batch)).Ok?
    requires Unfanned(after) == Unfanned(CommitCommands(db, Commands(batch)).value.db)
    requires exactly ==> after == CommitCommands(db, Commands(batch)).value.db
    ensures HandledLike(db, after, Acks(batch), batch, maxAttempts, exactly)
  {
    hide Inv, Schema, CommitCommands, HandledAs, Unfanned;
    AcksSomething(batch);
    ErasedCommit(db, batch);
    HandledWhole(Erasure(db), Erasure(after), batch, maxAttempts);
    if exactly { HandledWhole(db, after, batch, maxAttempts); }
  }

  lemma LikeHalves(db: Db, middle: Db, after: Db, left: seq<Settlement>, right: seq<Settlement>, batch: seq<Entry>,
                   maxAttempts: nat, exactly: bool)
    requires Inv(db) && Schema(db) && Inv(middle) && Inv(after) && |batch| > 1 && CommitCommands(db, Commands(batch)).Err?
    requires HandledLike(db, middle, left, batch[..(|batch| + 1) / 2], maxAttempts, exactly)
    requires HandledLike(middle, after, right, batch[(|batch| + 1) / 2..], maxAttempts, exactly)
    ensures HandledLike(db, after, left + right, batch, maxAttempts, exactly)
  {
    hide Inv, Schema, CommitCommands, HandledAs, Unfanned, SomeAcked;
    AckedInHalves(left, right);
    ErasedCommit(db, batch);
    HandledHalves(Erasure(db), Erasure(middle), Erasure(after), left, right, batch, maxAttempts);
    if exactly { HandledHalves(db, middle, after, left, right, batch, maxAttempts); }
  }

  /** Fanout is caught up as of the last half that acknowledged something. */
  lemma BothCatchUp(left: seq<Settlement>, right: seq<Settlement>, before: nat, half: nat, after: nat, middle: Db, db: Db,
                    at: int, second: int)
    requires before <= half <= after && (!SomeAcked(right) ==> db == middle)
    requires SomeAcked(left) ==> CaughtUp(before, half, middle.outbox, at, 100)
    requires SomeAcked(right) ==> CaughtUp(half, after, db.outbox, second, 100)
    ensures SomeAcked(left + right) ==> CaughtUp(before, after, db.outbox, if SomeAcked(right) then second else at, 100)
  {
    AckedInHalves(left, right);
    hide SomeAcked, CaughtUp;
    if SomeAcked(right) {
      StillCaughtUp(before, half, after, after, db.outbox, second, 100);
    } else if SomeAcked(left) {
      StillCaughtUp(before, before, half, after, db.outbox, at, 100);
    }
  }

  lemma UnackedUnchanged(before: Db, after: Db, added: seq<Settlement>, entries: seq<Entry>, maxAttempts: nat, exactly: bool)
    requires Inv(before) && Inv(after) && HandledLike(before, after, added, entries, maxAttempts, exactly)
    ensures !SomeAcked(added) ==> after == before
  {
  }

  lemma LikeAlone(db: Db, after: Db, added: seq<Settlement>, batch: seq<Entry>, maxAttempts: nat, exactly: bool)
    requires Inv(db) && Schema(db) && Inv(after) && |batch| == 1 && CommitCommands(db, Commands(batch)).Err?
    requires OneLike(db, after, added, batch[0], maxAttempts, exactly)
    ensures HandledLike(db, after, added, batch, maxAttempts, exactly)
  {
    hide Inv, Schema, CommitCommands, HandledAs, Unfanned, SomeAcked, HandleOne;
    ErasedCommit(db, batch);
    HandledAlone(Erasure(db), Erasure(after), added, batch, maxAttempts);
    if exactly { HandledAlone(db, after, added, batch, maxAttempts); }
  }

  /** What one entry comes to, likewise. */
  ghost predicate OneLike(before: Db, after: Db, added: seq<Settlement>, e: Entry, maxAttempts: nat, exactly: bool)
    requires Inv(before) && Inv(after)
  {
    && Outcome(Erasure(after), added) == HandleOne(Erasure(before), e, maxAttempts)
    && (exactly ==> Outcome(after, added) == HandleOne(before, e, maxAttempts))
    && (!SomeAcked(added) ==> after == before)
  }

  ghost predicate Readable(entries: seq<Entry>) {
    forall i | 0 <= i < |entries| :: ColonFree(KeyOf(entries[i].command))
  }

  /** What a stretch of handling found and left: tables, settlements, and events sent; and when fanout last ran. */
  datatype Stretch = Stretch(before: Db, after: Db, added: seq<Settlement>, sentBefore: seq<RoomEvent>, sentAfter: seq<RoomEvent>, at: int)

  /** The batch handler's promises about one stretch. */
  ghost predicate Handled(x: Stretch, entries: seq<Entry>, maxAttempts: nat, reliable: bool, exactly: bool, free: bool, sends: bool) {
    && Inv(x.before) && Inv(x.after) && Advances(x.before, x.after) && Accounted(x.added, entries, x.after, maxAttempts)
    && (reliable ==> HandledLike(x.before, x.after, x.added, entries, maxAttempts, exactly))
    && (sends ==> x.sentBefore <= x.sentAfter && Genuine(x.sentAfter[|x.sentBefore|..], x.after.messages, x.after.outbox))
    && (free && SomeAcked(x.added) ==> CaughtUp(|x.sentBefore|, |x.sentAfter|, x.after.outbox, x.at, 100))
  }

  lemma JoinHalves(x: Stretch, y: Stretch, batch: seq<Entry>, maxAttempts: nat, reliable: bool, exactly: bool, free: bool, sends: bool)
    requires |batch| > 1 && y.before == x.after && y.sentBefore == x.sentAfter
    requires Handled(x, batch[..(|batch| + 1) / 2], maxAttempts, reliable, exactly, free, sends)
    requires Handled(y, batch[(|batch| + 1) / 2..], maxAttempts, reliable, exactly, free, sends)
    requires (free ==> reliable && sends) && Schema(x.before)
    requires reliable ==> CommitCommands(x.before, Commands(batch)).Err?
    ensures
      var at := if SomeAcked(y.added) then y.at else x.at;
      Handled(Stretch(x.before, y.after, x.added + y.added, x.sentBefore, y.sentAfter, at),
              batch, maxAttempts, reliable, exactly, free, sends)
  {
    hide Inv, Schema, Advances, CommitCommands, Accounted, Unfanned, CaughtUp, Genuine, SomeAcked, HandledLike;
    var midpoint := (|batch| + 1) / 2;
    var first, rest := batch[..midpoint], batch[midpoint..];
    assert batch == first + rest;
    AdvancesTransitive(x.before, x.after, y.after);
    AccountedBoth(x.added, y.added, first, rest, x.after, y.after, maxAttempts);
    if sends {
      StillGenuine(x.sentBefore, x.sentAfter, y.sentAfter, x.after, y.after);
    }
    if reliable {
      LikeHalves(x.before, x.after, y.after, x.added, y.added, batch, maxAttempts, exactly);
      UnackedUnchanged(x.after, y.after, y.added, rest, maxAttempts, exactly);
    }
    if free {
      BothCatchUp(x.added, y.added, |x.sentBefore|, |x.sentAfter|, |y.sentAfter|, x.after, y.after, x.at, y.at);
    }
  }

  lemma AcksAccounted(batch: seq<Entry>, db: Db, maxAttempts: nat)
    requires Inv(db) && Settles(Acks(batch), batch, db.writes, maxAttempts)
    ensures Accounted(Acks(batch), batch, db, maxAttempts)
  {
    hide Inv, Settles, AckedIsStored;
    SettledIsStored(Acks(batch), batch, db, maxAttempts);
  }

  lemma OnlyEntry(batch: seq<Entry>)
    requires |batch| == 1 && Readable(batch)
    ensures batch == [batch[0]] && ColonFree(KeyOf(batch[0].command))
  {
  }

  lemma Slices(from: seq<Settlement>, half: seq<Settlement>, all: seq<Settlement>)
    requires from <= half <= all
    ensures from <= all && all[|from|..] == half[|from|..] + all[|half|..]
  {
  }

  lemma ReadableParts(batch: seq<Entry>, midpoint: nat)
    requires Readable(batch) && midpoint <= |batch|
    ensures Readable(batch[..midpoint]) && Readable(batch[midpoint..]) && batch == batch[..midpoint] + batch[midpoint..]
  {
  }

  class MessageWriter {
    const db: MessageDatabase
    const publisher: EventPublisher?
    const maxDeliveryAttempts: nat
    const disableFanout: bool
    var settlements: seq<Settlement>

    constructor (db: MessageDatabase, publisher: EventPublisher?, maxDeliveryAttempts: nat, disableFanout: bool)
      ensures this.db == db && this.publisher == publisher && settlements == []
      ensures this.maxDeliveryAttempts == maxDeliveryAttempts && this.disableFanout == disableFanout
    {
      this.db := db;
      this.publisher := publisher;
      this.maxDeliveryAttempts := maxDeliveryAttempts;
      this.disableFanout := disableFanout;
      this.settlements := [];
    }

    /** The events since `from` are the old ones and genuine new ones. */
    ghost predicate Sends(from: seq<RoomEvent>)
      requires publisher != null
      reads this, db, publisher
    {
      from <= publisher.events && Genuine(publisher.events[|from|..], db.messages, db.outbox)
    }

    /** Fanout is on, and the database, the channel and the locks are all at this writer's disposal. */
    ghost predicate FansOutFreely()
      reads publisher, db
    {
      !disableFanout && publisher != null && publisher.reliable && db.reliable && db.alone
    }

    /** The fanout that follows a commit, unless it is switched off; false when it throws. */
    method Fanout(limit: nat) returns (ok: bool, ghost at: int)
      requires db.Valid()
      modifies db, publisher
      ensures db.Valid() && DrainKeeps(old(db.Snapshot()), db.Snapshot())
      ensures disableFanout ==> ok && db.Snapshot() == old(db.Snapshot())
      ensures db.reliable ==> ok
      ensures publisher != null ==> Sends(old(publisher.events))
      ensures FansOutFreely() ==> CaughtUp(|old(publisher.events)|, |publisher.events|, db.outbox, at, limit)
    {
      hide Inv, Advances, CaughtUp, Claimable;
      AdvancesReflexive(db.Snapshot());
      if publisher != null {
        NothingAdded(publisher.events, db.Snapshot());
      }
      if disableFanout {
        return true, 0;
      }
      var now: int := *;
      var r, ids := DrainMessageOutbox(db, publisher, limit, 30_000, now);
      ok, at := r.Ok?, now;
      if FansOutFreely() {
        DrainCatchesUp(old(db.outbox), db.outbox, ids, limit, now, |old(publisher.events)|);
      }
    }

    /**
     * `handleSingleMessageWrite`: settles its entry once. When the database
     * works the settlement and, fanout's progress aside, the tables are the
     * specified ones, and an ack leaves fanout caught up.
     */
    method HandleSingleMessageWrite(entry: Entry) returns (ghost at: int)
      requires db.Valid() && ColonFree(KeyOf(entry.command))
      modifies this`settlements, db, publisher
      ensures db.Valid() && Advances(old(db.Snapshot()), db.Snapshot())
      ensures old(settlements) <= settlements
      ensures Accounted(settlements[|old(settlements)|..], [entry], db.Snapshot(), maxDeliveryAttempts)
      ensures db.reliable ==>
                OneLike(old(db.Snapshot()), db.Snapshot(), settlements[|old(settlements)|..], entry, maxDeliveryAttempts, disableFanout)
      ensures publisher != null ==> Sends(old(publisher.events))
      ensures FansOutFreely() && SomeAcked(settlements[|old(settlements)|..]) ==>
                CaughtUp(|old(publisher.events)|, |publisher.events|, db.outbox, at, 100)
    {
      hide Inv, Advances, CommitCommands, DeadLetter, Recorded, AckedIsStored, Unfanned, CaughtUp, Genuine, OnlyFannedOut;
      ghost var start, from := db.Snapshot(), settlements;
      UnfannedOne(start, entry, maxDeliveryAttempts);
      at := 0;
      var r := ProcessMessageWriteCommand(db, entry.command, entry.attempt, maxDeliveryAttempts);
      ghost var stored := db.Snapshot();
      if publisher != null {
        NothingAdded(publisher.events, stored);
      }
      if r.Ok? {
        var ok, drained := Fanout(100);
        at := drained;
        AdvancesTransitive(start, stored, db.Snapshot());
        DrainErased(stored, db.Snapshot());
        if ok {
          settlements := settlements + [Acked(entry.tag)];
          if entry.attempt < maxDeliveryAttempts {
            RecordedStays(stored, db.Snapshot(), entry.command);
          }
          assert settlements[|from|..] == [Acked(entry.tag)] && settlements[|from|..][0].Acked?;
          SettledIsStored([Acked(entry.tag)], [entry], db.Snapshot(), maxDeliveryAttempts);
          return;
        }
      }
      settlements := settlements + [Nacked(entry.tag)];
      assert settlements[|from|..] == [Nacked(entry.tag)];
      SettledIsStored([Nacked(entry.tag)], [entry], db.Snapshot(), maxDeliveryAttempts);
    }

    method AckAll(entries: seq<Entry>)
      modifies this`settlements
      ensures settlements == old(settlements) + Acks(entries)
    {
      for i := 0 to |entries|
        invariant settlements == old(settlements) + Acks(entries)[..i]
      {
        settlements := settlements + [Acked(entries[i].tag)];
      }
    }

    /** The body of the handler's try block; false when it throws. */
    method CommitWhole(batch: seq<Entry>) returns (ok: bool, ghost at: int)
      requires db.Valid() && Readable(batch)
      modifies this`settlements, db, publisher
      ensures db.Valid() && Advances(old(db.Snapshot()), db.Snapshot())
      ensures ok ==> settlements == old(settlements) + Acks(batch)
                     && Settles(Acks(batch), batch, db.writes, maxDeliveryAttempts)
      ensures !ok ==> settlements == old(settlements)
      ensures db.reliable && disableFanout ==>
                match CommitCommands(old(db.Snapshot()), Commands(batch))
                case Ok(c) => ok && db.Snapshot() == c.db
                case Err(_) => !ok && db.Snapshot() == old(db.Snapshot())
      ensures db.reliable ==>
                match CommitCommands(old(db.Snapshot()), Commands(batch))
                case Ok(c) => ok && Unfanned(db.Snapshot()) == Unfanned(c.db)
                case Err(_) => !ok && db.Snapshot() == old(db.Snapshot())
      ensures publisher != null ==> Sends(old(publisher.events))
      ensures FansOutFreely() && ok ==>
                CaughtUp(|old(publisher.events)|, |publisher.events|, db.outbox, at, if |batch| > 100 then |batch| else 100)
    {
      hide Inv, Advances, CommitCommands, Recorded, Unfanned, CaughtUp, Genuine, OnlyFannedOut;
      ghost var start := db.Snapshot();
      var r := ProcessMessageWriteCommands(db, Commands(batch));
      ghost var stored := db.Snapshot();
      if publisher != null {
        NothingAdded(publisher.events, stored);
      }
      if r.Err? {
        return false, 0;
      }
      CommitRecords(start, Commands(batch));
      ok, at := Fanout(if |batch| > 100 then |batch| else 100);
      AdvancesTransitive(start, stored, db.Snapshot());
      DrainErased(stored, db.Snapshot());
      if ok {
        AckAll(batch);
        AcksSettle(batch, stored, db.Snapshot(), maxDeliveryAttempts);
      }
    }

    /** A batch that could not be committed whole: its first half, then the rest. */
    method HandleHalves(batch: seq<Entry>) returns (ghost at: int)
      requires db.Valid() && Readable(batch) && |batch| > 1
      requires db.reliable ==> CommitCommands(db.Snapshot(), Commands(batch)).Err?
      modifies this`settlements, db, publisher
      ensures db.Valid() && Advances(old(db.Snapshot()), db.Snapshot())
      ensures old(settlements) <= settlements
      ensures Accounted(settlements[|old(settlements)|..], batch, db.Snapshot(), maxDeliveryAttempts)
      ensures db.reliable ==>
                HandledLike(old(db.Snapshot()), db.Snapshot(), settlements[|old(settlements)|..], batch, maxDeliveryAttempts, disableFanout)
      ensures publisher != null ==> Sends(old(publisher.events))
      ensures FansOutFreely() && SomeAcked(settlements[|old(settlements)|..]) ==>
                CaughtUp(|old(publisher.events)|, |publisher.events|, db.outbox, at, 100)
      decreases |batch|, 0
    {
      assert Schema(db.Snapshot());
      hide Inv, Schema, Advances, CommitCommands, Recorded, AckedIsStored, Unfanned, CaughtUp, Genuine, Settles, SomeAcked,
        Accounted, HandledLike, OneLike, Readable;
      ghost var start, from := db.Snapshot(), settlements;
      ghost var sent := if publisher != null then publisher.events else [];
      var midpoint := (|batch| + 1) / 2;
      var first, rest := batch[..midpoint], batch[midpoint..];
      ReadableParts(batch, midpoint);
      at := HandleMessageBatch(first);
      ghost var middle, half := db.Snapshot(), settlements;
      ghost var sentHalf := if publisher != null then publisher.events else [];
      ghost var second := HandleMessageBatch(rest);
      ghost var left, right := half[|from|..], settlements[|half|..];
      ghost var sentEnd := if publisher != null then publisher.events else [];
      Slices(from, half, settlements);
      JoinHalves(Stretch(start, middle, left, sent, sentHalf, at), Stretch(middle, db.Snapshot(), right, sentHalf, sentEnd, second),
                 batch, maxDeliveryAttempts, db.reliable, disableFanout, FansOutFreely(), publisher != null);
      at := if SomeAcked(right) then second else at;
    }

    /**
     * `handleMessageBatch`: terminates and settles every entry exactly once, in
     * order, whatever fails. When the database works, the settlements and,
     * fanout's progress aside, the tables are the specified ones, and so those
     * of handling the commands one at a time; and an ack leaves fanout caught up.
     */
    method HandleMessageBatch(batch: seq<Entry>) returns (ghost at: int)
      requires db.Valid() && Readable(batch) && batch != []
      modifies this`settlements, db, publisher
      ensures db.Valid() && Advances(old(db.Snapshot()), db.Snapshot())
      ensures old(settlements) <= settlements
      ensures Accounted(settlements[|old(settlements)|..], batch, db.Snapshot(), maxDeliveryAttempts)
      ensures db.reliable ==>
                HandledLike(old(db.Snapshot()), db.Snapshot(), settlements[|old(settlements)|..], batch, maxDeliveryAttempts, disableFanout)
      ensures publisher != null ==> Sends(old(publisher.events))
      ensures FansOutFreely() && SomeAcked(settlements[|old(settlements)|..]) ==>
                CaughtUp(|old(publisher.events)|, |publisher.events|, db.outbox, at, 100)
      decreases |batch|, 1
    {
      assert Schema(db.Snapshot());
      hide Inv, Schema, Advances, CommitCommands, Recorded, AckedIsStored, Unfanned, CaughtUp, Genuine, Settles, SomeAcked,
        Accounted, HandledLike, OneLike;
      ghost var start, from := db.Snapshot(), settlements;
      ghost var sent := if publisher != null then publisher.events else [];
      var committed, drained := CommitWhole(batch);
      at := drained;
      if committed {
        assert settlements[|from|..] == Acks(batch);
        AcksSomething(batch);
        AcksAccounted(batch, db.Snapshot(), maxDeliveryAttempts);
        if db.reliable { LikeWhole(start, db.Snapshot(), batch, maxDeliveryAttempts, disableFanout); }
        if FansOutFreely() {
          StillCaughtUp(|sent|, |sent|, |publisher.events|, |publisher.events|, db.outbox, at, if |batch| > 100 then |batch| else 100);
        }
        return;
      }
      ghost var retried := db.Snapshot();
      ghost var sentFirst := if publisher != null then publisher.events else [];
      if |batch| > 1 {
        at := HandleHalves(batch);
      } else {
        OnlyEntry(batch);
        at := HandleSingleMessageWrite(batch[0]);
        if db.reliable { LikeAlone(start, db.Snapshot(), settlements[|from|..], batch, maxDeliveryAttempts, disableFanout); }
      }
      AdvancesTransitive(start, retried, db.Snapshot());
      if publisher != null {
        StillGenuine(sent, sentFirst, publisher.events, retried, db.Snapshot());
      }
      if FansOutFreely() && SomeAcked(settlements[|from|..]) {
        StillCaughtUp(|sent|, |sentFirst|, |publisher.events|, |publisher.events|, db.outbox, at, 100);
      }
    }
  }
}
