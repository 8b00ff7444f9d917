/**
 * Batching with bisection means the same as handling commands one at a time.
 * The two may number new messages differently, but only inside one room and
 * one commit: what was stored keeps its number, and the messages each commit
 * inserts share out the same numbers among themselves.
 */
module Transparency {
  import opened Store
  import opened Invariant
  import opened Steps
  import opened BatchHandling

  // ---- handling only moves rows forward

  lemma OneAdvances(db: Db, e: Entry, maxAttempts: nat)
    requires Inv(db)
    ensures Advances(db, HandleOne(db, e, maxAttempts).db)
  {
    hide UniqueRequests, Placed, Backed, Settled, Queued, Sequenced, Advances, CommitCommands, DeadLetter;
    AdvancesReflexive(db);
    if CommitCommands(db, [e.command]).Ok? {
      CommitSteps(db, [e.command]);
    } else {
      DeadLetterSteps(db, e.command);
    }
  }

  lemma {:induction false} InOrderAdvances(db: Db, entries: seq<Entry>, maxAttempts: nat)
    requires Inv(db)
    ensures Advances(db, HandleInOrder(db, entries, maxAttempts).db)
  {
    hide Inv, Advances, HandleOne;
    if entries == [] {
      AdvancesReflexive(db);
    } else {
      var init, last := entries[..|entries| - 1], entries[|entries| - 1];
      var before := HandleInOrder(db, init, maxAttempts).db;
      InOrderAdvances(db, init, maxAttempts);
      OneAdvances(before, last, maxAttempts);
      AdvancesTransitive(db, before, HandleOne(before, last, maxAttempts).db);
    }
  }

  lemma {:induction false} BatchAdvances(db: Db, entries: seq<Entry>, maxAttempts: nat)
    requires Inv(db)
    ensures Advances(db, HandleBatch(db, entries, maxAttempts).db)
    decreases |entries|
  {
    assert entries == [] ==> CommitCommands(db, Commands(entries)).Ok?;
    hide UniqueRequests, Placed, Backed, Settled, Queued, Sequenced, Advances, HandleOne, CommitCommands;
    if CommitCommands(db, Commands(entries)).Ok? {
      CommitSteps(db, Commands(entries));
    } else if |entries| > 1 {
      var midpoint := (|entries| + 1) / 2;
      var left := HandleBatch(db, entries[..midpoint], maxAttempts).db;
      BatchAdvances(db, entries[..midpoint], maxAttempts);
      BatchAdvances(left, entries[midpoint..], maxAttempts);
      AdvancesTransitive(db, left, HandleBatch(left, entries[midpoint..], maxAttempts).db);
    } else {
      OneAdvances(db, entries[0], maxAttempts);
    }
  }

  // ---- the numbers new messages get

  /** The numbers in a room of the messages that were not there before. */
  function NewNumbers(before: Messages, after: Messages, roomId: string): set<int> {
    set id | id in after && id !in before && after[id].roomId == roomId :: after[id].roomSequence
  }

  ghost predicate SameNewNumbers(a: Db, a': Db, b: Db, b': Db) {
    forall r :: NewNumbers(a.messages, a'.messages, r) == NewNumbers(b.messages, b'.messages, r)
  }

  /** New messages take exactly the numbers the room's counter passes over. */
  lemma NewNumbersExact(db: Db, db': Db, roomId: string)
    requires Sequenced(db) && Sequenced(db') && Advances(db, db')
    ensures NewNumbers(db.messages, db'.messages, roomId)
         == Below(NextNumber(db'.rooms, roomId)) - Below(NextNumber(db.rooms, roomId))
  {
    RoomNumbersExact(db, roomId);
    RoomNumbersExact(db', roomId);
    forall n | n in NewNumbers(db.messages, db'.messages, roomId)
      ensures n in NumbersOf(db'.messages, roomId) && n !in NumbersOf(db.messages, roomId)
    {
      var id :| id in db'.messages && id !in db.messages && db'.messages[id].roomId == roomId && db'.messages[id].roomSequence == n;
      forall o | o in db.messages && db.messages[o].roomId == roomId
        ensures db.messages[o].roomSequence != n
      {
        assert o in db'.messages && db'.messages[o] == db.messages[o] && o != id;
        assert SameSlot(db'.messages[o], db'.messages[id]) ==> o == id;
      }
    }
    forall n | n in NumbersOf(db'.messages, roomId) && n !in NumbersOf(db.messages, roomId)
      ensures n in NewNumbers(db.messages, db'.messages, roomId)
    {
      var id :| id in db'.messages && db'.messages[id].roomId == roomId && db'.messages[id].roomSequence == n;
      assert id !in db.messages;
    }
  }

  /** Two ways from tables equal up to numbering to tables equal up to numbering use the same new numbers. */
  lemma NumbersAgree(a: Db, a': Db, b: Db, b': Db)
    requires Inv(a) && Inv(a') && Inv(b) && Inv(b') && Advances(a, a') && Advances(b, b')
    requires Erase(a) == Erase(b) && Erase(a') == Erase(b')
    ensures SameNewNumbers(a, a', b, b')
  {
    assert a.rooms == Erase(a).rooms == b.rooms && a'.rooms == Erase(a').rooms == b'.rooms;
    hide Linked, Sequenced, Advances, Erase, NewNumbers;
    forall r
      ensures NewNumbers(a.messages, a'.messages, r) == NewNumbers(b.messages, b'.messages, r)
    {
      NewNumbersExact(a, a', r);
      NewNumbersExact(b, b', r);
    }
  }

  // ---- the commits of a batch

  /** How many entries have been handled, and the tables then. */
  datatype Checkpoint = Checkpoint(handled: nat, db: Db)

  ghost function Shifted(cs: seq<Checkpoint>, offset: nat): (r: seq<Checkpoint>)
    ensures |r| == |cs| && forall i | 0 <= i < |cs| :: r[i] == Checkpoint(cs[i].handled + offset, cs[i].db)
  {
    seq(|cs|, i requires 0 <= i < |cs| => Checkpoint(cs[i].handled + offset, cs[i].db))
  }

  /** The points between the transactions `HandleBatch` succeeds with, the end included. */
  ghost function Checkpoints(db: Db, entries: seq<Entry>, maxAttempts: nat): (cs: seq<Checkpoint>)
    requires Inv(db)
    ensures cs != [] && cs[|cs| - 1] == Checkpoint(|entries|, HandleBatch(db, entries, maxAttempts).db)
    decreases |entries|
  {
    if CommitCommands(db, Commands(entries)).Ok? || |entries| <= 1 then
      [Checkpoint(|entries|, HandleBatch(db, entries, maxAttempts).db)]
    else
      var midpoint := (|entries| + 1) / 2;
      var left := Checkpoints(db, entries[..midpoint], maxAttempts);
      var right := Checkpoints(HandleBatch(db, entries[..midpoint], maxAttempts).db, entries[midpoint..], maxAttempts);
      left + Shifted(right, midpoint)
  }

  /** The point before checkpoint `i`. */
  ghost function Previous(db: Db, cs: seq<Checkpoint>, i: nat): Checkpoint
    requires i < |cs|
  {
    if i == 0 then Checkpoint(0, db) else cs[i - 1]
  }

  /** One commit of a stretch of entries, or one entry on its own. */
  ghost predicate OneTransaction(p: Checkpoint, q: Checkpoint, entries: seq<Entry>, maxAttempts: nat) {
    && p.handled <= q.handled <= |entries| && Inv(p.db) && Inv(q.db)
    && var part := entries[p.handled..q.handled];
    || (CommitCommands(p.db, Commands(part)).Ok? && q.db == CommitCommands(p.db, Commands(part)).value.db)
    || (|part| == 1 && q.db == HandleOne(p.db, part[0], maxAttempts).db)
  }

  /** At a checkpoint the tables are those of the entries handled one at a time, up to numbering. */
  ghost predicate MatchesFold(q: Checkpoint, b: Db, entries: seq<Entry>, maxAttempts: nat)
    requires Inv(b)
  {
    q.handled <= |entries| && Erase(q.db) == Erase(HandleInOrder(b, entries[..q.handled], maxAttempts).db)
  }

  ghost predicate CheckpointOk(a: Db, b: Db, cs: seq<Checkpoint>, i: nat, entries: seq<Entry>, maxAttempts: nat)
    requires Inv(b) && i < |cs|
  {
    OneTransaction(Previous(a, cs, i), cs[i], entries, maxAttempts) && MatchesFold(cs[i], b, entries, maxAttempts)
  }

  ghost predicate CheckpointsOk(a: Db, b: Db, cs: seq<Checkpoint>, entries: seq<Entry>, maxAttempts: nat)
    requires Inv(b)
  {
    forall i | 0 <= i < |cs| :: CheckpointOk(a, b, cs, i, entries, maxAttempts)
  }

  lemma WholeTransaction(db: Db, entries: seq<Entry>, maxAttempts: nat)
    requires Inv(db) && (CommitCommands(db, Commands(entries)).Ok? || |entries| == 1)
    ensures OneTransaction(Checkpoint(0, db), Checkpoint(|entries|, HandleBatch(db, entries, maxAttempts).db), entries, maxAttempts)
  {
    hide UniqueRequests, Placed, Backed, Settled, Queued, Sequenced, CommitCommands, HandleOne;
    assert entries[0..|entries|] == entries;
  }

  lemma NothingCommits(db: Db)
    requires Schema(db)
    ensures CommitCommands(db, Commands([])).Ok?
  {
  }

  lemma LastCheckpoint(a: Db, b: Db, entries: seq<Entry>, maxAttempts: nat)
    requires Inv(a) && Schema(a) && Inv(b) && Erase(a) == Erase(b)
    requires CommitCommands(a, Commands(entries)).Ok? || |entries| <= 1
    ensures CheckpointsOk(a, b, [Checkpoint(|entries|, HandleBatch(a, entries, maxAttempts).db)], entries, maxAttempts)
  {
    hide Inv, Schema, Erase, CommitCommands, HandleOne, HandleBatch, HandleInOrder, OneTransaction;
    if entries == [] {
      NothingCommits(a);
    }
    WholeTransaction(a, entries, maxAttempts);
    BatchRefinesFold(a, b, entries, maxAttempts);
    assert entries[..|entries|] == entries;
  }

  /** Entries to the right do not matter to a checkpoint. */
  lemma LeftCheckpoint(a: Db, b: Db, cs: seq<Checkpoint>, i: nat, x: seq<Entry>, entries: seq<Entry>, maxAttempts: nat)
    requires Inv(b) && i < |cs| && x <= entries
    requires CheckpointOk(a, b, cs, i, x, maxAttempts)
    ensures CheckpointOk(a, b, cs, i, entries, maxAttempts)
  {
    hide Inv, Erase, CommitCommands, HandleOne, HandleInOrder;
    var p, q := Previous(a, cs, i), cs[i];
    assert x[p.handled..q.handled] == entries[p.handled..q.handled];
    assert x[..q.handled] == entries[..q.handled];
  }

  lemma ShiftedTransaction(p: Checkpoint, q: Checkpoint, x: seq<Entry>, y: seq<Entry>, maxAttempts: nat)
    requires OneTransaction(p, q, y, maxAttempts)
    ensures OneTransaction(Checkpoint(p.handled + |x|, p.db), Checkpoint(q.handled + |x|, q.db), x + y, maxAttempts)
  {
    hide UniqueRequests, Placed, Backed, Settled, Queued, Sequenced, CommitCommands, HandleOne;
    assert (x + y)[p.handled + |x|..q.handled + |x|] == y[p.handled..q.handled];
  }

  lemma ShiftedMatch(q: Checkpoint, b: Db, x: seq<Entry>, y: seq<Entry>, maxAttempts: nat)
    requires Inv(b) && MatchesFold(q, HandleInOrder(b, x, maxAttempts).db, y, maxAttempts)
    ensures MatchesFold(Checkpoint(q.handled + |x|, q.db), b, x + y, maxAttempts)
  {
    hide Inv, Erase, CommitCommands, HandleOne, HandleInOrder;
    assert (x + y)[..q.handled + |x|] == x + y[..q.handled];
    InOrderAppend(b, x, y[..q.handled], maxAttempts);
  }

  /** Entries handled before shift a checkpoint. */
  lemma RightCheckpoint(a: Db, b: Db, cs: seq<Checkpoint>, i: nat, x: seq<Entry>, y: seq<Entry>, maxAttempts: nat)
    requires Inv(b) && i < |cs|
    requires CheckpointOk(a, HandleInOrder(b, x, maxAttempts).db, cs, i, y, maxAttempts)
    ensures OneTransaction(Shifted([Previous(a, cs, i)], |x|)[0], Shifted(cs, |x|)[i], x + y, maxAttempts)
    ensures MatchesFold(Shifted(cs, |x|)[i], b, x + y, maxAttempts)
  {
    hide Inv, OneTransaction, MatchesFold, HandleInOrder;
    ShiftedTransaction(Previous(a, cs, i), cs[i], x, y, maxAttempts);
    ShiftedMatch(cs[i], b, x, y, maxAttempts);
  }

  lemma JoinCheckpoints(a: Db, b: Db, left: seq<Checkpoint>, right: seq<Checkpoint>, x: seq<Entry>, y: seq<Entry>, maxAttempts: nat)
    requires Inv(b) && left != []
    requires CheckpointsOk(a, b, left, x, maxAttempts)
    requires CheckpointsOk(left[|left| - 1].db, HandleInOrder(b, x, maxAttempts).db, right, y, maxAttempts)
    requires left[|left| - 1].handled == |x|
    ensures CheckpointsOk(a, b, left + Shifted(right, |x|), x + y, maxAttempts)
  {
    hide Inv, OneTransaction, MatchesFold, HandleInOrder;
    var cs := left + Shifted(right, |x|);
    forall i | 0 <= i < |cs|
      ensures CheckpointOk(a, b, cs, i, x + y, maxAttempts)
    {
      if i < |left| {
        assert CheckpointOk(a, b, left, i, x, maxAttempts);
        LeftCheckpoint(a, b, left, i, x, x + y, maxAttempts);
        assert Previous(a, cs, i) == Previous(a, left, i);
      } else {
        var j := i - |left|;
        assert CheckpointOk(left[|left| - 1].db, HandleInOrder(b, x, maxAttempts).db, right, j, y, maxAttempts);
        RightCheckpoint(left[|left| - 1].db, b, right, j, x, y, maxAttempts);
        assert Previous(a, cs, i) == Shifted([Previous(left[|left| - 1].db, right, j)], |x|)[0];
      }
    }
  }

  /** Every transaction of the batch ends where the fold is, up to numbering. */
  lemma {:induction false} EveryCheckpoint(a: Db, b: Db, entries: seq<Entry>, maxAttempts: nat)
    requires Inv(a) && Inv(b) && Erase(a) == Erase(b)
    ensures CheckpointsOk(a, b, Checkpoints(a, entries, maxAttempts), entries, maxAttempts)
    decreases |entries|
  {
    hide UniqueRequests, Placed, Backed, Settled, Queued, Sequenced, Erase, CommitCommands, HandleOne, CheckpointsOk;
    if CommitCommands(a, Commands(entries)).Ok? || |entries| <= 1 {
      LastCheckpoint(a, b, entries, maxAttempts);
    } else {
      var midpoint := (|entries| + 1) / 2;
      var x, y := entries[..midpoint], entries[midpoint..];
      assert entries == x + y && |x| == midpoint;
      var middle, fold := HandleBatch(a, x, maxAttempts).db, HandleInOrder(b, x, maxAttempts).db;
      EveryCheckpoint(a, b, x, maxAttempts);
      BatchRefinesFold(a, b, x, maxAttempts);
      EveryCheckpoint(middle, fold, y, maxAttempts);
      JoinCheckpoints(a, b, Checkpoints(a, x, maxAttempts), Checkpoints(middle, y, maxAttempts), x, y, maxAttempts);
    }
  }

  // ---- the theorems

  /** One transaction only moves rows forward. */
  lemma TransactionAdvances(p: Checkpoint, q: Checkpoint, entries: seq<Entry>, maxAttempts: nat)
    requires OneTransaction(p, q, entries, maxAttempts)
    ensures Advances(p.db, q.db)
  {
    hide UniqueRequests, Placed, Backed, Settled, Queued, Sequenced, Advances, CommitCommands, HandleOne;
    var part := entries[p.handled..q.handled];
    if CommitCommands(p.db, Commands(part)).Ok? && q.db == CommitCommands(p.db, Commands(part)).value.db {
      CommitSteps(p.db, Commands(part));
    } else {
      OneAdvances(p.db, part[0], maxAttempts);
    }
  }

  lemma FoldAdvances(db: Db, entries: seq<Entry>, i: nat, j: nat, maxAttempts: nat)
    requires Inv(db) && i <= j <= |entries|
    ensures Advances(HandleInOrder(db, entries[..i], maxAttempts).db, HandleInOrder(db, entries[..j], maxAttempts).db)
  {
    hide Inv, Advances, HandleOne, HandleInOrder;
    assert entries[..j] == entries[..i] + entries[i..j];
    InOrderAppend(db, entries[..i], entries[i..j], maxAttempts);
    InOrderAdvances(HandleInOrder(db, entries[..i], maxAttempts).db, entries[i..j], maxAttempts);
  }

  /**
   * Numbers are permuted only inside one commit: between any two consecutive
   * checkpoints of a batch lies a single transaction, and the messages it
   * inserts into a room carry, all together, the numbers the same entries give
   * them when handled one at a time.
   */
  lemma PermutedWithinOneCommit(db: Db, entries: seq<Entry>, maxAttempts: nat, i: nat)
    requires Inv(db) && i < |Checkpoints(db, entries, maxAttempts)|
    ensures
      var cs := Checkpoints(db, entries, maxAttempts);
      var p, q := Previous(db, cs, i), cs[i];
      && OneTransaction(p, q, entries, maxAttempts)
      && var f, g := HandleInOrder(db, entries[..p.handled], maxAttempts).db, HandleInOrder(db, entries[..q.handled], maxAttempts).db;
      && Erase(p.db) == Erase(f) && Erase(q.db) == Erase(g)
      && Advances(p.db, q.db) && Advances(f, g)
      && SameNewNumbers(p.db, q.db, f, g)
  {
    hide Inv, Erase, Advances, CommitCommands, HandleOne, SameNewNumbers, Checkpoints;
    var cs := Checkpoints(db, entries, maxAttempts);
    EveryCheckpoint(db, db, entries, maxAttempts);
    assert CheckpointOk(db, db, cs, i, entries, maxAttempts);
    assert i > 0 ==> CheckpointOk(db, db, cs, i - 1, entries, maxAttempts);
    var p, q := Previous(db, cs, i), cs[i];
    var f, g := HandleInOrder(db, entries[..p.handled], maxAttempts).db, HandleInOrder(db, entries[..q.handled], maxAttempts).db;
    assert entries[..0] == [];
    assert Erase(p.db) == Erase(f);
    hide HandleInOrder;
    TransactionAdvances(p, q, entries, maxAttempts);
    FoldAdvances(db, entries, p.handled, q.handled, maxAttempts);
    NumbersAgree(p.db, q.db, f, g);
  }

  /** From tables equal up to numbering, the batch and the fold end so, move rows forward, and use the same new numbers. */
  lemma BatchMatchesFold(a: Db, b: Db, entries: seq<Entry>, maxAttempts: nat)
    requires Inv(a) && Inv(b) && Erase(a) == Erase(b)
    ensures
      var batch, fold := HandleBatch(a, entries, maxAttempts), HandleInOrder(b, entries, maxAttempts);
      && Equivalent(batch, fold)
      && Advances(a, batch.db) && Advances(b, fold.db)
      && SameNewNumbers(a, batch.db, b, fold.db)
  {
    hide Inv, Erase, Advances, HandleBatch, HandleInOrder, SameNewNumbers;
    BatchRefinesFold(a, b, entries, maxAttempts);
    BatchAdvances(a, entries, maxAttempts);
    InOrderAdvances(b, entries, maxAttempts);
    NumbersAgree(a, HandleBatch(a, entries, maxAttempts).db, b, HandleInOrder(b, entries, maxAttempts).db);
  }

  /**
   * Batching with bisection means the same as processing the commands one at a
   * time: the same settlements; the same tables, but for the numbers of new
   * messages; every message that was there keeps its row and number in both;
   * and in each room the new messages use the same numbers.
   */
  lemma BatchingIsTransparent(db: Db, entries: seq<Entry>, maxAttempts: nat)
    requires Inv(db)
    ensures
      var batch, fold := HandleBatch(db, entries, maxAttempts), HandleInOrder(db, entries, maxAttempts);
      && Equivalent(batch, fold)
      && Advances(db, batch.db) && Advances(db, fold.db)
      && (forall id | id in db.messages ::
            && id in batch.db.messages && id in fold.db.messages
            && batch.db.messages[id] == fold.db.messages[id] == db.messages[id])
      && SameNewNumbers(db, batch.db, db, fold.db)
    ensures CommitCommands(db, Commands(entries)).Ok? <==> AllCommit(db, entries, maxAttempts)
  {
    BatchMatchesFold(db, db, entries, maxAttempts);
    CommitIsFold(db, entries, maxAttempts);
    hide Inv, Erase, HandleBatch, HandleInOrder, SameNewNumbers, CommitCommands, AllCommit;
  }
}
