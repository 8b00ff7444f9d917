/**
 * Redelivery and room times over whole runs: a command that was once committed
 * can be delivered again, alone or in any batch, any number of times without
 * effect, and a room's last-message time covers its buffered messages.
 */
module Redelivery {
  import opened Prelude
  import opened Ranking
  import opened Store
  import opened Invariant
  import opened Refinement
  import opened Commits
  import opened Steps
  import opened Runs
  import opened Leases
  import opened Histories
  import opened Writer

  ghost predicate AllOnRecord(writes: Writes, cmds: seq<Command>) {
    forall c | c in cmds :: Recorded(writes, c)
  }

  lemma CommitLeavesRecord(db: Db, cmds: seq<Command>)
    requires Inv(db) && CommitCommands(db, cmds).Ok?
    ensures AllOnRecord(TableAfter(db, TableOp.CommitBatch(cmds)).writes, cmds)
  {
    hide Inv, CommitCommands, Recorded;
    CommitRecords(db, cmds);
  }

  /**
   * Exactly once across redelivery: once a batch has committed, committing any
   * of its commands again, at any later point of the run and in any batch of
   * them, succeeds, inserts nothing and changes no table.
   */
  lemma RedeliveryChangesNothing(states: seq<System>, steps: seq<Step>, staleLockMs: nat, i: nat, j: nat,
                                 cmds: seq<Command>, again: seq<Command>)
    requires Run(states, steps, staleLockMs) && i < j < |states|
    requires steps[i] == Table(TableOp.CommitBatch(cmds)) && Schema(states[i].db) && CommitCommands(states[i].db, cmds).Ok?
    requires forall c | c in again :: c in cmds
    ensures Inv(states[j].db) && CommitCommands(states[j].db, again) == Ok(Committed(states[j].db, {}))
  {
    hide Init, RowsOk, TokensOk, Inv, CommitCommands, Advances, Recorded, TableAfter;
    RunInvariant(states, steps, staleLockMs, i);
    RunInvariant(states, steps, staleLockMs, j);
    CommitLeavesRecord(states[i].db, cmds);
    assert states[i + 1].db == TableAfter(states[i].db, TableOp.CommitBatch(cmds));
    RunAdvances(states, steps, staleLockMs, i + 1, j);
    forall c | c in again
      ensures Recorded(states[j].db.writes, c)
    {
      RecordedStays(states[i + 1].db, states[j].db, c);
    }
    CommitIdempotent(states[j].db, again);
  }

  // ---- room times

  /** A room's last-message time is no earlier than any buffered message of it. */
  ghost predicate Covered(db: Db) {
    forall id | id in db.messages && id.Stable? ::
      && db.messages[id].roomId in db.rooms
      && db.messages[id].createdAt <= db.rooms[db.messages[id].roomId].lastMessageAt
  }

  lemma OldStayCovered(db: Db, db': Db, id: MessageId)
    requires Covered(db) && Advances(db, db') && id in db.messages && id.Stable?
    ensures id in db'.messages && db'.messages[id].roomId in db'.rooms
    ensures db'.messages[id].createdAt <= db'.rooms[db'.messages[id].roomId].lastMessageAt
  {
  }

  lemma NewIsCovered(db: Db, batch: Batch, k: Key)
    requires Inv(db) && Accepts(db, batch) && k in CandsOf(db, batch)
    ensures
      var w, after := WritesOf(db, batch)[k], CommitAccepted(db, batch).db;
      w.roomId in after.rooms && w.acceptedAt <= after.rooms[w.roomId].lastMessageAt
  {
    CommitShape(db, batch);
    var writes, cands := WritesOf(db, batch), CandsOf(db, batch);
    assert writes[k].acceptedAt in Times(writes, cands, writes[k].roomId);
  }

  lemma CommitCovers(db: Db, batch: Batch)
    requires Inv(db) && Accepts(db, batch) && Covered(db)
    ensures Covered(CommitAccepted(db, batch).db)
  {
    CommitShape(db, batch);
    CommitAdvances(db, batch);
    hide Inv, Accepts, Advances, CommitAccepted, Covered;
    var after := CommitAccepted(db, batch).db;
    forall id | id in MessagesOf(db, batch) && id.Stable?
      ensures after.messages[id].roomId in after.rooms
      ensures after.messages[id].createdAt <= after.rooms[after.messages[id].roomId].lastMessageAt
    {
      if id in db.messages {
        OldStayCovered(db, after, id);
      } else {
        var k :| k in CandsOf(db, batch) && id == Stable(WritesOf(db, batch)[k].id);
        NewIsCovered(db, batch, k);
      }
    }
    CoveredByAll(after);
  }

  lemma CoveredByAll(db: Db)
    requires forall id | id in db.messages && id.Stable? ::
               && db.messages[id].roomId in db.rooms
               && db.messages[id].createdAt <= db.rooms[db.messages[id].roomId].lastMessageAt
    ensures Covered(db)
  {
  }

  lemma NoNewStableCovers(db: Db, db': Db)
    requires Covered(db) && Advances(db, db')
    requires forall id | id in db'.messages && id.Stable? :: id in db.messages
    ensures Covered(db')
  {
    hide Advances;
    forall id | id in db'.messages && id.Stable?
      ensures db'.messages[id].roomId in db'.rooms && db'.messages[id].createdAt <= db'.rooms[db'.messages[id].roomId].lastMessageAt
    {
      OldStayCovered(db, db', id);
    }
  }

  lemma CommandsCover(db: Db, cmds: seq<Command>)
    requires Inv(db) && Schema(db) && Covered(db)
    ensures Covered(TableAfter(db, TableOp.CommitBatch(cmds)))
  {
    hide Inv, Schema, Linked, Sequenced, Covered, CommitAccepted, Insertable, AllMatch;
    if CommitCommands(db, cmds).Ok? && cmds != [] {
      CommitCovers(db, Dedupe(cmds).value);
    }
  }

  /** Only commits store buffered messages. */
  lemma OthersStoreNone(s: System, step: Step, s': System, staleLockMs: nat)
    requires Schema(s.db) && Next(s, step, s', staleLockMs) && !(step.Table? && step.op.CommitBatch?)
    ensures forall id | id in s'.db.messages && id.Stable? :: id in s.db.messages
  {
    hide Schema, Claimable, Insertable, Conflicts, NewClaims;
  }

  lemma StepCovers(s: System, step: Step, s': System, staleLockMs: nat)
    requires Inv(s.db) && Schema(s.db) && Covered(s.db) && Next(s, step, s', staleLockMs)
    ensures Covered(s'.db)
  {
    if step.Table? && step.op.CommitBatch? {
      CommandsCover(s.db, step.op.cmds);
      hide Inv, Schema, Covered, TableAfter, Claimable;
    } else {
      hide Inv, Schema, Covered, Advances, Next;
      StepKeepsTables(s, step, s', staleLockMs);
      OthersStoreNone(s, step, s', staleLockMs);
      NoNewStableCovers(s.db, s'.db);
    }
  }

  /** In every state of every run a room's last-message time covers all its buffered messages. */
  lemma {:induction false} LastMessageAtCovers(states: seq<System>, steps: seq<Step>, staleLockMs: nat, i: nat)
    requires Run(states, steps, staleLockMs) && i < |states|
    ensures Covered(states[i].db)
  {
    hide Schema, Next, Linked, Sequenced, RowsOk, TokensOk, Covered;
    if i == 0 {
      NoStableAtStart(states[0].db);
    } else {
      hide Init;
      LastMessageAtCovers(states, steps, staleLockMs, i - 1);
      RunInvariant(states, steps, staleLockMs, i - 1);
      StepCovers(states[i - 1], steps[i - 1], states[i], staleLockMs);
    }
  }

  lemma NoStableAtStart(db: Db)
    requires Linked(db) && db.outbox == map[]
    ensures Covered(db)
  {
    forall id | id in db.messages
      ensures !id.Stable?
    {
      assert id.Stable? ==> Backed(db, id);
    }
  }
}
