/**
 * Whole runs: the interleaved steps of any number of clients from a freshly
 * migrated database, and what is true at every point and between any two
 * points of every run.
 */
module Histories {
  import opened Store
  import opened Invariant
  import opened Steps
  import opened Runs
  import opened Leases

  /**
   * A run of the system. `Schema` only says that the next transaction is
   * defined; RunInvariant shows that it holds in every reachable state.
   */
  ghost predicate Run(states: seq<System>, steps: seq<Step>, staleLockMs: nat) {
    |states| == |steps| + 1 && Init(states[0]) && Follows(states, steps, staleLockMs)
  }

  ghost predicate Follows(states: seq<System>, steps: seq<Step>, staleLockMs: nat)
    requires |states| == |steps| + 1
  {
    forall i | 0 <= i < |steps| :: Schema(states[i].db) && Next(states[i], steps[i], states[i + 1], staleLockMs)
  }

  lemma {:induction false} RunInvariant(states: seq<System>, steps: seq<Step>, staleLockMs: nat, i: nat)
    requires Run(states, steps, staleLockMs) && i < |states|
    ensures LeaseInv(states[i], staleLockMs)
  {
    hide Init, Schema, Next, LeaseInv;
    if i == 0 {
      InitLease(states[0], staleLockMs);
    } else {
      RunInvariant(states, steps, staleLockMs, i - 1);
      StepKeepsLease(states[i - 1], steps[i - 1], states[i], staleLockMs);
    }
  }

  /** Between any two points of a run, rows only move forward. */
  lemma {:induction false} RunAdvances(states: seq<System>, steps: seq<Step>, staleLockMs: nat, i: nat, j: nat)
    requires Run(states, steps, staleLockMs) && i <= j < |states|
    ensures Advances(states[i].db, states[j].db)
  {
    hide Init, Schema, Next, RowsOk, TokensOk, Advances;
    if i == j {
      AdvancesReflexive(states[i].db);
    } else {
      RunAdvances(states, steps, staleLockMs, i, j - 1);
      RunInvariant(states, steps, staleLockMs, j - 1);
      StepKeepsTables(states[j - 1], steps[j - 1], states[j], staleLockMs);
      AdvancesTransitive(states[i].db, states[j - 1].db, states[j].db);
    }
  }

  // ---- room order

  /**
   * Gap-free room order: at every point of every run the numbers of a room are
   * exactly 1 to nextMessageSeq - 1, no two messages share one, and messages
   * that appear later sort after all that were there.
   */
  lemma GapFreeOrder(states: seq<System>, steps: seq<Step>, staleLockMs: nat, i: nat, j: nat, roomId: string)
    requires Run(states, steps, staleLockMs) && i <= j < |states| && roomId in states[i].db.rooms
    ensures NumbersOf(states[i].db.messages, roomId) == Below(states[i].db.rooms[roomId].nextMessageSeq)
    ensures forall a, b | a in states[i].db.messages && b in states[i].db.messages
              && SameSlot(states[i].db.messages[a], states[i].db.messages[b]) :: a == b
    ensures forall a, b | a in states[i].db.messages && b in states[j].db.messages && b !in states[i].db.messages
              && states[i].db.messages[a].roomId == roomId && states[j].db.messages[b].roomId == roomId ::
              states[i].db.messages[a].roomSequence < states[j].db.messages[b].roomSequence
  {
    RunInvariant(states, steps, staleLockMs, i);
    RunAdvances(states, steps, staleLockMs, i, j);
    RoomNumbersExact(states[i].db, roomId);
    LaterSortsAfter(states[i].db, states[j].db, roomId);
  }

  lemma LaterSortsAfter(db: Db, db': Db, roomId: string)
    requires Sequenced(db) && Advances(db, db') && roomId in db.rooms
    ensures forall a, b | a in db.messages && b in db'.messages && b !in db.messages
              && db.messages[a].roomId == roomId && db'.messages[b].roomId == roomId ::
              db.messages[a].roomSequence < db'.messages[b].roomSequence
  {
    forall a, b | a in db.messages && b in db'.messages && b !in db.messages
        && db.messages[a].roomId == roomId && db'.messages[b].roomId == roomId
      ensures db.messages[a].roomSequence < db'.messages[b].roomSequence
    {
      assert InRange(db, a) && SortsAfter(db, db'.messages[b]);
    }
  }

  // ---- exactly once

  /**
   * The first committed body wins: messages, once stored, are never altered,
   * no key ever gets a second message, and a write keeps its body.
   */
  lemma FirstBodyWins(states: seq<System>, steps: seq<Step>, staleLockMs: nat, i: nat, j: nat, k: Key)
    requires Run(states, steps, staleLockMs) && i <= j < |states|
    ensures forall id | id in states[i].db.messages ::
              id in states[j].db.messages && states[j].db.messages[id] == states[i].db.messages[id]
    ensures forall a, b | a in states[i].db.messages && b in states[j].db.messages
              && HasKey(states[i].db.messages[a], k) && HasKey(states[j].db.messages[b], k) :: a == b
    ensures k in states[i].db.writes ==>
              k in states[j].db.writes && WriteAdvances(states[i].db.writes[k], states[j].db.writes[k])
  {
    RunAdvances(states, steps, staleLockMs, i, j);
    RunInvariant(states, steps, staleLockMs, j);
    hide RowsOk, TokensOk, Sequenced;
  }

  /** Writer-inserted messages and outbox rows correspond one to one, in every state of every run. */
  lemma OneOutboxRowPerMessage(states: seq<System>, steps: seq<Step>, staleLockMs: nat, i: nat)
    requires Run(states, steps, staleLockMs) && i < |states|
    ensures states[i].db.outbox.Keys == set id | id in states[i].db.messages && id.Stable?
  {
    RunInvariant(states, steps, staleLockMs, i);
    var db := states[i].db;
    forall id | id in db.outbox
      ensures id in db.messages && id.Stable?
    {
      assert Queued(db, id);
    }
    forall id | id in db.messages && id.Stable?
      ensures id in db.outbox
    {
      assert Backed(db, id);
    }
  }

  // ---- the status machine

  /** The edges of the write status machine. */
  predicate Edge(s: WriteStatus, t: WriteStatus) {
    (s == PENDING && t == PERSISTED) || (s == PERSISTED && t == FANOUTED) || (s == PENDING && t == DEAD)
  }

  ghost predicate MovesAlongEdges(writes: Writes, writes': Writes) {
    forall k | k in writes && k in writes' :: writes'[k].status == writes[k].status || Edge(writes[k].status, writes'[k].status)
  }

  lemma CommitMoves(db: Db, cmds: seq<Command>)
    requires Schema(db)
    ensures MovesAlongEdges(db.writes, TableAfter(db, TableOp.CommitBatch(cmds)).writes)
  {
    if CommitCommands(db, cmds).Ok? && cmds != [] {
      var batch := Dedupe(cmds).value;
      var writes, after := WritesOf(db, batch), CommitAccepted(db, batch).db.writes;
      assert forall k | k in writes :: k in after && SameWrite(after[k], writes[k]);
    }
  }

  lemma TableMoves(db: Db, op: TableOp)
    requires Schema(db)
    ensures MovesAlongEdges(db.writes, TableAfter(db, op).writes)
  {
    hide Schema, CommitCommands, Insertable;
    if op.CommitBatch? {
      CommitMoves(db, op.cmds);
    }
  }

  /** One step moves a write along one edge of the status machine or not at all. */
  lemma StepMoves(s: System, step: Step, s': System, staleLockMs: nat)
    requires Schema(s.db) && Next(s, step, s', staleLockMs)
    ensures MovesAlongEdges(s.db.writes, s'.db.writes)
  {
    hide Schema, TableAfter, Claimable;
    if step.Table? {
      TableMoves(s.db, step.op);
    }
  }

  /**
   * In every run a write that is seen with one status and later with another
   * went PENDING, PERSISTED, FANOUTED or PENDING, DEAD; in particular a
   * fanned-out write was persisted in between.
   */
  lemma {:induction false} StatusMachine(states: seq<System>, steps: seq<Step>, staleLockMs: nat, i: nat, j: nat, k: Key)
    requires Run(states, steps, staleLockMs) && i <= j < |states| && k in states[i].db.writes
    ensures k in states[j].db.writes && MovesTo(states[i].db.writes[k].status, states[j].db.writes[k].status)
    ensures states[i].db.writes[k].status == PENDING && states[j].db.writes[k].status == FANOUTED ==>
              exists m :: i < m < j && k in states[m].db.writes && states[m].db.writes[k].status == PERSISTED
    decreases j
  {
    hide Init, Schema, Next, RowsOk, TokensOk, Inv;
    RunAdvances(states, steps, staleLockMs, i, j);
    assert WriteAdvances(states[i].db.writes[k], states[j].db.writes[k]);
    if i < j && states[i].db.writes[k].status == PENDING && states[j].db.writes[k].status == FANOUTED {
      hide Advances;
      StatusMachine(states, steps, staleLockMs, i, j - 1, k);
      StepMoves(states[j - 1], steps[j - 1], states[j], staleLockMs);
      assert states[j - 1].db.writes[k].status == PERSISTED || states[j - 1].db.writes[k].status == FANOUTED;
    }
  }

  /** PERSISTED or FANOUTED means a message with the key is stored, created when the row says. */
  lemma PersistedHasMessage(states: seq<System>, steps: seq<Step>, staleLockMs: nat, i: nat, k: Key)
    requires Run(states, steps, staleLockMs) && i < |states| && k in states[i].db.writes
    requires states[i].db.writes[k].status == PERSISTED || states[i].db.writes[k].status == FANOUTED
    ensures HasMessageAt(states[i].db.messages, k, states[i].db.writes[k].persistedAt)
  {
    RunInvariant(states, steps, staleLockMs, i);
    assert Settled(states[i].db, k);
  }
}
