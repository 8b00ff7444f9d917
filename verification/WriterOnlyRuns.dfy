/**
 * Runs in which every message goes through the writer: no REST create, no
 * messages to begin with. There, writes and messages correspond exactly.
 */
module WriterOnlyRuns {
  import opened Ranking
  import opened Store
  import opened Invariant
  import opened Refinement
  import opened Steps
  import opened Runs
  import opened Leases
  import opened Histories

  ghost predicate OnlyStable(messages: Messages) {
    forall id | id in messages :: id.Stable?
  }

  ghost predicate NoRestCreates(steps: seq<Step>) {
    forall i | 0 <= i < |steps| && steps[i].Table? :: !steps[i].op.RestCreate?
  }

  lemma CommitOnlyStable(db: Db, cmds: seq<Command>)
    requires Inv(db) && OnlyStable(db.messages)
    ensures OnlyStable(TableAfter(db, TableOp.CommitBatch(cmds)).messages)
  {
    if CommitCommands(db, cmds).Ok? && cmds != [] {
      var batch := Dedupe(cmds).value;
      CommitShape(db, batch);
      hide Inv, CommitAccepted;
      assert OnlyStable(MessagesOf(db, batch));
    }
  }

  lemma StepOnlyStable(s: System, step: Step, s': System, staleLockMs: nat)
    requires Inv(s.db) && OnlyStable(s.db.messages) && Next(s, step, s', staleLockMs)
    requires step.Table? ==> !step.op.RestCreate?
    ensures OnlyStable(s'.db.messages)
  {
    hide Inv, CommitCommands, Claimable;
    if step.Table? && step.op.CommitBatch? {
      CommitOnlyStable(s.db, step.op.cmds);
    }
  }

  lemma {:induction false} RunOnlyStable(states: seq<System>, steps: seq<Step>, staleLockMs: nat, i: nat)
    requires Run(states, steps, staleLockMs) && i < |states|
    requires states[0].db.messages == map[] && NoRestCreates(steps)
    ensures OnlyStable(states[i].db.messages)
  {
    hide Init, Schema, Next, Inv, RowsOk, TokensOk;
    if i > 0 {
      RunOnlyStable(states, steps, staleLockMs, i - 1);
      RunInvariant(states, steps, staleLockMs, i - 1);
      StepOnlyStable(states[i - 1], steps[i - 1], states[i], staleLockMs);
    }
  }

  /** The message of a write: its id, room, content and time. */
  ghost predicate Mirrors(messages: Messages, k: Key, w: WriteRow) {
    && Stable(w.id) in messages
    && var m := messages[Stable(w.id)];
    && HasKey(m, k) && m.roomId == w.roomId && m.content == w.content && m.createdAt == w.acceptedAt
  }

  lemma OnlyStableMirrors(db: Db, k: Key)
    requires Linked(db) && OnlyStable(db.messages) && k in db.writes
    ensures db.writes[k].status == PERSISTED || db.writes[k].status == FANOUTED ==> Mirrors(db.messages, k, db.writes[k])
    ensures db.writes[k].status == PENDING || db.writes[k].status == DEAD ==>
              !KeyTaken(db.messages, k) && Stable(db.writes[k].id) !in db.messages
  {
    assert Settled(db, k);
    forall id | id in db.messages && (HasKey(db.messages[id], k) || id == Stable(db.writes[k].id))
      ensures id == Stable(db.writes[k].id) && Mirrors(db.messages, k, db.writes[k])
      ensures db.writes[k].status == PERSISTED || db.writes[k].status == FANOUTED
    {
      assert Backed(db, id);
    }
  }

  /**
   * In every state of a writer-only run, a persisted or fanned-out write has
   * the message that mirrors it, and a dead or pending write has none.
   */
  lemma WritesMirrorMessages(states: seq<System>, steps: seq<Step>, staleLockMs: nat, i: nat, k: Key)
    requires Run(states, steps, staleLockMs) && i < |states| && k in states[i].db.writes
    requires states[0].db.messages == map[] && NoRestCreates(steps)
    ensures
      var db := states[i].db;
      && (db.writes[k].status == PERSISTED || db.writes[k].status == FANOUTED <==> Mirrors(db.messages, k, db.writes[k]))
      && (db.writes[k].status == PENDING || db.writes[k].status == DEAD <==> !KeyTaken(db.messages, k))
  {
    RunOnlyStable(states, steps, staleLockMs, i);
    RunInvariant(states, steps, staleLockMs, i);
    OnlyStableMirrors(states[i].db, k);
  }
}
