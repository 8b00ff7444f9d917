/**
 * What the outbox lease guarantees over whole runs: how often a row can be
 * claimed and published, that no fanout is lost, and, when drainers settle
 * only claims they still hold, that claims exclude each other and a published
 * row stays published.
 */
module OutboxGuarantees {
  import opened Prelude
  import opened Ranking
  import opened Store
  import opened Invariant
  import opened Steps
  import opened Runs
  import opened Leases
  import opened Histories

  // ---- how often a row is claimed and published

  lemma {:induction false} SpacedApart(times: seq<int>, gap: nat, i: nat, j: nat)
    requires Spaced(times, gap) && i <= j < |times|
    ensures (j - i) * gap <= times[j] - times[i]
  {
    if i < j {
      SpacedApart(times, gap, i, j - 1);
      assert times[j - 1] + gap <= times[j];
      assert (j - i) * gap == (j - 1 - i) * gap + gap;
    }
  }

  /**
   * A row's attempts are its claims, and any two of them are apart by the gap
   * times their distance: a stretch of T ms holds at most T / gap + 1 claims.
   */
  lemma ClaimsBounded(states: seq<System>, steps: seq<Step>, staleLockMs: nat, n: nat, id: MessageId, i: nat, j: nat)
    requires Run(states, steps, staleLockMs) && n < |states| && id in states[n].db.outbox
    requires i <= j < states[n].db.outbox[id].attempts
    ensures
      var times := TimesOf(states[n], id);
      && |times| == states[n].db.outbox[id].attempts
      && (j - i) * Gap(staleLockMs) <= times[j] - times[i]
      && times[j] <= states[n].now
  {
    hide Run, Inv, TokensOk;
    RunInvariant(states, steps, staleLockMs, n);
    assert RowOkAt(states[n], id, staleLockMs);
    SpacedApart(TimesOf(states[n], id), Gap(staleLockMs), i, j);
    assert TimesOf(states[n], id)[j] in TimesOf(states[n], id);
  }

  /** A row is published at most once per attempt, and a PUBLISHED row at least once. */
  lemma PublishesBounded(states: seq<System>, steps: seq<Step>, staleLockMs: nat, n: nat, id: MessageId)
    requires Run(states, steps, staleLockMs) && n < |states| && id in states[n].db.outbox
    ensures DeliveriesOf(states[n], id) <= states[n].db.outbox[id].attempts
    ensures states[n].db.outbox[id].status == PUBLISHED ==> 1 <= DeliveriesOf(states[n], id)
  {
    hide Run, Inv, TokensOk;
    RunInvariant(states, steps, staleLockMs, n);
    assert RowOkAt(states[n], id, staleLockMs);
    BoundedSetSize(SendsOf(states[n], id), states[n].db.outbox[id].attempts);
  }

  // ---- no fanout is lost

  /** When a row not yet published may next be claimed. */
  function ClaimableAfter(row: OutboxRow, staleLockMs: nat): int {
    match row.status
    case PUBLISHING => if row.lockedAt.Some? then row.lockedAt.value + staleLockMs + 1 else 0
    case _ => if row.nextAttemptAt.Some? then row.nextAttemptAt.value else 0
  }

  lemma UnpublishedIsClaimable(s: System, id: MessageId, staleLockMs: nat, later: int)
    requires LeaseInv(s, staleLockMs) && id in s.db.outbox && s.db.outbox[id].status != PUBLISHED
    ensures ClaimableAfter(s.db.outbox[id], staleLockMs) <= later ==> Claimable(s.db.outbox[id], later, staleLockMs)
  {
    hide Inv, TokensOk;
    assert RowOkAt(s, id, staleLockMs);
  }

  ghost predicate ClaimableFrom(row: OutboxRow, from: int, staleLockMs: nat) {
    forall later | later >= from :: Claimable(row, later, staleLockMs)
  }

  lemma WriterMessageLinks(db: Db, id: MessageId)
    requires Linked(db) && id in db.messages && id.Stable?
    ensures id in db.outbox
    ensures WriteIs(db.writes, id.rank, PERSISTED) || WriteIs(db.writes, id.rank, FANOUTED)
    ensures db.outbox[id].status == PUBLISHED ==> WriteIs(db.writes, id.rank, FANOUTED) && !WriteIs(db.writes, id.rank, PERSISTED)
  {
    assert Backed(db, id) && Queued(db, id);
    var k := Key(db.messages[id].senderId, db.messages[id].requestId.value);
    assert WriteIs(db.writes, id.rank, db.writes[k].status);
  }

  /**
   * No lost fanout: every writer-inserted message has an outbox row, its write
   * is PERSISTED or FANOUTED, PUBLISHED means FANOUTED, and while the write is
   * only PERSISTED the row can be claimed from a known time on.
   */
  lemma NoLostFanout(states: seq<System>, steps: seq<Step>, staleLockMs: nat, n: nat, id: MessageId)
    requires Run(states, steps, staleLockMs) && n < |states| && id in states[n].db.messages && id.Stable?
    ensures
      var db := states[n].db;
      && id in db.outbox
      && (WriteIs(db.writes, id.rank, PERSISTED) || WriteIs(db.writes, id.rank, FANOUTED))
      && (db.outbox[id].status == PUBLISHED ==> WriteIs(db.writes, id.rank, FANOUTED))
      && (WriteIs(db.writes, id.rank, PERSISTED) ==>
            && db.outbox[id].status != PUBLISHED
            && ClaimableFrom(db.outbox[id], ClaimableAfter(db.outbox[id], staleLockMs), staleLockMs))
  {
    hide Run, Sequenced, WriteIs, RowsOk, TokensOk, Claimable;
    RunInvariant(states, steps, staleLockMs, n);
    var db := states[n].db;
    WriterMessageLinks(db, id);
    if db.outbox[id].status != PUBLISHED {
      forall later | later >= ClaimableAfter(db.outbox[id], staleLockMs)
        ensures Claimable(db.outbox[id], later, staleLockMs)
      {
        UnpublishedIsClaimable(states[n], id, staleLockMs, later);
      }
    }
  }

  /** The drainer's "message not found" branch is unreachable: every claimed row's message is stored. */
  lemma ClaimedMessageExists(states: seq<System>, steps: seq<Step>, staleLockMs: nat, n: nat, t: Token)
    requires Run(states, steps, staleLockMs) && n < |states| && t in states[n].claims
    ensures t.row in states[n].db.outbox && t.row in states[n].db.messages
  {
    RunInvariant(states, steps, staleLockMs, n);
    assert TokenOkAt(states[n], t) && Queued(states[n].db, t.row);
  }

  lemma CommitPersistsOnly(db: Db, batch: Batch, k: Key)
    requires Schema(db) && Accepts(db, batch) && k in db.writes && db.writes[k].status != FANOUTED
    ensures k in CommitAccepted(db, batch).db.writes && CommitAccepted(db, batch).db.writes[k].status != FANOUTED
  {
    hide Schema, Accepts;
    var writes, after := WritesOf(db, batch), CommitAccepted(db, batch).db.writes;
    assert k in writes && SameWrite(after[k], writes[k]);
  }

  lemma TablePersistsOnly(db: Db, op: TableOp, k: Key)
    requires Schema(db) && k in db.writes && k in TableAfter(db, op).writes
    requires db.writes[k].status != FANOUTED
    ensures TableAfter(db, op).writes[k].status != FANOUTED
  {
    hide Schema, Insertable, AllMatch, CommitAccepted;
    if op.CommitBatch? && CommitCommands(db, op.cmds).Ok? && op.cmds != [] {
      CommitPersistsOnly(db, Dedupe(op.cmds).value, k);
    }
  }

  lemma SentClaim(s: System, t: Token)
    requires TokensOk(s) && t in s.claims && s.claims[t].sent
    ensures t.attempt in SendsOf(s, t.row)
  {
    assert TokenOkAt(s, t);
  }

  /** A write becomes FANOUTED only when a drainer that has published its message finishes. */
  lemma FanoutMeansPublished(s: System, step: Step, s': System, staleLockMs: nat, k: Key)
    requires Schema(s.db) && TokensOk(s) && Next(s, step, s', staleLockMs) && k in s.db.writes && k in s'.db.writes
    requires s.db.writes[k].status != FANOUTED && s'.db.writes[k].status == FANOUTED
    ensures (step.Finish? || step.FinishUnheard?) && step.t.row == Stable(s.db.writes[k].id) && SendsOf(s', step.t.row) != {}
  {
    hide Schema, TableAfter, Claimable, TokensOk, NewClaims;
    if step.Table? {
      TablePersistsOnly(s.db, step.op, k);
    }
    if step.Finish? || step.FinishUnheard? {
      SentClaim(s, step.t);
    }
  }

  // ---- claims held in time

  ghost predicate Live(s: System, t: Token, staleLockMs: nat)
    requires t in s.claims
  {
    s.now <= s.claims[t].at + staleLockMs
  }

  /** A drainer settles only a claim it still holds, and fails none whose finish has committed. */
  ghost predicate Timely(s: System, step: Step, staleLockMs: nat) {
    (step.Finish? || step.FinishUnheard? || step.Fail?) && step.t in s.claims ==>
      Live(s, step.t, staleLockMs) && (step.Fail? ==> !s.claims[step.t].finished)
  }

  ghost predicate TimelyRun(states: seq<System>, steps: seq<Step>, staleLockMs: nat) {
    Run(states, steps, staleLockMs) && forall i | 0 <= i < |steps| :: Timely(states[i], steps[i], staleLockMs)
  }

  /** A live claim is the row's last one, and the row says so. */
  ghost predicate Holds(s: System, t: Token, staleLockMs: nat)
    requires t in s.claims
  {
    Live(s, t, staleLockMs) ==>
      && t.row in s.db.outbox
      && s.db.outbox[t.row].attempts == t.attempt
      && if s.claims[t].finished then s.db.outbox[t.row].status == PUBLISHED
         else s.db.outbox[t.row].status == PUBLISHING && s.db.outbox[t.row].lockedAt == Some(s.claims[t].at)
  }

  ghost predicate AllHold(s: System, staleLockMs: nat) {
    forall t | t in s.claims :: Holds(s, t, staleLockMs)
  }

  lemma ClaimKeepsHolds(s: System, ids: set<MessageId>, s': System, staleLockMs: nat, t: Token)
    requires AllHold(s, staleLockMs) && Schema(s.db) && Next(s, ClaimRows(ids), s', staleLockMs) && t in s'.claims
    ensures Holds(s', t, staleLockMs)
  {
    hide Schema;
    if t in NewClaims(s.db.outbox, ids, s.now) {
      assert t.row in ids;
    } else {
      assert t in s.claims && Holds(s, t, staleLockMs);
    }
  }

  lemma TableKeepsHolds(s: System, op: TableOp, s': System, staleLockMs: nat, t: Token)
    requires Inv(s.db) && AllHold(s, staleLockMs) && Next(s, Table(op), s', staleLockMs) && t in s'.claims
    ensures Holds(s', t, staleLockMs)
  {
    TableOpOutbox(s.db, op);
    hide Inv, TableAfter;
    assert Holds(s, t, staleLockMs);
  }

  lemma SettleKeepsHolds(s: System, step: Step, s': System, staleLockMs: nat, u: Token)
    requires Schema(s.db) && AllHold(s, staleLockMs) && Next(s, step, s', staleLockMs) && Timely(s, step, staleLockMs)
    requires (step.Finish? || step.FinishUnheard? || step.Fail?) && u in s'.claims
    ensures Holds(s', u, staleLockMs)
  {
    hide Schema;
    var t := step.t;
    assert t in s.claims && u in s.claims && Holds(s, t, staleLockMs) && Holds(s, u, staleLockMs);
    assert u == t ==> step.FinishUnheard?;
    assert u != t && u.row == t.row ==> u.attempt != t.attempt;
  }

  lemma QuietKeepsHolds(s: System, step: Step, s': System, staleLockMs: nat, u: Token)
    requires Schema(s.db) && AllHold(s, staleLockMs) && Next(s, step, s', staleLockMs)
    requires (step.Publish? || step.Abandon? || step.Tick?) && u in s'.claims
    ensures Holds(s', u, staleLockMs)
  {
    hide Schema;
    assert Holds(s, u, staleLockMs);
  }

  lemma StepKeepsHolds(s: System, step: Step, s': System, staleLockMs: nat)
    requires LeaseInv(s, staleLockMs) && AllHold(s, staleLockMs)
    requires Next(s, step, s', staleLockMs) && Timely(s, step, staleLockMs)
    ensures AllHold(s', staleLockMs)
  {
    assert Schema(s.db);
    hide Inv, Schema, Next, RowsOk, TokensOk, HistoryKept, Holds, AllHold, Timely;
    forall u | u in s'.claims
      ensures Holds(s', u, staleLockMs)
    {
      match step
      case Table(op) => TableKeepsHolds(s, op, s', staleLockMs, u);
      case ClaimRows(ids) => ClaimKeepsHolds(s, ids, s', staleLockMs, u);
      case Finish(t) => SettleKeepsHolds(s, step, s', staleLockMs, u);
      case FinishUnheard(t) => SettleKeepsHolds(s, step, s', staleLockMs, u);
      case Fail(t) => SettleKeepsHolds(s, step, s', staleLockMs, u);
      case Publish(t) => QuietKeepsHolds(s, step, s', staleLockMs, u);
      case Abandon(t) => QuietKeepsHolds(s, step, s', staleLockMs, u);
      case Tick(to) => QuietKeepsHolds(s, step, s', staleLockMs, u);
    }
  }

  lemma {:induction false} TimelyInvariant(states: seq<System>, steps: seq<Step>, staleLockMs: nat, i: nat)
    requires TimelyRun(states, steps, staleLockMs) && i < |states|
    ensures AllHold(states[i], staleLockMs)
  {
    hide Schema, Next, LeaseInv, Timely;
    if i > 0 {
      TimelyInvariant(states, steps, staleLockMs, i - 1);
      RunInvariant(states, steps, staleLockMs, i - 1);
      StepKeepsHolds(states[i - 1], steps[i - 1], states[i], staleLockMs);
    }
  }

  /** Claims held in time exclude each other. */
  lemma ClaimsExclusive(states: seq<System>, steps: seq<Step>, staleLockMs: nat, i: nat, t: Token, u: Token)
    requires TimelyRun(states, steps, staleLockMs) && i < |states|
    requires t in states[i].claims && u in states[i].claims && t.row == u.row
    requires Live(states[i], t, staleLockMs) && Live(states[i], u, staleLockMs)
    ensures t == u
  {
    TimelyInvariant(states, steps, staleLockMs, i);
    assert Holds(states[i], t, staleLockMs) && Holds(states[i], u, staleLockMs);
  }

  ghost predicate IsPublished(s: System, id: MessageId) {
    id in s.db.outbox && s.db.outbox[id].status == PUBLISHED
  }

  lemma TableLeavesPublished(s: System, op: TableOp, s': System, staleLockMs: nat, id: MessageId)
    requires Inv(s.db) && Next(s, Table(op), s', staleLockMs) && IsPublished(s, id)
    ensures IsPublished(s', id)
  {
    TableOpOutbox(s.db, op);
    hide Inv, TableAfter;
  }

  predicate FailsRow(step: Step, id: MessageId) {
    step.Fail? && step.t.row == id
  }

  /** A published row is left exactly by a failure update: of a stale claim, or of one whose finish went unheard. */
  lemma PublishedLeftByFail(s: System, step: Step, s': System, staleLockMs: nat, id: MessageId)
    requires Inv(s.db) && Next(s, step, s', staleLockMs) && IsPublished(s, id)
    ensures !IsPublished(s', id) <==> FailsRow(step, id)
  {
    hide Linked, Sequenced, TableAfter, NewClaims;
    if step.Table? {
      TableLeavesPublished(s, step.op, s', staleLockMs, id);
    }
  }

  /** Over runs: a published row stays published throughout if and only if no claim of it is failed in between. */
  lemma {:induction false} PublishedThroughoutExactly(states: seq<System>, steps: seq<Step>, staleLockMs: nat,
                                                      i: nat, j: nat, id: MessageId)
    requires Run(states, steps, staleLockMs) && i <= j < |states| && IsPublished(states[i], id)
    ensures (forall m | i <= m <= j :: IsPublished(states[m], id)) <==> (forall m | i <= m < j :: !FailsRow(steps[m], id))
  {
    hide Schema, Next, Inv, LeaseInv, IsPublished, FailsRow;
    if i < j {
      PublishedThroughoutExactly(states, steps, staleLockMs, i, j - 1, id);
      RunInvariant(states, steps, staleLockMs, j - 1);
      if IsPublished(states[j - 1], id) {
        StepOfRun(states, steps, staleLockMs, j - 1);
        PublishedLeftByFail(states[j - 1], steps[j - 1], states[j], staleLockMs, id);
      }
    }
  }

  lemma StepOfRun(states: seq<System>, steps: seq<Step>, staleLockMs: nat, i: nat)
    requires Run(states, steps, staleLockMs) && i < |steps|
    ensures Inv(states[i].db) && Next(states[i], steps[i], states[i + 1], staleLockMs)
  {
    hide Inv, Next, Schema, RowsOk, TokensOk, HistoryKept;
    RunInvariant(states, steps, staleLockMs, i);
  }

  /**
   * When drainers settle only claims they still hold, and fail none whose
   * finish has committed unheard, PUBLISHED is terminal.
   */
  lemma {:induction false} PublishedIsTerminal(states: seq<System>, steps: seq<Step>, staleLockMs: nat, i: nat, j: nat, id: MessageId)
    requires TimelyRun(states, steps, staleLockMs) && i <= j < |states| && IsPublished(states[i], id)
    ensures IsPublished(states[j], id)
  {
    hide Schema, Next, Inv, RowsOk, TokensOk, HistoryKept, AllHold;
    if i < j {
      PublishedIsTerminal(states, steps, staleLockMs, i, j - 1, id);
      var s, step := states[j - 1], steps[j - 1];
      RunInvariant(states, steps, staleLockMs, j - 1);
      TimelyInvariant(states, steps, staleLockMs, j - 1);
      PublishedLeftByFail(s, step, states[j], staleLockMs, id);
      if step.Fail? && step.t.row == id {
        FailedClaimHeld(s, step.t, states[j], staleLockMs);
      }
    }
  }

  lemma FailedClaimHeld(s: System, t: Token, s': System, staleLockMs: nat)
    requires Schema(s.db) && Next(s, Fail(t), s', staleLockMs) && Timely(s, Fail(t), staleLockMs) && AllHold(s, staleLockMs)
    ensures !IsPublished(s, t.row)
  {
    assert Holds(s, t, staleLockMs);
  }

  // ---- and without that hypothesis

  /** Two claims of one row, the second after the first went stale. */
  function TwoClaims(id: MessageId, now: int, staleLockMs: nat): (steps: seq<Step>)
    ensures |steps| == 3
  {
    [ClaimRows({id}), Tick(now + staleLockMs + 1), ClaimRows({id})]
  }

  /** The second drainer publishes and finishes, then the first gives up. */
  function RacingEnd(stale: Token, held: Token): (steps: seq<Step>)
    ensures |steps| == 3
  {
    [Publish(held), Finish(held), Fail(stale)]
  }

  ghost function RacingClaim(s: System, id: MessageId): System
    requires id in s.db.outbox
  {
    s.(db := Steps.ClaimRows(s.db, {id}, s.now),
       claims := s.claims + NewClaims(s.db.outbox, {id}, s.now),
       claimedAt := map o | o in s.claimedAt.Keys + {id} :: TimesOf(s, o) + if o in {id} then [s.now] else [])
  }

  lemma StepDefined(s: System, step: Step, s': System, staleLockMs: nat)
    requires Inv(s.db) && Next(s, step, s', staleLockMs)
    ensures Inv(s'.db) && Schema(s'.db)
  {
    hide Next, Sequenced;
    StepKeepsTables(s, step, s', staleLockMs);
  }

  lemma NewClaim(outbox: Outbox, id: MessageId, now: int)
    requires id in outbox
    ensures NewClaims(outbox, {id}, now) == map[Token(id, outbox[id].attempts + 1) := Claim(now, false, false)]
  {
  }

  lemma ClaimStep(s: System, id: MessageId, staleLockMs: nat) returns (s': System)
    requires Inv(s.db) && Schema(s.db) && id in s.db.outbox && Claimable(s.db.outbox[id], s.now, staleLockMs)
    ensures Next(s, ClaimRows({id}), s', staleLockMs) && Inv(s'.db) && Schema(s'.db) && s'.now == s.now
    ensures id in s'.db.outbox && s'.db.outbox[id] == ClaimedRow(s.db.outbox[id], s.now)
    ensures s'.claims == s.claims[Token(id, s.db.outbox[id].attempts + 1) := Claim(s.now, false, false)]
  {
    hide Inv, Schema, Next, ClaimedRow, NewClaims, Claimable;
    s' := RacingClaim(s, id);
    RacingClaimNext(s, id, staleLockMs);
    StepDefined(s, ClaimRows({id}), s', staleLockMs);
    NewClaim(s.db.outbox, id, s.now);
  }

  lemma RacingClaimNext(s: System, id: MessageId, staleLockMs: nat)
    requires Schema(s.db) && id in s.db.outbox && Claimable(s.db.outbox[id], s.now, staleLockMs)
    ensures Next(s, ClaimRows({id}), RacingClaim(s, id), staleLockMs)
  {
    hide Schema, Claimable, NewClaims, Steps.ClaimRows;
  }

  lemma PublishStep(s: System, t: Token, staleLockMs: nat) returns (s': System)
    requires Inv(s.db) && Schema(s.db) && t in s.claims && !s.claims[t].sent
    ensures Next(s, Publish(t), s', staleLockMs) && s'.db == s.db && s'.now == s.now
    ensures s'.claims == s.claims[t := s.claims[t].(sent := true)]
  {
    hide Inv, Schema, Claimable, TableAfter, FinishRow, FailRow;
    s' := s.(claims := s.claims[t := s.claims[t].(sent := true)],
             sends := s.sends[t.row := SendsOf(s, t.row) + {t.attempt}],
             deliveries := s.deliveries[t.row := DeliveriesOf(s, t.row) + 1]);
  }

  lemma FinishStep(s: System, t: Token, staleLockMs: nat) returns (s': System)
    requires Inv(s.db) && Schema(s.db) && t.row in s.db.outbox && t in s.claims && s.claims[t].sent && !s.claims[t].finished
    ensures Next(s, Finish(t), s', staleLockMs) && Inv(s'.db) && Schema(s'.db)
    ensures t.row in s'.db.outbox && IsPublished(s', t.row) && s'.claims == Drop(s.claims, t)
  {
    hide Inv, Schema, Claimable, TableAfter, FailRow, Fanout;
    s' := s.(db := FinishRow(s.db, t.row), claims := Drop(s.claims, t));
    assert Next(s, Finish(t), s', staleLockMs);
    StepDefined(s, Finish(t), s', staleLockMs);
  }

  lemma FinishUnheardStep(s: System, t: Token, staleLockMs: nat) returns (s': System)
    requires Inv(s.db) && Schema(s.db) && t.row in s.db.outbox && t in s.claims && s.claims[t].sent && !s.claims[t].finished
    ensures Next(s, FinishUnheard(t), s', staleLockMs) && Inv(s'.db) && Schema(s'.db) && s'.now == s.now
    ensures t.row in s'.db.outbox && IsPublished(s', t.row) && s'.claims == s.claims[t := s.claims[t].(finished := true)]
  {
    hide Inv, Schema, Claimable, TableAfter, FailRow, Fanout;
    s' := s.(db := FinishRow(s.db, t.row), claims := s.claims[t := s.claims[t].(finished := true)]);
    assert Next(s, FinishUnheard(t), s', staleLockMs);
    StepDefined(s, FinishUnheard(t), s', staleLockMs);
  }

  lemma FailStep(s: System, t: Token, staleLockMs: nat) returns (s': System)
    requires Schema(s.db) && t.row in s.db.outbox && t in s.claims
    ensures Next(s, Fail(t), s', staleLockMs) && !IsPublished(s', t.row)
  {
    hide Schema, Claimable, TableAfter, FinishRow;
    s' := s.(db := FailRow(s.db, t.row, t.attempt, s.now), claims := Drop(s.claims, t));
  }

  lemma TickStep(s: System, to: int, staleLockMs: nat) returns (s': System)
    requires Schema(s.db) && s.now <= to
    ensures Next(s, Tick(to), s', staleLockMs) && s' == s.(now := to)
  {
    hide Schema, Claimable, TableAfter, FinishRow, FailRow;
    s' := s.(now := to);
  }

  lemma Append(states: seq<System>, steps: seq<Step>, step: Step, s': System, staleLockMs: nat)
    requires |states| == |steps| + 1 && Follows(states, steps, staleLockMs)
    requires Schema(states[|steps|].db) && Next(states[|steps|], step, s', staleLockMs)
    ensures Follows(states + [s'], steps + [step], staleLockMs)
  {
    hide Schema, Next;
  }

  /** Two drainers claim one row, and the second has not yet published. */
  ghost predicate ClaimedTwice(s: System, t: Token, u: Token) {
    && Inv(s.db) && Schema(s.db) && t.row == u.row && t.row in s.db.outbox
    && t in s.claims && u in s.claims && t != u && !s.claims[u].sent && !s.claims[u].finished
  }

  /** The second drainer delivers, then the first gives up. */
  lemma FinishRace(before: seq<System>, steps: seq<Step>, t: Token, u: Token, staleLockMs: nat) returns (states: seq<System>)
    requires |before| == |steps| + 1 && Follows(before, steps, staleLockMs)
    requires ClaimedTwice(before[|steps|], t, u)
    ensures |states| == |before| + 3 && states[..|before|] == before
    ensures Follows(states, steps + RacingEnd(t, u), staleLockMs)
    ensures IsPublished(states[|before| + 1], t.row) && !IsPublished(states[|before| + 2], t.row)
  {
    hide Inv, Schema, Next, Follows, IsPublished;
    var s4 := PublishStep(before[|steps|], u, staleLockMs);
    Append(before, steps, Publish(u), s4, staleLockMs);
    var s5 := FinishStep(s4, u, staleLockMs);
    Append(before + [s4], steps + [Publish(u)], Finish(u), s5, staleLockMs);
    var s6 := FailStep(s5, t, staleLockMs);
    Append(before + [s4] + [s5], steps + [Publish(u)] + [Finish(u)], Fail(t), s6, staleLockMs);
    states := before + [s4] + [s5] + [s6];
    assert steps + RacingEnd(t, u) == steps + [Publish(u)] + [Finish(u)] + [Fail(t)];
  }

  /** The first claim goes stale and the row is claimed again. */
  lemma StartRace(s: System, id: MessageId, staleLockMs: nat) returns (states: seq<System>)
    requires Inv(s.db) && Schema(s.db) && id in s.db.outbox && Claimable(s.db.outbox[id], s.now, staleLockMs)
    ensures |states| == 4 && states[0] == s
    ensures Follows(states, TwoClaims(id, s.now, staleLockMs), staleLockMs)
    ensures ClaimedTwice(states[3], Token(id, s.db.outbox[id].attempts + 1), Token(id, s.db.outbox[id].attempts + 2))
  {
    hide Inv, Schema, Next;
    var s1 := ClaimStep(s, id, staleLockMs);
    var s2 := TickStep(s1, s.now + staleLockMs + 1, staleLockMs);
    var s3 := ClaimStep(s2, id, staleLockMs);
    states := [s, s1, s2, s3];
  }

  /**
   * From any state with a claimable row there is a run in which the row is
   * published and then failed by a drainer whose claim had gone stale: the
   * first half of the hypothesis of PublishedIsTerminal cannot be dropped.
   */
  lemma StaleFailureUndoesPublished(s: System, id: MessageId, staleLockMs: nat) returns (states: seq<System>)
    requires Inv(s.db) && Schema(s.db) && id in s.db.outbox && Claimable(s.db.outbox[id], s.now, staleLockMs)
    ensures |states| == 7 && states[0] == s
    ensures
      var n := s.db.outbox[id].attempts;
      Follows(states, TwoClaims(id, s.now, staleLockMs) + RacingEnd(Token(id, n + 1), Token(id, n + 2)), staleLockMs)
    ensures IsPublished(states[5], id) && !IsPublished(states[6], id)
  {
    hide Inv, Schema, Next, Follows, IsPublished, Claimable, TwoClaims, RacingEnd, ClaimedTwice;
    var n := s.db.outbox[id].attempts;
    var before := StartRace(s, id, staleLockMs);
    states := FinishRace(before, TwoClaims(id, s.now, staleLockMs), Token(id, n + 1), Token(id, n + 2), staleLockMs);
    assert states[0] == states[..|before|][0];
  }

  /** One drainer claims, publishes, finishes without hearing of it, and records a failure. */
  function UnheardSteps(t: Token): (steps: seq<Step>)
    ensures |steps| == 4
  {
    [ClaimRows({t.row}), Publish(t), FinishUnheard(t), Fail(t)]
  }

  /**
   * Nor the second half: from any state with a claimable row there is a run, at
   * one moment and with a single claim, in which the row is published and then
   * failed by the very drainer that finished it.
   */
  lemma LostAnswerUndoesPublished(s: System, id: MessageId, staleLockMs: nat) returns (states: seq<System>)
    requires Inv(s.db) && Schema(s.db) && id in s.db.outbox && Claimable(s.db.outbox[id], s.now, staleLockMs)
    ensures |states| == 5 && states[0] == s
    ensures
      var t := Token(id, s.db.outbox[id].attempts + 1);
      && Follows(states, UnheardSteps(t), staleLockMs)
      && (forall i | 1 <= i <= 3 :: t in states[i].claims && Live(states[i], t, staleLockMs))
    ensures IsPublished(states[3], id) && !IsPublished(states[4], id)
  {
    hide Inv, Schema, Next, IsPublished, Claimable;
    var t := Token(id, s.db.outbox[id].attempts + 1);
    var s1 := ClaimStep(s, id, staleLockMs);
    var s2 := PublishStep(s1, t, staleLockMs);
    var s3 := FinishUnheardStep(s2, t, staleLockMs);
    var s4 := FailStep(s3, t, staleLockMs);
    states := [s, s1, s2, s3, s4];
  }
}
