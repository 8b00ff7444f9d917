/**
 * Outbox leases over whole runs: how often a row is claimed and published,
 * when claims are exclusive, and that no message is forgotten.
 */
module Leases {
  import opened Prelude
  import opened Ranking
  import opened Store
  import opened Invariant
  import opened Refinement
  import opened Steps
  import opened Runs

  function Gap(staleLockMs: nat): nat {
    if staleLockMs < 1_000 then staleLockMs else 1_000
  }

  /** Successive claims are at least `gap` apart. */
  ghost predicate Spaced(times: seq<int>, gap: nat) {
    forall i | 0 < i < |times| :: times[i - 1] + gap <= times[i]
  }

  /** What the history of one outbox row has to do with its columns. */
  ghost predicate RowOk(row: OutboxRow, times: seq<int>, sends: set<nat>, deliveries: nat, now: int, staleLockMs: nat) {
    && |times| == row.attempts
    && Spaced(times, Gap(staleLockMs))
    && (forall t | t in times :: t <= now)
    && (row.status == WAITING <==> row.attempts == 0)
    && (row.status == PUBLISHING ==> row.lockedAt == Some(times[|times| - 1]))
    && (row.status == FAILED ==> row.nextAttemptAt.Some? && times[|times| - 1] + 1_000 <= row.nextAttemptAt.value)
    && (row.status == PUBLISHED ==> sends != {})
    && (forall a | a in sends :: 1 <= a <= row.attempts)
    && deliveries == |sends|
  }

  /** A claim is one of the row's attempts, has sent if and only if that attempt is among the sends, and finishes only then. */
  ghost predicate TokenOk(t: Token, claim: Claim, outbox: Outbox, times: seq<int>, sends: set<nat>) {
    && t.row in outbox && 1 <= t.attempt <= |times| && times[t.attempt - 1] == claim.at
    && (claim.sent <==> t.attempt in sends)
    && (claim.finished ==> claim.sent)
  }

  ghost predicate RowOkAt(s: System, id: MessageId, staleLockMs: nat)
    requires id in s.db.outbox
  {
    RowOk(s.db.outbox[id], TimesOf(s, id), SendsOf(s, id), DeliveriesOf(s, id), s.now, staleLockMs)
  }

  ghost predicate TokenOkAt(s: System, t: Token)
    requires t in s.claims
  {
    TokenOk(t, s.claims[t], s.db.outbox, TimesOf(s, t.row), SendsOf(s, t.row))
  }

  ghost predicate HistoryKept(s: System) {
    s.claimedAt.Keys <= s.db.outbox.Keys && s.sends.Keys <= s.db.outbox.Keys && s.deliveries.Keys <= s.db.outbox.Keys
  }

  ghost predicate RowsOk(s: System, staleLockMs: nat) {
    forall id | id in s.db.outbox :: RowOkAt(s, id, staleLockMs)
  }

  ghost predicate TokensOk(s: System) {
    forall t | t in s.claims :: TokenOkAt(s, t)
  }

  ghost predicate LeaseInv(s: System, staleLockMs: nat) {
    Inv(s.db) && HistoryKept(s) && RowsOk(s, staleLockMs) && TokensOk(s)
  }

  lemma InitLease(s: System, staleLockMs: nat)
    requires Init(s)
    ensures LeaseInv(s, staleLockMs)
  {
  }

  ghost predicate SameHistory(s: System, s': System, id: MessageId) {
    TimesOf(s', id) == TimesOf(s, id) && SendsOf(s', id) == SendsOf(s, id) && DeliveriesOf(s', id) == DeliveriesOf(s, id)
  }

  lemma RowFrame(s: System, s': System, id: MessageId, staleLockMs: nat)
    requires id in s.db.outbox && id in s'.db.outbox && s'.db.outbox[id] == s.db.outbox[id]
    requires SameHistory(s, s', id) && s.now <= s'.now && RowOkAt(s, id, staleLockMs)
    ensures RowOkAt(s', id, staleLockMs)
  {
    forall t | t in TimesOf(s', id)
      ensures t <= s'.now
    {
      assert t <= s.now;
    }
  }

  lemma TokenFrame(s: System, s': System, t: Token)
    requires t in s.claims && t in s'.claims && s'.claims[t] == s.claims[t]
    requires s.db.outbox.Keys <= s'.db.outbox.Keys
    requires TimesOf(s, t.row) <= TimesOf(s', t.row)
    requires t.attempt in SendsOf(s', t.row) <==> t.attempt in SendsOf(s, t.row)
    requires TokenOkAt(s, t)
    ensures TokenOkAt(s', t)
  {
  }

  /** Only the rows in `touched`, their history and their claims differ. */
  ghost predicate OnlyTouched(s: System, s': System, touched: set<MessageId>) {
    && s.now <= s'.now
    && s.db.outbox.Keys == s'.db.outbox.Keys
    && (forall id | id in s.db.outbox && id !in touched :: s'.db.outbox[id] == s.db.outbox[id])
    && (forall id | id !in touched :: SameHistory(s, s', id))
    && (forall t | t in s'.claims && t.row !in touched :: t in s.claims && s'.claims[t] == s.claims[t])
  }

  lemma RowsStayOk(s: System, s': System, touched: set<MessageId>, staleLockMs: nat)
    requires RowsOk(s, staleLockMs) && OnlyTouched(s, s', touched)
    requires forall id | id in touched && id in s'.db.outbox :: RowOkAt(s', id, staleLockMs)
    ensures RowsOk(s', staleLockMs)
  {
    hide RowOk;
    forall id | id in s.db.outbox && id !in touched
      ensures RowOkAt(s', id, staleLockMs)
    {
      RowFrame(s, s', id, staleLockMs);
    }
  }

  lemma TokensStayOk(s: System, s': System, touched: set<MessageId>)
    requires TokensOk(s) && OnlyTouched(s, s', touched)
    requires forall t | t in s'.claims && t.row in touched :: TokenOkAt(s', t)
    ensures TokensOk(s')
  {
    hide TokenOk;
    forall t | t in s'.claims && t.row !in touched
      ensures TokenOkAt(s', t)
    {
      assert SameHistory(s, s', t.row);
      TokenFrame(s, s', t);
    }
  }

  /** Rows and claims nothing happened to stay right. */
  lemma Untouched(s: System, s': System, touched: set<MessageId>, staleLockMs: nat)
    requires LeaseInv(s, staleLockMs) && OnlyTouched(s, s', touched) && Inv(s'.db) && HistoryKept(s')
    requires forall id | id in touched && id in s'.db.outbox :: RowOkAt(s', id, staleLockMs)
    requires forall t | t in s'.claims && t.row in touched :: TokenOkAt(s', t)
    ensures LeaseInv(s', staleLockMs)
  {
    hide Inv, RowOkAt, TokenOkAt, RowsOk, TokensOk, OnlyTouched;
    RowsStayOk(s, s', touched, staleLockMs);
    TokensStayOk(s, s', touched);
  }

  // ---- steps of the other clients

  ghost predicate FreshRow(row: OutboxRow) {
    row.status == WAITING && row.attempts == 0 && row.nextAttemptAt.None?
  }

  /** Other clients leave outbox rows alone and add only fresh ones. */
  ghost predicate OnlyFreshRows(a: Outbox, b: Outbox) {
    && (forall id | id in a :: id in b && b[id] == a[id])
    && (forall id | id in b && id !in a :: FreshRow(b[id]))
  }

  lemma AddedAreFresh(outbox: Outbox, writes: Writes, batch: Batch, keys: set<Key>)
    requires UniqueWriteIds(writes) && keys <= batch.Keys <= writes.Keys
    ensures OnlyFreshRows(outbox, WithOutbox(outbox, NewOutbox(writes, batch, keys)))
  {
  }

  lemma CommitOutbox(db: Db, batch: Batch)
    requires Inv(db) && Accepts(db, batch)
    ensures OnlyFreshRows(db.outbox, CommitAccepted(db, batch).db.outbox)
  {
    CommitShape(db, batch);
    AddedAreFresh(db.outbox, WritesOf(db, batch), batch, CandsOf(db, batch));
  }

  lemma CommandsOutbox(db: Db, cmds: seq<Command>)
    requires Inv(db) && CommitCommands(db, cmds).Ok?
    ensures OnlyFreshRows(db.outbox, CommitCommands(db, cmds).value.db.outbox)
  {
    hide Linked, Sequenced, CommitAccepted, OnlyFreshRows;
    if cmds == [] {
      NoRowsAdded(db.outbox);
    } else {
      CommitOutbox(db, Dedupe(cmds).value);
    }
  }

  lemma NoRowsAdded(outbox: Outbox)
    ensures OnlyFreshRows(outbox, outbox)
  {
  }

  lemma TableOpOutbox(db: Db, op: TableOp)
    requires Inv(db)
    ensures OnlyFreshRows(db.outbox, TableAfter(db, op).outbox)
  {
    assert Schema(db);
    NoRowsAdded(db.outbox);
    if op.CommitBatch? && CommitCommands(db, op.cmds).Ok? {
      CommandsOutbox(db, op.cmds);
    }
    hide Inv, Schema, CommitCommands, OnlyFreshRows, Insertable, Conflicts;
  }

  lemma FreshRowOk(s: System, id: MessageId, staleLockMs: nat)
    requires id in s.db.outbox && FreshRow(s.db.outbox[id])
    requires TimesOf(s, id) == [] && SendsOf(s, id) == {} && DeliveriesOf(s, id) == 0
    ensures RowOkAt(s, id, staleLockMs)
  {
  }

  lemma TableRows(s: System, s': System, staleLockMs: nat)
    requires RowsOk(s, staleLockMs) && HistoryKept(s) && s' == s.(db := s'.db) && OnlyFreshRows(s.db.outbox, s'.db.outbox)
    ensures RowsOk(s', staleLockMs)
  {
    hide RowOk;
    forall id | id in s'.db.outbox
      ensures RowOkAt(s', id, staleLockMs)
    {
      if id in s.db.outbox {
        RowFrame(s, s', id, staleLockMs);
      } else {
        FreshRowOk(s', id, staleLockMs);
      }
    }
  }

  lemma TableTokens(s: System, s': System)
    requires TokensOk(s) && s' == s.(db := s'.db) && OnlyFreshRows(s.db.outbox, s'.db.outbox)
    ensures TokensOk(s')
  {
    hide TokenOk;
    forall t | t in s'.claims
      ensures TokenOkAt(s', t)
    {
      TokenFrame(s, s', t);
    }
  }

  lemma TableLease(s: System, op: TableOp, s': System, staleLockMs: nat)
    requires LeaseInv(s, staleLockMs) && Next(s, Table(op), s', staleLockMs)
    ensures LeaseInv(s', staleLockMs)
  {
    hide Inv, TableAfter, RowsOk, TokensOk;
    TableOpSteps(s.db, op);
    TableOpOutbox(s.db, op);
    TableRows(s, s', staleLockMs);
    TableTokens(s, s');
  }

  // ---- steps of the drainers

  lemma ClaimedRowOk(row: OutboxRow, times: seq<int>, sends: set<nat>, deliveries: nat, now: int, staleLockMs: nat)
    requires RowOk(row, times, sends, deliveries, now, staleLockMs) && Claimable(row, now, staleLockMs)
    ensures RowOk(ClaimedRow(row, now), times + [now], sends, deliveries, now, staleLockMs)
  {
  }

  lemma ClaimRow(s: System, ids: set<MessageId>, s': System, staleLockMs: nat, id: MessageId)
    requires LeaseInv(s, staleLockMs) && Next(s, ClaimRows(ids), s', staleLockMs) && id in ids
    ensures RowOkAt(s', id, staleLockMs)
  {
    hide Inv, RowOk, TokenOk;
    ClaimedRowOk(s.db.outbox[id], TimesOf(s, id), SendsOf(s, id), DeliveriesOf(s, id), s.now, staleLockMs);
  }

  lemma NewAttemptOk(row: OutboxRow, times: seq<int>, sends: set<nat>, deliveries: nat, now: int, staleLockMs: nat,
                     id: MessageId, outbox: Outbox)
    requires RowOk(row, times, sends, deliveries, now, staleLockMs) && id in outbox
    ensures TokenOk(Token(id, row.attempts + 1), Claim(now, false, false), outbox, times + [now], sends)
  {
    hide Spaced, Gap;
  }

  lemma NewTokenOk(s: System, ids: set<MessageId>, s': System, staleLockMs: nat, id: MessageId)
    requires LeaseInv(s, staleLockMs) && Next(s, ClaimRows(ids), s', staleLockMs) && id in ids
    ensures TokenOk(Token(id, s.db.outbox[id].attempts + 1), Claim(s.now, false, false), s'.db.outbox, TimesOf(s', id), SendsOf(s', id))
  {
    hide Inv, NewClaims, RowOk, TokenOk, TokensOk;
    assert RowOkAt(s, id, staleLockMs);
    assert TimesOf(s', id) == TimesOf(s, id) + [s.now] && SendsOf(s', id) == SendsOf(s, id);
    NewAttemptOk(s.db.outbox[id], TimesOf(s, id), SendsOf(s, id), DeliveriesOf(s, id), s.now, staleLockMs, id, s'.db.outbox);
  }

  lemma ClaimToken(s: System, ids: set<MessageId>, s': System, staleLockMs: nat, t: Token)
    requires LeaseInv(s, staleLockMs) && Next(s, ClaimRows(ids), s', staleLockMs) && t in s'.claims && t.row in ids
    ensures TokenOkAt(s', t)
  {
    hide Inv, RowOk, TokenOk;
    if t in NewClaims(s.db.outbox, ids, s.now) {
      NewTokenOk(s, ids, s', staleLockMs, t.row);
    } else {
      hide Claimable;
      assert TimesOf(s', t.row) == TimesOf(s, t.row) + [s.now];
      TokenFrame(s, s', t);
    }
  }

  lemma ClaimTouches(s: System, ids: set<MessageId>, s': System, staleLockMs: nat)
    requires LeaseInv(s, staleLockMs) && Next(s, ClaimRows(ids), s', staleLockMs)
    ensures OnlyTouched(s, s', ids) && HistoryKept(s')
  {
    hide Inv, RowsOk, TokensOk, Claimable, ClaimedRow;
  }

  lemma ClaimLease(s: System, ids: set<MessageId>, s': System, staleLockMs: nat)
    requires LeaseInv(s, staleLockMs) && Next(s, ClaimRows(ids), s', staleLockMs)
    ensures LeaseInv(s', staleLockMs)
  {
    ClaimTouches(s, ids, s', staleLockMs);
    hide Inv, RowsOk, TokensOk, RowOkAt, TokenOkAt, Advances, OnlyTouched, HistoryKept, Claimable;
    ClaimSteps(s.db, ids, s.now);
    forall id | id in ids && id in s'.db.outbox
      ensures RowOkAt(s', id, staleLockMs)
    {
      ClaimRow(s, ids, s', staleLockMs, id);
    }
    forall t | t in s'.claims && t.row in ids
      ensures TokenOkAt(s', t)
    {
      ClaimToken(s, ids, s', staleLockMs, t);
    }
    Untouched(s, s', ids, staleLockMs);
  }

  lemma PublishedRowOk(row: OutboxRow, times: seq<int>, sends: set<nat>, attempt: nat, deliveries: nat, now: int, staleLockMs: nat)
    requires RowOk(row, times, sends, deliveries, now, staleLockMs)
    requires 1 <= attempt <= |times| && attempt !in sends
    ensures RowOk(row, times, sends + {attempt}, deliveries + 1, now, staleLockMs)
  {
  }

  /** After attempt `t` has sent, every claim of its row still says whether it has. */
  lemma PublishToken(s: System, t: Token, s': System, staleLockMs: nat, u: Token)
    requires LeaseInv(s, staleLockMs) && Next(s, Publish(t), s', staleLockMs) && u in s'.claims && u.row == t.row
    ensures TokenOkAt(s', u)
  {
    hide Inv, RowOk;
    assert TokenOkAt(s, u);
  }

  lemma PublishRow(s: System, t: Token, s': System, staleLockMs: nat)
    requires LeaseInv(s, staleLockMs) && Next(s, Publish(t), s', staleLockMs)
    ensures t.row in s.db.outbox && RowOkAt(s', t.row, staleLockMs)
  {
    hide Inv, RowOk;
    assert TokenOkAt(s, t) && RowOkAt(s, t.row, staleLockMs);
    PublishedRowOk(s.db.outbox[t.row], TimesOf(s, t.row), SendsOf(s, t.row), t.attempt, DeliveriesOf(s, t.row), s.now, staleLockMs);
  }

  lemma PublishLease(s: System, t: Token, s': System, staleLockMs: nat)
    requires LeaseInv(s, staleLockMs) && Next(s, Publish(t), s', staleLockMs)
    ensures LeaseInv(s', staleLockMs)
  {
    hide Inv, RowsOk, TokensOk, RowOkAt, TokenOkAt;
    PublishRow(s, t, s', staleLockMs);
    forall u | u in s'.claims && u.row in {t.row}
      ensures TokenOkAt(s', u)
    {
      PublishToken(s, t, s', staleLockMs, u);
    }
    Untouched(s, s', {t.row}, staleLockMs);
  }

  lemma SettleToken(s: System, t: Token, row: OutboxRow, s': System, u: Token)
    requires TokensOk(s) && t in s.claims && t.row in s.db.outbox
    requires s'.db.outbox == s.db.outbox[t.row := row] && s' == s.(db := s'.db, claims := Drop(s.claims, t))
    requires u in s'.claims
    ensures TokenOkAt(s', u)
  {
    hide TokenOk;
    assert u in s.claims && s'.claims[u] == s.claims[u];
    TokenFrame(s, s', u);
  }

  /** Finishing or failing a claim touches one row, whose history already allows it. */
  lemma SettleLease(s: System, t: Token, row: OutboxRow, s': System, staleLockMs: nat)
    requires LeaseInv(s, staleLockMs) && t in s.claims && t.row in s.db.outbox && Inv(s'.db)
    requires s'.db.outbox == s.db.outbox[t.row := row] && s' == s.(db := s'.db, claims := Drop(s.claims, t))
    requires RowOk(row, TimesOf(s, t.row), SendsOf(s, t.row), DeliveriesOf(s, t.row), s.now, staleLockMs)
    ensures LeaseInv(s', staleLockMs)
  {
    hide Inv, RowOk, TokenOkAt, RowsOk, TokensOk;
    forall u | u in s'.claims && u.row in {t.row}
      ensures TokenOkAt(s', u)
    {
      SettleToken(s, t, row, s', u);
    }
    Untouched(s, s', {t.row}, staleLockMs);
  }

  lemma FinishedRowOk(row: OutboxRow, times: seq<int>, sends: set<nat>, deliveries: nat, now: int, staleLockMs: nat)
    requires RowOk(row, times, sends, deliveries, now, staleLockMs) && sends != {}
    ensures RowOk(row.(status := PUBLISHED, lockedAt := None), times, sends, deliveries, now, staleLockMs)
  {
    var a :| a in sends;
  }

  lemma FailedRowOk(row: OutboxRow, attempt: nat, times: seq<int>, sends: set<nat>, deliveries: nat, now: int, staleLockMs: nat)
    requires RowOk(row, times, sends, deliveries, now, staleLockMs) && times != []
    ensures RowOk(FailedRow(row, attempt, now), times, sends, deliveries, now, staleLockMs)
  {
    assert times[|times| - 1] in times && RetryDelay(attempt) >= 1_000;
  }

  lemma FinishLease(s: System, t: Token, s': System, staleLockMs: nat)
    requires LeaseInv(s, staleLockMs) && Next(s, Finish(t), s', staleLockMs)
    ensures LeaseInv(s', staleLockMs)
  {
    hide Inv, RowOk, Advances;
    FinishSteps(s.db, t.row);
    assert TokenOkAt(s, t) && RowOkAt(s, t.row, staleLockMs);
    FinishedRowOk(s.db.outbox[t.row], TimesOf(s, t.row), SendsOf(s, t.row), DeliveriesOf(s, t.row), s.now, staleLockMs);
    SettleLease(s, t, s.db.outbox[t.row].(status := PUBLISHED, lockedAt := None), s', staleLockMs);
  }

  /** A finish whose answer is lost touches one row and keeps its claim, which has sent. */
  lemma UnheardSettles(s: System, t: Token, row: OutboxRow, s': System, staleLockMs: nat)
    requires LeaseInv(s, staleLockMs) && t in s.claims && s.claims[t].sent && t.row in s.db.outbox && Inv(s'.db)
    requires s'.db.outbox == s.db.outbox[t.row := row]
    requires s' == s.(db := s'.db, claims := s.claims[t := s.claims[t].(finished := true)])
    requires RowOk(row, TimesOf(s, t.row), SendsOf(s, t.row), DeliveriesOf(s, t.row), s.now, staleLockMs)
    ensures LeaseInv(s', staleLockMs)
  {
    hide Inv, RowOk, TokenOkAt, RowsOk;
    UnheardTokens(s, t, s');
    hide TokensOk;
    RowsStayOk(s, s', {t.row}, staleLockMs);
  }

  lemma UnheardLease(s: System, t: Token, s': System, staleLockMs: nat)
    requires LeaseInv(s, staleLockMs) && Next(s, FinishUnheard(t), s', staleLockMs)
    ensures LeaseInv(s', staleLockMs)
  {
    hide Inv, RowOk, Advances;
    FinishSteps(s.db, t.row);
    assert TokenOkAt(s, t) && RowOkAt(s, t.row, staleLockMs);
    FinishedRowOk(s.db.outbox[t.row], TimesOf(s, t.row), SendsOf(s, t.row), DeliveriesOf(s, t.row), s.now, staleLockMs);
    UnheardSettles(s, t, s.db.outbox[t.row].(status := PUBLISHED, lockedAt := None), s', staleLockMs);
  }

  lemma UnheardTokens(s: System, t: Token, s': System)
    requires TokensOk(s) && t in s.claims && s.claims[t].sent && s.db.outbox.Keys <= s'.db.outbox.Keys
    requires s' == s.(db := s'.db, claims := s.claims[t := s.claims[t].(finished := true)])
    ensures TokensOk(s')
  {
    forall u | u in s'.claims
      ensures TokenOkAt(s', u)
    {
      assert TokenOkAt(s, u);
    }
  }

  lemma FailLease(s: System, t: Token, s': System, staleLockMs: nat)
    requires LeaseInv(s, staleLockMs) && Next(s, Fail(t), s', staleLockMs)
    ensures LeaseInv(s', staleLockMs)
  {
    hide Inv, RowOk, Advances;
    FailSteps(s.db, t.row, t.attempt, s.now);
    assert TokenOkAt(s, t) && RowOkAt(s, t.row, staleLockMs);
    FailedRowOk(s.db.outbox[t.row], t.attempt, TimesOf(s, t.row), SendsOf(s, t.row), DeliveriesOf(s, t.row), s.now, staleLockMs);
    SettleLease(s, t, FailedRow(s.db.outbox[t.row], t.attempt, s.now), s', staleLockMs);
  }

  /** The clock, or a drainer that crashes, changes no row. */
  lemma QuietLease(s: System, s': System, staleLockMs: nat)
    requires LeaseInv(s, staleLockMs) && s.now <= s'.now
    requires s' == s.(now := s'.now, claims := s'.claims)
    requires forall t | t in s'.claims :: t in s.claims && s'.claims[t] == s.claims[t]
    ensures LeaseInv(s', staleLockMs)
  {
    hide Inv, RowsOk, TokensOk;
    Untouched(s, s', {}, staleLockMs);
  }

  /** The lease invariant holds after every step of every client. */
  lemma StepKeepsLease(s: System, step: Step, s': System, staleLockMs: nat)
    requires LeaseInv(s, staleLockMs) && Next(s, step, s', staleLockMs)
    ensures LeaseInv(s', staleLockMs)
  {
    hide Inv, RowOkAt, TokenOkAt, TableAfter, Steps.ClaimRows, FinishRow, FailRow, Claimable;
    match step
    case Table(op) => TableLease(s, op, s', staleLockMs);
    case ClaimRows(ids) => ClaimLease(s, ids, s', staleLockMs);
    case Publish(t) => PublishLease(s, t, s', staleLockMs);
    case Finish(t) => FinishLease(s, t, s', staleLockMs);
    case FinishUnheard(t) => UnheardLease(s, t, s', staleLockMs);
    case Fail(t) => FailLease(s, t, s', staleLockMs);
    case Abandon(t) => QuietLease(s, s', staleLockMs);
    case Tick(to) => QuietLease(s, s', staleLockMs);
  }
}
