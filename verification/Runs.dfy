/**
 * The whole system: any number of writers, REST callers, dead-letterers and
 * outbox drainers, interleaved one transaction at a time on one clock.
 */
module Runs {
  import opened Ranking
  import opened Store
  import opened Invariant
  import opened Steps

  /** A drainer's hold on a row: the attempt number its claim returned. */
  datatype Token = Token(row: MessageId, attempt: nat)

  /**
   * When a claim was made, whether its message has been published, and whether
   * its finishing transaction has committed although the drainer was not told.
   */
  datatype Claim = Claim(at: int, sent: bool, finished: bool)

  /**
   * The tables and the clock; the claims drainers hold; and, for each outbox
   * row, when it was claimed and which attempts published it.
   */
  datatype System = System(
    db: Db,
    now: int,
    claims: map<Token, Claim>,
    claimedAt: map<MessageId, seq<int>>,
    sends: map<MessageId, set<nat>>,
    deliveries: map<MessageId, nat>
  )

  /** The transactions and statements of writers, dead-letterers and REST callers. */
  datatype TableOp =
    | CommitBatch(cmds: seq<Command>)
    | MarkDead(id: nat)
    | CreateDead(c: Command)
    | RestCreate(m: RestMessage)
    | TouchRoom(roomId: string, at: int)
    | AddRoom(roomId: string, at: int)
    | AddUser(userId: string)

  /** One atomic step of the system; the rest are the drainers' and the clock's. */
  datatype Step =
    | Table(op: TableOp)
    | ClaimRows(ids: set<MessageId>)
    | Publish(t: Token)
    | Finish(t: Token)
    | FinishUnheard(t: Token)
    | Fail(t: Token)
    | Abandon(t: Token)
    | Tick(to: int)

  function TimesOf(s: System, id: MessageId): seq<int> {
    if id in s.claimedAt then s.claimedAt[id] else []
  }

  function SendsOf(s: System, id: MessageId): set<nat> {
    if id in s.sends then s.sends[id] else {}
  }

  function DeliveriesOf(s: System, id: MessageId): nat {
    if id in s.deliveries then s.deliveries[id] else 0
  }

  function Drop(claims: map<Token, Claim>, t: Token): map<Token, Claim> {
    claims - {t}
  }

  /** The claims a drainer gains, one per claimed row. */
  ghost function NewClaims(outbox: Outbox, ids: set<MessageId>, now: int): map<Token, Claim>
    requires ids <= outbox.Keys
  {
    map id | id in ids :: Token(id, outbox[id].attempts + 1) := Claim(now, false, false)
  }

  ghost function TableAfter(db: Db, op: TableOp): Db
    requires Schema(db)
  {
    match op
    case CommitBatch(cmds) => (match CommitCommands(db, cmds) case Ok(c) => c.db case Err(_) => db)
    case MarkDead(id) => Steps.MarkDead(db, id)
    case CreateDead(c) => Steps.CreateDead(db, c)
    case RestCreate(m) => (match Steps.RestCreate(db, m) case Ok(after) => after case Err(_) => db)
    case TouchRoom(r, at) => Steps.TouchRoom(db, r, at)
    case AddRoom(r, at) => Steps.AddRoom(db, r, at)
    case AddUser(u) => Steps.AddUser(db, u)
  }

  ghost predicate Next(s: System, step: Step, s': System, staleLockMs: nat)
    requires Schema(s.db)
  {
    match step
    case Table(op) => s' == s.(db := TableAfter(s.db, op))
    case ClaimRows(ids) =>
      && (forall id | id in ids :: id in s.db.outbox && Claimable(s.db.outbox[id], s.now, staleLockMs))
      && s' == s.(db := Steps.ClaimRows(s.db, ids, s.now),
                  claims := s.claims + NewClaims(s.db.outbox, ids, s.now),
                  claimedAt := map id | id in s.claimedAt.Keys + ids ::
                    TimesOf(s, id) + if id in ids then [s.now] else [])
    case Publish(t) =>
      && t in s.claims && !s.claims[t].sent
      && s' == s.(claims := s.claims[t := s.claims[t].(sent := true)],
                  sends := s.sends[t.row := SendsOf(s, t.row) + {t.attempt}],
                  deliveries := s.deliveries[t.row := DeliveriesOf(s, t.row) + 1])
    case Finish(t) =>
      && t in s.claims && s.claims[t].sent && !s.claims[t].finished
      && s' == s.(db := FinishRow(s.db, t.row), claims := Drop(s.claims, t))
    case FinishUnheard(t) =>
      && t in s.claims && s.claims[t].sent && !s.claims[t].finished
      && s' == s.(db := FinishRow(s.db, t.row), claims := s.claims[t := s.claims[t].(finished := true)])
    case Fail(t) =>
      && t in s.claims
      && s' == s.(db := FailRow(s.db, t.row, t.attempt, s.now), claims := Drop(s.claims, t))
    case Abandon(t) => t in s.claims && s' == s.(claims := Drop(s.claims, t))
    case Tick(to) => s.now <= to && s' == s.(now := to)
  }

  /** Just after the migration: no outbox rows, no drainers. */
  ghost predicate Init(s: System) {
    && Inv(s.db)
    && s.db.outbox == map[] && s.claims == map[] && s.claimedAt == map[] && s.sends == map[] && s.deliveries == map[]
  }

  // ---- the tables over one step

  lemma TableOpSteps(db: Db, op: TableOp)
    requires Inv(db)
    ensures Inv(TableAfter(db, op)) && Advances(db, TableAfter(db, op))
  {
    hide Advances, Sequenced, Steps.MarkDead, Steps.CreateDead, Steps.RestCreate, Steps.TouchRoom, Steps.AddRoom, Steps.AddUser;
    AdvancesReflexive(db);
    match op
    case CommitBatch(cmds) => if CommitCommands(db, cmds).Ok? { CommitSteps(db, cmds); }
    case MarkDead(id) => MarkDeadSteps(db, id);
    case CreateDead(c) => CreateDeadSteps(db, c);
    case RestCreate(m) => if Steps.RestCreate(db, m).Ok? { RestSteps(db, m); }
    case TouchRoom(r, at) => TouchRoomSteps(db, r, at);
    case AddRoom(r, at) => AddRoomSteps(db, r, at);
    case AddUser(u) => AddUserSteps(db, u);
  }

  /** Every step keeps the invariant of the tables and only moves rows forward. */
  lemma StepKeepsTables(s: System, step: Step, s': System, staleLockMs: nat)
    requires Inv(s.db) && Next(s, step, s', staleLockMs)
    ensures Inv(s'.db) && Advances(s.db, s'.db)
  {
    hide Inv, Advances, TableAfter, Steps.ClaimRows, FinishRow, FailRow;
    AdvancesReflexive(s.db);
    match step
    case Table(op) => TableOpSteps(s.db, op);
    case ClaimRows(ids) => ClaimSteps(s.db, ids, s.now);
    case Publish(t) =>
    case Finish(t) => FinishSteps(s.db, t.row);
    case FinishUnheard(t) => FinishSteps(s.db, t.row);
    case Fail(t) => FailSteps(s.db, t.row, t.attempt, s.now);
    case Abandon(t) =>
    case Tick(to) =>
  }
}
