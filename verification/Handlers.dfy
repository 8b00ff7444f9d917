/**
 * A batch handler, one transaction or statement at a time. It keeps the segments
 * it still has to settle; it tries one whole, splits it, or takes a lone command
 * through its second attempt and its dead-lettering. Between its steps other
 * handlers act on the same tables, and still each step that settles entries does
 * what handling them as a batch does at that moment.
 */
module Handlers {
  import opened Store
  import opened Invariant
  import opened Commits
  import opened CommitFold
  import opened Steps
  import opened BatchHandling
  import opened Transparency
  import opened Commuting

  // ---- one handler

  /**
   * Where a handler is with a segment: about to commit it whole; about to try a
   * lone command again; looking up the row of a failed one; about to mark the
   * row it found, or to insert one because it found none.
   */
  datatype Frame =
    | Whole(batch: seq<Entry>)
    | Single(e: Entry)
    | Find(e: Entry)
    | Mark(e: Entry, id: nat)
    | Create(e: Entry)

  function FrameEntries(f: Frame): seq<Entry> {
    if f.Whole? then f.batch else [f.e]
  }

  /** The entries a handler has yet to settle, in the order it will. */
  function StackEntries(stack: seq<Frame>): seq<Entry> {
    if stack == [] then [] else FrameEntries(stack[0]) + StackEntries(stack[1..])
  }

  /** What one step of a handler does: the tables, what is left, which entries it settled, and how. */
  datatype Turn = Turn(db: Db, stack: seq<Frame>, settled: seq<Entry>, settlements: seq<Settlement>)

  ghost function TurnOf(db: Db, f: Frame, rest: seq<Frame>, maxAttempts: nat): Turn
    requires Schema(db)
  {
    match f
    case Whole(batch) =>
      (match CommitCommands(db, Commands(batch))
       case Ok(c) => Turn(c.db, rest, batch, Acks(batch))
       case Err(_) =>
         if |batch| > 1 then
           var midpoint := (|batch| + 1) / 2;
           Turn(db, [Whole(batch[..midpoint]), Whole(batch[midpoint..])] + rest, [], [])
         else Turn(db, [Single(batch[0])] + rest, [], []))
    case Single(e) =>
      (match CommitCommands(db, [e.command])
       case Ok(c) => Turn(c.db, rest, [e], [Acked(e.tag)])
       case Err(_) =>
         if e.attempt >= maxAttempts then Turn(db, [Find(e)] + rest, [], []) else Turn(db, rest, [e], [Nacked(e.tag)]))
    case Find(e) =>
      if KeyOf(e.command) in db.writes then Turn(db, [Mark(e, db.writes[KeyOf(e.command)].id)] + rest, [], [])
      else Turn(db, [Create(e)] + rest, [], [])
    case Mark(e, id) => Turn(MarkDead(db, id), rest, [e], [Acked(e.tag)])
    case Create(e) => Turn(CreateDead(db, e.command), rest, [e], [Acked(e.tag)])
  }

  // ---- what stays true while others act

  /** What handlers do to the tables: no rooms or users, bodies kept, and no new row is pending. */
  ghost predicate Keeps(db: Db, db': Db) {
    && Schema(db') && db'.users == db.users && db'.rooms.Keys == db.rooms.Keys
    && WritesAdvance(db.writes, db'.writes)
    && forall k | k in db'.writes && k !in db.writes :: db'.writes[k].status != PENDING
  }

  ghost predicate Fails(db: Db, c: Command) {
    !Accepts(db, One(c))
  }

  lemma FailsMeans(db: Db, c: Command)
    requires Schema(db)
    ensures Fails(db, c) <==> CommitCommands(db, [c]).Err?
  {
    CommitOne(db, c);
  }

  lemma FailsBecause(db: Db, c: Command)
    ensures Fails(db, c) <==>
              if KeyOf(c) in db.writes then !Matches(db.writes[KeyOf(c)], c)
              else c.roomId !in db.rooms || c.senderId !in db.users || exists j :: j in db.writes && db.writes[j].id == c.messageId
  {
    var one := One(c);
    assert WithInserted(db.writes, one)[KeyOf(c)] == if KeyOf(c) in db.writes then db.writes[KeyOf(c)] else PendingRow(c);
    assert AllMatch(WithInserted(db.writes, one), one) <==> Matches(WithInserted(db.writes, one)[KeyOf(c)], c);
    assert KeyOf(c).senderId == c.senderId;
    assert IdsDistinct(db.writes, one);
    assert ForeignKeysHold(db, one) <==> KeyOf(c) in db.writes || (c.roomId in db.rooms && c.senderId in db.users);
    assert IdsFree(db.writes, one) <==> KeyOf(c) in db.writes || forall j | j in db.writes :: db.writes[j].id != c.messageId;
  }

  /** A command that cannot be committed now cannot be committed later either. */
  lemma FailureLasts(db: Db, db': Db, c: Command)
    requires Schema(db) && Keeps(db, db') && Fails(db, c)
    ensures Fails(db', c)
  {
    FailsBecause(db, c);
    FailsBecause(db', c);
    hide Fails;
    var k := KeyOf(c);
    assert k in db.writes ==> WriteAdvances(db.writes[k], db'.writes[k]);
    if k !in db.writes && c.roomId in db.rooms && c.senderId in db.users {
      var j :| j in db.writes && db.writes[j].id == c.messageId;
      assert WriteAdvances(db.writes[j], db'.writes[j]);
    }
  }

  /** What a handler in the middle of dead-lettering relies on. */
  ghost predicate FrameOk(db: Db, f: Frame, maxAttempts: nat) {
    match f
    case Whole(_) => true
    case Single(_) => true
    case Find(e) => Fails(db, e.command) && e.attempt >= maxAttempts
    case Mark(e, id) =>
      Fails(db, e.command) && e.attempt >= maxAttempts && KeyOf(e.command) in db.writes && db.writes[KeyOf(e.command)].id == id
    case Create(e) =>
      Fails(db, e.command) && e.attempt >= maxAttempts
      && (KeyOf(e.command) in db.writes ==> db.writes[KeyOf(e.command)].status != PENDING)
  }

  ghost predicate StackOk(db: Db, stack: seq<Frame>, maxAttempts: nat) {
    forall i | 0 <= i < |stack| :: FrameOk(db, stack[i], maxAttempts)
  }

  lemma FrameLasts(db: Db, db': Db, f: Frame, maxAttempts: nat)
    requires Schema(db) && Keeps(db, db') && FrameOk(db, f, maxAttempts)
    ensures FrameOk(db', f, maxAttempts)
  {
    if !f.Whole? && !f.Single? {
      FailureLasts(db, db', f.e.command);
      hide Fails;
      var k := KeyOf(f.e.command);
      assert k in db.writes ==> WriteAdvances(db.writes[k], db'.writes[k]);
    }
  }

  lemma KeepsReflexive(db: Db)
    requires Schema(db)
    ensures Keeps(db, db)
  {
  }

  lemma CommitKeeps(db: Db, cmds: seq<Command>)
    requires Inv(db) && CommitCommands(db, cmds).Ok?
    ensures Keeps(db, CommitCommands(db, cmds).value.db)
  {
    var db' := CommitCommands(db, cmds).value.db;
    CommitSteps(db, cmds);
    CommitRecords(db, cmds);
    if cmds != [] {
      DedupeFacts(cmds);
      NewKeysAreOfBatch(db, Dedupe(cmds).value);
    }
    hide Inv, CommitCommands, Dedupe;
    assert forall k | k in db'.writes && k !in db.writes :: exists c :: c in cmds && KeyOf(c) == k;
  }

  lemma NewKeysAreOfBatch(db: Db, batch: Batch)
    requires Schema(db) && Accepts(db, batch)
    ensures
      var after := CommitAccepted(db, batch).db;
      after.users == db.users && after.rooms.Keys == db.rooms.Keys && after.writes.Keys == db.writes.Keys + batch.Keys
  {
  }

  lemma DeadKeeps(db: Db, c: Command, id: nat)
    requires Inv(db)
    ensures Keeps(db, MarkDead(db, id)) && Keeps(db, CreateDead(db, c))
  {
    MarkDeadSteps(db, id);
    CreateDeadSteps(db, c);
    hide Sequenced, UniqueRequests, Placed, Backed, Settled, Queued, Insertable;
  }

  lemma TurnKeeps(db: Db, f: Frame, rest: seq<Frame>, maxAttempts: nat)
    requires Inv(db) && Schema(db)
    ensures Keeps(db, TurnOf(db, f, rest, maxAttempts).db)
  {
    hide Inv, Schema, CommitCommands, MarkDead, CreateDead, Keeps;
    KeepsReflexive(db);
    match f
    case Whole(batch) => if CommitCommands(db, Commands(batch)).Ok? { CommitKeeps(db, Commands(batch)); }
    case Single(e) => if CommitCommands(db, [e.command]).Ok? { CommitKeeps(db, [e.command]); }
    case Find(e) =>
    case Mark(e, id) => DeadKeeps(db, e.command, id);
    case Create(e) => DeadKeeps(db, e.command, 0);
  }

  // ---- a step is a batch handled at its moment

  /** A step that settles entries does to the tables what handling them as a batch does at that moment. */
  ghost predicate TurnIsBatch(db: Db, f: Frame, rest: seq<Frame>, maxAttempts: nat)
    requires Inv(db) && Schema(db)
  {
    var turn := TurnOf(db, f, rest, maxAttempts);
    && HandleBatch(db, turn.settled, maxAttempts) == Outcome(turn.db, turn.settlements)
    && StackEntries([f] + rest) == turn.settled + StackEntries(turn.stack)
  }

  lemma StackCons(f: Frame, rest: seq<Frame>)
    ensures StackEntries([f] + rest) == FrameEntries(f) + StackEntries(rest)
  {
    assert ([f] + rest)[1..] == rest;
  }

  lemma StackHalves(x: seq<Entry>, y: seq<Entry>, rest: seq<Frame>)
    ensures StackEntries([Whole(x), Whole(y)] + rest) == x + y + StackEntries(rest)
  {
    assert [Whole(x), Whole(y)] + rest == [Whole(x)] + ([Whole(y)] + rest);
    StackCons(Whole(x), [Whole(y)] + rest);
    StackCons(Whole(y), rest);
  }

  lemma NothingSettled(db: Db, maxAttempts: nat)
    requires Inv(db) && Schema(db)
    ensures HandleBatch(db, [], maxAttempts) == Outcome(db, [])
  {
    assert Commands([]) == [] && Acks([]) == [];
  }

  lemma SingleBatch(db: Db, e: Entry, maxAttempts: nat)
    requires Inv(db) && Schema(db)
    ensures HandleBatch(db, [e], maxAttempts) == HandleOne(db, e, maxAttempts)
  {
    hide Inv, Schema, CommitCommands, DeadLetter;
    assert Commands([e]) == [e.command] && Acks([e]) == [Acked(e.tag)];
  }

  lemma WholeTurn(db: Db, batch: seq<Entry>, rest: seq<Frame>, maxAttempts: nat)
    requires Inv(db) && Schema(db)
    ensures TurnIsBatch(db, Whole(batch), rest, maxAttempts)
  {
    NothingSettled(db, maxAttempts);
    NothingCommits(db);
    hide Inv, Schema, CommitCommands, HandleOne;
    StackCons(Whole(batch), rest);
    if CommitCommands(db, Commands(batch)).Err? {
      if |batch| > 1 {
        var midpoint := (|batch| + 1) / 2;
        StackHalves(batch[..midpoint], batch[midpoint..], rest);
        assert batch == batch[..midpoint] + batch[midpoint..];
      } else {
        assert batch != [];
        StackCons(Single(batch[0]), rest);
        assert batch == [batch[0]];
      }
    }
  }

  lemma SingleTurn(db: Db, e: Entry, rest: seq<Frame>, maxAttempts: nat)
    requires Inv(db) && Schema(db)
    ensures TurnIsBatch(db, Single(e), rest, maxAttempts)
  {
    NothingSettled(db, maxAttempts);
    SingleBatch(db, e, maxAttempts);
    hide Inv, Schema, CommitCommands, HandleBatch, DeadLetter;
    StackCons(Single(e), rest);
    StackCons(Find(e), rest);
  }

  lemma FindTurn(db: Db, e: Entry, rest: seq<Frame>, maxAttempts: nat)
    requires Inv(db) && Schema(db)
    ensures TurnIsBatch(db, Find(e), rest, maxAttempts)
  {
    NothingSettled(db, maxAttempts);
    hide Inv, Schema, HandleBatch;
    StackCons(Find(e), rest);
    if KeyOf(e.command) in db.writes {
      StackCons(Mark(e, db.writes[KeyOf(e.command)].id), rest);
    } else {
      StackCons(Create(e), rest);
    }
  }

  /** The statement that ends a dead-lettering does what dead-lettering at one moment does. */
  lemma LateInsertIsHarmless(db: Db, c: Command)
    requires Schema(db) && (KeyOf(c) in db.writes ==> db.writes[KeyOf(c)].status != PENDING)
    ensures CreateDead(db, c) == DeadLetter(db, c)
  {
    var k := KeyOf(c);
    if k in db.writes {
      MarkedById(db.writes, k);
      assert MarkDead(db, db.writes[k].id).writes == db.writes;
    }
  }

  lemma LastTurn(db: Db, f: Frame, rest: seq<Frame>, maxAttempts: nat)
    requires Inv(db) && Schema(db) && (f.Mark? || f.Create?) && FrameOk(db, f, maxAttempts)
    ensures TurnIsBatch(db, f, rest, maxAttempts)
  {
    SingleBatch(db, f.e, maxAttempts);
    FailsMeans(db, f.e.command);
    if f.Create? {
      LateInsertIsHarmless(db, f.e.command);
    }
    hide Inv, Schema, CommitCommands, HandleBatch, Fails, MarkDead, CreateDead;
    StackCons(f, rest);
  }

  lemma EveryTurnIsBatch(db: Db, f: Frame, rest: seq<Frame>, maxAttempts: nat)
    requires Inv(db) && Schema(db) && FrameOk(db, f, maxAttempts)
    ensures TurnIsBatch(db, f, rest, maxAttempts)
  {
    hide Inv, Schema, FrameOk, TurnIsBatch;
    match f
    case Whole(batch) => WholeTurn(db, batch, rest, maxAttempts);
    case Single(e) => SingleTurn(db, e, rest, maxAttempts);
    case Find(e) => FindTurn(db, e, rest, maxAttempts);
    case Mark(_, _) => LastTurn(db, f, rest, maxAttempts);
    case Create(_) => LastTurn(db, f, rest, maxAttempts);
  }

  /** The frames that replace the one on top. */
  ghost function NewFrames(db: Db, f: Frame, maxAttempts: nat): (frames: seq<Frame>)
    requires Schema(db)
  {
    TurnOf(db, f, [], maxAttempts).stack
  }

  lemma OnTop(db: Db, f: Frame, rest: seq<Frame>, maxAttempts: nat)
    requires Schema(db)
    ensures TurnOf(db, f, rest, maxAttempts).stack == NewFrames(db, f, maxAttempts) + rest
    ensures TurnOf(db, f, rest, maxAttempts).db == TurnOf(db, f, [], maxAttempts).db
  {
    hide Schema, Commands, Acks, CommitCommands, MarkDead, CreateDead;
  }

  /** A failed attempt leaves the tables alone, so what the new frames rely on holds. */
  lemma NewFramesOk(db: Db, f: Frame, maxAttempts: nat)
    requires Inv(db) && Schema(db) && FrameOk(db, f, maxAttempts)
    ensures StackOk(TurnOf(db, f, [], maxAttempts).db, NewFrames(db, f, maxAttempts), maxAttempts)
  {
    if f.Single? { FailsMeans(db, f.e.command); }
    hide Inv, Schema, Commands, Acks, CommitCommands, MarkDead, CreateDead, Fails;
  }

  lemma StackLasts(db: Db, db': Db, stack: seq<Frame>, maxAttempts: nat)
    requires Schema(db) && Keeps(db, db') && StackOk(db, stack, maxAttempts)
    ensures StackOk(db', stack, maxAttempts)
  {
    hide Schema, FrameOk, Keeps;
    forall i | 0 <= i < |stack|
      ensures FrameOk(db', stack[i], maxAttempts)
    {
      FrameLasts(db, db', stack[i], maxAttempts);
    }
  }

  lemma StackJoin(db: Db, top: seq<Frame>, rest: seq<Frame>, maxAttempts: nat)
    requires StackOk(db, top, maxAttempts) && StackOk(db, rest, maxAttempts)
    ensures StackOk(db, top + rest, maxAttempts)
  {
    hide FrameOk;
  }

  /** The frames a step leaves are right at the tables it leaves. */
  lemma TurnLeavesOk(db: Db, f: Frame, rest: seq<Frame>, maxAttempts: nat)
    requires Inv(db) && Schema(db) && FrameOk(db, f, maxAttempts) && StackOk(db, rest, maxAttempts)
    ensures StackOk(TurnOf(db, f, rest, maxAttempts).db, TurnOf(db, f, rest, maxAttempts).stack, maxAttempts)
  {
    TurnKeeps(db, f, rest, maxAttempts);
    NewFramesOk(db, f, maxAttempts);
    OnTop(db, f, rest, maxAttempts);
    hide Inv, Schema, TurnOf, NewFrames, Keeps, StackOk, FrameOk;
    var after := TurnOf(db, f, rest, maxAttempts).db;
    StackLasts(db, after, rest, maxAttempts);
    StackJoin(after, NewFrames(db, f, maxAttempts), rest, maxAttempts);
  }

  // ---- a handler on its own

  /** What dealing with one frame comes to when nobody else acts. */
  ghost function FrameOutcome(db: Db, f: Frame, maxAttempts: nat): (o: Outcome)
    requires Inv(db)
    ensures Inv(o.db)
  {
    if f.Whole? then HandleBatch(db, f.batch, maxAttempts) else HandleOne(db, f.e, maxAttempts)
  }

  ghost function StackOutcome(db: Db, stack: seq<Frame>, maxAttempts: nat): (o: Outcome)
    requires Inv(db)
    ensures Inv(o.db)
    decreases |stack|
  {
    if stack == [] then Outcome(db, [])
    else
      var first := FrameOutcome(db, stack[0], maxAttempts);
      Then(first, StackOutcome(first.db, stack[1..], maxAttempts))
  }

  lemma OutcomeCons(db: Db, f: Frame, rest: seq<Frame>, maxAttempts: nat)
    requires Inv(db)
    ensures
      var first := FrameOutcome(db, f, maxAttempts);
      StackOutcome(db, [f] + rest, maxAttempts) == Then(first, StackOutcome(first.db, rest, maxAttempts))
  {
    hide Inv, FrameOutcome;
    assert ([f] + rest)[1..] == rest;
  }

  /** A handler that has just started comes to what handling its batch does. */
  lemma FreshStackIsBatch(db: Db, batch: seq<Entry>, maxAttempts: nat)
    requires Inv(db)
    ensures StackOutcome(db, [Whole(batch)], maxAttempts) == HandleBatch(db, batch, maxAttempts)
  {
    hide Inv, HandleBatch;
    var o := HandleBatch(db, batch, maxAttempts);
    assert [Whole(batch)][1..] == [] && o.settlements + [] == o.settlements;
  }

  /** A frame that settles entries comes to what its step does; one that settles none leaves the tables to the frames it is replaced by. */
  ghost predicate FrameSteps(db: Db, f: Frame, maxAttempts: nat)
    requires Inv(db) && Schema(db)
  {
    var turn := TurnOf(db, f, [], maxAttempts);
    if turn.stack == [] then FrameOutcome(db, f, maxAttempts) == Outcome(turn.db, turn.settlements)
    else
      && turn.db == db && turn.settlements == [] && |turn.stack| <= 2
      && var first := FrameOutcome(db, turn.stack[0], maxAttempts);
         if |turn.stack| == 1 then FrameOutcome(db, f, maxAttempts) == first
         else FrameOutcome(db, f, maxAttempts) == Then(first, FrameOutcome(first.db, turn.stack[1], maxAttempts))
  }

  lemma WholeTurnIs(db: Db, batch: seq<Entry>, maxAttempts: nat)
    requires Schema(db)
    ensures TurnOf(db, Whole(batch), [], maxAttempts) ==
      match CommitCommands(db, Commands(batch))
      case Ok(c) => Turn(c.db, [], batch, Acks(batch))
      case Err(_) =>
        if |batch| > 1 then Turn(db, [Whole(batch[..(|batch| + 1) / 2]), Whole(batch[(|batch| + 1) / 2..])], [], [])
        else Turn(db, [Single(batch[0])], [], [])
  {
    NothingCommits(db);
    hide Schema, CommitCommands, Commands, Acks;
    assert CommitCommands(db, Commands(batch)).Err? ==> batch != [];
  }

  lemma BatchIs(db: Db, batch: seq<Entry>, maxAttempts: nat)
    requires Inv(db) && Schema(db)
    ensures
      var o := HandleBatch(db, batch, maxAttempts);
      match CommitCommands(db, Commands(batch))
      case Ok(c) => o == Outcome(c.db, Acks(batch))
      case Err(_) =>
        && batch != []
        && if |batch| > 1 then
             var left := HandleBatch(db, batch[..(|batch| + 1) / 2], maxAttempts);
             o == Then(left, HandleBatch(left.db, batch[(|batch| + 1) / 2..], maxAttempts))
           else o == HandleOne(db, batch[0], maxAttempts)
  {
    NothingCommits(db);
    hide Inv, Schema, CommitCommands, Commands, Acks, HandleOne;
    assert CommitCommands(db, Commands(batch)).Err? ==> batch != [];
  }

  lemma WholeSteps(db: Db, batch: seq<Entry>, maxAttempts: nat)
    requires Inv(db) && Schema(db)
    ensures FrameSteps(db, Whole(batch), maxAttempts)
  {
    hide Inv, Schema, CommitCommands, Commands, Acks, HandleOne, HandleBatch, TurnOf;
    WholeTurnIs(db, batch, maxAttempts);
    BatchIs(db, batch, maxAttempts);
  }

  lemma LoneSteps(db: Db, f: Frame, maxAttempts: nat)
    requires Inv(db) && Schema(db) && !f.Whole? && FrameOk(db, f, maxAttempts)
    ensures FrameSteps(db, f, maxAttempts)
  {
    FailsMeans(db, f.e.command);
    if f.Create? { LateInsertIsHarmless(db, f.e.command); }
    hide Inv, Schema, CommitCommands, HandleBatch, Fails, MarkDead, CreateDead;
  }

  lemma NoneFirst(o: Outcome)
    ensures Then(Outcome(o.db, []), o) == o
    ensures forall x: Outcome :: Then(Outcome(x.db, []), o) == o
  {
    assert [] + o.settlements == o.settlements;
  }

  /** A handler's step, and then its stack on its own, come to what its stack did on its own before. */
  lemma TurnKeepsOutcome(db: Db, f: Frame, rest: seq<Frame>, maxAttempts: nat)
    requires Inv(db) && Schema(db) && FrameOk(db, f, maxAttempts) && Inv(TurnOf(db, f, rest, maxAttempts).db)
    ensures
      var turn := TurnOf(db, f, rest, maxAttempts);
      StackOutcome(db, [f] + rest, maxAttempts)
      == Then(Outcome(turn.db, turn.settlements), StackOutcome(turn.db, turn.stack, maxAttempts))
  {
    if f.Whole? { WholeSteps(db, f.batch, maxAttempts); } else { LoneSteps(db, f, maxAttempts); }
    OnTop(db, f, rest, maxAttempts);
    SameSettlements(db, f, rest, maxAttempts);
    hide Inv, Schema, TurnOf, FrameOutcome, StackOutcome, FrameOk;
    FramesKeepOutcome(db, f, rest, TurnOf(db, f, [], maxAttempts), maxAttempts);
  }

  lemma FramesKeepOutcome(db: Db, f: Frame, rest: seq<Frame>, turn: Turn, maxAttempts: nat)
    requires Inv(db) && Schema(db) && Inv(turn.db) && turn == TurnOf(db, f, [], maxAttempts) && FrameSteps(db, f, maxAttempts)
    ensures StackOutcome(db, [f] + rest, maxAttempts)
         == Then(Outcome(turn.db, turn.settlements), StackOutcome(turn.db, turn.stack + rest, maxAttempts))
  {
    hide Inv, Schema, TurnOf, FrameOutcome, StackOutcome, Then;
    OutcomeCons(db, f, rest, maxAttempts);
    if turn.stack == [] {
      assert turn.stack + rest == rest;
    } else {
      NoneFirst(StackOutcome(turn.db, turn.stack + rest, maxAttempts));
      OutcomeCons(db, turn.stack[0], turn.stack[1..] + rest, maxAttempts);
      assert turn.stack + rest == [turn.stack[0]] + (turn.stack[1..] + rest);
      if |turn.stack| == 1 {
        assert turn.stack[1..] + rest == rest;
      } else {
        var first := FrameOutcome(db, turn.stack[0], maxAttempts);
        assert turn.stack[1..] + rest == [turn.stack[1]] + rest;
        OutcomeCons(first.db, turn.stack[1], rest, maxAttempts);
        var second := FrameOutcome(first.db, turn.stack[1], maxAttempts);
        ThenAssociates(first, second, StackOutcome(second.db, rest, maxAttempts));
        ThenDb(first, second);
      }
    }
  }

  lemma ThenDb(a: Outcome, b: Outcome)
    ensures Then(a, b).db == b.db
  {
  }

  lemma SameSettlements(db: Db, f: Frame, rest: seq<Frame>, maxAttempts: nat)
    requires Schema(db)
    ensures TurnOf(db, f, rest, maxAttempts).settlements == TurnOf(db, f, [], maxAttempts).settlements
  {
    hide Schema, Commands, Acks, CommitCommands, MarkDead, CreateDead;
  }

  // ---- a handler ends

  /** The steps a frame may still need: each command is tried alone, looked up and marked at most once. */
  function FrameWeight(f: Frame): nat {
    match f
    case Whole(batch) => if batch == [] then 1 else 5 * |batch| - 1
    case Single(_) => 3
    case Find(_) => 2
    case Mark(_, _) => 1
    case Create(_) => 1
  }

  function StackWeight(stack: seq<Frame>): nat {
    if stack == [] then 0 else FrameWeight(stack[0]) + StackWeight(stack[1..])
  }

  lemma WeightCons(f: Frame, rest: seq<Frame>)
    ensures StackWeight([f] + rest) == FrameWeight(f) + StackWeight(rest)
  {
    assert ([f] + rest)[1..] == rest;
  }

  /** Every step leaves less to do. */
  lemma TurnLighter(db: Db, f: Frame, rest: seq<Frame>, maxAttempts: nat)
    requires Schema(db)
    ensures StackWeight(TurnOf(db, f, rest, maxAttempts).stack) < StackWeight([f] + rest)
  {
    NothingCommits(db);
    hide Schema, CommitCommands, MarkDead, CreateDead;
    var turn := TurnOf(db, f, rest, maxAttempts);
    WeightCons(f, rest);
    if f.Whole? && CommitCommands(db, Commands(f.batch)).Err? && |f.batch| > 1 {
      var midpoint := (|f.batch| + 1) / 2;
      var x, y := f.batch[..midpoint], f.batch[midpoint..];
      assert turn.stack == [Whole(x)] + ([Whole(y)] + rest);
      WeightCons(Whole(x), [Whole(y)] + rest);
      WeightCons(Whole(y), rest);
    } else if turn.stack != rest {
      assert turn.stack == [turn.stack[0]] + rest;
      WeightCons(turn.stack[0], rest);
    }
  }
}
