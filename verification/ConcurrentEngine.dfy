/**
 * The batching engine with its handlers at work, for any concurrency: arrivals,
 * timer, starts and finishes as in `WriterQueue`, and between them the steps of
 * the running handlers in any interleaving.
 */
module ConcurrentEngine {
  import opened Store
  import opened Invariant
  import opened Steps
  import opened BatchHandling
  import opened Transparency
  import opened Commuting
  import opened WriterQueue
  import opened Handlers
  import opened Interleavings

  /**
   * The queue, what each running handler has left, and the tables. `arrived`
   * and `log` are the history: the entries taken, and the segments settled with
   * the handler that settled each.
   */
  datatype Engine = Engine(
    q: Queue,
    stacks: map<nat, seq<Frame>>,
    db: Db,
    arrived: seq<Entry>,
    log: Log,
    settlements: seq<Settlement>
  )

  /** A callback of the queue, or one step of a running handler. */
  datatype Move = Callback(event: Event) | Act(task: nat)

  ghost predicate Allowed(s: Engine, c: Config, move: Move) {
    match move
    case Callback(event) =>
      Enabled(s.q, c, event) && (event.Finished? ==> event.task in s.stacks && s.stacks[event.task] == [])
    case Act(task) => task in s.stacks && s.stacks[task] != []
  }

  /** A batch that starts gets a handler about to commit it whole. */
  function Handled(stacks: map<nat, seq<Frame>>, q: Queue): map<nat, seq<Frame>> {
    map t: nat | t in q.running && t < |q.started| :: if t in stacks then stacks[t] else [Whole(q.started[t])]
  }

  ghost function Moved(s: Engine, c: Config, move: Move, maxAttempts: nat): Engine
    requires Schema(s.db) && Allowed(s, c, move)
  {
    match move
    case Callback(event) =>
      var q := After(s.q, c, event);
      s.(q := q, stacks := Handled(s.stacks, q), arrived := s.arrived + if event.Arrived? then [event.e] else [])
    case Act(task) =>
      var turn := TurnOf(s.db, s.stacks[task][0], s.stacks[task][1..], maxAttempts);
      s.(stacks := s.stacks[task := turn.stack],
         db := turn.db,
         log := s.log + [(task, turn.settled)],
         settlements := s.settlements + turn.settlements)
  }

  ghost function Idle(db: Db): Engine {
    Engine(Queue([], [], [], {}), map[], db, [], [], [])
  }

  ghost predicate Follow(s: Engine, c: Config, move: Move, s': Engine, maxAttempts: nat) {
    Schema(s.db) && Allowed(s, c, move) && s' == Moved(s, c, move, maxAttempts)
  }

  /** The states an engine that starts empty on given tables passes through. */
  ghost predicate Life(states: seq<Engine>, moves: seq<Move>, c: Config, db: Db, maxAttempts: nat) {
    && |states| == |moves| + 1
    && states[0] == Idle(db)
    && forall i | 0 <= i < |moves| :: Follow(states[i], c, moves[i], states[i + 1], maxAttempts)
  }

  // ---- which batches run

  lemma {:induction false} PumpStarts(q: Queue, c: Config, t: nat)
    ensures q.started <= Pump(q, c).started
    ensures t in Pump(q, c).running <==> t in q.running || |q.started| <= t < |Pump(q, c).started|
    decreases |q.pending|
  {
    if |q.running| < c.concurrency && q.pending != [] {
      PumpStarts(StartNext(q), c, t);
    }
  }

  lemma EventStarts(q: Queue, c: Config, event: Event, t: nat)
    ensures q.started <= After(q, c, event).started
    ensures t in After(q, c, event).running
       <==> (t in q.running && event != Finished(t)) || |q.started| <= t < |After(q, c, event).started|
  {
    hide Pump;
    match event
    case Arrived(e) => FlushStarts(q.(current := q.current + [e]), c, t);
    case TimerFired => FlushStarts(q, c, t);
    case Finished(task) => PumpStarts(q.(running := q.running - {task}), c, t);
  }

  lemma FlushStarts(q: Queue, c: Config, t: nat)
    ensures q.started <= Flush(q, c).started
    ensures t in Flush(q, c).running <==> t in q.running || |q.started| <= t < |Flush(q, c).started|
  {
    if q.current != [] {
      PumpStarts(Queue([], q.pending + [q.current], q.started, q.running), c, t);
    }
  }

  // ---- what holds in every state

  /** What the handler of batch `t` has yet to settle. */
  function Left(s: Engine, t: nat): seq<Entry> {
    if t in s.stacks then StackEntries(s.stacks[t]) else []
  }

  /** Each handler has settled a prefix of its batch, and has the rest before it. */
  ghost predicate PartsFit(s: Engine) {
    forall t: nat | t < |s.q.started| :: Of(s.log, t) + Left(s, t) == s.q.started[t]
  }

  ghost predicate StacksOk(s: Engine, maxAttempts: nat) {
    forall t | t in s.stacks :: StackOk(s.db, s.stacks[t], maxAttempts)
  }

  ghost predicate QueueFits(s: Engine, c: Config) {
    && QueueInv(s.q, c) && Taken(s.q) == s.arrived
    && s.stacks.Keys == s.q.running
    && TasksBelow(s.log, |s.q.started|)
  }

  /** The tables and settlements are those of the settled segments handled one after another as batches. */
  ghost predicate Means(s: Engine, db: Db, maxAttempts: nat)
    requires Inv(db)
  {
    Outcome(s.db, s.settlements) == HandleBatches(db, Segments(s.log), maxAttempts)
  }

  ghost predicate Sound(s: Engine, c: Config, db: Db, maxAttempts: nat)
    requires Inv(db)
  {
    QueueFits(s, c) && PartsFit(s) && StacksOk(s, maxAttempts) && Means(s, db, maxAttempts)
  }

  lemma StartsSound(c: Config, db: Db, maxAttempts: nat)
    requires Sane(c) && Inv(db)
    ensures Sound(Idle(db), c, db, maxAttempts)
  {
  }

  lemma CallbackFitsQueue(s: Engine, c: Config, event: Event, s': Engine, maxAttempts: nat)
    requires Sane(c) && QueueFits(s, c) && Follow(s, c, Callback(event), s', maxAttempts)
    ensures QueueFits(s', c)
  {
    EventFacts(s.q, c, event);
    EventStarts(s.q, c, event, 0);
    hide After, Enabled, Taken, Schema;
    assert s'.stacks.Keys == s'.q.running;
  }

  lemma CallbackKeepsStacks(s: Engine, c: Config, event: Event, s': Engine, t: nat, maxAttempts: nat)
    requires Sane(c) && QueueFits(s, c) && QueueFits(s', c) && Follow(s, c, Callback(event), s', maxAttempts)
    ensures s.q.started <= s'.q.started
    ensures t in s'.stacks ==> s'.stacks[t] == if t in s.stacks then s.stacks[t] else [Whole(s'.q.started[t])]
    ensures t < |s.q.started| ==> Left(s', t) == Left(s, t)
    ensures |s.q.started| <= t < |s'.q.started| ==> Left(s', t) == s'.q.started[t] && t !in s.stacks
  {
    EventStarts(s.q, c, event, t);
    hide After, Enabled, Taken, Schema, TasksBelow;
    if |s.q.started| <= t < |s'.q.started| {
      assert t in s'.stacks && t !in s.stacks;
      StackCons(Whole(s'.q.started[t]), []);
      assert [Whole(s'.q.started[t])] + [] == [Whole(s'.q.started[t])];
    }
  }

  lemma CallbackKeepsParts(s: Engine, c: Config, event: Event, s': Engine, maxAttempts: nat)
    requires Sane(c) && QueueFits(s, c) && QueueFits(s', c) && Follow(s, c, Callback(event), s', maxAttempts)
    requires PartsFit(s)
    ensures PartsFit(s')
  {
    assert s'.log == s.log;
    assert TasksBelow(s.log, |s.q.started|);
    hide QueueFits, Follow, Left, Of;
    forall t: nat | t < |s'.q.started|
      ensures Of(s'.log, t) + Left(s', t) == s'.q.started[t]
    {
      CallbackKeepsStacks(s, c, event, s', t, maxAttempts);
      if t >= |s.q.started| {
        LaterEmpty(s.log, t);
      }
    }
  }

  lemma FreshStackOk(db: Db, batch: seq<Entry>, maxAttempts: nat)
    ensures StackOk(db, [Whole(batch)], maxAttempts)
  {
  }

  lemma CallbackKeepsOk(s: Engine, c: Config, event: Event, s': Engine, maxAttempts: nat)
    requires Sane(c) && QueueFits(s, c) && QueueFits(s', c) && Follow(s, c, Callback(event), s', maxAttempts)
    requires StacksOk(s, maxAttempts)
    ensures StacksOk(s', maxAttempts)
  {
    assert s'.db == s.db;
    assert forall t | t in s'.stacks :: t < |s'.q.started|;
    hide QueueFits, Follow, StackOk, Left;
    forall t | t in s'.stacks
      ensures StackOk(s'.db, s'.stacks[t], maxAttempts)
    {
      CallbackKeepsStacks(s, c, event, s', t, maxAttempts);
      FreshStackOk(s'.db, s'.q.started[t], maxAttempts);
    }
  }

  lemma CallbackKeepsSound(s: Engine, c: Config, event: Event, s': Engine, db: Db, maxAttempts: nat)
    requires Sane(c) && Inv(db) && Sound(s, c, db, maxAttempts) && Follow(s, c, Callback(event), s', maxAttempts)
    ensures Sound(s', c, db, maxAttempts)
  {
    CallbackFitsQueue(s, c, event, s', maxAttempts);
    CallbackKeepsParts(s, c, event, s', maxAttempts);
    CallbackKeepsOk(s, c, event, s', maxAttempts);
    hide Inv, Schema, QueueFits, PartsFit, StacksOk, HandleBatches, Allowed, After;
  }

  // ---- a handler's step

  lemma SegmentsSnoc(log: Log, task: nat, segment: seq<Entry>)
    ensures Segments(log + [(task, segment)]) == Segments(log) + [segment]
  {
  }

  lemma BatchesSnoc(db: Db, batches: seq<seq<Entry>>, last: seq<Entry>, maxAttempts: nat)
    requires Inv(db)
    ensures
      var before := HandleBatches(db, batches, maxAttempts);
      HandleBatches(db, batches + [last], maxAttempts) == Then(before, HandleBatch(before.db, last, maxAttempts))
  {
    hide Inv, HandleBatch;
    assert (batches + [last])[..|batches|] == batches;
  }

  lemma MeansSound(s: Engine, db: Db, maxAttempts: nat)
    requires Inv(db) && Means(s, db, maxAttempts)
    ensures Inv(s.db) && Schema(s.db)
  {
    assert HandleBatches(db, Segments(s.log), maxAttempts).db == s.db;
    hide HandleBatches, Sequenced;
  }

  lemma ActKeepsMeaning(s: Engine, c: Config, task: nat, s': Engine, db: Db, maxAttempts: nat)
    requires Inv(db) && Inv(s.db) && Means(s, db, maxAttempts) && Follow(s, c, Act(task), s', maxAttempts)
    requires StackOk(s.db, s.stacks[task], maxAttempts)
    ensures Means(s', db, maxAttempts)
  {
    var f, rest := s.stacks[task][0], s.stacks[task][1..];
    EveryTurnIsBatch(s.db, f, rest, maxAttempts);
    hide Inv, Schema, FrameOk, HandleBatch, HandleBatches, StackEntries, TurnOf;
    var turn := TurnOf(s.db, f, rest, maxAttempts);
    SegmentsSnoc(s.log, task, turn.settled);
    BatchesSnoc(db, Segments(s.log), turn.settled, maxAttempts);
  }

  lemma ActKeepsOk(s: Engine, c: Config, task: nat, s': Engine, maxAttempts: nat)
    requires Inv(s.db) && StacksOk(s, maxAttempts) && Follow(s, c, Act(task), s', maxAttempts)
    ensures StacksOk(s', maxAttempts)
  {
    var stack := s.stacks[task];
    var f, rest := stack[0], stack[1..];
    assert FrameOk(s.db, f, maxAttempts) && StackOk(s.db, rest, maxAttempts) by {
      hide Inv, Schema, FrameOk;
      assert StackOk(s.db, stack, maxAttempts);
    }
    TurnLeavesOk(s.db, f, rest, maxAttempts);
    TurnKeeps(s.db, f, rest, maxAttempts);
    hide Inv, Schema, FrameOk, TurnOf, Keeps;
    forall t | t in s'.stacks && t != task
      ensures StackOk(s'.db, s'.stacks[t], maxAttempts)
    {
      assert StackOk(s.db, s.stacks[t], maxAttempts);
      StackLasts(s.db, s'.db, s.stacks[t], maxAttempts);
    }
  }

  /** A handler's step moves entries from what it has left to the log, and touches no other handler. */
  lemma ActFacts(s: Engine, c: Config, task: nat, s': Engine, maxAttempts: nat) returns (turn: Turn)
    requires Inv(s.db) && Follow(s, c, Act(task), s', maxAttempts) && StackOk(s.db, s.stacks[task], maxAttempts)
    ensures s' == s.(stacks := s.stacks[task := turn.stack], db := turn.db, log := s.log + [(task, turn.settled)],
                     settlements := s.settlements + turn.settlements)
    ensures StackEntries(s.stacks[task]) == turn.settled + StackEntries(turn.stack)
    ensures s.stacks[task] != [] && turn == TurnOf(s.db, s.stacks[task][0], s.stacks[task][1..], maxAttempts)
  {
    var f, rest := s.stacks[task][0], s.stacks[task][1..];
    EveryTurnIsBatch(s.db, f, rest, maxAttempts);
    assert s.stacks[task] == [f] + rest;
    hide Inv, Schema, FrameOk, HandleBatch, TurnOf, StackEntries;
    turn := TurnOf(s.db, f, rest, maxAttempts);
  }

  lemma ActKeepsQueue(s: Engine, c: Config, task: nat, s': Engine, maxAttempts: nat)
    requires Inv(s.db) && QueueFits(s, c) && Follow(s, c, Act(task), s', maxAttempts)
    requires StackOk(s.db, s.stacks[task], maxAttempts)
    ensures QueueFits(s', c)
  {
    assert task in s.stacks;
    var turn := ActFacts(s, c, task, s', maxAttempts);
    hide Inv, Follow, StackEntries, StackOk, Taken;
    assert task in s.q.running && task < |s.q.started|;
    assert s'.stacks.Keys == s.stacks.Keys;
  }

  lemma ActKeepsParts(s: Engine, c: Config, task: nat, s': Engine, maxAttempts: nat)
    requires Inv(s.db) && PartsFit(s) && Follow(s, c, Act(task), s', maxAttempts)
    requires StackOk(s.db, s.stacks[task], maxAttempts)
    ensures PartsFit(s')
  {
    assert task in s.stacks;
    var turn := ActFacts(s, c, task, s', maxAttempts);
    hide Inv, Follow, Of, StackEntries, StackOk;
    forall t: nat | t < |s'.q.started|
      ensures Of(s'.log, t) + Left(s', t) == s'.q.started[t]
    {
      assert Of(s.log, t) + Left(s, t) == s.q.started[t];
      if t == task {
        MovedAcross(s.log, task, turn.settled, StackEntries(turn.stack));
      } else {
        OthersKept(s.log, task, turn.settled, t);
      }
    }
  }

  lemma MovedAcross(log: Log, task: nat, settled: seq<Entry>, left: seq<Entry>)
    ensures Of(log + [(task, settled)], task) + left == Of(log, task) + (settled + left)
  {
    OfSnoc(log, task, settled, task);
    hide Of;
  }

  lemma OthersKept(log: Log, task: nat, settled: seq<Entry>, other: nat)
    requires other != task
    ensures Of(log + [(task, settled)], other) == Of(log, other)
  {
    OfSnoc(log, task, settled, other);
    hide Of;
    assert Of(log, other) + [] == Of(log, other);
  }

  lemma ActKeepsSound(s: Engine, c: Config, task: nat, s': Engine, db: Db, maxAttempts: nat)
    requires Inv(db) && Sound(s, c, db, maxAttempts) && Follow(s, c, Act(task), s', maxAttempts)
    ensures Sound(s', c, db, maxAttempts)
  {
    MeansSound(s, db, maxAttempts);
    assert StackOk(s.db, s.stacks[task], maxAttempts) by { hide StackOk; }
    hide Inv, Schema, QueueFits, PartsFit, Means, StackOk;
    ActKeepsMeaning(s, c, task, s', db, maxAttempts);
    ActKeepsOk(s, c, task, s', maxAttempts);
    assert QueueFits(s, c) && PartsFit(s);
    ActKeepsQueue(s, c, task, s', maxAttempts);
    ActKeepsParts(s, c, task, s', maxAttempts);
  }

  lemma MoveKeepsSound(s: Engine, c: Config, move: Move, s': Engine, db: Db, maxAttempts: nat)
    requires Sane(c) && Inv(db) && Sound(s, c, db, maxAttempts) && Follow(s, c, move, s', maxAttempts)
    ensures Sound(s', c, db, maxAttempts)
  {
    hide Inv, Sound, Follow;
    match move
    case Callback(event) => CallbackKeepsSound(s, c, event, s', db, maxAttempts);
    case Act(task) => ActKeepsSound(s, c, task, s', db, maxAttempts);
  }

  /** In every state of every life the queue, the handlers and the tables fit together. */
  lemma {:induction false} EveryState(states: seq<Engine>, moves: seq<Move>, c: Config, db: Db, maxAttempts: nat, i: nat)
    requires Sane(c) && Inv(db) && Life(states, moves, c, db, maxAttempts) && i < |states|
    ensures Sound(states[i], c, db, maxAttempts)
  {
    hide Inv, Sound, Follow;
    if i == 0 {
      StartsSound(c, db, maxAttempts);
    } else {
      EveryState(states, moves, c, db, maxAttempts, i - 1);
      MoveKeepsSound(states[i - 1], c, moves[i - 1], states[i], db, maxAttempts);
    }
  }

  // ---- what a run means

  /**
   * Whatever the concurrency, at every moment the tables and settlements are
   * those of the settled entries handled one at a time, in the order they were
   * settled; each handler settles its batch in order; and the batches are the
   * arrivals, in order.
   */
  lemma RunIsSomeOrder(states: seq<Engine>, moves: seq<Move>, c: Config, db: Db, maxAttempts: nat, i: nat)
    requires Sane(c) && Inv(db) && Life(states, moves, c, db, maxAttempts) && i < |states|
    ensures
      var s := states[i];
      && SameMeaning(db, Outcome(s.db, s.settlements), HandleInOrder(db, SettlementOrder(s.log), maxAttempts))
      && TasksBelow(s.log, |s.q.started|)
      && (forall t: nat | t < |s.q.started| :: Of(s.log, t) <= s.q.started[t])
      && Flatten(s.q.started) + Flatten(s.q.pending) + s.q.current == s.arrived
  {
    var s := states[i];
    EveryState(states, moves, c, db, maxAttempts, i);
    hide Inv, Life, HandleInOrder, SameMeaning, HandleBatches, Left, QueueInv, StacksOk;
    CutsDoNotMatter(db, Segments(s.log), maxAttempts);
    forall t: nat | t < |s.q.started|
      ensures Of(s.log, t) <= s.q.started[t]
    {
      assert Of(s.log, t) + Left(s, t) == s.q.started[t];
    }
  }

  /** Nothing collects, waits or runs. */
  ghost predicate Drained(s: Engine) {
    s.q.current == [] && s.q.pending == [] && s.q.running == {}
  }

  lemma {:induction false} InTurnFlattens(log: Log, batches: seq<seq<Entry>>)
    requires forall t: nat | t < |batches| :: Of(log, t) == batches[t]
    ensures InTurn(log, |batches|) == Flatten(batches)
  {
    if batches != [] {
      InTurnFlattens(log, batches[..|batches| - 1]);
    }
  }

  /** Once drained, every handler has settled its batch, and the handlers' batches one after another are the arrivals. */
  lemma DrainedParts(s: Engine, c: Config, db: Db, maxAttempts: nat)
    requires Inv(db) && Sound(s, c, db, maxAttempts) && Drained(s)
    ensures forall t: nat | t < |s.q.started| :: Of(s.log, t) == s.q.started[t]
    ensures Flatten(s.q.started) == s.arrived && InTurn(s.log, |s.q.started|) == s.arrived
  {
    assert s.stacks == map[];
    assert Flatten(s.q.started) + Flatten([]) + [] == Flatten(s.q.started);
    hide Inv, Means, StacksOk, QueueInv, Flatten;
    forall t: nat | t < |s.q.started|
      ensures Of(s.log, t) == s.q.started[t]
    {
      assert Of(s.log, t) + Left(s, t) == s.q.started[t];
    }
    InTurnFlattens(s.log, s.q.started);
  }

  /** Once drained, the entries settled are a permutation of the arrivals that keeps the order inside each batch. */
  lemma DrainedIsPermutation(states: seq<Engine>, moves: seq<Move>, c: Config, db: Db, maxAttempts: nat, i: nat)
    requires Sane(c) && Inv(db) && Life(states, moves, c, db, maxAttempts) && i < |states| && Drained(states[i])
    ensures
      var s := states[i];
      && multiset(SettlementOrder(s.log)) == multiset(s.arrived)
      && Flatten(s.q.started) == s.arrived
      && forall t: nat | t < |s.q.started| :: Of(s.log, t) == s.q.started[t]
  {
    EveryState(states, moves, c, db, maxAttempts, i);
    DrainedParts(states[i], c, db, maxAttempts);
    assert TasksBelow(states[i].log, |states[i].q.started|);
    hide Inv, Life, Sound, Flatten;
    SettledIsPermutation(states[i].log, |states[i].q.started|);
  }

  // ---- when the order of arrival may stand for it

  /** No two entries of different batches share a key with different commands, or an id with different keys. */
  ghost predicate BatchesAgree(batches: seq<seq<Entry>>) {
    forall i, j | 0 <= i < |batches| && 0 <= j < |batches| && i != j :: AllAgree(batches[i], batches[j])
  }

  lemma FlattenHas(batches: seq<seq<Entry>>, i: nat, e: Entry)
    requires i < |batches| && e in batches[i]
    ensures e in Flatten(batches)
  {
    assert batches == batches[..i + 1] + batches[i + 1..];
    FlattenAppend(batches[..i + 1], batches[i + 1..]);
    assert batches[..i + 1][..i] == batches[..i];
  }

  /** Arrivals that all agree agree however they are cut. */
  lemma AgreeingArrivals(batches: seq<seq<Entry>>)
    requires AllAgree(Flatten(batches), Flatten(batches))
    ensures BatchesAgree(batches)
  {
    hide Agree, Flatten;
    forall i, j, e, f | 0 <= i < |batches| && 0 <= j < |batches| && e in batches[i] && f in batches[j]
      ensures Agree(e.command, f.command)
    {
      FlattenHas(batches, i, e);
      FlattenHas(batches, j, f);
    }
  }

  lemma AlikeNumbers(db: Db, a: Outcome, b: Outcome)
    requires Inv(db) && Inv(a.db) && Inv(b.db) && Advances(db, a.db) && Advances(db, b.db) && Alike(a, b)
    ensures SameNewNumbers(db, a.db, db, b.db)
  {
    hide Inv, Advances, Erase, SameNewNumbers;
    NumbersAgree(db, a.db, db, b.db);
  }

  /**
   * When the entries of different batches agree, a drained engine of any
   * concurrency has settled every arrival as handling them one at a time in
   * order of arrival does, and left the same tables but for the numbers of new
   * messages, which are the same in each room.
   */
  lemma AgreeingRunIsFold(states: seq<Engine>, moves: seq<Move>, c: Config, db: Db, maxAttempts: nat, i: nat)
    requires Sane(c) && Inv(db) && Life(states, moves, c, db, maxAttempts) && i < |states| && Drained(states[i])
    requires BatchesAgree(states[i].q.started)
    ensures
      var s, fold := states[i], HandleInOrder(db, states[i].arrived, maxAttempts);
      && Alike(Outcome(s.db, s.settlements), fold)
      && Advances(db, s.db) && Advances(db, fold.db) && SameNewNumbers(db, s.db, db, fold.db)
  {
    var s := states[i];
    EveryState(states, moves, c, db, maxAttempts, i);
    DrainedParts(s, c, db, maxAttempts);
    RunIsSomeOrder(states, moves, c, db, maxAttempts, i);
    assert CrossAgree(s.log, |s.q.started|) by { hide AllAgree, Inv, Life, Sound; }
    MeansSound(s, db, maxAttempts);
    hide Inv, Schema, Life, Sound, HandleInOrder, Erase, Advances, CrossAgree, SameNewNumbers;
    MergeIsInTurn(db, s.log, |s.q.started|, maxAttempts);
    InOrderAdvances(db, s.arrived, maxAttempts);
    AlikeNumbers(db, Outcome(s.db, s.settlements), HandleInOrder(db, s.arrived, maxAttempts));
  }

  // ---- one slot

  /** Only the newest batch runs, and segments are settled batch by batch. */
  ghost predicate OneAtATime(s: Engine) {
    && (forall t | t in s.q.running :: t == |s.q.started| - 1)
    && Sorted(s.log)
  }

  lemma {:induction false} PumpOneSlot(q: Queue, c: Config)
    requires c.concurrency == 1 && forall t | t in q.running :: t == |q.started| - 1
    ensures forall t | t in Pump(q, c).running :: t == |Pump(q, c).started| - 1
    decreases |q.pending|
  {
    if |q.running| < c.concurrency && q.pending != [] {
      assert q.running == {};
      PumpOneSlot(StartNext(q), c);
    }
  }

  lemma CallbackKeepsOne(s: Engine, c: Config, event: Event, s': Engine, maxAttempts: nat)
    requires c.concurrency == 1 && OneAtATime(s) && Follow(s, c, Callback(event), s', maxAttempts)
    ensures OneAtATime(s')
  {
    assert s'.log == s.log && s'.q == After(s.q, c, event);
    hide Schema, Follow, Sorted, Pump;
    match event
    case Arrived(e) => PumpOneSlot(Queue([], s.q.pending + [s.q.current + [e]], s.q.started, s.q.running), c);
    case TimerFired => PumpOneSlot(Queue([], s.q.pending + [s.q.current], s.q.started, s.q.running), c);
    case Finished(task) => PumpOneSlot(s.q.(running := s.q.running - {task}), c);
  }

  lemma ActKeepsOne(s: Engine, c: Config, task: nat, s': Engine, maxAttempts: nat)
    requires OneAtATime(s) && QueueFits(s, c) && Follow(s, c, Act(task), s', maxAttempts)
    ensures OneAtATime(s')
  {
    hide Schema, TurnOf, QueueInv, Taken;
    assert task in s.q.running && task == |s.q.started| - 1;
  }

  lemma SoundFits(s: Engine, c: Config, db: Db, maxAttempts: nat)
    requires Inv(db) && Sound(s, c, db, maxAttempts)
    ensures QueueFits(s, c)
  {
  }

  lemma StepKeepsOne(s: Engine, c: Config, move: Move, s': Engine, maxAttempts: nat)
    requires c.concurrency == 1 && OneAtATime(s) && QueueFits(s, c) && Follow(s, c, move, s', maxAttempts)
    ensures OneAtATime(s')
  {
    hide Follow, OneAtATime, QueueFits;
    match move
    case Callback(event) => CallbackKeepsOne(s, c, event, s', maxAttempts);
    case Act(task) => ActKeepsOne(s, c, task, s', maxAttempts);
  }

  lemma StartsOne(db: Db)
    ensures OneAtATime(Idle(db))
  {
  }

  lemma {:induction false} OneSlotState(states: seq<Engine>, moves: seq<Move>, c: Config, db: Db, maxAttempts: nat, i: nat)
    requires Sane(c) && c.concurrency == 1 && Inv(db) && Life(states, moves, c, db, maxAttempts) && i < |states|
    ensures OneAtATime(states[i])
  {
    hide Inv, Follow, OneAtATime, Sound, QueueFits;
    if i == 0 {
      StartsOne(db);
    } else {
      OneSlotState(states, moves, c, db, maxAttempts, i - 1);
      EveryState(states, moves, c, db, maxAttempts, i - 1);
      SoundFits(states[i - 1], c, db, maxAttempts);
      StepKeepsOne(states[i - 1], c, moves[i - 1], states[i], maxAttempts);
    }
  }

  /** With a single slot the order of settlement is the order of arrival, whatever the entries. */
  lemma OneSlotIsFold(states: seq<Engine>, moves: seq<Move>, c: Config, db: Db, maxAttempts: nat, i: nat)
    requires Sane(c) && c.concurrency == 1 && Inv(db) && Life(states, moves, c, db, maxAttempts)
    requires i < |states| && Drained(states[i])
    ensures SettlementOrder(states[i].log) == states[i].arrived
    ensures SameMeaning(db, Outcome(states[i].db, states[i].settlements), HandleInOrder(db, states[i].arrived, maxAttempts))
  {
    EveryState(states, moves, c, db, maxAttempts, i);
    DrainedParts(states[i], c, db, maxAttempts);
    OneSlotState(states, moves, c, db, maxAttempts, i);
    RunIsSomeOrder(states, moves, c, db, maxAttempts, i);
    hide Inv, Life, Sound, HandleInOrder, SameMeaning;
    SortedIsInTurn(states[i].log, |states[i].q.started|);
  }

  // ---- handlers end

  /** How often a handler acts. */
  function Acts(moves: seq<Move>, task: nat): nat {
    if moves == [] then 0
    else Acts(moves[..|moves| - 1], task) + if moves[|moves| - 1] == Act(task) then 1 else 0
  }

  ghost predicate StepsCounted(s: Engine, moves: seq<Move>, task: nat) {
    if task >= |s.q.started| then Acts(moves, task) == 0
    else Acts(moves, task) + (if task in s.stacks then StackWeight(s.stacks[task]) else 0) <= FrameWeight(Whole(s.q.started[task]))
  }

  lemma CountStep(s: Engine, c: Config, move: Move, s': Engine, maxAttempts: nat, moves: seq<Move>, task: nat)
    requires Sane(c) && Inv(s.db) && QueueFits(s, c) && QueueFits(s', c) && Follow(s, c, move, s', maxAttempts)
    requires StepsCounted(s, moves, task)
    ensures StepsCounted(s', moves + [move], task)
  {
    assert (moves + [move])[..|moves|] == moves;
    match move
    case Callback(event) =>
      CallbackKeepsStacks(s, c, event, s', task, maxAttempts);
      hide Inv, Schema, After, Enabled, Taken, Follow;
      assert task in s'.stacks && task !in s.stacks ==> StackWeight([Whole(s'.q.started[task])]) == FrameWeight(Whole(s'.q.started[task]));
      assert s.q.started <= s'.q.started;
      assert task in s'.stacks ==> task < |s'.q.started|;
    case Act(t) =>
      TurnLighter(s.db, s.stacks[t][0], s.stacks[t][1..], maxAttempts);
      assert s.stacks[t] == [s.stacks[t][0]] + s.stacks[t][1..];
      hide Inv, Schema, TurnOf, Taken;
      assert t < |s.q.started|;
  }

  /** A handler whose batch has n commands acts at most 5n - 1 times, whatever the others do. */
  lemma {:induction false} HandlerEnds(states: seq<Engine>, moves: seq<Move>, c: Config, db: Db, maxAttempts: nat, i: nat, task: nat)
    requires Sane(c) && Inv(db) && Life(states, moves, c, db, maxAttempts) && i < |states|
    ensures StepsCounted(states[i], moves[..i], task)
    ensures task < |states[i].q.started| ==> Acts(moves[..i], task) <= 5 * |states[i].q.started[task]| - 1
  {
    hide Inv, Schema, Follow, Sound, QueueFits;
    EveryState(states, moves, c, db, maxAttempts, i);
    SoundFits(states[i], c, db, maxAttempts);
    if i > 0 {
      HandlerEnds(states, moves, c, db, maxAttempts, i - 1, task);
      EveryState(states, moves, c, db, maxAttempts, i - 1);
      SoundFits(states[i - 1], c, db, maxAttempts);
      SoundTables(states[i - 1], c, db, maxAttempts);
      CountStep(states[i - 1], c, moves[i - 1], states[i], maxAttempts, moves[..i - 1], task);
      assert moves[..i] == moves[..i - 1] + [moves[i - 1]];
    }
    StartedSized(states[i], c);
  }

  lemma SoundTables(s: Engine, c: Config, db: Db, maxAttempts: nat)
    requires Inv(db) && Sound(s, c, db, maxAttempts)
    ensures Inv(s.db) && Schema(s.db)
  {
    MeansSound(s, db, maxAttempts);
  }

  lemma StartedSized(s: Engine, c: Config)
    requires QueueFits(s, c)
    ensures BatchSized(s.q.started, c.batchSize)
  {
  }
}
