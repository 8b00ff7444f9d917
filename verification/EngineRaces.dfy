/**
 * With two slots or more, two entries that disagree can overtake each other: a
 * run of the engine in which the later arrival is settled first, and with it
 * the exact condition for arrival order to stand.
 */
module EngineRaces {
  import opened Store
  import opened Invariant
  import opened Steps
  import opened BatchHandling
  import opened Transparency
  import opened Commuting
  import opened WriterQueue
  import opened Handlers
  import opened Interleavings
  import opened ConcurrentEngine

  ghost function Last(states: seq<Engine>): Engine
    requires states != []
  {
    states[|states| - 1]
  }

  lemma Append(states: seq<Engine>, moves: seq<Move>, c: Config, db: Db, maxAttempts: nat, move: Move, s': Engine)
    requires Life(states, moves, c, db, maxAttempts) && Follow(Last(states), c, move, s', maxAttempts)
    ensures Life(states + [s'], moves + [move], c, db, maxAttempts)
  {
    hide Follow;
  }

  lemma LastIsSound(states: seq<Engine>, moves: seq<Move>, c: Config, db: Db, maxAttempts: nat)
    requires Sane(c) && Inv(db) && Life(states, moves, c, db, maxAttempts)
    ensures Sound(Last(states), c, db, maxAttempts) && Inv(Last(states).db) && Schema(Last(states).db)
  {
    hide Inv, Schema, Sound, Follow;
    EveryState(states, moves, c, db, maxAttempts, |moves|);
    SoundTables(Last(states), c, db, maxAttempts);
  }

  /** One more move. */
  lemma Extend(states: seq<Engine>, moves: seq<Move>, c: Config, db: Db, maxAttempts: nat, move: Move)
    returns (longer: seq<Engine>)
    requires Sane(c) && Inv(db) && Life(states, moves, c, db, maxAttempts) && Allowed(Last(states), c, move)
    ensures longer != [] && Life(longer, moves + [move], c, db, maxAttempts)
    ensures Follow(Last(states), c, move, Last(longer), maxAttempts)
  {
    LastIsSound(states, moves, c, db, maxAttempts);
    assert states != [];
    hide Inv, Life, Schema, Sound, Allowed, Moved;
    var s' := Moved(Last(states), c, move, maxAttempts);
    Append(states, moves, c, db, maxAttempts, move, s');
    longer := states + [s'];
  }

  /** What a handler running alone from `s` has done when it ends in `s'`. */
  ghost predicate RanAlone(s: Engine, s': Engine, task: nat, maxAttempts: nat)
    requires Inv(s.db) && task in s.stacks
  {
    && Outcome(s'.db, s'.settlements) == Then(Outcome(s.db, s.settlements), StackOutcome(s.db, s.stacks[task], maxAttempts))
    && s'.q == s.q && s'.arrived == s.arrived && s'.stacks == s.stacks[task := []]
    && SettlementOrder(s'.log) == SettlementOrder(s.log) + StackEntries(s.stacks[task])
  }

  /** What one of its steps does. */
  ghost predicate ActedAlone(s: Engine, s': Engine, task: nat, maxAttempts: nat)
    requires Inv(s.db) && Inv(s'.db) && task in s.stacks
  {
    && s.settlements <= s'.settlements && task in s'.stacks
    && StackOutcome(s.db, s.stacks[task], maxAttempts)
       == Then(Outcome(s'.db, s'.settlements[|s.settlements|..]), StackOutcome(s'.db, s'.stacks[task], maxAttempts))
    && s'.q == s.q && s'.arrived == s.arrived && task in s'.stacks && s'.stacks == s.stacks[task := s'.stacks[task]]
    && SettlementOrder(s'.log) + StackEntries(s'.stacks[task]) == SettlementOrder(s.log) + StackEntries(s.stacks[task])
    && StackWeight(s'.stacks[task]) < StackWeight(s.stacks[task])
  }

  lemma ActThenRun(s: Engine, s': Engine, s'': Engine, task: nat, maxAttempts: nat)
    requires Inv(s.db) && Inv(s'.db) && task in s.stacks && ActedAlone(s, s', task, maxAttempts) && RanAlone(s', s'', task, maxAttempts)
    ensures RanAlone(s, s'', task, maxAttempts)
  {
    hide Inv, SettlementOrder, StackEntries, StackWeight, StackOutcome;
    assert s'.settlements == s.settlements + s'.settlements[|s.settlements|..];
    assert s'.stacks[task := []] == s.stacks[task := []];
  }

  lemma NothingLeft(s: Engine, task: nat, maxAttempts: nat)
    requires Inv(s.db) && task in s.stacks && s.stacks[task] == []
    ensures RanAlone(s, s, task, maxAttempts)
  {
    hide Inv, SettlementOrder;
    assert s.settlements + [] == s.settlements;
    assert s.stacks == s.stacks[task := []];
    assert SettlementOrder(s.log) + [] == SettlementOrder(s.log);
  }

  /** A handler can run to its end while the others wait; it then does exactly what handling what it has left does. */
  lemma {:induction false} RunAlone(states: seq<Engine>, moves: seq<Move>, c: Config, db: Db, maxAttempts: nat, task: nat)
    returns (longer: seq<Engine>, more: seq<Move>)
    requires Sane(c) && Inv(db) && Life(states, moves, c, db, maxAttempts) && task in Last(states).stacks
    ensures longer != [] && Life(longer, more, c, db, maxAttempts)
    ensures Inv(Last(states).db) && RanAlone(Last(states), Last(longer), task, maxAttempts)
    decreases StackWeight(Last(states).stacks[task])
  {
    LastIsSound(states, moves, c, db, maxAttempts);
    assert states != [];
    hide Inv, Schema, Life, Sound, Follow, StackWeight, RanAlone;
    var s := Last(states);
    if s.stacks[task] == [] {
      longer, more := states, moves;
      NothingLeft(s, task, maxAttempts);
    } else {
      longer := Extend(states, moves, c, db, maxAttempts, Act(task));
      var s' := Last(longer);
      ActAlone(s, c, task, s', db, maxAttempts);
      hide StackEntries, SettlementOrder;
      longer, more := RunAlone(longer, moves + [Act(task)], c, db, maxAttempts, task);
      ActThenRun(s, s', Last(longer), task, maxAttempts);
    }
  }

  lemma ActLighter(s: Engine, c: Config, task: nat, s': Engine, maxAttempts: nat)
    requires Follow(s, c, Act(task), s', maxAttempts)
    ensures task in s.stacks && task in s'.stacks && StackWeight(s'.stacks[task]) < StackWeight(s.stacks[task])
  {
    var f, rest := s.stacks[task][0], s.stacks[task][1..];
    TurnLighter(s.db, f, rest, maxAttempts);
    assert s.stacks[task] == [f] + rest;
    hide Schema, TurnOf, StackWeight;
  }

  lemma StackIsOk(s: Engine, c: Config, db: Db, maxAttempts: nat, task: nat)
    requires Inv(db) && Sound(s, c, db, maxAttempts) && task in s.stacks
    ensures StackOk(s.db, s.stacks[task], maxAttempts)
  {
    hide StackOk, QueueFits, PartsFit, Means;
  }

  lemma TopSplit(stack: seq<Frame>)
    requires stack != []
    ensures stack == [stack[0]] + stack[1..]
  {
  }

  lemma Added(before: seq<Settlement>, more: seq<Settlement>)
    ensures before <= before + more && (before + more)[|before|..] == more
  {
  }

  lemma ActOutcome(s: Engine, c: Config, task: nat, s': Engine, db: Db, maxAttempts: nat)
    requires Inv(db) && Inv(s.db) && Sound(s, c, db, maxAttempts) && Follow(s, c, Act(task), s', maxAttempts)
    requires StackOk(s.db, s.stacks[task], maxAttempts)
    ensures Inv(s'.db) && s.settlements <= s'.settlements && task in s'.stacks
    ensures StackOutcome(s.db, s.stacks[task], maxAttempts)
         == Then(Outcome(s'.db, s'.settlements[|s.settlements|..]), StackOutcome(s'.db, s'.stacks[task], maxAttempts))
  {
    ActKeepsSound(s, c, task, s', db, maxAttempts);
    SoundTables(s', c, db, maxAttempts);
    assert task in s.stacks;
    var turn := ActFacts(s, c, task, s', maxAttempts);
    assert FrameOk(s.db, s.stacks[task][0], maxAttempts);
    hide Inv, Schema, Sound, Follow, FrameOk, StackOk, TurnOf, StackOutcome, StackEntries, Then;
    TopSplit(s.stacks[task]);
    Added(s.settlements, turn.settlements);
    TurnKeepsOutcome(s.db, s.stacks[task][0], s.stacks[task][1..], maxAttempts);
  }

  lemma ActAlone(s: Engine, c: Config, task: nat, s': Engine, db: Db, maxAttempts: nat)
    requires Inv(db) && Sound(s, c, db, maxAttempts) && Follow(s, c, Act(task), s', maxAttempts)
    ensures Inv(s.db) && Inv(s'.db) && ActedAlone(s, s', task, maxAttempts)
  {
    ActLighter(s, c, task, s', maxAttempts);
    SoundTables(s, c, db, maxAttempts);
    StackIsOk(s, c, db, maxAttempts, task);
    ActOutcome(s, c, task, s', db, maxAttempts);
    hide Inv, Schema, Sound, StackOk, Follow, StackWeight, StackEntries, SettlementOrder, StackOutcome;
    var turn := ActFacts(s, c, task, s', maxAttempts);
    SettlementOrderSnoc(s.log, task, turn.settled);
    Regroup(SettlementOrder(s.log), turn.settled, StackEntries(turn.stack));
  }

  lemma Regroup(a: seq<Entry>, b: seq<Entry>, c: seq<Entry>)
    ensures a + b + c == a + (b + c)
  {
  }

  // ---- two entries, two batches

  /** The queue after `e` came alone to an engine with a free slot. */
  function Submitted(q: Queue, e: Entry): Queue {
    Queue([], [], q.started + [[e]], q.running + {|q.started|})
  }

  lemma FlushStartsOne(q: Queue, c: Config, e: Entry)
    requires q.current == [e] && q.pending == [] && |q.running| < c.concurrency
    ensures Flush(q, c) == Submitted(q, e)
  {
    var queued := Queue([], q.pending + [q.current], q.started, q.running);
    assert queued.pending == [[e]] && [[e]][1..] == [];
    assert Pump(queued, c) == Pump(StartNext(queued), c);
  }

  lemma HandledSame(stacks: map<nat, seq<Frame>>, q: Queue)
    requires stacks.Keys == q.running && forall t | t in q.running :: t < |q.started|
    ensures Handled(stacks, q) == stacks
  {
  }

  /** An entry comes and its batch starts: at once when it fills the batch or there is no delay, else with the timer. */
  lemma Submit(states: seq<Engine>, moves: seq<Move>, c: Config, db: Db, maxAttempts: nat, e: Entry)
    returns (longer: seq<Engine>, more: seq<Move>)
    requires Sane(c) && Inv(db) && Life(states, moves, c, db, maxAttempts)
    requires Last(states).q.current == [] && Last(states).q.pending == [] && |Last(states).q.running| < c.concurrency
    ensures Life(longer, more, c, db, maxAttempts)
    ensures
      var s, s' := Last(states), Last(longer);
      && s'.q == Submitted(s.q, e) && s'.arrived == s.arrived + [e] && s'.log == s.log
      && s'.stacks == Handled(s.stacks, s'.q)
  {
    var s := Last(states);
    LastIsSound(states, moves, c, db, maxAttempts);
    SoundFits(s, c, db, maxAttempts);
    HandledSame(s.stacks, s.q);
    hide Inv, Life, Schema, Sound, QueueFits, Flush, Handled, Submitted, Push;
    ArrivalStarts(s.q, c, e);
    var arrives := Callback(Arrived(e));
    longer := Extend(states, moves, c, db, maxAttempts, arrives);
    more := moves + [arrives];
    if |[e]| < c.batchSize && c.flushDelayMs != 0 {
      HandledSameQueue(s.stacks, s.q, s.q.(current := [e]));
      longer := TimerStarts(longer, more, c, db, maxAttempts, s, e);
      more := more + [Callback(TimerFired)];
    }
  }

  lemma ArrivalStarts(q: Queue, c: Config, e: Entry)
    requires q.current == [] && q.pending == [] && |q.running| < c.concurrency
    ensures Push(q, c, e) == if |[e]| < c.batchSize && c.flushDelayMs != 0 then q.(current := [e]) else Submitted(q, e)
  {
    assert q.(current := q.current + [e]) == q.(current := [e]);
    FlushStartsOne(q.(current := [e]), c, e);
    hide Flush;
  }

  lemma TimerStarts(states: seq<Engine>, moves: seq<Move>, c: Config, db: Db, maxAttempts: nat, s: Engine, e: Entry)
    returns (longer: seq<Engine>)
    requires Sane(c) && Inv(db) && states != [] && Life(states, moves, c, db, maxAttempts)
    requires Last(states).q == s.q.(current := [e]) && s.q.pending == [] && |s.q.running| < c.concurrency
    requires Last(states).stacks == s.stacks
    ensures longer != [] && Life(longer, moves + [Callback(TimerFired)], c, db, maxAttempts)
    ensures Last(longer) == Last(states).(q := Submitted(s.q, e), stacks := Handled(s.stacks, Submitted(s.q, e)))
  {
    hide Inv, Life, Schema, Flush, Handled;
    FlushStartsOne(s.q.(current := [e]), c, e);
    longer := Extend(states, moves, c, db, maxAttempts, Callback(TimerFired));
    assert Last(states).arrived + [] == Last(states).arrived;
  }

  lemma HandledSameQueue(stacks: map<nat, seq<Frame>>, p: Queue, q: Queue)
    requires p.started == q.started && p.running == q.running
    ensures Handled(stacks, p) == Handled(stacks, q)
  {
  }

  /** Two entries in a row on two free slots: two handlers, each with one entry. */
  lemma SubmitTwo(c: Config, db: Db, maxAttempts: nat, e: Entry, f: Entry)
    returns (states: seq<Engine>, moves: seq<Move>)
    requires Sane(c) && Inv(db) && c.concurrency >= 2
    ensures Life(states, moves, c, db, maxAttempts)
    ensures
      var s := Last(states);
      && s.q == Queue([], [], [[e], [f]], {0, 1}) && s.arrived == [e, f] && s.log == []
      && s.stacks == map[0 := [Whole([e])], 1 := [Whole([f])]]
  {
    hide Inv, Schema;
    states, moves := [Idle(db)], [];
    assert Life(states, moves, c, db, maxAttempts);
    hide Life;
    states, moves := Submit(states, moves, c, db, maxAttempts, e);
    assert Last(states).q == Queue([], [], [[e]], {0}) && Last(states).stacks == map[0 := [Whole([e])]];
    states, moves := Submit(states, moves, c, db, maxAttempts, f);
    assert Last(states).q == Queue([], [], [[e], [f]], {0, 1}) && Last(states).arrived == [e, f];
  }

  /** A handler with nothing left finishes while nothing waits. */
  lemma FinishOne(states: seq<Engine>, moves: seq<Move>, c: Config, db: Db, maxAttempts: nat, task: nat)
    returns (longer: seq<Engine>, more: seq<Move>)
    requires Sane(c) && Inv(db) && Life(states, moves, c, db, maxAttempts)
    requires task in Last(states).stacks && Last(states).stacks[task] == [] && Last(states).q.pending == []
    ensures Life(longer, more, c, db, maxAttempts)
    ensures
      var s, s' := Last(states), Last(longer);
      && s' == s.(q := s.q.(running := s.q.running - {task}), stacks := s.stacks - {task})
  {
    var s := Last(states);
    LastIsSound(states, moves, c, db, maxAttempts);
    SoundFits(s, c, db, maxAttempts);
    assert task in s.q.running;
    assert s.stacks.Keys == s.q.running && forall t | t in s.q.running :: t < |s.q.started|;
    hide Inv, Life, Schema, Sound, QueueFits;
    longer := Extend(states, moves, c, db, maxAttempts, Callback(Finished(task)));
    more := moves + [Callback(Finished(task))];
    assert Handled(s.stacks, s.q.(running := s.q.running - {task})) == s.stacks - {task};
    assert s.arrived + [] == s.arrived;
  }

  /** The later of two entries is settled first. */
  lemma Overtaking(c: Config, db: Db, maxAttempts: nat, e: Entry, f: Entry)
    returns (states: seq<Engine>, moves: seq<Move>)
    requires Sane(c) && Inv(db) && c.concurrency >= 2
    ensures Life(states, moves, c, db, maxAttempts)
    ensures Drained(Last(states)) && Last(states).arrived == [e, f] && SettlementOrder(Last(states).log) == [f, e]
  {
    hide Inv, Schema, Life, SettlementOrder;
    states, moves := SubmitTwo(c, db, maxAttempts, e, f);
    assert SettlementOrder([]) == [] by { NothingSettledYet([]); }
    OneWhole(e);
    OneWhole(f);
    hide StackEntries;
    states, moves := RunAlone(states, moves, c, db, maxAttempts, 1);
    states, moves := RunAlone(states, moves, c, db, maxAttempts, 0);
    states, moves := FinishOne(states, moves, c, db, maxAttempts, 1);
    states, moves := FinishOne(states, moves, c, db, maxAttempts, 0);
    assert {0, 1} - {1} - {0} == {};
    assert [] + [f] + [e] == [f, e];
  }

  lemma OneWhole(e: Entry)
    ensures StackEntries([Whole([e])]) == [e]
  {
    StackCons(Whole([e]), []);
    assert [Whole([e])] + [] == [Whole([e])] && [e] + [] == [e];
  }

  /** Whenever the engine has drained after exactly these two arrivals, the arrival order describes what it did. */
  ghost predicate ArrivalOrderStands(e: Entry, f: Entry, c: Config, maxAttempts: nat) {
    forall db, states, moves |
      Inv(db) && Life(states, moves, c, db, maxAttempts) && Drained(Last(states)) && Last(states).arrived == [e, f] ::
      Alike(Outcome(Last(states).db, Last(states).settlements), HandleInOrder(db, [e, f], maxAttempts))
  }

  /**
   * With two slots or more, arrival order describes every run over two entries,
   * from every sound database, if and only if their commands agree.
   */
  lemma ArrivalOrderStandsExactly(e: Entry, f: Entry, c: Config, maxAttempts: nat)
    requires Sane(c) && c.concurrency >= 2
    ensures ArrivalOrderStands(e, f, c, maxAttempts) <==> Agree(e.command, f.command)
  {
    hide Inv, Follow, Alike, HandleInOrder, Drained;
    if Agree(e.command, f.command) {
      forall db, states, moves |
        Inv(db) && Life(states, moves, c, db, maxAttempts) && Drained(Last(states)) && Last(states).arrived == [e, f]
        ensures Alike(Outcome(Last(states).db, Last(states).settlements), HandleInOrder(db, [e, f], maxAttempts))
      {
        AgreeingRun(states, moves, e, f, c, db, maxAttempts);
      }
    } else {
      DisagreeingRun(e, f, c, maxAttempts);
    }
  }

  lemma AgreeingRun(states: seq<Engine>, moves: seq<Move>, e: Entry, f: Entry, c: Config, db: Db, maxAttempts: nat)
    requires Sane(c) && Inv(db) && Agree(e.command, f.command)
    requires Life(states, moves, c, db, maxAttempts) && Drained(Last(states)) && Last(states).arrived == [e, f]
    ensures Alike(Outcome(Last(states).db, Last(states).settlements), HandleInOrder(db, [e, f], maxAttempts))
  {
    assert AllAgree([e, f], [e, f]);
    hide Inv, HandleInOrder, Sound, Flatten, AllAgree, SameNewNumbers;
    DrainedIsPermutation(states, moves, c, db, maxAttempts, |moves|);
    AgreeingArrivals(Last(states).q.started);
    AgreeingRunIsFold(states, moves, c, db, maxAttempts, |moves|);
  }

  lemma DisagreeingRun(e: Entry, f: Entry, c: Config, maxAttempts: nat)
    requires Sane(c) && c.concurrency >= 2 && !Agree(e.command, f.command)
    ensures !ArrivalOrderStands(e, f, c, maxAttempts)
  {
    var db := Blank(e.command, f.command);
    BlankIsSound(e.command, f.command);
    hide Inv, Schema, HandleInOrder, Blank, SettlementOrder, Agree;
    var states, moves := Overtaking(c, db, maxAttempts, e, f);
    RunIsSomeOrder(states, moves, c, db, maxAttempts, |moves|);
    DisagreeingDiffer(e, f, maxAttempts);
    hide Advances, SameNewNumbers, Drained;
    NotAlike(Outcome(Last(states).db, Last(states).settlements), HandleInOrder(db, [f, e], maxAttempts),
             HandleInOrder(db, [e, f], maxAttempts));
  }

  lemma NotAlike(a: Outcome, b: Outcome, d: Outcome)
    requires Equivalent(a, b) && !Alike(d, b)
    ensures !Alike(a, d)
  {
  }

  /**
   * One (sender, request) with two bodies, on two slots: the later arrival can
   * be the one that is acknowledged and stored, and the earlier handed back,
   * where the order of arrival has it the other way round.
   */
  lemma TwoBodiesRace(e: Entry, f: Entry, c: Config, maxAttempts: nat)
    returns (states: seq<Engine>, moves: seq<Move>)
    requires Sane(c) && c.concurrency >= 2 && e.attempt < maxAttempts && f.attempt < maxAttempts
    requires KeyOf(e.command) == KeyOf(f.command) && e.command.body != f.command.body
    ensures
      var db := Blank(e.command, f.command);
      && Inv(db) && Life(states, moves, c, db, maxAttempts)
      && Drained(Last(states)) && Last(states).arrived == [e, f]
      && Last(states).settlements == [Acked(f.tag), Nacked(e.tag)]
      && KeyOf(f.command) in Last(states).db.writes && Last(states).db.writes[KeyOf(f.command)].content == f.command.body
      && HandleInOrder(db, [e, f], maxAttempts).settlements == [Acked(e.tag), Nacked(f.tag)]
  {
    var db := Blank(e.command, f.command);
    BlankIsSound(e.command, f.command);
    FirstComesFirstServed(e, f, maxAttempts);
    FirstComesFirstServed(f, e, maxAttempts);
    hide Inv, Schema, HandleInOrder, Blank, SettlementOrder;
    states, moves := Overtaking(c, db, maxAttempts, e, f);
    RunIsSomeOrder(states, moves, c, db, maxAttempts, |moves|);
    SameWrites(Last(states).db, HandleInOrder(db, [f, e], maxAttempts).db);
  }

  lemma SameWrites(a: Db, b: Db)
    requires Erase(a) == Erase(b)
    ensures a.writes == b.writes
  {
    assert Erase(a).writes == a.writes && Erase(b).writes == b.writes;
  }
}
