/**
 * The writer's batching engine: entries collect in the current batch, full or
 * timed-out batches wait, at most `concurrency` are handled at once, arrival is
 * held back while too many wait, and closing drains everything. Between two
 * awaits the code runs alone, so each callback is one step.
 */
module WriterQueue {
  import opened Prelude
  import opened Store
  import opened Invariant
  import opened Steps
  import opened BatchHandling
  import opened Transparency

  datatype Config = Config(batchSize: nat, concurrency: nat, flushDelayMs: nat)

  /**
   * The engine's state. `started` lists the batches handed to the handler, in
   * order; `running` holds the positions in it of those still being handled.
   */
  datatype Queue = Queue(current: seq<Entry>, pending: seq<seq<Entry>>, started: seq<seq<Entry>>, running: set<nat>)

  ghost predicate Sane(c: Config) {
    c.batchSize >= 1 && c.concurrency >= 1
  }

  function Flatten(batches: seq<seq<Entry>>): seq<Entry> {
    if batches == [] then [] else Flatten(batches[..|batches| - 1]) + batches[|batches| - 1]
  }

  lemma {:induction false} FlattenAppend(a: seq<seq<Entry>>, b: seq<seq<Entry>>)
    ensures Flatten(a + b) == Flatten(a) + Flatten(b)
  {
    if b == [] {
      assert a + b == a;
    } else {
      var init, last := b[..|b| - 1], b[|b| - 1];
      FlattenAppend(a, init);
      assert (a + b)[..|a + b| - 1] == a + init;
    }
  }

  // ---- the callbacks as functions of the state

  function StartNext(q: Queue): Queue
    requires q.pending != []
  {
    Queue(q.current, q.pending[1..], q.started + [q.pending[0]], q.running + {|q.started|})
  }

  function Pump(q: Queue, c: Config): Queue
    decreases |q.pending|
  {
    if |q.running| < c.concurrency && q.pending != []
    then Pump(StartNext(q), c)
    else q
  }

  function Flush(q: Queue, c: Config): Queue {
    if q.current == [] then q
    else Pump(Queue([], q.pending + [q.current], q.started, q.running), c)
  }

  /** The consume loop waits instead of taking the next entry. */
  predicate HeldBack(q: Queue, c: Config) {
    |q.pending| >= c.concurrency * 2 && q.running != {}
  }

  function Push(q: Queue, c: Config, e: Entry): Queue {
    var grown := q.(current := q.current + [e]);
    if |grown.current| >= c.batchSize || c.flushDelayMs == 0 then Flush(grown, c) else grown
  }

  function Finish(q: Queue, c: Config, task: nat): Queue {
    Pump(q.(running := q.running - {task}), c)
  }

  // ---- what holds after every callback

  /** Everything taken so far, in order: handled or being handled, waiting, collecting. */
  function Taken(q: Queue): seq<Entry> {
    Flatten(q.started) + Flatten(q.pending) + q.current
  }

  ghost predicate BatchSized(batches: seq<seq<Entry>>, size: nat) {
    forall i | 0 <= i < |batches| :: 1 <= |batches[i]| <= size
  }

  ghost predicate Within(q: Queue, c: Config) {
    && BatchSized(q.started, c.batchSize) && BatchSized(q.pending, c.batchSize)
    && (forall t | t in q.running :: t < |q.started|)
    && |q.running| <= c.concurrency
  }

  ghost predicate QueueInv(q: Queue, c: Config) {
    && Within(q, c)
    && |q.current| < c.batchSize
    && (c.flushDelayMs == 0 ==> q.current == [])
    && (q.pending != [] ==> |q.running| == c.concurrency)
    && |q.pending| <= 2 * c.concurrency
    && (|q.pending| == 2 * c.concurrency ==> q.current == [])
  }

  lemma FlattenOne(batch: seq<Entry>)
    ensures Flatten([batch]) == batch
  {
    assert Flatten([]) + batch == batch;
  }

  lemma StartKeepsTaken(q: Queue)
    requires q.pending != []
    ensures Taken(StartNext(q)) == Taken(q)
  {
    var first, rest := q.pending[0], q.pending[1..];
    assert q.pending == [first] + rest;
    FlattenAppend(q.started, [first]);
    FlattenAppend([first], rest);
    FlattenOne(first);
    assert Flatten(q.started) + first + Flatten(rest) + q.current == Flatten(q.started) + (first + Flatten(rest)) + q.current;
  }

  lemma StartKeepsWithin(q: Queue, c: Config)
    requires Within(q, c) && q.pending != [] && |q.running| < c.concurrency
    ensures Within(StartNext(q), c) && |StartNext(q).running| == |q.running| + 1
    ensures q.started <= StartNext(q).started && q.running <= StartNext(q).running
  {
    assert |q.started| !in q.running;
  }

  /** Pumping loses and reorders nothing, fills the free slots, and starts no more than it must. */
  lemma {:induction false} PumpFacts(q: Queue, c: Config)
    requires Within(q, c)
    ensures Within(Pump(q, c), c) && Taken(Pump(q, c)) == Taken(q)
    ensures Pump(q, c).pending != [] ==> |Pump(q, c).running| == c.concurrency
    ensures Pump(q, c).current == q.current && |Pump(q, c).pending| <= |q.pending|
    ensures |Pump(q, c).running| + |Pump(q, c).pending| == |q.running| + |q.pending|
    ensures q.started <= Pump(q, c).started && q.running <= Pump(q, c).running
    decreases |q.pending|
  {
    if |q.running| < c.concurrency && q.pending != [] {
      StartKeepsTaken(q);
      StartKeepsWithin(q, c);
      hide Within, Taken;
      PumpFacts(StartNext(q), c);
    } else {
      assert |q.running| <= c.concurrency;
    }
  }

  lemma QueuedKeepsTaken(q: Queue)
    ensures Taken(Queue([], q.pending + [q.current], q.started, q.running)) == Taken(q)
  {
    FlattenAppend(q.pending, [q.current]);
    FlattenOne(q.current);
    assert Flatten(q.started) + (Flatten(q.pending) + q.current) + [] == Flatten(q.started) + Flatten(q.pending) + q.current;
  }

  lemma FlushFacts(q: Queue, c: Config)
    requires Sane(c) && Within(q, c) && |q.current| <= c.batchSize
    requires (q.pending != [] ==> |q.running| == c.concurrency) && |q.pending| <= 2 * c.concurrency
    requires |q.pending| == 2 * c.concurrency ==> q.current == []
    ensures QueueInv(Flush(q, c), c) && Flush(q, c).current == [] && Taken(Flush(q, c)) == Taken(q)
  {
    if q.current != [] {
      var queued := Queue([], q.pending + [q.current], q.started, q.running);
      QueuedKeepsTaken(q);
      hide Taken, Pump;
      PumpFacts(queued, c);
    }
  }

  lemma PushFacts(q: Queue, c: Config, e: Entry)
    requires Sane(c) && QueueInv(q, c) && !HeldBack(q, c)
    ensures QueueInv(Push(q, c, e), c) && Taken(Push(q, c, e)) == Taken(q) + [e]
  {
    var grown := q.(current := q.current + [e]);
    assert Taken(grown) == Taken(q) + [e];
    assert |q.pending| < 2 * c.concurrency;
    if |grown.current| >= c.batchSize || c.flushDelayMs == 0 {
      FlushFacts(grown, c);
    }
  }

  lemma FinishFacts(q: Queue, c: Config, task: nat)
    requires Sane(c) && QueueInv(q, c) && task in q.running
    ensures QueueInv(Finish(q, c, task), c) && Taken(Finish(q, c, task)) == Taken(q)
    ensures |Finish(q, c, task).running| + |Finish(q, c, task).pending| == |q.running| + |q.pending| - 1
  {
    PumpFacts(q.(running := q.running - {task}), c);
  }

  // ---- bounds

  function Sizes(batches: seq<seq<Entry>>, which: set<nat>): nat
    requires forall t | t in which :: t < |batches|
  {
    if batches == [] then 0
    else
      var last := |batches| - 1;
      Sizes(batches[..last], which - {last}) + if last in which then |batches[last]| else 0
  }

  lemma {:induction false} SizesBounded(batches: seq<seq<Entry>>, which: set<nat>, size: nat)
    requires (forall t | t in which :: t < |batches|) && BatchSized(batches, size)
    ensures Sizes(batches, which) <= |which| * size
  {
    if batches != [] {
      var last := |batches| - 1;
      SizesBounded(batches[..last], which - {last}, size);
      if last in which {
        assert |which - {last}| == |which| - 1;
        assert (|which| - 1) * size + size == |which| * size;
      } else {
        assert which - {last} == which;
      }
    } else {
      assert which == {};
    }
  }

  lemma {:induction false} FlattenBounded(batches: seq<seq<Entry>>, size: nat)
    requires BatchSized(batches, size)
    ensures |Flatten(batches)| <= |batches| * size
  {
    if batches != [] {
      FlattenBounded(batches[..|batches| - 1], size);
      assert (|batches| - 1) * size + size == |batches| * size;
    }
  }

  /** Entries taken and not yet handled. */
  function Unfinished(q: Queue): nat
    requires forall t | t in q.running :: t < |q.started|
  {
    Sizes(q.started, q.running) + |Flatten(q.pending)| + |q.current|
  }

  /** Back-pressure works: never more than 3 * concurrency * batchSize entries are unfinished. */
  lemma UnfinishedBounded(q: Queue, c: Config)
    requires Sane(c) && QueueInv(q, c)
    ensures Unfinished(q) <= 3 * c.concurrency * c.batchSize
  {
    SizesBounded(q.started, q.running, c.batchSize);
    FlattenBounded(q.pending, c.batchSize);
    TotalBounded(c.batchSize, c.concurrency, |q.running|, |q.pending|, |q.current|);
  }

  lemma TotalBounded(size: nat, slots: nat, running: nat, pending: nat, current: nat)
    requires running <= slots && pending <= 2 * slots && current <= size && (pending == 2 * slots ==> current == 0)
    ensures running * size + pending * size + current <= 3 * slots * size
  {
    MulMonotone(running, slots, size);
    if pending == 2 * slots {
      assert slots * size + (2 * slots) * size == 3 * slots * size;
    } else {
      MulMonotone(pending + 1, 2 * slots, size);
      assert (pending + 1) * size == pending * size + size;
      assert slots * size + (2 * slots) * size == 3 * slots * size;
    }
  }

  lemma MulMonotone(x: nat, y: nat, size: nat)
    requires x <= y
    ensures x * size <= y * size
  {
  }

  // ---- every reachable state

  datatype Event = Arrived(e: Entry) | TimerFired | Finished(task: nat)

  predicate Enabled(q: Queue, c: Config, event: Event) {
    match event
    case Arrived(_) => !HeldBack(q, c)
    case TimerFired => q.current != []
    case Finished(task) => task in q.running
  }

  function After(q: Queue, c: Config, event: Event): Queue {
    match event
    case Arrived(e) => Push(q, c, e)
    case TimerFired => Flush(q, c)
    case Finished(task) => Finish(q, c, task)
  }

  /** The states an engine that starts empty passes through. */
  ghost predicate Behaviour(qs: seq<Queue>, events: seq<Event>, c: Config) {
    && |qs| == |events| + 1
    && qs[0] == Queue([], [], [], {})
    && forall i | 0 <= i < |events| :: Enabled(qs[i], c, events[i]) && qs[i + 1] == After(qs[i], c, events[i])
  }

  function Arrivals(events: seq<Event>): seq<Entry> {
    if events == [] then []
    else
      var last := events[|events| - 1];
      Arrivals(events[..|events| - 1]) + if last.Arrived? then [last.e] else []
  }

  /**
   * In every reachable state the started batches, the pending ones and the
   * current one are the arrivals in order, the limits hold, and no more than
   * 3 * concurrency * batchSize entries are unfinished.
   */
  lemma {:induction false} EveryReachableState(qs: seq<Queue>, events: seq<Event>, c: Config, i: nat)
    requires Sane(c) && Behaviour(qs, events, c) && i < |qs|
    ensures QueueInv(qs[i], c) && Unfinished(qs[i]) <= 3 * c.concurrency * c.batchSize
    ensures Flatten(qs[i].started) + Flatten(qs[i].pending) + qs[i].current == Arrivals(events[..i])
  {
    if i > 0 {
      EveryReachableState(qs, events, c, i - 1);
      assert events[..i][..i - 1] == events[..i - 1];
      assert Enabled(qs[i - 1], c, events[i - 1]);
      assert Taken(qs[i - 1]) == Arrivals(events[..i - 1]);
      EventFacts(qs[i - 1], c, events[i - 1]);
      hide QueueInv, Taken, After, Enabled;
    }
    UnfinishedBounded(qs[i], c);
  }

  lemma EventFacts(q: Queue, c: Config, event: Event)
    requires Sane(c) && QueueInv(q, c) && Enabled(q, c, event)
    ensures QueueInv(After(q, c, event), c)
    ensures Taken(After(q, c, event)) == Taken(q) + if event.Arrived? then [event.e] else []
  {
    match event
    case Arrived(e) => PushFacts(q, c, e);
    case TimerFired => FlushFacts(q, c);
    case Finished(task) => FinishFacts(q, c, task);
  }

  // ---- where batches are cut does not matter

  /** Batches handled one after another. */
  ghost function HandleBatches(db: Db, batches: seq<seq<Entry>>, maxAttempts: nat): (o: Outcome)
    requires Inv(db)
    ensures Inv(o.db)
  {
    if batches == [] then Outcome(db, [])
    else
      var before := HandleBatches(db, batches[..|batches| - 1], maxAttempts);
      Then(before, HandleBatch(before.db, batches[|batches| - 1], maxAttempts))
  }

  /** Equal settlements, equal tables but for the numbers of new messages, and the same new numbers in each room. */
  ghost predicate SameMeaning(db: Db, a: Outcome, b: Outcome) {
    && Equivalent(a, b)
    && Advances(db, a.db) && Advances(db, b.db)
    && SameNewNumbers(db, a.db, db, b.db)
  }

  lemma NothingToHandle(db: Db)
    requires Inv(db)
    ensures SameMeaning(db, Outcome(db, []), Outcome(db, []))
  {
    AdvancesReflexive(db);
  }

  /**
   * However size, timer and back-pressure cut the arrivals into batches,
   * handling those batches in turn means handling the entries one at a time.
   */
  lemma {:induction false} CutsDoNotMatter(db: Db, batches: seq<seq<Entry>>, maxAttempts: nat)
    requires Inv(db)
    ensures SameMeaning(db, HandleBatches(db, batches, maxAttempts), HandleInOrder(db, Flatten(batches), maxAttempts))
  {
    hide Inv, HandleBatch, Erase, Advances, SameNewNumbers;
    if batches == [] {
      NothingToHandle(db);
    } else {
      var init, last := batches[..|batches| - 1], batches[|batches| - 1];
      CutsDoNotMatter(db, init, maxAttempts);
      var a, b := HandleBatches(db, init, maxAttempts), HandleInOrder(db, Flatten(init), maxAttempts);
      BatchRefinesFold(a.db, b.db, last, maxAttempts);
      InOrderAppend(db, Flatten(init), last, maxAttempts);
      hide HandleInOrder;
      BatchAdvances(a.db, last, maxAttempts);
      AdvancesTransitive(db, a.db, HandleBatch(a.db, last, maxAttempts).db);
      InOrderAdvances(db, Flatten(batches), maxAttempts);
      NumbersAgree(db, HandleBatch(a.db, last, maxAttempts).db, db, HandleInOrder(db, Flatten(batches), maxAttempts).db);
    }
  }

  // ---- the engine

  /** A queue message: a command, or bytes that cannot be decoded. */
  datatype Delivery = Delivery(tag: nat, decoded: Option<Command>, attempt: nat)

  /** The decodable deliveries, as entries, in order. */
  function Decoded(deliveries: seq<Delivery>): seq<Entry> {
    if deliveries == [] then []
    else
      var d := deliveries[|deliveries| - 1];
      Decoded(deliveries[..|deliveries| - 1]) + if d.decoded.Some? then [Entry(d.tag, d.decoded.value, d.attempt)] else []
  }

  /** Undecodable deliveries are settled at once: handed back, or dropped at the last attempt. */
  function Rejections(deliveries: seq<Delivery>, maxAttempts: nat): seq<Settlement> {
    if deliveries == [] then []
    else
      var d := deliveries[|deliveries| - 1];
      Rejections(deliveries[..|deliveries| - 1], maxAttempts)
      + if d.decoded.Some? then [] else if d.attempt >= maxAttempts then [Acked(d.tag)] else [Nacked(d.tag)]
  }

  class BatchingEngine {
    const config: Config
    const maxDeliveryAttempts: nat
    var currentBatch: seq<Entry>
    var pendingBatches: seq<seq<Entry>>
    var startedBatches: seq<seq<Entry>>
    var inFlight: set<nat>
    var flushTimer: bool
    var closing: bool
    var idleResolver: bool
    var settlements: seq<Settlement>
    ghost var received: seq<Delivery>

    ghost function State(): Queue
      reads this
    {
      Queue(currentBatch, pendingBatches, startedBatches, inFlight)
    }

    /** What every callback finds and leaves. */
    ghost predicate Valid()
      reads this
    {
      && Sane(config)
      && QueueInv(State(), config)
      && flushTimer == (currentBatch != [])
      && Taken(State()) == Decoded(received)
      && settlements == Rejections(received, maxDeliveryAttempts)
      && (idleResolver ==> inFlight != {})
    }

    constructor (config: Config, maxDeliveryAttempts: nat)
      requires Sane(config)
      ensures Valid() && received == [] && this.config == config && this.maxDeliveryAttempts == maxDeliveryAttempts
      ensures !closing && !idleResolver
    {
      this.config := config;
      this.maxDeliveryAttempts := maxDeliveryAttempts;
      currentBatch, pendingBatches, startedBatches, inFlight := [], [], [], {};
      flushTimer, closing, idleResolver := false, false, false;
      settlements, received := [], [];
    }

    method PumpBatches()
      modifies this`pendingBatches, this`startedBatches, this`inFlight
      ensures State() == Pump(old(State()), config)
    {
      while |inFlight| < config.concurrency && pendingBatches != []
        invariant currentBatch == old(currentBatch)
        invariant Pump(State(), config) == Pump(old(State()), config)
        decreases |pendingBatches|
      {
        var batch := pendingBatches[0];
        pendingBatches := pendingBatches[1..];
        inFlight := inFlight + {|startedBatches|};
        startedBatches := startedBatches + [batch];
      }
    }

    method FlushCurrentBatch()
      modifies this`currentBatch, this`pendingBatches, this`startedBatches, this`inFlight, this`flushTimer
      ensures State() == Flush(old(State()), config) && !flushTimer
    {
      flushTimer := false;
      if currentBatch == [] {
        return;
      }
      pendingBatches := pendingBatches + [currentBatch];
      currentBatch := [];
      PumpBatches();
    }

    method ScheduleFlush()
      modifies this`currentBatch, this`pendingBatches, this`startedBatches, this`inFlight, this`flushTimer
      ensures State() == if config.flushDelayMs == 0 then Flush(old(State()), config) else old(State())
      ensures flushTimer == (config.flushDelayMs > 0)
    {
      if config.flushDelayMs <= 0 {
        FlushCurrentBatch();
        return;
      }
      flushTimer := true;
    }

    /** A decoded entry joins the current batch, which is flushed when full. */
    method Collect(entry: Entry)
      requires Sane(config) && QueueInv(State(), config) && !HeldBack(State(), config) && flushTimer == (currentBatch != [])
      modifies this`currentBatch, this`pendingBatches, this`startedBatches, this`inFlight, this`flushTimer
      ensures State() == Push(old(State()), config, entry)
      ensures flushTimer == (currentBatch != [])
    {
      hide Within, Pump;
      currentBatch := currentBatch + [entry];
      if |currentBatch| >= config.batchSize {
        FlushCurrentBatch();
        FlushEmpties(old(State().(current := State().current + [entry])), config);
      } else {
        ScheduleFlush();
        FlushEmpties(old(State().(current := State().current + [entry])), config);
      }
    }

    /**
     * One turn of the consume loop, after its check of `closing`; false when
     * back-pressure makes it wait.
     */
    method Receive(d: Delivery) returns (taken: bool)
      requires Valid() && !idleResolver
      modifies this
      ensures Valid() && !idleResolver && closing == old(closing)
      ensures taken == !HeldBack(old(State()), config)
      ensures received == if taken then old(received) + [d] else old(received)
      ensures State() == if taken && d.decoded.Some?
                         then Push(old(State()), config, Entry(d.tag, d.decoded.value, d.attempt))
                         else old(State())
    {
      hide QueueInv, Taken, Push;
      if |pendingBatches| >= config.concurrency * 2 && inFlight != {} {
        return false;
      }
      taken := true;
      received := received + [d];
      assert received[..|received| - 1] == old(received);
      if d.decoded.None? {
        settlements := settlements + [if d.attempt >= maxDeliveryAttempts then Acked(d.tag) else Nacked(d.tag)];
        return;
      }
      var entry := Entry(d.tag, d.decoded.value, d.attempt);
      PushFacts(State(), config, entry);
      Collect(entry);
    }

    /** The flush timer fires. */
    method FlushTimerFired()
      requires Valid() && flushTimer
      modifies this
      ensures Valid() && State() == Flush(old(State()), config)
      ensures closing == old(closing) && idleResolver == old(idleResolver) && received == old(received)
    {
      FlushFacts(State(), config);
      FlushCurrentBatch();
      if idleResolver {
        FlushKeepsBusy(old(State()), config);
      }
    }

    /** A waiter is released, and only then, when nothing is left. */
    method NotifyIdle()
      modifies this`idleResolver
      ensures idleResolver == (old(idleResolver) && (pendingBatches != [] || inFlight != {} || currentBatch != []))
    {
      if pendingBatches != [] || inFlight != {} || currentBatch != [] {
        return;
      }
      idleResolver := false;
    }

    /** A handler's promise settles. */
    method TaskFinished(task: nat)
      requires Valid() && task in inFlight && (idleResolver ==> currentBatch == [])
      modifies this
      ensures Valid() && State() == Finish(old(State()), config, task)
      ensures closing == old(closing) && received == old(received) && currentBatch == old(currentBatch)
      ensures idleResolver == (old(idleResolver) && inFlight != {})
      ensures |inFlight| + |pendingBatches| == old(|inFlight| + |pendingBatches|) - 1
    {
      FinishFacts(State(), config, task);
      PumpFacts(State().(running := State().running - {task}), config);
      inFlight := inFlight - {task};
      PumpBatches();
      NotifyIdle();
    }

    /** Handlers settle, in any order, until the waiter is released. */
    method WaitForIdle()
      requires Valid() && !idleResolver && currentBatch == []
      modifies this
      ensures Valid() && closing == old(closing) && received == old(received)
      ensures currentBatch == [] && pendingBatches == [] && inFlight == {}
    {
      hide Within, Taken, Pump, Decoded, Rejections;
      if pendingBatches == [] && inFlight == {} && currentBatch == [] {
        return;
      }
      idleResolver := true;
      NotifyIdle();
      while idleResolver
        invariant Valid() && closing == old(closing) && received == old(received) && currentBatch == []
        invariant !idleResolver ==> inFlight == {}
        decreases |inFlight| + |pendingBatches|
      {
        var task :| task in inFlight;
        TaskFinished(task);
      }
      assert pendingBatches == [];
    }

    /**
     * `close`, once the consume loop has ended: flush, then wait while the
     * handlers settle in any order. It ends, and then nothing is left: every
     * entry ever taken was handed to a handler that has finished.
     */
    method Close()
      requires Valid() && !idleResolver
      modifies this
      ensures Valid() && closing && received == old(received)
      ensures currentBatch == [] && pendingBatches == [] && inFlight == {} && !flushTimer
      ensures Flatten(startedBatches) == Decoded(received)
    {
      hide Within, Pump, Decoded, Rejections;
      closing := true;
      FlushFacts(State(), config);
      FlushCurrentBatch();
      WaitForIdle();
      assert Flatten(startedBatches) + Flatten([]) + [] == Flatten(startedBatches);
    }
  }

  lemma {:induction false} PumpKeepsCurrent(q: Queue, c: Config)
    ensures Pump(q, c).current == q.current
    decreases |q.pending|
  {
    if |q.running| < c.concurrency && q.pending != [] {
      PumpKeepsCurrent(StartNext(q), c);
    }
  }

  lemma FlushEmpties(q: Queue, c: Config)
    ensures Flush(q, c).current == []
  {
    if q.current != [] {
      PumpKeepsCurrent(Queue([], q.pending + [q.current], q.started, q.running), c);
    }
  }

  lemma FlushKeepsBusy(q: Queue, c: Config)
    requires Within(q, c) && q.running != {} && |q.current| <= c.batchSize
    ensures Flush(q, c).running != {}
  {
    if q.current != [] {
      var queued := Queue([], q.pending + [q.current], q.started, q.running);
      PumpFacts(queued, c);
    }
  }
}
