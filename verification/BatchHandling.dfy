/**
 * The batch handler and its reference: commit a batch whole or split it in two
 * until single commands remain, against handling the commands one at a time.
 */
module BatchHandling {
  import opened Store
  import opened Invariant
  import opened Commits
  import opened CommitFold
  import opened Steps

  /** A queued command: a tag for its queue message, and how often it was delivered. */
  datatype Entry = Entry(tag: nat, command: Command, attempt: nat)

  datatype Settlement = Acked(tag: nat) | Nacked(tag: nat)

  datatype Outcome = Outcome(db: Db, settlements: seq<Settlement>)

  function Commands(entries: seq<Entry>): (cmds: seq<Command>)
    ensures |cmds| == |entries|
    ensures forall i | 0 <= i < |entries| :: cmds[i] == entries[i].command
  {
    seq(|entries|, i requires 0 <= i < |entries| => entries[i].command)
  }

  function Acks(entries: seq<Entry>): (acks: seq<Settlement>)
    ensures |acks| == |entries|
    ensures forall i | 0 <= i < |entries| :: acks[i] == Acked(entries[i].tag)
  {
    seq(|entries|, i requires 0 <= i < |entries| => Acked(entries[i].tag))
  }

  lemma DeadLetterSteps(db: Db, c: Command)
    requires Inv(db)
    ensures Inv(DeadLetter(db, c)) && Advances(db, DeadLetter(db, c))
  {
    CreateDeadSteps(db, c);
    if KeyOf(c) in db.writes {
      MarkDeadSteps(db, db.writes[KeyOf(c)].id);
    }
  }

  /** `handleSingleMessageWrite` when nothing but the tables can fail. */
  ghost function HandleOne(db: Db, e: Entry, maxAttempts: nat): (o: Outcome)
    requires Inv(db)
    ensures Inv(o.db)
  {
    match CommitCommands(db, [e.command])
    case Ok(c) => CommitSteps(db, [e.command]); Outcome(c.db, [Acked(e.tag)])
    case Err(_) =>
      if e.attempt >= maxAttempts
      then DeadLetterSteps(db, e.command); Outcome(DeadLetter(db, e.command), [Acked(e.tag)])
      else Outcome(db, [Nacked(e.tag)])
  }

  /**
   * An acknowledgement at the last attempt need not leave a DEAD row: a command
   * for a room that is not there is acknowledged and leaves no trace at all.
   */
  lemma AckedWithoutTrace(db: Db, e: Entry, maxAttempts: nat)
    requires Inv(db) && KeyOf(e.command) !in db.writes && e.command.roomId !in db.rooms && e.attempt >= maxAttempts
    ensures HandleOne(db, e, maxAttempts) == Outcome(db, [Acked(e.tag)])
  {
    var k := KeyOf(e.command);
    CommitOne(db, e.command);
    var one := map[k := e.command];
    assert k in one && one[k] == e.command;
    assert !ForeignKeysHold(db, one);
  }

  /** The reference: the entries one at a time, left to right. */
  ghost function HandleInOrder(db: Db, entries: seq<Entry>, maxAttempts: nat): (o: Outcome)
    requires Inv(db)
    ensures Inv(o.db)
  {
    if entries == [] then Outcome(db, [])
    else
      var before := HandleInOrder(db, entries[..|entries| - 1], maxAttempts);
      var last := HandleOne(before.db, entries[|entries| - 1], maxAttempts);
      Outcome(last.db, before.settlements + last.settlements)
  }

  /** `handleMessageBatch`: the whole batch, or its two halves, or the single entry. */
  ghost function HandleBatch(db: Db, entries: seq<Entry>, maxAttempts: nat): (o: Outcome)
    requires Inv(db)
    ensures Inv(o.db)
    decreases |entries|
  {
    match CommitCommands(db, Commands(entries))
    case Ok(c) => CommitSteps(db, Commands(entries)); Outcome(c.db, Acks(entries))
    case Err(_) =>
      if |entries| > 1 then
        var midpoint := (|entries| + 1) / 2;
        var left := HandleBatch(db, entries[..midpoint], maxAttempts);
        var right := HandleBatch(left.db, entries[midpoint..], maxAttempts);
        Outcome(right.db, left.settlements + right.settlements)
      else HandleOne(db, entries[0], maxAttempts)
  }

  /** Equal tables up to the order of sequence numbers inside a room, and equal settlements. */
  ghost predicate Equivalent(a: Outcome, b: Outcome) {
    Erase(a.db) == Erase(b.db) && a.settlements == b.settlements
  }

  lemma SingleCommitCongruent(a: Db, b: Db, c: Command)
    requires Inv(a) && Inv(b) && Erase(a) == Erase(b)
    ensures CommitCommands(a, [c]).Ok? <==> CommitCommands(b, [c]).Ok?
    ensures CommitCommands(a, [c]).Ok? ==>
              Erase(CommitCommands(a, [c]).value.db) == Erase(CommitCommands(b, [c]).value.db)
  {
    CommitOne(a, c);
    CommitOne(b, c);
    CommitCongruent(a, b, map[KeyOf(c) := c]);
  }

  lemma DeadLetterCongruent(a: Db, b: Db, c: Command)
    requires Erase(a) == Erase(b)
    ensures Erase(DeadLetter(a, c)) == Erase(DeadLetter(b, c))
  {
    assert a.writes == Erase(a).writes && a.rooms == Erase(a).rooms && a.users == Erase(a).users;
    assert b.writes == Erase(b).writes && b.rooms == Erase(b).rooms && b.users == Erase(b).users;
  }

  lemma OneCongruent(a: Db, b: Db, e: Entry, maxAttempts: nat)
    requires Inv(a) && Inv(b) && Erase(a) == Erase(b)
    ensures Equivalent(HandleOne(a, e, maxAttempts), HandleOne(b, e, maxAttempts))
  {
    hide Inv, CommitCommands, DeadLetter, Erase;
    SingleCommitCongruent(a, b, e.command);
    DeadLetterCongruent(a, b, e.command);
  }

  lemma {:induction false} InOrderCongruent(a: Db, b: Db, entries: seq<Entry>, maxAttempts: nat)
    requires Inv(a) && Inv(b) && Erase(a) == Erase(b)
    ensures Equivalent(HandleInOrder(a, entries, maxAttempts), HandleInOrder(b, entries, maxAttempts))
  {
    if entries != [] {
      var init := entries[..|entries| - 1];
      InOrderCongruent(a, b, init, maxAttempts);
      OneCongruent(HandleInOrder(a, init, maxAttempts).db, HandleInOrder(b, init, maxAttempts).db,
                   entries[|entries| - 1], maxAttempts);
    }
  }

  ghost function Then(first: Outcome, second: Outcome): Outcome {
    Outcome(second.db, first.settlements + second.settlements)
  }

  lemma ThenAssociates(a: Outcome, b: Outcome, c: Outcome)
    ensures Then(Then(a, b), c) == Then(a, Then(b, c))
  {
  }

  lemma InOrderSnoc(db: Db, entries: seq<Entry>, e: Entry, maxAttempts: nat)
    requires Inv(db)
    ensures
      var before := HandleInOrder(db, entries, maxAttempts);
      HandleInOrder(db, entries + [e], maxAttempts) == Then(before, HandleOne(before.db, e, maxAttempts))
  {
    assert (entries + [e])[..|entries|] == entries;
  }

  lemma {:induction false} InOrderAppend(db: Db, left: seq<Entry>, right: seq<Entry>, maxAttempts: nat)
    requires Inv(db)
    ensures
      var first := HandleInOrder(db, left, maxAttempts);
      HandleInOrder(db, left + right, maxAttempts) == Then(first, HandleInOrder(first.db, right, maxAttempts))
  {
    hide Inv, HandleOne, CommitCommands, DeadLetter;
    var first := HandleInOrder(db, left, maxAttempts);
    if right == [] {
      assert left + right == left && first.settlements + [] == first.settlements;
    } else {
      var init, last := right[..|right| - 1], right[|right| - 1];
      assert left + right == (left + init) + [last] && right == init + [last];
      InOrderAppend(db, left, init, maxAttempts);
      InOrderSnoc(db, left + init, last, maxAttempts);
      InOrderSnoc(first.db, init, last, maxAttempts);
      var middle := HandleInOrder(first.db, init, maxAttempts);
      ThenAssociates(first, middle, HandleOne(middle.db, last, maxAttempts));
    }
  }

  /** Every command of the fold commits. */
  ghost predicate AllCommit(db: Db, entries: seq<Entry>, maxAttempts: nat)
    requires Inv(db)
  {
    entries == [] ||
    var init := entries[..|entries| - 1];
    && AllCommit(db, init, maxAttempts)
    && CommitCommands(HandleInOrder(db, init, maxAttempts).db, [entries[|entries| - 1].command]).Ok?
  }

  ghost predicate CommitsAsFolded(db: Db, entries: seq<Entry>, maxAttempts: nat)
    requires Inv(db)
  {
    var whole, fold := CommitCommands(db, Commands(entries)), HandleInOrder(db, entries, maxAttempts);
    && (whole.Ok? <==> AllCommit(db, entries, maxAttempts))
    && (whole.Ok? ==> Erase(whole.value.db) == Erase(fold.db) && fold.settlements == Acks(entries))
  }

  /** A batch commits as a whole exactly when every command commits in turn, and then to the same tables. */
  lemma {:induction false} CommitIsFold(db: Db, entries: seq<Entry>, maxAttempts: nat)
    requires Inv(db)
    ensures CommitsAsFolded(db, entries, maxAttempts)
  {
    if entries != [] {
      var init, last := entries[..|entries| - 1], entries[|entries| - 1];
      assert Commands(entries) == Commands(init) + [last.command];
      assert Acks(entries) == Acks(init) + [Acked(last.tag)];
      CommitIsFold(db, init, maxAttempts);
      CommitAppend(db, Commands(init), last.command);
      if CommitCommands(db, Commands(init)).Ok? {
        CommitKeepsInvariant(db, Commands(init));
        SingleCommitCongruent(CommitCommands(db, Commands(init)).value.db, HandleInOrder(db, init, maxAttempts).db, last.command);
      }
    }
  }

  /**
   * Batch and bisect refines one at a time: from equal tables, both end in
   * equal tables up to numbering and settle the same entries the same way.
   */
  lemma {:induction false} BatchRefinesFold(a: Db, b: Db, entries: seq<Entry>, maxAttempts: nat)
    requires Inv(a) && Inv(b) && Erase(a) == Erase(b)
    ensures Equivalent(HandleBatch(a, entries, maxAttempts), HandleInOrder(b, entries, maxAttempts))
    decreases |entries|
  {
    if CommitCommands(a, Commands(entries)).Ok? {
      WholeRefinesFold(a, b, entries, maxAttempts);
    } else if |entries| > 1 {
      var midpoint := (|entries| + 1) / 2;
      var x, y := entries[..midpoint], entries[midpoint..];
      BatchRefinesFold(a, b, x, maxAttempts);
      BatchRefinesFold(HandleBatch(a, x, maxAttempts).db, HandleInOrder(b, x, maxAttempts).db, y, maxAttempts);
      SplitInOrder(b, entries, midpoint, maxAttempts);
    } else {
      SingleInOrder(b, entries, maxAttempts);
      OneCongruent(a, b, entries[0], maxAttempts);
    }
  }

  lemma WholeRefinesFold(a: Db, b: Db, entries: seq<Entry>, maxAttempts: nat)
    requires Inv(a) && Inv(b) && Erase(a) == Erase(b)
    requires CommitCommands(a, Commands(entries)).Ok?
    ensures Equivalent(Outcome(CommitCommands(a, Commands(entries)).value.db, Acks(entries)),
                       HandleInOrder(b, entries, maxAttempts))
  {
    CommitIsFold(a, entries, maxAttempts);
    InOrderCongruent(a, b, entries, maxAttempts);
  }

  lemma SplitInOrder(db: Db, entries: seq<Entry>, midpoint: nat, maxAttempts: nat)
    requires Inv(db) && midpoint <= |entries|
    ensures
      var first := HandleInOrder(db, entries[..midpoint], maxAttempts);
      HandleInOrder(db, entries, maxAttempts) == Then(first, HandleInOrder(first.db, entries[midpoint..], maxAttempts))
  {
    assert entries == entries[..midpoint] + entries[midpoint..];
    InOrderAppend(db, entries[..midpoint], entries[midpoint..], maxAttempts);
  }

  lemma SingleInOrder(db: Db, entries: seq<Entry>, maxAttempts: nat)
    requires Inv(db) && |entries| == 1
    ensures HandleInOrder(db, entries, maxAttempts) == HandleOne(db, entries[0], maxAttempts)
  {
    assert entries == [] + [entries[0]];
    InOrderSnoc(db, [], entries[0], maxAttempts);
  }
}
