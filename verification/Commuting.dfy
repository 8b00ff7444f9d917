/**
 * When the order of two commands does not matter. Commands that agree (the same
 * command twice, or different keys and different ids) can be handled in either
 * order; any other two make a difference to some database.
 */
module Commuting {
  import opened Prelude
  import opened Ranking
  import opened Store
  import opened Invariant
  import opened Refinement
  import opened BatchSplit
  import opened Commits
  import opened CommitFold
  import opened Steps
  import opened BatchHandling
  import opened Transparency

  /** The same command, or commands with neither key nor id in common. */
  predicate Agree(c: Command, d: Command) {
    if KeyOf(c) == KeyOf(d) then c == d else c.messageId != d.messageId
  }

  function One(c: Command): (batch: Batch)
    ensures KeyOf(c) in batch && batch[KeyOf(c)] == c && forall k | k in batch :: k == KeyOf(c)
  {
    map[KeyOf(c) := c]
  }

  function Two(c: Command, d: Command): Batch {
    map[KeyOf(c) := c][KeyOf(d) := d]
  }

  // ---- two commits

  /** Apart, two commands are acceptable together exactly when each is. */
  lemma PairAccepted(p: Db, c: Command, d: Command)
    requires KeyOf(c) != KeyOf(d) && c.messageId != d.messageId
    ensures Accepts(p, Two(c, d)) <==> Accepts(p, One(c)) && Accepts(p, One(d))
  {
    PairInsertable(p, c, d);
    PairMatches(p.writes, c, d);
  }

  lemma TwoHas(c: Command, d: Command)
    requires KeyOf(c) != KeyOf(d)
    ensures KeyOf(c) in Two(c, d) && Two(c, d)[KeyOf(c)] == c && KeyOf(d) in Two(c, d) && Two(c, d)[KeyOf(d)] == d
    ensures forall k | k in Two(c, d) :: k == KeyOf(c) || k == KeyOf(d)
    ensures Two(c, d) == Two(d, c)
  {
  }

  lemma PairInsertable(p: Db, c: Command, d: Command)
    requires KeyOf(c) != KeyOf(d) && c.messageId != d.messageId
    ensures Insertable(p, Two(c, d)) <==> Insertable(p, One(c)) && Insertable(p, One(d))
  {
    TwoHas(c, d);
    hide Two;
    assert IdsDistinct(p.writes, Two(c, d)) && IdsDistinct(p.writes, One(c)) && IdsDistinct(p.writes, One(d));
    assert IdsFree(p.writes, Two(c, d)) <==> IdsFree(p.writes, One(c)) && IdsFree(p.writes, One(d)) by {
      hide IdsDistinct;
      if IdsFree(p.writes, Two(c, d)) { assert IdsFree(p.writes, One(c)) && IdsFree(p.writes, One(d)); }
    }
  }

  lemma PairMatches(writes: Writes, c: Command, d: Command)
    requires KeyOf(c) != KeyOf(d)
    ensures AllMatch(WithInserted(writes, Two(c, d)), Two(c, d))
       <==> AllMatch(WithInserted(writes, One(c)), One(c)) && AllMatch(WithInserted(writes, One(d)), One(d))
  {
    TwoHas(c, d);
    var both, first, second := WithInserted(writes, Two(c, d)), WithInserted(writes, One(c)), WithInserted(writes, One(d));
    hide Two;
    assert both[KeyOf(c)] == first[KeyOf(c)] && both[KeyOf(d)] == second[KeyOf(d)];
  }

  /** What a second command finds after a first one that has nothing in common with it. */
  lemma SecondAccepted(db: Db, c: Command, d: Command)
    requires Inv(db) && KeyOf(c) != KeyOf(d) && c.messageId != d.messageId && Accepts(db, One(c))
    ensures Accepts(CommitAccepted(db, One(c)).db, One(d)) <==> Accepts(db, One(d))
  {
    hide Inv, CommitAccepted, Accepts;
    PairAccepted(db, c, d);
    AppendNewKey(db, One(c), KeyOf(d), d);
  }

  lemma CommitsCommute(db: Db, c: Command, d: Command)
    requires Inv(db) && KeyOf(c) != KeyOf(d) && c.messageId != d.messageId
    requires Accepts(db, One(c)) && Accepts(db, One(d))
    ensures
      var x, y := CommitAccepted(db, One(c)).db, CommitAccepted(db, One(d)).db;
      && Accepts(x, One(d)) && Accepts(y, One(c))
      && Erase(CommitAccepted(x, One(d)).db) == Erase(CommitAccepted(y, One(c)).db)
  {
    hide Inv, CommitAccepted, Accepts, Erase;
    PairAccepted(db, c, d);
    TwoHas(c, d);
    AppendNewKey(db, One(c), KeyOf(d), d);
    AppendNewKey(db, One(d), KeyOf(c), c);
    assert One(c)[KeyOf(d) := d] == Two(c, d) == Two(d, c) == One(d)[KeyOf(c) := c];
  }

  // ---- a commit and a failure

  function MarkRow(writes: Writes, k: Key): Writes {
    if k in writes && writes[k].status == PENDING then writes[k := writes[k].(status := DEAD)] else writes
  }

  lemma MarkRowFacts(writes: Writes, k: Key)
    ensures MarkRow(writes, k).Keys == writes.Keys
    ensures forall j | j in writes && j != k :: MarkRow(writes, k)[j] == writes[j]
    ensures forall j | j in writes :: WriteAdvances(writes[j], MarkRow(writes, k)[j])
    ensures forall j | j in writes && writes[j].status != PENDING :: MarkRow(writes, k)[j] == writes[j]
    ensures forall j | j in writes && MarkRow(writes, k)[j] != writes[j] :: MarkRow(writes, k)[j].status == DEAD
    ensures k in writes ==> MarkRow(writes, k)[k] == if writes[k].status == PENDING then writes[k].(status := DEAD) else writes[k]
  {
  }

  /** What a failed command at its last attempt does: its key's row, if pending, is marked. */
  ghost function MarkKey(db: Db, k: Key): Db {
    db.(writes := MarkRow(db.writes, k))
  }

  lemma FailureMarks(db: Db, c: Command)
    requires Schema(db) && !Accepts(db, One(c))
    ensures DeadLetter(db, c) == MarkKey(db, KeyOf(c))
  {
    var k := KeyOf(c);
    if k in db.writes {
      MarkedById(db.writes, k);
    } else {
      assert WithInserted(db.writes, One(c))[k] == PendingRow(c);
      assert AllMatch(WithInserted(db.writes, One(c)), One(c));
      assert One(c) == map[k := c];
    }
  }

  lemma MarkedById(writes: Writes, k: Key)
    requires UniqueWriteIds(writes) && k in writes
    ensures MarkDead(Db({}, map[], writes, map[], map[]), writes[k].id).writes == MarkRow(writes, k)
  {
    forall j | j in writes
      ensures MarkDead(Db({}, map[], writes, map[], map[]), writes[k].id).writes[j] == MarkRow(writes, k)[j]
    {
      assert writes[j].id == writes[k].id ==> j == k;
    }
  }

  lemma MarkKeeps(db: Db, k: Key)
    requires Inv(db)
    ensures Inv(MarkKey(db, k)) && Schema(MarkKey(db, k))
  {
    MarkRowFacts(db.writes, k);
    hide MarkRow;
    SameMessagesSameLinks(db, MarkKey(db, k));
    SequenceOnly(db, MarkKey(db, k));
  }

  /** Acceptance does not look at statuses. */
  lemma MarkKeepsAcceptance(db: Db, k: Key, c: Command)
    ensures Accepts(MarkKey(db, k), One(c)) <==> Accepts(db, One(c))
  {
    MarkRowFacts(db.writes, k);
    hide MarkRow;
    var marked := MarkRow(db.writes, k);
    assert Insertable(MarkKey(db, k), One(c)) <==> Insertable(db, One(c)) by { hide AllMatch, WithInserted; SameInsertable(db, marked, c); }
    MarkKeepsMatch(db.writes, marked, c);
  }

  lemma SameInsertable(db: Db, marked: Writes, c: Command)
    requires marked.Keys == db.writes.Keys && forall j | j in marked :: marked[j].id == db.writes[j].id
    ensures Insertable(db.(writes := marked), One(c)) <==> Insertable(db, One(c))
  {
  }

  lemma MarkKeepsMatch(writes: Writes, marked: Writes, c: Command)
    requires marked.Keys == writes.Keys && forall j | j in marked :: WriteAdvances(writes[j], marked[j])
    ensures AllMatch(WithInserted(marked, One(c)), One(c)) <==> AllMatch(WithInserted(writes, One(c)), One(c))
  {
    assert Matches(WithInserted(marked, One(c))[KeyOf(c)], c) <==> Matches(WithInserted(writes, One(c))[KeyOf(c)], c);
  }

  lemma InsertAndMark(writes: Writes, k: Key, batch: Batch)
    requires k !in batch
    ensures WithInserted(MarkRow(writes, k), batch) == MarkRow(WithInserted(writes, batch), k)
  {
  }

  lemma MarkedCandidates(messages: Messages, v: Writes, w: Writes, batch: Batch)
    requires batch.Keys <= v.Keys && batch.Keys <= w.Keys && forall j | j in batch :: v[j] == w[j]
    ensures Candidates(messages, v, batch) == Candidates(messages, w, batch)
  {
    hide HasMessage;
  }

  lemma MarkedWrites(p: Db, k: Key, c: Command)
    requires Schema(p) && Schema(MarkKey(p, k)) && Accepts(p, One(c)) && Accepts(MarkKey(p, k), One(c)) && k != KeyOf(c)
    ensures WritesOf(MarkKey(p, k), One(c)) == MarkRow(WritesOf(p, One(c)), k)
    ensures CandsOf(MarkKey(p, k), One(c)) == CandsOf(p, One(c))
  {
    hide Accepts, Schema, Candidates, MarkRow, WithInserted;
    InsertAndMark(p.writes, k, One(c));
    MarkRowFacts(WritesOf(p, One(c)), k);
    MarkedCandidates(p.messages, WritesOf(MarkKey(p, k), One(c)), WritesOf(p, One(c)), One(c));
  }

  lemma RoomsCongruent(rooms: Rooms, v: Writes, w: Writes, keys: set<Key>)
    requires keys <= v.Keys && keys <= w.Keys && forall j | j in keys :: v[j] == w[j]
    ensures WithRooms(rooms, v, keys, keys) == WithRooms(rooms, w, keys, keys)
  {
    forall r | r in rooms
      ensures Window(v, keys, r) == Window(w, keys, r) && Times(v, keys, r) == Times(w, keys, r)
    {
    }
  }

  lemma MarkedStatuses(messages: Messages, batch: Batch, writes: Writes, k: Key)
    requires k !in batch
    ensures PlainStatuses(messages, batch, MarkRow(writes, k)) == MarkRow(PlainStatuses(messages, batch, writes), k)
  {
  }

  lemma PlainCommitMark(p: Db, k: Key, c: Command)
    requires Schema(p) && Schema(MarkKey(p, k)) && Accepts(p, One(c)) && Accepts(MarkKey(p, k), One(c)) && k != KeyOf(c)
    ensures PlainCommit(MarkKey(p, k), One(c)) == MarkKey(PlainCommit(p, One(c)), k)
  {
    hide Accepts, PlainRows, NewOutbox, WithRooms, PlainStatuses, MarkRow;
    var m := MarkKey(p, k);
    var v, w, cands := WritesOf(p, One(c)), WritesOf(m, One(c)), CandsOf(p, One(c));
    assert UniqueWriteIds(v) && UniqueWriteIds(w);
    hide Schema, UniqueWriteIds;
    MarkedWrites(p, k, c);
    MarkRowFacts(v, k);
    PlainRowsCongruent(w, v, cands);
    OutboxCongruent(w, v, One(c), One(c), cands);
    RoomsCongruent(p.rooms, w, v, cands);
    MarkedStatuses(PlainMessagesOf(p, One(c)), One(c), v, k);
  }

  /** A commit and the failure of a command with another key, in either order. */
  lemma CommitMarkCommute(db: Db, k: Key, c: Command)
    requires Inv(db) && Inv(MarkKey(db, k)) && Schema(db) && Schema(MarkKey(db, k))
    requires Accepts(db, One(c)) && Accepts(MarkKey(db, k), One(c)) && k != KeyOf(c)
    ensures Erase(CommitAccepted(MarkKey(db, k), One(c)).db) == Erase(MarkKey(CommitAccepted(db, One(c)).db, k))
  {
    hide Inv, Schema, Accepts, CommitAccepted, PlainCommit, MarkRow;
    CommitRefinesPlain(db, One(c));
    CommitRefinesPlain(MarkKey(db, k), One(c));
    assert Erase(MarkKey(db, k)) == MarkKey(Erase(db), k);
    assert Erase(MarkKey(CommitAccepted(db, One(c)).db, k)) == MarkKey(Erase(CommitAccepted(db, One(c)).db), k);
    PlainCommitMark(Erase(db), k, c);
  }

  // ---- two entries

  lemma HandleOneShape(db: Db, e: Entry, maxAttempts: nat)
    requires Inv(db) && Schema(db)
    ensures
      var c, o := e.command, HandleOne(db, e, maxAttempts);
      if Accepts(db, One(c)) then o == Outcome(CommitAccepted(db, One(c)).db, [Acked(e.tag)])
      else if e.attempt >= maxAttempts then o == Outcome(MarkKey(db, KeyOf(c)), [Acked(e.tag)])
      else o == Outcome(db, [Nacked(e.tag)])
  {
    hide Inv, Schema, CommitCommands, CommitAccepted, DeadLetter, MarkKey;
    CommitOne(db, e.command);
    if !Accepts(db, One(e.command)) {
      FailureMarks(db, e.command);
    }
  }

  /** The outcomes of two entries, each handled second once. */
  ghost predicate EitherOrder(db: Db, e: Entry, f: Entry, maxAttempts: nat)
    requires Inv(db)
  {
    var first, second := HandleOne(db, e, maxAttempts), HandleOne(db, f, maxAttempts);
    var ef, fe := HandleOne(first.db, f, maxAttempts), HandleOne(second.db, e, maxAttempts);
    Erase(ef.db) == Erase(fe.db) && ef.settlements == second.settlements && fe.settlements == first.settlements
  }

  lemma EitherOrderSwap(db: Db, e: Entry, f: Entry, maxAttempts: nat)
    requires Inv(db) && EitherOrder(db, e, f, maxAttempts)
    ensures EitherOrder(db, f, e, maxAttempts)
  {
  }

  lemma InvHasSchema(db: Db)
    requires Inv(db)
    ensures Schema(db)
  {
  }

  lemma BothCommit(db: Db, e: Entry, f: Entry, maxAttempts: nat)
    requires Inv(db) && KeyOf(e.command) != KeyOf(f.command) && e.command.messageId != f.command.messageId
    requires Accepts(db, One(e.command)) && Accepts(db, One(f.command))
    ensures EitherOrder(db, e, f, maxAttempts)
  {
    hide Accepts, CommitAccepted, Linked, Sequenced, Erase, HandleOne;
    InvHasSchema(db);
    CommitsCommute(db, e.command, f.command);
    HandleOneShape(db, e, maxAttempts);
    HandleOneShape(db, f, maxAttempts);
    var x, y := HandleOne(db, e, maxAttempts).db, HandleOne(db, f, maxAttempts).db;
    InvHasSchema(x);
    InvHasSchema(y);
    HandleOneShape(x, f, maxAttempts);
    HandleOneShape(y, e, maxAttempts);
  }

  lemma OneCommits(db: Db, e: Entry, f: Entry, maxAttempts: nat)
    requires Inv(db) && KeyOf(e.command) != KeyOf(f.command) && e.command.messageId != f.command.messageId
    requires Accepts(db, One(e.command)) && !Accepts(db, One(f.command))
    ensures EitherOrder(db, e, f, maxAttempts)
  {
    hide Accepts, CommitAccepted, Linked, Sequenced, Erase, HandleOne, MarkKey;
    InvHasSchema(db);
    SecondAccepted(db, e.command, f.command);
    HandleOneShape(db, e, maxAttempts);
    HandleOneShape(db, f, maxAttempts);
    var x, y := HandleOne(db, e, maxAttempts).db, HandleOne(db, f, maxAttempts).db;
    InvHasSchema(x);
    InvHasSchema(y);
    HandleOneShape(x, f, maxAttempts);
    HandleOneShape(y, e, maxAttempts);
    if f.attempt >= maxAttempts {
      MarkKeepsAcceptance(db, KeyOf(f.command), e.command);
      MarkKeeps(db, KeyOf(f.command));
      CommitMarkCommute(db, KeyOf(f.command), e.command);
    }
  }

  lemma NoneCommits(db: Db, e: Entry, f: Entry, maxAttempts: nat)
    requires Inv(db) && !Accepts(db, One(e.command)) && !Accepts(db, One(f.command))
    ensures EitherOrder(db, e, f, maxAttempts)
  {
    hide Accepts, CommitAccepted, Linked, Sequenced, Erase, HandleOne;
    InvHasSchema(db);
    HandleOneShape(db, e, maxAttempts);
    HandleOneShape(db, f, maxAttempts);
    var x, y := HandleOne(db, e, maxAttempts).db, HandleOne(db, f, maxAttempts).db;
    InvHasSchema(x);
    InvHasSchema(y);
    MarkKeepsAcceptance(db, KeyOf(e.command), f.command);
    MarkKeepsAcceptance(db, KeyOf(f.command), e.command);
    HandleOneShape(x, f, maxAttempts);
    HandleOneShape(y, e, maxAttempts);
    MarksCommute(db, KeyOf(e.command), KeyOf(f.command));
  }

  lemma MarksCommute(db: Db, j: Key, k: Key)
    ensures MarkKey(MarkKey(db, j), k) == MarkKey(MarkKey(db, k), j)
  {
    MarkRowsCommute(db.writes, j, k);
  }

  lemma MarkRowsCommute(writes: Writes, j: Key, k: Key)
    ensures MarkRow(MarkRow(writes, j), k) == MarkRow(MarkRow(writes, k), j)
  {
    var x, y := MarkRow(MarkRow(writes, j), k), MarkRow(MarkRow(writes, k), j);
    assert x.Keys == y.Keys;
    forall i | i in x
      ensures x[i] == y[i]
    {
    }
  }

  /** The same command twice: the second handling changes nothing. */
  lemma SameCommand(db: Db, e: Entry, f: Entry, maxAttempts: nat)
    requires Inv(db) && e.command == f.command && Accepts(db, One(e.command))
    ensures EitherOrder(db, e, f, maxAttempts)
  {
    hide Insertable, AllMatch, CommitAccepted, Linked, Sequenced, Erase, HandleOne, CommitCommands;
    InvHasSchema(db);
    var c := e.command;
    assert One(c) == map[KeyOf(c) := c];
    HandleOneShape(db, e, maxAttempts);
    HandleOneShape(db, f, maxAttempts);
    var x := CommitAccepted(db, One(c)).db;
    CommitOne(db, c);
    CommitRecords(db, [c]);
    assert c in [c];
    InvHasSchema(x);
    CommitIdempotent(x, [c]);
    CommitOne(x, c);
    HandleOneShape(x, e, maxAttempts);
    HandleOneShape(x, f, maxAttempts);
  }

  /** Entries whose commands agree can be handled in either order. */
  lemma AgreeingCommute(db: Db, e: Entry, f: Entry, maxAttempts: nat)
    requires Inv(db) && Agree(e.command, f.command)
    ensures EitherOrder(db, e, f, maxAttempts)
  {
    hide Accepts, Inv, EitherOrder;
    var c, d := e.command, f.command;
    if !Accepts(db, One(c)) && !Accepts(db, One(d)) {
      NoneCommits(db, e, f, maxAttempts);
    } else if KeyOf(c) == KeyOf(d) {
      SameCommand(db, e, f, maxAttempts);
    } else if Accepts(db, One(c)) && Accepts(db, One(d)) {
      BothCommit(db, e, f, maxAttempts);
    } else if Accepts(db, One(c)) {
      OneCommits(db, e, f, maxAttempts);
    } else {
      OneCommits(db, f, e, maxAttempts);
      EitherOrderSwap(db, f, e, maxAttempts);
    }
  }

  // ---- whole sequences

  /** Equal tables up to numbering, and the same settlements in some order. */
  ghost predicate Alike(a: Outcome, b: Outcome) {
    Erase(a.db) == Erase(b.db) && multiset(a.settlements) == multiset(b.settlements)
  }

  lemma AlikeSuffix(db: Db, a: seq<Entry>, b: seq<Entry>, rest: seq<Entry>, maxAttempts: nat)
    requires Inv(db) && Alike(HandleInOrder(db, a, maxAttempts), HandleInOrder(db, b, maxAttempts))
    ensures Alike(HandleInOrder(db, a + rest, maxAttempts), HandleInOrder(db, b + rest, maxAttempts))
  {
    hide Inv, Erase, HandleInOrder;
    InOrderAppend(db, a, rest, maxAttempts);
    InOrderAppend(db, b, rest, maxAttempts);
    InOrderCongruent(HandleInOrder(db, a, maxAttempts).db, HandleInOrder(db, b, maxAttempts).db, rest, maxAttempts);
  }

  lemma AlikePrefix(db: Db, first: seq<Entry>, a: seq<Entry>, b: seq<Entry>, maxAttempts: nat)
    requires Inv(db)
    requires
      var middle := HandleInOrder(db, first, maxAttempts).db;
      Alike(HandleInOrder(middle, a, maxAttempts), HandleInOrder(middle, b, maxAttempts))
    ensures Alike(HandleInOrder(db, first + a, maxAttempts), HandleInOrder(db, first + b, maxAttempts))
  {
    hide Inv, Erase, HandleInOrder;
    InOrderAppend(db, first, a, maxAttempts);
    InOrderAppend(db, first, b, maxAttempts);
  }

  lemma InOrderTwo(db: Db, e: Entry, f: Entry, maxAttempts: nat)
    requires Inv(db)
    ensures
      var first := HandleOne(db, e, maxAttempts);
      HandleInOrder(db, [e, f], maxAttempts) == Then(first, HandleOne(first.db, f, maxAttempts))
  {
    hide Inv, HandleOne;
    InOrderSnoc(db, [], e, maxAttempts);
    InOrderSnoc(db, [e], f, maxAttempts);
    assert [] + [e] == [e] && [e] + [f] == [e, f];
    var first := HandleOne(db, e, maxAttempts);
    assert [] + first.settlements == first.settlements;
  }

  lemma NeighboursSwap(db: Db, e: Entry, f: Entry, maxAttempts: nat)
    requires Inv(db) && Agree(e.command, f.command)
    ensures Alike(HandleInOrder(db, [e, f], maxAttempts), HandleInOrder(db, [f, e], maxAttempts))
  {
    hide Inv, Erase, HandleOne, HandleInOrder;
    AgreeingCommute(db, e, f, maxAttempts);
    InOrderTwo(db, e, f, maxAttempts);
    InOrderTwo(db, f, e, maxAttempts);
  }

  ghost predicate AllAgree(a: seq<Entry>, b: seq<Entry>) {
    forall e, f | e in a && f in b :: Agree(e.command, f.command)
  }

  lemma AlikeTransitive(a: Outcome, b: Outcome, c: Outcome)
    requires Alike(a, b) && Alike(b, c)
    ensures Alike(a, c)
  {
  }

  /** An entry moves before a block it agrees with. */
  lemma {:induction false} MovePast(db: Db, block: seq<Entry>, x: Entry, maxAttempts: nat)
    requires Inv(db) && AllAgree(block, [x])
    ensures Alike(HandleInOrder(db, block + [x], maxAttempts), HandleInOrder(db, [x] + block, maxAttempts))
  {
    hide Inv, Alike, HandleInOrder, Agree;
    if block == [] {
      assert block + [x] == [x] && [x] + block == [x];
      AlikeReflexive(HandleInOrder(db, [x], maxAttempts));
    } else {
      var init, last := block[..|block| - 1], block[|block| - 1];
      assert block + [x] == init + [last, x] && init + [x, last] == init + [x] + [last] && [x] + block == [x] + init + [last];
      assert last in block && x in [x];
      NeighboursSwap(HandleInOrder(db, init, maxAttempts).db, last, x, maxAttempts);
      AlikePrefix(db, init, [last, x], [x, last], maxAttempts);
      MovePast(db, init, x, maxAttempts);
      AlikeSuffix(db, init + [x], [x] + init, [last], maxAttempts);
      AlikeTransitive(HandleInOrder(db, block + [x], maxAttempts), HandleInOrder(db, init + [x] + [last], maxAttempts),
                      HandleInOrder(db, [x] + block, maxAttempts));
    }
  }

  lemma AlikeReflexive(a: Outcome)
    ensures Alike(a, a)
  {
  }

  /** Two blocks whose entries agree with each other's can be handled in either order. */
  lemma {:induction false} BlocksSwap(db: Db, a: seq<Entry>, b: seq<Entry>, maxAttempts: nat)
    requires Inv(db) && AllAgree(a, b)
    ensures Alike(HandleInOrder(db, a + b, maxAttempts), HandleInOrder(db, b + a, maxAttempts))
  {
    hide Inv, Alike, HandleInOrder, Agree;
    if b == [] {
      assert a + b == a && b + a == a;
      AlikeReflexive(HandleInOrder(db, a, maxAttempts));
    } else {
      var init, last := b[..|b| - 1], b[|b| - 1];
      assert a + b == a + init + [last] && init + a + [last] == init + (a + [last]) && b + a == init + ([last] + a);
      assert last in b;
      BlocksSwap(db, a, init, maxAttempts);
      AlikeSuffix(db, a + init, init + a, [last], maxAttempts);
      MovePast(HandleInOrder(db, init, maxAttempts).db, a, last, maxAttempts);
      AlikePrefix(db, init, a + [last], [last] + a, maxAttempts);
      AlikeTransitive(HandleInOrder(db, a + b, maxAttempts), HandleInOrder(db, init + (a + [last]), maxAttempts),
                      HandleInOrder(db, b + a, maxAttempts));
    }
  }

  // ---- exactly which pairs

  /** Both rooms and both senders exist; nothing has been written. */
  function Blank(c: Command, d: Command): Db {
    Db({c.senderId, d.senderId}, map[c.roomId := RoomRow(1, 0), d.roomId := RoomRow(1, 0)], map[], map[], map[])
  }

  lemma BlankIsSound(c: Command, d: Command)
    ensures Inv(Blank(c, d)) && Schema(Blank(c, d)) && Blank(c, d) == Blank(d, c)
  {
  }

  lemma BlankAccepts(c: Command, d: Command)
    ensures Accepts(Blank(c, d), One(c))
  {
    assert WithInserted(map[], One(c))[KeyOf(c)] == PendingRow(c);
  }

  /** The first of the two is written as it is and stays so. */
  lemma FirstStays(e: Entry, f: Entry, maxAttempts: nat)
    requires Inv(Blank(e.command, f.command))
    ensures
      var c, after := e.command, HandleInOrder(Blank(e.command, f.command), [e, f], maxAttempts).db;
      && KeyOf(c) in after.writes && Stable(c.messageId) in after.outbox
      && after.writes[KeyOf(c)].id == c.messageId && after.writes[KeyOf(c)].roomId == c.roomId
      && after.writes[KeyOf(c)].content == c.body && after.writes[KeyOf(c)].acceptedAt == c.acceptedAt
      && after.outbox[Stable(c.messageId)].origin == c.origin
  {
    var c, d := e.command, f.command;
    var db := Blank(c, d);
    BlankIsSound(c, d);
    BlankAccepts(c, d);
    InOrderTwo(db, e, f, maxAttempts);
    HandleOneShape(db, e, maxAttempts);
    FirstWritten(c, d);
    OneAdvances(CommitAccepted(db, One(c)).db, f, maxAttempts);
    assert WriteAdvances(CommitAccepted(db, One(c)).db.writes[KeyOf(c)],
                         HandleInOrder(db, [e, f], maxAttempts).db.writes[KeyOf(c)]) by { hide Inv, HandleOne, HandleInOrder, CommitAccepted; }
    hide Inv, HandleOne, CommitAccepted;
  }

  lemma BlankCandidate(c: Command, d: Command)
    requires Schema(Blank(c, d)) && Accepts(Blank(c, d), One(c))
    ensures WritesOf(Blank(c, d), One(c)) == map[KeyOf(c) := PendingRow(c)]
    ensures CandsOf(Blank(c, d), One(c)) == {KeyOf(c)}
  {
    hide Accepts, Schema;
    assert WritesOf(Blank(c, d), One(c)).Keys == {KeyOf(c)};
    assert !HasMessage(Blank(c, d).messages, KeyOf(c), c.messageId);
  }

  lemma NewOutboxOfOne(writes: Writes, c: Command)
    requires UniqueWriteIds(writes) && writes == map[KeyOf(c) := PendingRow(c)]
    ensures NewOutbox(writes, One(c), {KeyOf(c)}) == map[Stable(c.messageId) := OutboxRow(WAITING, 0, None, None, c.origin)]
  {
  }

  lemma FirstWritten(c: Command, d: Command)
    requires Inv(Blank(c, d)) && Schema(Blank(c, d)) && Accepts(Blank(c, d), One(c))
    ensures
      var after := CommitAccepted(Blank(c, d), One(c)).db;
      && KeyOf(c) in after.writes && Stable(c.messageId) in after.outbox && after.writes.Keys == {KeyOf(c)}
      && after.writes[KeyOf(c)].id == c.messageId && after.writes[KeyOf(c)].roomId == c.roomId
      && after.writes[KeyOf(c)].content == c.body && after.writes[KeyOf(c)].acceptedAt == c.acceptedAt
      && after.outbox[Stable(c.messageId)].origin == c.origin
  {
    var db, k := Blank(c, d), KeyOf(c);
    CommitShape(db, One(c));
    BlankCandidate(c, d);
    hide Inv, CommitAccepted, Accepts, WritesOf, CandsOf, MessagesOf, WithRooms, PlainStatus, EraseRows, Blank;
    var writes := map[k := PendingRow(c)];
    NewOutboxOfOne(writes, c);
    hide NewOutbox;
  }

  /** Two commands that share only their id: the second is rejected and leaves nothing. */
  lemma SecondRejected(e: Entry, f: Entry, maxAttempts: nat)
    requires Inv(Blank(e.command, f.command))
    requires KeyOf(e.command) != KeyOf(f.command) && e.command.messageId == f.command.messageId
    ensures KeyOf(f.command) !in HandleInOrder(Blank(e.command, f.command), [e, f], maxAttempts).db.writes
  {
    var c, d := e.command, f.command;
    var db := Blank(c, d);
    BlankIsSound(c, d);
    BlankAccepts(c, d);
    InOrderTwo(db, e, f, maxAttempts);
    HandleOneShape(db, e, maxAttempts);
    FirstWritten(c, d);
    var x := CommitAccepted(db, One(c)).db;
    InvHasSchema(HandleOne(db, e, maxAttempts).db);
    HandleOneShape(x, f, maxAttempts);
    hide Inv, HandleOne, HandleInOrder, CommitAccepted, AllMatch;
    assert !IdsFree(x.writes, One(d));
  }

  ghost predicate OrderFree(e: Entry, f: Entry, maxAttempts: nat) {
    forall db | Inv(db) :: Alike(HandleInOrder(db, [e, f], maxAttempts), HandleInOrder(db, [f, e], maxAttempts))
  }

  /** Where nothing has been written, the order of two entries that disagree shows in the tables. */
  lemma DisagreeingDiffer(e: Entry, f: Entry, maxAttempts: nat)
    requires !Agree(e.command, f.command) && Inv(Blank(e.command, f.command))
    ensures !Alike(HandleInOrder(Blank(e.command, f.command), [e, f], maxAttempts),
                   HandleInOrder(Blank(e.command, f.command), [f, e], maxAttempts))
  {
    hide Linked, Sequenced, HandleInOrder, HandleOne;
    var db := Blank(e.command, f.command);
    BlankIsSound(e.command, f.command);
    FirstStays(e, f, maxAttempts);
    FirstStays(f, e, maxAttempts);
    if KeyOf(e.command) != KeyOf(f.command) { SecondRejected(e, f, maxAttempts); }
    TablesDiffer(HandleInOrder(db, [e, f], maxAttempts), HandleInOrder(db, [f, e], maxAttempts), e.command, f.command);
  }

  /** For two entries the order is free in every database if and only if their commands agree. */
  lemma OrderMattersExactly(e: Entry, f: Entry, maxAttempts: nat)
    ensures OrderFree(e, f, maxAttempts) <==> Agree(e.command, f.command)
  {
    hide Linked, Sequenced, HandleInOrder, HandleOne;
    if Agree(e.command, f.command) {
      forall db | Inv(db)
        ensures Alike(HandleInOrder(db, [e, f], maxAttempts), HandleInOrder(db, [f, e], maxAttempts))
      {
        NeighboursSwap(db, e, f, maxAttempts);
      }
    } else {
      BlankIsSound(e.command, f.command);
      DisagreeingDiffer(e, f, maxAttempts);
    }
  }

  lemma TablesDiffer(a: Outcome, b: Outcome, c: Command, d: Command)
    requires !Agree(c, d)
    requires KeyOf(c) in a.db.writes && Stable(c.messageId) in a.db.outbox && KeyOf(d) in b.db.writes && Stable(d.messageId) in b.db.outbox
    requires Matches(a.db.writes[KeyOf(c)], c) && a.db.writes[KeyOf(c)].acceptedAt == c.acceptedAt
    requires Matches(b.db.writes[KeyOf(d)], d) && b.db.writes[KeyOf(d)].acceptedAt == d.acceptedAt
    requires a.db.outbox[Stable(c.messageId)].origin == c.origin && b.db.outbox[Stable(d.messageId)].origin == d.origin
    requires KeyOf(c) != KeyOf(d) ==> KeyOf(d) !in a.db.writes
    ensures !Alike(a, b)
  {
    assert Erase(a.db).writes == a.db.writes && Erase(b.db).writes == b.db.writes;
    assert Erase(a.db).outbox == a.db.outbox && Erase(b.db).outbox == b.db.outbox;
  }

  /**
   * One (sender, request) with two bodies: whichever command is handled first
   * is acknowledged and its body stored, and the other is handed back.
   */
  lemma FirstComesFirstServed(e: Entry, f: Entry, maxAttempts: nat)
    requires KeyOf(e.command) == KeyOf(f.command) && e.command.body != f.command.body
    requires e.attempt < maxAttempts && f.attempt < maxAttempts
    ensures Inv(Blank(e.command, f.command))
    ensures
      var o := HandleInOrder(Blank(e.command, f.command), [e, f], maxAttempts);
      && o.settlements == [Acked(e.tag), Nacked(f.tag)]
      && KeyOf(e.command) in o.db.writes && o.db.writes[KeyOf(e.command)].content == e.command.body
  {
    var c, d := e.command, f.command;
    var db := Blank(c, d);
    BlankIsSound(c, d);
    BlankAccepts(c, d);
    hide Linked, Sequenced, Accepts, HandleOne, HandleInOrder, CommitAccepted;
    FirstStays(e, f, maxAttempts);
    InOrderTwo(db, e, f, maxAttempts);
    HandleOneShape(db, e, maxAttempts);
    FirstWritten(c, d);
    var x := CommitAccepted(db, One(c)).db;
    InvHasSchema(HandleOne(db, e, maxAttempts).db);
    HandleOneShape(x, f, maxAttempts);
    OtherBodyRejected(x, d);
  }

  lemma OtherBodyRejected(db: Db, d: Command)
    requires KeyOf(d) in db.writes && db.writes[KeyOf(d)].content != d.body
    ensures !Accepts(db, One(d))
  {
    hide Insertable;
    assert WithInserted(db.writes, One(d))[KeyOf(d)] == db.writes[KeyOf(d)];
  }
}
