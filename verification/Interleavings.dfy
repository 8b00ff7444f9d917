/**
 * Orders in which several handlers settle their segments: each handler's
 * segments in its own order, the handlers merged in any way. When entries of
 * different handlers agree, such an order means the handlers one after another.
 */
module Interleavings {
  import opened Store
  import opened Invariant
  import opened BatchHandling
  import opened Commuting
  import opened WriterQueue

  /** Segments as they are settled, each with the handler that settled it. */
  type Log = seq<(nat, seq<Entry>)>

  function Segments(log: Log): (r: seq<seq<Entry>>)
    ensures |r| == |log| && forall i | 0 <= i < |log| :: r[i] == log[i].1
  {
    seq(|log|, i requires 0 <= i < |log| => log[i].1)
  }

  /** The entries in the order they are settled. */
  function SettlementOrder(log: Log): seq<Entry> {
    Flatten(Segments(log))
  }

  /** What one handler has settled, in order. */
  function Of(log: Log, task: nat): seq<Entry> {
    if log == [] then []
    else
      var last := log[|log| - 1];
      Of(log[..|log| - 1], task) + if last.0 == task then last.1 else []
  }

  /** What the others have settled. */
  function Others(log: Log, task: nat): Log {
    if log == [] then []
    else
      var last := log[|log| - 1];
      Others(log[..|log| - 1], task) + if last.0 == task then [] else [last]
  }

  /** The first `n` handlers' entries, one handler after another. */
  function InTurn(log: Log, n: nat): seq<Entry> {
    if n == 0 then [] else InTurn(log, n - 1) + Of(log, n - 1)
  }

  ghost predicate TasksBelow(log: Log, n: nat) {
    forall i | 0 <= i < |log| :: log[i].0 < n
  }

  lemma OfSnoc(log: Log, task: nat, segment: seq<Entry>, other: nat)
    ensures Of(log + [(task, segment)], other) == Of(log, other) + if task == other then segment else []
  {
    assert (log + [(task, segment)])[..|log|] == log;
  }

  lemma SettlementOrderSnoc(log: Log, task: nat, segment: seq<Entry>)
    ensures SettlementOrder(log + [(task, segment)]) == SettlementOrder(log) + segment
  {
    var more := log + [(task, segment)];
    assert Segments(more)[..|log|] == Segments(log) && Segments(more)[|log|] == segment;
  }

  lemma OthersSnoc(log: Log, task: nat, segment: seq<Entry>, other: nat)
    ensures Others(log + [(task, segment)], other) == Others(log, other) + if task == other then [] else [(task, segment)]
  {
    assert (log + [(task, segment)])[..|log|] == log;
  }

  lemma Snoc(log: Log)
    requires log != []
    ensures log == log[..|log| - 1] + [(log[|log| - 1].0, log[|log| - 1].1)]
  {
  }

  lemma {:induction false} OthersOf(log: Log, task: nat, other: nat)
    requires other != task
    ensures Of(Others(log, task), other) == Of(log, other)
  {
    if log != [] {
      var init, last := log[..|log| - 1], log[|log| - 1];
      Snoc(log);
      OthersOf(init, task, other);
      OthersSnoc(init, last.0, last.1, task);
      OfSnoc(init, last.0, last.1, other);
      OfSnoc(Others(init, task), last.0, last.1, other);
      assert Others(init, task) + [] == Others(init, task);
    }
  }

  lemma {:induction false} OthersBelow(log: Log, task: nat)
    requires TasksBelow(log, task + 1)
    ensures TasksBelow(Others(log, task), task)
  {
    if log != [] {
      OthersBelow(log[..|log| - 1], task);
    }
  }

  lemma {:induction false} InTurnCongruent(a: Log, b: Log, n: nat)
    requires forall task: nat | task < n :: Of(a, task) == Of(b, task)
    ensures InTurn(a, n) == InTurn(b, n)
  {
    if n > 0 {
      InTurnCongruent(a, b, n - 1);
    }
  }

  lemma OthersInTurn(log: Log, task: nat)
    ensures InTurn(Others(log, task), task) == InTurn(log, task)
  {
    forall other: nat | other < task
      ensures Of(Others(log, task), other) == Of(log, other)
    {
      OthersOf(log, task, other);
    }
    InTurnCongruent(Others(log, task), log, task);
  }

  /** An entry of the others is some other handler's. */
  lemma {:induction false} OthersEntry(log: Log, task: nat, e: Entry) returns (i: nat)
    requires e in SettlementOrder(Others(log, task))
    ensures i < |log| && log[i].0 != task && e in Of(log, log[i].0)
  {
    assert log != [];
    Snoc(log);
    var init, last := log[..|log| - 1], log[|log| - 1];
    OthersSnoc(init, last.0, last.1, task);
    if last.0 != task { SettlementOrderSnoc(Others(init, task), last.0, last.1); }
    assert Others(init, task) + [] == Others(init, task);
    hide Of, Others, SettlementOrder;
    if last.0 != task && e in last.1 {
      i := |log| - 1;
    } else {
      i := OthersEntry(init, task, e);
    }
    OfSnoc(init, last.0, last.1, log[i].0);
  }

  // ---- a merge is a permutation

  lemma {:induction false} SplitOff(log: Log, task: nat)
    ensures multiset(SettlementOrder(log)) == multiset(SettlementOrder(Others(log, task))) + multiset(Of(log, task))
  {
    if log != [] {
      var init, last := log[..|log| - 1], log[|log| - 1];
      Snoc(log);
      SplitOff(init, task);
      SettlementOrderSnoc(init, last.0, last.1);
      OfSnoc(init, last.0, last.1, task);
      OthersSnoc(init, last.0, last.1, task);
      if last.0 != task { SettlementOrderSnoc(Others(init, task), last.0, last.1); }
      hide Of, Others, SettlementOrder;
      if last.0 == task {
        assert Others(init, task) + [] == Others(init, task);
      } else {
        assert Of(init, task) + [] == Of(init, task);
      }
    }
  }

  /** The order of settlement is a permutation of the handlers' entries one handler after another. */
  lemma {:induction false} SettledIsPermutation(log: Log, n: nat)
    requires TasksBelow(log, n)
    ensures multiset(SettlementOrder(log)) == multiset(InTurn(log, n))
    decreases n
  {
    hide Of, Others, SettlementOrder, TasksBelow;
    if n == 0 {
      NothingSettledYet(log);
    } else {
      SplitOff(log, n - 1);
      OthersBelow(log, n - 1);
      SettledIsPermutation(Others(log, n - 1), n - 1);
      OthersInTurn(log, n - 1);
    }
  }

  lemma NothingSettledYet(log: Log)
    requires TasksBelow(log, 0)
    ensures SettlementOrder(log) == []
  {
    assert log != [] ==> var (task, _) := log[0]; 0 <= task < 0;
    assert SettlementOrder([]) == [];
  }

  // ---- one handler at a time

  ghost predicate Sorted(log: Log) {
    forall i, j | 0 <= i < j < |log| :: log[i].0 <= log[j].0
  }

  lemma {:induction false} LaterEmpty(log: Log, task: nat)
    requires forall i | 0 <= i < |log| :: log[i].0 != task
    ensures Of(log, task) == []
  {
    if log != [] {
      LaterEmpty(log[..|log| - 1], task);
    }
  }

  lemma {:induction false} InTurnSnoc(log: Log, task: nat, segment: seq<Entry>, n: nat)
    requires forall i | 0 <= i < |log| :: log[i].0 <= task
    ensures InTurn(log + [(task, segment)], n) == InTurn(log, n) + if task < n then segment else []
  {
    if n > 0 {
      InTurnSnoc(log, task, segment, n - 1);
      OfSnoc(log, task, segment, n - 1);
      if task < n - 1 { LaterEmpty(log, n - 1); }
    }
  }

  /** When each handler settles all its segments before the next one starts, the order is the handlers' own. */
  lemma {:induction false} SortedIsInTurn(log: Log, n: nat)
    requires TasksBelow(log, n) && Sorted(log)
    ensures SettlementOrder(log) == InTurn(log, n)
  {
    if log == [] {
      NothingInTurn(n);
    } else {
      var init, last := log[..|log| - 1], log[|log| - 1];
      Snoc(log);
      SortedIsInTurn(init, n);
      SettlementOrderSnoc(init, last.0, last.1);
      InTurnSnoc(init, last.0, last.1, n);
    }
  }

  lemma {:induction false} NothingInTurn(n: nat)
    ensures InTurn([], n) == []
  {
    if n > 0 {
      NothingInTurn(n - 1);
    }
  }

  // ---- agreeing handlers

  /** Entries of different handlers agree. */
  ghost predicate CrossAgree(log: Log, n: nat) {
    forall i: nat, j: nat | i < n && j < n && i != j :: AllAgree(Of(log, i), Of(log, j))
  }

  lemma AlikeStep(db: Db, a: seq<Entry>, b: seq<Entry>, c: seq<Entry>, maxAttempts: nat)
    requires Inv(db)
    requires Alike(HandleInOrder(db, a, maxAttempts), HandleInOrder(db, b, maxAttempts))
    requires Alike(HandleInOrder(db, b, maxAttempts), HandleInOrder(db, c, maxAttempts))
    ensures Alike(HandleInOrder(db, a, maxAttempts), HandleInOrder(db, c, maxAttempts))
  {
  }

  lemma LastAgrees(log: Log, task: nat)
    requires log != [] && AllAgree(Of(log, task), SettlementOrder(Others(log, task)))
    ensures
      var init, last := log[..|log| - 1], log[|log| - 1];
      && AllAgree(Of(init, task), SettlementOrder(Others(init, task)))
      && (last.0 != task ==> AllAgree(Of(init, task), last.1))
  {
    var init, last := log[..|log| - 1], log[|log| - 1];
    Snoc(log);
    OfSnoc(init, last.0, last.1, task);
    OthersSnoc(init, last.0, last.1, task);
    if last.0 != task { SettlementOrderSnoc(Others(init, task), last.0, last.1); }
    assert Others(init, task) + [] == Others(init, task);
    hide Of, Others, SettlementOrder, Agree;
    assert forall e | e in Of(init, task) :: e in Of(log, task);
    assert forall e | e in SettlementOrder(Others(init, task)) :: e in SettlementOrder(Others(log, task));
  }

  /** Handling `x`, then `y`, where `x` means `rest` then `own`. */
  lemma OwnMore(db: Db, x: seq<Entry>, rest: seq<Entry>, own: seq<Entry>, y: seq<Entry>, maxAttempts: nat)
    requires Inv(db)
    requires Alike(HandleInOrder(db, x, maxAttempts), HandleInOrder(db, rest + own, maxAttempts))
    ensures Alike(HandleInOrder(db, x + y, maxAttempts), HandleInOrder(db, rest + (own + y), maxAttempts))
  {
    hide Inv, Alike, HandleInOrder;
    assert rest + own + y == rest + (own + y);
    AlikeSuffix(db, x, rest + own, y, maxAttempts);
  }

  /** The same where `own` agrees with `y`. */
  lemma OwnPast(db: Db, x: seq<Entry>, rest: seq<Entry>, own: seq<Entry>, y: seq<Entry>, maxAttempts: nat)
    requires Inv(db) && AllAgree(own, y)
    requires Alike(HandleInOrder(db, x, maxAttempts), HandleInOrder(db, rest + own, maxAttempts))
    ensures Alike(HandleInOrder(db, x + y, maxAttempts), HandleInOrder(db, rest + y + own, maxAttempts))
  {
    hide Inv, Alike, HandleInOrder, AllAgree;
    assert rest + (y + own) == rest + y + own;
    OwnMore(db, x, rest, own, y, maxAttempts);
    BlocksSwap(HandleInOrder(db, rest, maxAttempts).db, own, y, maxAttempts);
    AlikePrefix(db, rest, own + y, y + own, maxAttempts);
    AlikeStep(db, x + y, rest + (own + y), rest + y + own, maxAttempts);
  }

  /** One handler's segments can be put last. */
  lemma {:induction false} MoveLast(db: Db, log: Log, task: nat, maxAttempts: nat)
    requires Inv(db) && AllAgree(Of(log, task), SettlementOrder(Others(log, task)))
    ensures Alike(HandleInOrder(db, SettlementOrder(log), maxAttempts),
                  HandleInOrder(db, SettlementOrder(Others(log, task)) + Of(log, task), maxAttempts))
  {
    hide Inv, Alike, HandleInOrder, AllAgree;
    if log == [] {
      assert SettlementOrder(Others(log, task)) + Of(log, task) == SettlementOrder(log);
      AlikeReflexive(HandleInOrder(db, SettlementOrder(log), maxAttempts));
    } else {
      var init, last := log[..|log| - 1], log[|log| - 1];
      LastAgrees(log, task);
      SnocParts(log, task);
      MoveLast(db, init, task, maxAttempts);
      hide Of, Others, SettlementOrder;
      var rest, own := SettlementOrder(Others(init, task)), Of(init, task);
      if last.0 == task {
        OwnMore(db, SettlementOrder(init), rest, own, last.1, maxAttempts);
      } else {
        OwnPast(db, SettlementOrder(init), rest, own, last.1, maxAttempts);
      }
    }
  }

  lemma SnocParts(log: Log, task: nat)
    requires log != []
    ensures
      var init, last := log[..|log| - 1], log[|log| - 1];
      && SettlementOrder(log) == SettlementOrder(init) + last.1
      && (if last.0 == task
          then Of(log, task) == Of(init, task) + last.1 && Others(log, task) == Others(init, task)
          else Of(log, task) == Of(init, task)
               && SettlementOrder(Others(log, task)) == SettlementOrder(Others(init, task)) + last.1)
  {
    var init, last := log[..|log| - 1], log[|log| - 1];
    Snoc(log);
    SettlementOrderSnoc(init, last.0, last.1);
    OfSnoc(init, last.0, last.1, task);
    OthersSnoc(init, last.0, last.1, task);
    if last.0 != task { SettlementOrderSnoc(Others(init, task), last.0, last.1); }
    hide Of, Others, SettlementOrder;
    assert Others(init, task) + [] == Others(init, task) && Of(init, task) + [] == Of(init, task);
  }

  lemma OwnAgreesWithOthers(log: Log, task: nat)
    requires TasksBelow(log, task + 1) && CrossAgree(log, task + 1)
    ensures AllAgree(Of(log, task), SettlementOrder(Others(log, task)))
  {
    hide Agree;
    forall e, f | e in Of(log, task) && f in SettlementOrder(Others(log, task))
      ensures Agree(e.command, f.command)
    {
      var i := OthersEntry(log, task, f);
      assert AllAgree(Of(log, task), Of(log, log[i].0));
    }
  }

  lemma OthersCrossAgree(log: Log, task: nat)
    requires CrossAgree(log, task + 1)
    ensures CrossAgree(Others(log, task), task)
  {
    hide AllAgree;
    forall i: nat, j: nat | i < task && j < task && i != j
      ensures AllAgree(Of(Others(log, task), i), Of(Others(log, task), j))
    {
      OthersOf(log, task, i);
      OthersOf(log, task, j);
    }
  }

  /** When entries of different handlers agree, any merge means the handlers one after another. */
  lemma {:induction false} MergeIsInTurn(db: Db, log: Log, n: nat, maxAttempts: nat)
    requires Inv(db) && TasksBelow(log, n) && CrossAgree(log, n)
    ensures Alike(HandleInOrder(db, SettlementOrder(log), maxAttempts), HandleInOrder(db, InTurn(log, n), maxAttempts))
    decreases n
  {
    hide Inv, Alike, HandleInOrder, AllAgree;
    if n == 0 {
      assert log == [];
      AlikeReflexive(HandleInOrder(db, [], maxAttempts));
    } else {
      var task := n - 1;
      var others := Others(log, task);
      OwnAgreesWithOthers(log, task);
      MoveLast(db, log, task, maxAttempts);
      OthersBelow(log, task);
      OthersCrossAgree(log, task);
      MergeIsInTurn(db, others, task, maxAttempts);
      OthersInTurn(log, task);
      AlikeSuffix(db, SettlementOrder(others), InTurn(log, task), Of(log, task), maxAttempts);
      AlikeStep(db, SettlementOrder(log), SettlementOrder(others) + Of(log, task), InTurn(log, n), maxAttempts);
    }
  }
}
