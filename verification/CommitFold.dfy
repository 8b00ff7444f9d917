/** Committing commands together against committing them one at a time. */
module CommitFold {
  import opened Prelude
  import opened Store
  import opened Invariant
  import opened Refinement
  import opened BatchSplit
  import opened Commits

  lemma DedupeOne(c: Command)
    ensures Dedupe([c]) == Ok(map[KeyOf(c) := c])
  {
    assert [c][..0] == [];
    assert map[][KeyOf(c) := c] == map[KeyOf(c) := c];
  }

  lemma AcceptsErased(db: Db, batch: Batch)
    ensures Schema(db) <==> Schema(Erase(db))
    ensures Accepts(Erase(db), batch) <==> Accepts(db, batch)
  {
  }

  /** Two databases that differ only in numbering accept the same batches and stay so. */
  lemma CommitCongruent(a: Db, b: Db, batch: Batch)
    requires Inv(a) && Inv(b) && Erase(a) == Erase(b)
    ensures Insertable(a, batch) <==> Insertable(b, batch)
    ensures AllMatch(WithInserted(a.writes, batch), batch) <==> AllMatch(WithInserted(b.writes, batch), batch)
    ensures Accepts(a, batch) ==>
              Erase(CommitAccepted(a, batch).db) == Erase(CommitAccepted(b, batch).db)
  {
    AcceptsErased(a, batch);
    AcceptsErased(b, batch);
    if Accepts(a, batch) {
      CommitRefinesPlain(a, batch);
      CommitRefinesPlain(b, batch);
    }
  }

  lemma AppendNewKey(db: Db, batch: Batch, k: Key, c: Command)
    requires Inv(db) && Extends(batch, k, c)
    ensures Accepts(db, batch[k := c])
       <==> Accepts(db, batch) && Accepts(CommitAccepted(db, batch).db, map[k := c])
    ensures Accepts(db, batch[k := c]) ==>
              Erase(CommitAccepted(db, batch[k := c]).db)
              == Erase(CommitAccepted(CommitAccepted(db, batch).db, map[k := c]).db)
  {
    EraseKeepsLinks(db);
    AcceptsErased(db, batch);
    AcceptsErased(db, batch[k := c]);
    AcceptsSplit(Erase(db), batch, k, c);
    if Accepts(db, batch) {
      var mid := CommitAccepted(db, batch).db;
      AcceptedKeepsInvariant(db, batch);
      CommitRefinesPlain(db, batch);
      AcceptsErased(mid, map[k := c]);
      if Accepts(db, batch[k := c]) {
        CommitRefinesPlain(db, batch[k := c]);
        CommitRefinesPlain(mid, map[k := c]);
        CommitSplit(Erase(db), batch, k, c);
      }
    }
  }

  lemma MismatchRejected(db: Db, first: Command, c: Command)
    requires Recorded(db.writes, first) && KeyOf(first) == KeyOf(c) && !SameRequestBody(first, c)
    ensures !AllMatch(WithInserted(db.writes, map[KeyOf(c) := c]), map[KeyOf(c) := c])
  {
    var one := map[KeyOf(c) := c];
    assert KeyOf(c) in one && one[KeyOf(c)] == c;
    assert WithInserted(db.writes, one)[KeyOf(c)] == db.writes[KeyOf(c)];
  }

  lemma RepeatAccepted(db: Db, first: Command, c: Command)
    requires Inv(db)
    requires Recorded(db.writes, first) && KeyOf(first) == KeyOf(c) && SameRequestBody(first, c)
    ensures Accepts(db, map[KeyOf(c) := c]) && CommitAccepted(db, map[KeyOf(c) := c]).db == db
  {
    SameBodySameRecord(db.writes, first, c);
    AcceptedIdempotent(db, map[KeyOf(c) := c]);
  }

  /** A command whose key has been committed is accepted exactly when it repeats it. */
  lemma AppendSameKey(db: Db, first: Command, c: Command)
    requires Inv(db) && Recorded(db.writes, first) && KeyOf(first) == KeyOf(c)
    ensures CommitCommands(db, [c]).Ok? <==> SameRequestBody(first, c)
    ensures SameRequestBody(first, c) ==> CommitCommands(db, [c]).value.db == db
  {
    DedupeOne(c);
    if SameRequestBody(first, c) {
      RepeatAccepted(db, first, c);
    } else {
      MismatchRejected(db, first, c);
    }
  }

  lemma CommitOne(db: Db, c: Command)
    requires Schema(db)
    ensures CommitCommands(db, [c]) == CommitBatch(db, map[KeyOf(c) := c])
  {
    DedupeOne(c);
  }

  ghost predicate AppendsWell(db: Db, cmds: seq<Command>, c: Command)
    requires Schema(db)
  {
    var all, some := CommitCommands(db, cmds + [c]), CommitCommands(db, cmds);
    && (all.Ok? <==> some.Ok? && CommitCommands(some.value.db, [c]).Ok?)
    && (all.Ok? ==> Erase(all.value.db) == Erase(CommitCommands(some.value.db, [c]).value.db))
  }

  lemma AppendRepeat(db: Db, cmds: seq<Command>, c: Command)
    requires Inv(db) && cmds != [] && Dedupe(cmds).Ok? && KeyOf(c) in Dedupe(cmds).value
    ensures AppendsWell(db, cmds, c)
  {
    var all, first := cmds + [c], Dedupe(cmds).value[KeyOf(c)];
    assert all[..|all| - 1] == cmds && all[|all| - 1] == c;
    DedupeFacts(cmds);
    if CommitCommands(db, cmds).Ok? {
      CommitKeepsInvariant(db, cmds);
      CommitRecords(db, cmds);
      assert first in cmds;
      AppendSameKey(CommitCommands(db, cmds).value.db, first, c);
    }
  }

  lemma AppendFresh(db: Db, cmds: seq<Command>, c: Command)
    requires Inv(db) && cmds != [] && Dedupe(cmds).Ok? && KeyOf(c) !in Dedupe(cmds).value
    ensures AppendsWell(db, cmds, c)
  {
    var all, batch := cmds + [c], Dedupe(cmds).value;
    assert all[..|all| - 1] == cmds && all[|all| - 1] == c;
    AppendNewKey(db, batch, KeyOf(c), c);
    if Accepts(db, batch) {
      CommitOne(CommitAccepted(db, batch).db, c);
    }
  }

  /**
   * A batch commits exactly when its commands commit one after the other, and
   * both leave the same tables up to the numbering inside a room.
   */
  lemma CommitAppend(db: Db, cmds: seq<Command>, c: Command)
    requires Inv(db)
    ensures AppendsWell(db, cmds, c)
  {
    var all := cmds + [c];
    assert all[..|all| - 1] == cmds && all[|all| - 1] == c;
    if cmds == [] {
      assert all == [c];
    } else if Dedupe(cmds).Ok? {
      if KeyOf(c) in Dedupe(cmds).value {
        AppendRepeat(db, cmds, c);
      } else {
        AppendFresh(db, cmds, c);
      }
    }
  }
}
