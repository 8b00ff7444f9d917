/**
 * The newest rows of a set: what ORDER BY time DESC LIMIT k may return, how a
 * stable sort keeps it up to date one row at a time, and why merging the
 * newest of two sources gives the newest of their union.
 */
module Newest {
  import opened Prelude
  import opened Ranking
  import opened Redis

  /** A row of a page: a stored message, or a pending write shown as sent. */
  datatype Shown = Shown(message: MessageDto, pending: bool) {
    function Id(): MessageId { message.id }
    function At(): int { message.createdAt }
  }

  ghost predicate Descending(s: seq<Shown>) {
    forall i, j | 0 <= i < j < |s| :: s[i].At() >= s[j].At()
  }

  ghost predicate Distinct(s: seq<Shown>) {
    forall i, j | 0 <= i < j < |s| :: s[i] != s[j]
  }

  ghost predicate UniqueIds(rows: set<Shown>) {
    forall x, y | x in rows && y in rows && x.Id() == y.Id() :: x == y
  }

  /** `page` is a choice of the `k` newest of `rows`, newest first; ties may fall either way. */
  ghost predicate NewestOf(rows: set<Shown>, k: nat, page: seq<Shown>) {
    && |page| <= k && Distinct(page) && Descending(page)
    && (forall x | x in page :: x in rows)
    && (forall x, y | x in rows && x !in page && y in page :: x.At() <= y.At())
    && ((exists x :: x in rows && x !in page) ==> |page| == k)
  }

  // ---- sorting

  /** Stable insertion: after every row that is at least as new. */
  function Insert(s: seq<Shown>, x: Shown): (r: seq<Shown>)
    ensures |r| == |s| + 1
    ensures forall y :: y in r <==> y in s || y == x
  {
    if s == [] || s[|s| - 1].At() >= x.At() then s + [x]
    else
      assert s == s[..|s| - 1] + [s[|s| - 1]];
      Insert(s[..|s| - 1], x) + [s[|s| - 1]]
  }

  /** A stable sort, newest first. */
  function SortDescending(s: seq<Shown>): (r: seq<Shown>)
    ensures |r| == |s|
    ensures forall y :: y in r <==> y in s
  {
    if s == [] then []
    else
      var init, last := s[..|s| - 1], s[|s| - 1];
      assert forall y :: y in s <==> y in init || y == last by { assert s == init + [last]; }
      Insert(SortDescending(init), last)
  }

  function Take(s: seq<Shown>, k: nat): seq<Shown> {
    if |s| <= k then s else s[..k]
  }

  lemma {:induction false} InsertSorts(s: seq<Shown>, x: Shown)
    requires Descending(s)
    ensures Descending(Insert(s, x))
    ensures Distinct(s) && x !in s ==> Distinct(Insert(s, x))
  {
    if s != [] && s[|s| - 1].At() < x.At() {
      var init, last := s[..|s| - 1], s[|s| - 1];
      InsertSorts(init, x);
      var front := Insert(init, x);
      forall i | 0 <= i < |front|
        ensures front[i].At() >= last.At()
        ensures Distinct(s) && x !in s ==> front[i] != last
      {
        assert front[i] in front;
        assert front[i] in init || front[i] == x;
      }
    }
  }

  lemma {:induction false} SortedStays(s: seq<Shown>)
    requires Descending(s)
    ensures SortDescending(s) == s
  {
    if s != [] {
      SortedStays(s[..|s| - 1]);
    }
  }

  lemma {:induction false} SortSorts(s: seq<Shown>)
    ensures Descending(SortDescending(s))
  {
    if s != [] {
      SortSorts(s[..|s| - 1]);
      InsertSorts(SortDescending(s[..|s| - 1]), s[|s| - 1]);
    }
  }

  /** Cutting off before inserting makes no difference to what is left after cutting off again. */
  lemma {:induction false} TakeInsert(s: seq<Shown>, x: Shown, k: nat)
    requires Descending(s)
    ensures Take(Insert(s, x), k) == Take(Insert(Take(s, k), x), k)
  {
    if |s| > k {
      var init, last := s[..|s| - 1], s[|s| - 1];
      TakeInsert(init, x, k);
      if last.At() >= x.At() {
        assert Insert(s, x)[..k] == s[..k];
        InsertLast(s[..k], x);
      } else {
        assert Insert(s, x)[..k] == Insert(init, x)[..k];
        assert Take(init, k) == Take(s, k);
      }
    }
  }

  lemma InsertLast(s: seq<Shown>, x: Shown)
    requires forall y | y in s :: y.At() >= x.At()
    ensures Insert(s, x) == s + [x]
  {
  }

  // ---- one row at a time

  lemma TakeFacts(s: seq<Shown>, k: nat)
    requires Descending(s) && Distinct(s) && |s| <= k + 1
    ensures Descending(Take(s, k)) && Distinct(Take(s, k))
    ensures |s| == k + 1 ==> forall y :: y in s <==> y in Take(s, k) || y == s[k]
    ensures |s| == k + 1 ==> s[k] !in Take(s, k)
  {
    if |s| == k + 1 {
      assert s == s[..k] + [s[k]];
    }
  }

  /** A new row keeps the page the newest of the grown set. */
  lemma NewestGrows(rows: set<Shown>, k: nat, page: seq<Shown>, x: Shown)
    requires NewestOf(rows, k, page) && x !in rows
    ensures NewestOf(rows + {x}, k, Take(Insert(page, x), k))
  {
    var longer := Insert(page, x);
    var page' := Take(longer, k);
    assert x !in page;
    InsertSorts(page, x);
    TakeFacts(longer, k);
    if |longer| == k + 1 {
      var dropped := longer[k];
      forall y | y in page'
        ensures dropped.At() <= y.At()
      {
        var i :| 0 <= i < k && longer[i] == y;
      }
      forall z, y | z in rows + {x} && z !in page' && y in page'
        ensures z.At() <= y.At()
      {
        if z != dropped {
          assert z in rows && z !in page;
          DroppedIsOldest(rows, k, page, x, z);
        }
      }
    }
  }

  lemma DroppedIsOldest(rows: set<Shown>, k: nat, page: seq<Shown>, x: Shown, z: Shown)
    requires NewestOf(rows, k, page) && x !in rows && z in rows && z !in page && |page| == k
    requires z != Insert(page, x)[k]
    ensures forall y | y in Take(Insert(page, x), k) :: z.At() <= y.At()
  {
    var longer := Insert(page, x);
    InsertSorts(page, x);
    forall y | y in Take(longer, k)
      ensures z.At() <= y.At()
    {
      if y == x {
        var i :| 0 <= i < k && longer[i] == y;
        assert longer[k] in page;
      }
    }
  }

  /** When enough rows are at least as new as `t`, so is the whole page. */
  lemma EnoughNewer(rows: set<Shown>, k: nat, page: seq<Shown>, t: int, newer: set<Shown>)
    requires NewestOf(rows, k, page) && newer <= rows && |newer| >= k && k >= 1
    requires forall x | x in newer :: x.At() >= t
    ensures |page| == k && forall y | y in page :: y.At() >= t
  {
    var shown := set y | y in page;
    DistinctSize(page, shown);
    if !(newer <= shown) {
      var x :| x in newer && x !in shown;
      assert x in rows && x !in page;
    } else {
      SubsetSize(newer, shown);
      assert newer == shown;
    }
  }

  lemma {:induction false} DistinctSize(s: seq<Shown>, elements: set<Shown>)
    requires Distinct(s) && elements == set y | y in s
    ensures |elements| == |s|
  {
    if s != [] {
      var init, last := s[..|s| - 1], s[|s| - 1];
      assert s == init + [last];
      assert last !in init;
      DistinctSize(init, set y | y in init);
      assert elements == (set y | y in init) + {last};
    }
  }

  // ---- two sources

  /** Pending rows whose id no stored row has, after the stored rows. */
  ghost function Union(stored: set<Shown>, pending: set<Shown>): set<Shown> {
    stored + set p | p in pending && !(exists m :: m in stored && m.Id() == p.Id())
  }

  /** Copies of one id carry one time. */
  ghost predicate CopiesAgree(stored: set<Shown>, pending: set<Shown>) {
    forall m, p | m in stored && p in pending && m.Id() == p.Id() :: m.At() == p.At()
  }

  ghost predicate TwoSources(stored: set<Shown>, pending: set<Shown>) {
    && UniqueIds(stored) && UniqueIds(pending) && CopiesAgree(stored, pending)
    && (forall m | m in stored :: !m.pending) && (forall p | p in pending :: p.pending)
  }

  function Ids(s: seq<Shown>): set<MessageId> {
    set x | x in s :: x.Id()
  }

  /** The rows of `more` whose id is not among `ids`. */
  function Unseen(ids: set<MessageId>, more: seq<Shown>): (r: seq<Shown>)
    ensures forall x :: x in r <==> x in more && x.Id() !in ids
  {
    if more == [] then []
    else
      var last := more[|more| - 1];
      Unseen(ids, more[..|more| - 1]) + if last.Id() in ids then [] else [last]
  }

  /** The page after merging the stored rows with the first `i` pending ones. */
  function Merged(ms: seq<Shown>, ps: seq<Shown>, i: nat, k: nat): seq<Shown>
    requires i <= |ps|
  {
    Take(SortDescending(ms + Unseen(Ids(ms), ps[..i])), k)
  }

  /** What the first `i` pending rows add to the stored ones. */
  ghost function SeenRows(stored: set<Shown>, ps: seq<Shown>, i: nat): set<Shown>
    requires i <= |ps|
  {
    Union(stored, set p | p in ps[..i])
  }

  lemma MergeStep(ms: seq<Shown>, ps: seq<Shown>, i: nat, k: nat)
    requires i < |ps|
    ensures Merged(ms, ps, i + 1, k) == if ps[i].Id() in Ids(ms) then Merged(ms, ps, i, k)
                                        else Take(Insert(Merged(ms, ps, i, k), ps[i]), k)
  {
    var before, after := ms + Unseen(Ids(ms), ps[..i]), ms + Unseen(Ids(ms), ps[..i + 1]);
    assert ps[..i + 1][..i] == ps[..i];
    if ps[i].Id() in Ids(ms) {
      assert after == before;
    } else {
      assert after == before + [ps[i]];
      assert after[..|after| - 1] == before;
      SortSorts(before);
      TakeInsert(SortDescending(before), ps[i], k);
    }
  }

  ghost predicate FromInputs(page: seq<Shown>, ms: seq<Shown>, ps: seq<Shown>) {
    forall x | x in page :: x in ms || x in ps
  }

  /** A pending row whose stored copy is too old for the page is too old itself: the sort is stable. */
  lemma HiddenCopy(rows: set<Shown>, k: nat, page: seq<Shown>, m: Shown, p: Shown)
    requires NewestOf(rows, k, page) && m in rows && m !in page && m.At() == p.At()
    ensures Take(Insert(page, p), k) == page
  {
    assert |page| == k;
    InsertLast(page, p);
  }

  lemma SeenStays(stored: set<Shown>, ps: seq<Shown>, i: nat, m: Shown)
    requires i < |ps| && m in stored && m.Id() == ps[i].Id()
    ensures SeenRows(stored, ps, i + 1) == SeenRows(stored, ps, i)
  {
    assert ps[..i + 1] == ps[..i] + [ps[i]];
  }

  lemma SeenGrows(stored: set<Shown>, ps: seq<Shown>, i: nat)
    requires i < |ps| && Distinct(ps) && !exists m :: m in stored && m.Id() == ps[i].Id()
    ensures SeenRows(stored, ps, i + 1) == SeenRows(stored, ps, i) + {ps[i]}
    ensures ps[i] !in SeenRows(stored, ps, i)
  {
    assert ps[..i + 1] == ps[..i] + [ps[i]];
    assert ps[i] !in ps[..i];
  }

  /** The next pending row has a stored copy: the page does not change. */
  lemma MergeSkips(stored: set<Shown>, ps: seq<Shown>, ms: seq<Shown>, k: nat, i: nat, m: Shown)
    requires i < |ps| && !m.pending && m in stored && m.Id() == ps[i].Id() && m.At() == ps[i].At()
    requires forall p | p in ps :: p.pending
    requires NewestOf(SeenRows(stored, ps, i), k, Merged(ms, ps, i, k)) && FromInputs(Merged(ms, ps, i, k), ms, ps)
    ensures SeenRows(stored, ps, i + 1) == SeenRows(stored, ps, i) && Merged(ms, ps, i + 1, k) == Merged(ms, ps, i, k)
  {
    SeenStays(stored, ps, i, m);
    MergeStep(ms, ps, i, k);
    hide Merged, NewestOf;
    if ps[i].Id() !in Ids(ms) {
      assert m !in ms;
      assert m !in Merged(ms, ps, i, k);
      assert m in SeenRows(stored, ps, i);
      hide SeenRows;
      HiddenCopy(SeenRows(stored, ps, i), k, Merged(ms, ps, i, k), m, ps[i]);
    }
  }

  /** The next pending row is new: it joins the rows and, if new enough, the page. */
  lemma MergeAdds(stored: set<Shown>, ps: seq<Shown>, ms: seq<Shown>, k: nat, i: nat)
    requires i < |ps| && Distinct(ps) && forall m | m in ms :: m in stored
    requires !exists m :: m in stored && m.Id() == ps[i].Id()
    requires NewestOf(SeenRows(stored, ps, i), k, Merged(ms, ps, i, k)) && FromInputs(Merged(ms, ps, i, k), ms, ps)
    ensures NewestOf(SeenRows(stored, ps, i + 1), k, Merged(ms, ps, i + 1, k))
    ensures FromInputs(Merged(ms, ps, i + 1, k), ms, ps)
  {
    SeenGrows(stored, ps, i);
    MergeStep(ms, ps, i, k);
    assert ps[i].Id() !in Ids(ms);
    hide Merged, NewestOf, SeenRows, Distinct, SortDescending;
    NewestGrows(SeenRows(stored, ps, i), k, Merged(ms, ps, i, k), ps[i]);
    assert forall y | y in Take(Insert(Merged(ms, ps, i, k), ps[i]), k) :: y in Insert(Merged(ms, ps, i, k), ps[i]);
  }

  lemma {:induction false} MergeIsNewest(stored: set<Shown>, ps: seq<Shown>, pending: set<Shown>, ms: seq<Shown>, k: nat, i: nat)
    requires TwoSources(stored, pending) && NewestOf(stored, k, ms) && i <= |ps|
    requires Distinct(ps) && forall p | p in ps :: p in pending
    ensures NewestOf(SeenRows(stored, ps, i), k, Merged(ms, ps, i, k)) && FromInputs(Merged(ms, ps, i, k), ms, ps)
  {
    assert (forall m | m in ms :: m in stored) && forall p | p in ps :: p.pending;
    assert i > 0 ==> ps[i - 1] in ps;
    hide NewestOf, Distinct, Merged, SeenRows, UniqueIds, FromInputs;
    if i == 0 {
      MergeStarts(stored, ps, ms, k);
    } else {
      MergeIsNewest(stored, ps, pending, ms, k, i - 1);
      if m :| m in stored && m.Id() == ps[i - 1].Id() {
        MergeSkips(stored, ps, ms, k, i - 1, m);
      } else {
        MergeAdds(stored, ps, ms, k, i - 1);
      }
    }
  }

  lemma MergeStarts(stored: set<Shown>, ps: seq<Shown>, ms: seq<Shown>, k: nat)
    requires NewestOf(stored, k, ms)
    ensures NewestOf(SeenRows(stored, ps, 0), k, Merged(ms, ps, 0, k)) && FromInputs(Merged(ms, ps, 0, k), ms, ps)
  {
    assert ms + Unseen(Ids(ms), ps[..0]) == ms;
    SortedStays(ms);
    assert SeenRows(stored, ps, 0) == stored;
  }

  // ---- the rest of the pending rows

  /** A stored or pending row of the union at least as new stands for each pending row on the second page. */
  ghost function StandIn(stored: set<Shown>, p: Shown): (x: Shown)
    ensures x.Id() == p.Id()
    ensures x == p || x in stored
    ensures x == p ==> !exists m :: m in stored && m != p && m.Id() == p.Id()
  {
    if m :| m in stored && m != p && m.Id() == p.Id() then m else p
  }

  lemma {:induction false} StandInsDistinct(stored: set<Shown>, ps: seq<Shown>, ins: set<Shown>)
    requires forall i, j | 0 <= i < j < |ps| :: ps[i].Id() != ps[j].Id()
    requires ins == set p | p in ps :: StandIn(stored, p)
    ensures |ins| == |ps|
  {
    if ps != [] {
      var init, last := ps[..|ps| - 1], ps[|ps| - 1];
      var others := set p | p in init :: StandIn(stored, p);
      assert ps == init + [last];
      StandInsDistinct(stored, init, others);
      assert ins == others + {StandIn(stored, last)};
      forall p | p in init
        ensures StandIn(stored, p) != StandIn(stored, last)
      {
        assert p.Id() != last.Id();
      }
    }
  }

  /**
   * The newest `k` of two sources, merged by id with the stored copy first,
   * sorted and cut, are the newest `k` of the whole union.
   */
  lemma TwoSourceNewest(stored: set<Shown>, pending: set<Shown>, ms: seq<Shown>, ps: seq<Shown>, k: nat)
    requires TwoSources(stored, pending) && k >= 1
    requires NewestOf(stored, k, ms) && NewestOf(pending, k, ps)
    ensures NewestOf(Union(stored, pending), k, Merged(ms, ps, |ps|, k))
  {
    var page, seen := Merged(ms, ps, |ps|, k), SeenRows(stored, ps, |ps|);
    MergeIsNewest(stored, ps, pending, ms, k, |ps|);
    assert ps[..|ps|] == ps;
    hide Merged;
    forall x | x in Union(stored, pending) && x !in seen
      ensures |page| == k && forall y | y in page :: x.At() <= y.At()
    {
      LeftOutIsOlder(stored, pending, ps, k, page, x);
    }
    WidenRows(seen, Union(stored, pending), k, page);
  }

  lemma WidenRows(seen: set<Shown>, all: set<Shown>, k: nat, page: seq<Shown>)
    requires NewestOf(seen, k, page) && seen <= all
    requires forall x | x in all && x !in seen :: |page| == k && forall y | y in page :: x.At() <= y.At()
    ensures NewestOf(all, k, page)
  {
  }

  lemma LeftOutIsOlder(stored: set<Shown>, pending: set<Shown>, ps: seq<Shown>, k: nat, page: seq<Shown>, x: Shown)
    requires TwoSources(stored, pending) && k >= 1 && NewestOf(pending, k, ps)
    requires NewestOf(SeenRows(stored, ps, |ps|), k, page)
    requires x in Union(stored, pending) && x !in SeenRows(stored, ps, |ps|)
    ensures |page| == k && forall y | y in page :: x.At() <= y.At()
  {
    assert ps[..|ps|] == ps;
    assert x in pending && x !in ps && |ps| == k;
    var ins := set p | p in ps :: StandIn(stored, p);
    forall i, j | 0 <= i < j < |ps|
      ensures ps[i].Id() != ps[j].Id()
    {
      assert ps[i] in pending && ps[j] in pending;
    }
    StandInsDistinct(stored, ps, ins);
    forall s | s in ins
      ensures s in SeenRows(stored, ps, |ps|) && s.At() >= x.At()
    {
      var p :| p in ps && s == StandIn(stored, p);
      assert p in pending && x.At() <= p.At();
    }
    EnoughNewer(SeenRows(stored, ps, |ps|), k, page, x.At(), ins);
  }
}
