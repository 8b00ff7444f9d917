/**
 * Row numbering. A row of a table is identified by its timestamp and its
 * primary key; ROW_NUMBER() OVER (ORDER BY timestamp, id) - 1 is the number of
 * rows of the window that come before it.
 */
module Ranking {
  import opened Prelude

  /**
   * Message ids, represented by their rank in the database's collation. Rows
   * created over REST get a UUID; buffered commands carry "msg_" and a hash of
   * (sender, request). Every UUID sorts before every "msg_" id.
   */
  datatype MessageId = Uuid(rank: nat) | Stable(rank: nat)

  datatype Stamp = Stamp(at: int, id: MessageId)

  predicate IdBefore(a: MessageId, b: MessageId) {
    (a.Uuid? && b.Stable?) || (a.Uuid? == b.Uuid? && a.rank < b.rank)
  }

  predicate Before(p: Stamp, q: Stamp) {
    p.at < q.at || (p.at == q.at && IdBefore(p.id, q.id))
  }

  function Earlier(s: set<Stamp>, p: Stamp): set<Stamp> {
    set q | q in s && Before(q, p)
  }

  function Rank(s: set<Stamp>, p: Stamp): nat {
    |Earlier(s, p)|
  }

  lemma RankInRange(s: set<Stamp>, p: Stamp)
    requires p in s
    ensures Rank(s, p) < |s|
  {
    SubsetSize(Earlier(s, p), s);
    assert p !in Earlier(s, p);
  }

  /** Ranks follow the order of the stamps strictly, so they never repeat. */
  lemma RankStrict(s: set<Stamp>, p: Stamp, q: Stamp)
    requires p in s && q in s && p != q
    ensures Before(p, q) <==> Rank(s, p) < Rank(s, q)
    ensures Rank(s, p) != Rank(s, q)
  {
    if Before(p, q) {
      EarlierGrows(s, p, q);
    } else {
      EarlierGrows(s, q, p);
    }
  }

  lemma EarlierGrows(s: set<Stamp>, p: Stamp, q: Stamp)
    requires p in s && Before(p, q)
    ensures Rank(s, p) < Rank(s, q)
  {
    assert p in Earlier(s, q) && p !in Earlier(s, p);
    SubsetSize(Earlier(s, p), Earlier(s, q));
  }

  ghost predicate IsLast(s: set<Stamp>, p: Stamp) {
    p in s && forall q | q in s && q != p :: Before(q, p)
  }

  lemma {:induction false} LastExists(s: set<Stamp>)
    requires s != {}
    ensures exists p :: IsLast(s, p)
  {
    var x :| x in s;
    if s == {x} {
      assert IsLast(s, x);
    } else {
      LastExists(s - {x});
      var p :| IsLast(s - {x}, p);
      var last := if Before(p, x) then x else p;
      forall q | q in s && q != last
        ensures Before(q, last)
      {
        assert q == x || q in s - {x};
      }
      assert IsLast(s, last);
    }
  }

  /** Every number below the size of the window is the rank of some row: no gaps. */
  lemma {:induction false} RankOnto(s: set<Stamp>, i: nat) returns (p: Stamp)
    requires i < |s|
    ensures p in s && Rank(s, p) == i
  {
    LastExists(s);
    var last :| IsLast(s, last);
    var rest := s - {last};
    if i == |rest| {
      p := last;
      assert Earlier(s, last) == rest;
    } else {
      p := RankOnto(rest, i);
      assert Earlier(s, p) == Earlier(rest, p);
    }
  }
}
