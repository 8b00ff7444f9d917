/**
 * The limit in whole runs: one key with a fixed limit and window, checked at
 * any times among checks of any other keys. Every window admits at most
 * `limit` calls and every time interval as long as a window at most twice that.
 */
module RateBound {
  import opened Prelude
  import opened RateLimit

  /** The window call `i` was counted in; by then it is the live one of its key. */
  function WindowAt(calls: seq<Call>, i: nat): Window
    requires i < |calls|
  {
    Counted(Plain(calls[..i]), calls[i])
  }

  predicate Allowed(calls: seq<Call>, i: nat)
    requires i < |calls|
  {
    VerdictOf(Plain(calls[..i]), calls[i]).allowed
  }

  lemma LastWindow(calls: seq<Call>, i: nat)
    requires i < |calls|
    ensures WindowKey(calls[i]) in Plain(calls[..i + 1]) && Plain(calls[..i + 1])[WindowKey(calls[i])] == WindowAt(calls, i)
  {
    assert calls[..i + 1][..i] == calls[..i];
  }

  /** Until the key is checked again its window stays as it is. */
  lemma {:induction false} WindowStays(calls: seq<Call>, i: nat, j: nat)
    requires i < j < |calls| && forall m | i < m < j :: WindowKey(calls[m]) != WindowKey(calls[i])
    ensures WindowKey(calls[i]) in Plain(calls[..j]) && Plain(calls[..j])[WindowKey(calls[i])] == WindowAt(calls, i)
  {
    if j == i + 1 {
      LastWindow(calls, i);
    } else {
      WindowStays(calls, i, j - 1);
      assert calls[..j][..j - 1] == calls[..j - 1] && calls[..j][j - 1] == calls[j - 1];
    }
  }

  /** The last earlier check of the same key. */
  lemma PreviousCheck(calls: seq<Call>, i: nat, j: nat) returns (p: nat)
    requires i < j < |calls| && WindowKey(calls[i]) == WindowKey(calls[j])
    ensures i <= p < j && WindowKey(calls[p]) == WindowKey(calls[j])
    ensures forall m | p < m < j :: WindowKey(calls[m]) != WindowKey(calls[j])
  {
    p := j - 1;
    while WindowKey(calls[p]) != WindowKey(calls[j])
      invariant i <= p < j
      invariant forall m | p < m < j :: WindowKey(calls[m]) != WindowKey(calls[j])
      decreases p
    {
      p := p - 1;
    }
  }

  /** Two windows of a key: the same one with a larger count, or one that starts when the earlier has ended. */
  ghost predicate Later(calls: seq<Call>, i: nat, j: nat)
    requires i < |calls| && j < |calls|
  {
    var a, b := WindowAt(calls, i), WindowAt(calls, j);
    || (a.expiresAtMs == b.expiresAtMs && a.count < b.count)
    || a.expiresAtMs + WindowMs(calls[j].options) <= b.expiresAtMs
  }

  ghost predicate SameLimit(calls: seq<Call>, key: string, o: Options) {
    forall i | 0 <= i < |calls| && WindowKey(calls[i]) == key :: calls[i].options == o
  }

  lemma WindowSpan(calls: seq<Call>, i: nat, key: string, o: Options)
    requires Monotone(calls) && SameLimit(calls, key, o) && i < |calls| && WindowKey(calls[i]) == key
    ensures calls[i].now < WindowAt(calls, i).expiresAtMs <= calls[i].now + WindowMs(o)
    ensures 1 <= WindowAt(calls, i).count
    decreases i
  {
    if h :| 0 <= h < i && WindowKey(calls[h]) == key {
      var p := PreviousCheck(calls, h, i);
      WindowStays(calls, p, i);
      WindowSpan(calls, p, key, o);
    } else {
      FirstCheck(calls, i);
    }
  }

  lemma {:induction false} KeysChecked(calls: seq<Call>, key: string)
    requires forall m | 0 <= m < |calls| :: WindowKey(calls[m]) != key
    ensures key !in Plain(calls)
  {
    if calls != [] {
      KeysChecked(calls[..|calls| - 1], key);
    }
  }

  lemma FirstCheck(calls: seq<Call>, i: nat)
    requires i < |calls| && forall m | 0 <= m < i :: WindowKey(calls[m]) != WindowKey(calls[i])
    ensures WindowAt(calls, i) == Window(1, calls[i].now + WindowMs(calls[i].options))
  {
    KeysChecked(calls[..i], WindowKey(calls[i]));
  }

  lemma {:induction false} WindowsInOrder(calls: seq<Call>, i: nat, j: nat, key: string, o: Options)
    requires Monotone(calls) && SameLimit(calls, key, o) && i < j < |calls|
    requires WindowKey(calls[i]) == key && WindowKey(calls[j]) == key
    ensures Later(calls, i, j)
    decreases j
  {
    var p := PreviousCheck(calls, i, j);
    WindowStays(calls, p, j);
    WindowSpan(calls, p, key, o);
    assert Later(calls, p, j);
    if i < p {
      WindowsInOrder(calls, i, p, key, o);
    }
  }

  // ---- counting

  /** The allowed checks of the key between two times. */
  function Admitted(calls: seq<Call>, key: string, from: int, to: int): set<nat> {
    set i | 0 <= i < |calls| && WindowKey(calls[i]) == key && from <= calls[i].now <= to && Allowed(calls, i)
  }

  function InWindow(calls: seq<Call>, which: set<nat>, expiresAtMs: int): set<nat>
    requires forall i | i in which :: i < |calls|
  {
    set i | i in which && WindowAt(calls, i).expiresAtMs == expiresAtMs
  }

  lemma {:induction false} DistinctCounts(calls: seq<Call>, which: set<nat>, counts: set<nat>)
    requires forall i | i in which :: i < |calls|
    requires counts == set i | i in which :: WindowAt(calls, i).count
    requires forall i, j | i in which && j in which && i != j :: WindowAt(calls, i).count != WindowAt(calls, j).count
    ensures |which| == |counts|
  {
    if which != {} {
      var i := Pick(which);
      var rest, others := which - {i}, counts - {WindowAt(calls, i).count};
      forall c | c in others
        ensures exists j :: j in rest && WindowAt(calls, j).count == c
      {
        var j :| j in which && WindowAt(calls, j).count == c;
        assert j in rest;
      }
      assert others == set j | j in rest :: WindowAt(calls, j).count;
      DistinctCounts(calls, rest, others);
    }
  }

  /** One window of a key admits at most `limit` checks. */
  lemma KeyAdmits(calls: seq<Call>, key: string, o: Options, from: int, to: int, expiresAtMs: int)
    requires Monotone(calls) && SameLimit(calls, key, o)
    ensures |InWindow(calls, Admitted(calls, key, from, to), expiresAtMs)| <= o.limit
  {
    var which := InWindow(calls, Admitted(calls, key, from, to), expiresAtMs);
    forall i, j | i in which && j in which && i != j
      ensures WindowAt(calls, i).count != WindowAt(calls, j).count
    {
      if i < j { WindowsInOrder(calls, i, j, key, o); } else { WindowsInOrder(calls, j, i, key, o); }
    }
    var counts := set i | i in which :: WindowAt(calls, i).count;
    DistinctCounts(calls, which, counts);
    forall c | c in counts
      ensures 1 <= c <= o.limit
    {
      var i :| i in which && WindowAt(calls, i).count == c;
      WindowSpan(calls, i, key, o);
    }
    BoundedSetSize(counts, o.limit);
  }

  /** An interval no longer than a window meets at most two windows that admit checks in it. */
  lemma TwoWindows(calls: seq<Call>, key: string, o: Options, from: int, to: int, i: nat, j: nat, k: nat)
    requires Monotone(calls) && SameLimit(calls, key, o) && to <= from + WindowMs(o)
    requires i < j < k && {i, j, k} <= Admitted(calls, key, from, to)
    ensures WindowAt(calls, i).expiresAtMs == WindowAt(calls, j).expiresAtMs
         || WindowAt(calls, j).expiresAtMs == WindowAt(calls, k).expiresAtMs
  {
    assert i in {i, j, k} && j in {i, j, k} && k in {i, j, k};
    WindowsInOrder(calls, i, j, key, o);
    WindowsInOrder(calls, j, k, key, o);
    WindowSpan(calls, i, key, o);
    WindowSpan(calls, k, key, o);
  }

  lemma {:induction false} Extremes(s: set<nat>) returns (lo: nat, hi: nat)
    requires s != {}
    ensures lo in s && hi in s && forall i | i in s :: lo <= i <= hi
  {
    var x := Pick(s);
    lo, hi := x, x;
    if s != {x} {
      var l, h := Extremes(s - {x});
      lo, hi := if l < x then l else x, if h > x then h else x;
      forall i | i in s
        ensures lo <= i <= hi
      {
        assert i == x || i in s - {x};
      }
    }
  }

  /** Any time interval as long as a window admits at most twice the limit. */
  lemma IntervalAdmits(calls: seq<Call>, key: string, o: Options, from: int, to: int)
    requires Monotone(calls) && SameLimit(calls, key, o) && to <= from + WindowMs(o)
    ensures |Admitted(calls, key, from, to)| <= 2 * o.limit
  {
    var all := Admitted(calls, key, from, to);
    if all != {} {
      var lo, hi := Extremes(all);
      var a, b := WindowAt(calls, lo).expiresAtMs, WindowAt(calls, hi).expiresAtMs;
      var x, y := InWindow(calls, all, a), InWindow(calls, all, b);
      forall i | i in all
        ensures i in x || i in y
      {
        if lo < i < hi { TwoWindows(calls, key, o, from, to, lo, i, hi); }
      }
      KeyAdmits(calls, key, o, from, to, a);
      KeyAdmits(calls, key, o, from, to, b);
      SubsetSize(all, x + y);
      assert |x + y| == |x| + |y| - |x * y|;
    }
  }

  // ---- the limiter as it runs, caller by caller

  /** All calls that share a window with `c` come with its options. */
  ghost predicate OneLimit(calls: seq<Call>, c: Call) {
    forall i | 0 <= i < |calls| && Shares(calls[i], c) :: calls[i].options == c.options
  }

  /** Whether the limiter, cleanup included, allows call `i`. */
  predicate Passes(calls: seq<Call>, maxEntries: nat, i: nat)
    requires i < |calls|
  {
    VerdictOf(Local(calls[..i], maxEntries), calls[i]).allowed
  }

  /** When the window call `i` falls into ends. */
  function EndsAt(calls: seq<Call>, i: nat): int
    requires i < |calls|
  {
    SoloNext(Solo(Sharing(calls[..i], calls[i])), calls[i]).expiresAtMs
  }

  /** The calls of `c`'s window, up to call `i`, that fall into the same window as call `i`. */
  function InSameWindow(calls: seq<Call>, c: Call, i: nat): set<nat>
    requires i < |calls|
  {
    set j | 0 <= j <= i && Shares(calls[j], c) && EndsAt(calls, j) == EndsAt(calls, i)
  }

  /** The calls of `c`'s window that the limiter allows between two times. */
  function AdmittedByLimiter(calls: seq<Call>, maxEntries: nat, c: Call, from: int, to: int): set<nat> {
    set i | 0 <= i < |calls| && Shares(calls[i], c) && from <= calls[i].now <= to && Passes(calls, maxEntries, i)
  }

  /** The caller's view and the window map's view of one call. */
  lemma SameView(calls: seq<Call>, maxEntries: nat, c: Call, i: nat)
    requires Monotone(calls) && i < |calls|
    ensures Passes(calls, maxEntries, i) == Allowed(calls, i)
    ensures EndsAt(calls, i) == WindowAt(calls, i).expiresAtMs
    ensures Shares(calls[i], c) <==> WindowKey(calls[i]) == WindowKey(c)
  {
    assert calls[..i] + [calls[i]] == calls[..i + 1];
    CleanupTransparent(calls[..i], calls[i], maxEntries);
    PlainIsSolo(calls[..i], calls[i]);
    SharesExactly(calls[i], c);
  }

  lemma SameViews(calls: seq<Call>, maxEntries: nat, c: Call)
    requires Monotone(calls)
    ensures forall i | 0 <= i < |calls| ::
              && Passes(calls, maxEntries, i) == Allowed(calls, i)
              && EndsAt(calls, i) == WindowAt(calls, i).expiresAtMs
              && (Shares(calls[i], c) <==> WindowKey(calls[i]) == WindowKey(c))
    ensures OneLimit(calls, c) ==> SameLimit(calls, WindowKey(c), c.options)
  {
    forall i | 0 <= i < |calls|
      ensures Passes(calls, maxEntries, i) == Allowed(calls, i)
      ensures EndsAt(calls, i) == WindowAt(calls, i).expiresAtMs
      ensures Shares(calls[i], c) <==> WindowKey(calls[i]) == WindowKey(c)
    {
      SameView(calls, maxEntries, c, i);
    }
    hide Passes, EndsAt, Shares, WindowKey, Allowed, WindowAt;
  }

  /** The calls of one window of a key, up to call `i` of it. */
  function SameWindow(calls: seq<Call>, key: string, i: nat): set<nat>
    requires i < |calls|
  {
    set j | 0 <= j <= i && WindowKey(calls[j]) == key && WindowAt(calls, j).expiresAtMs == WindowAt(calls, i).expiresAtMs
  }

  lemma NextInWindow(calls: seq<Call>, p: nat, i: nat, key: string, o: Options)
    requires Monotone(calls) && SameLimit(calls, key, o) && p < i < |calls|
    requires WindowKey(calls[p]) == key && WindowKey(calls[i]) == key
    requires forall m | p < m < i :: WindowKey(calls[m]) != key
    ensures if WindowAt(calls, p).expiresAtMs == WindowAt(calls, i).expiresAtMs
            then SameWindow(calls, key, i) == SameWindow(calls, key, p) + {i} && WindowAt(calls, i).count == WindowAt(calls, p).count + 1
            else SameWindow(calls, key, i) == {i} && WindowAt(calls, i).count == 1
  {
    WindowStays(calls, p, i);
    WindowSpan(calls, p, key, o);
    hide Plain, Solo, Sharing;
    forall j | 0 <= j < p && WindowKey(calls[j]) == key
      ensures WindowAt(calls, j).expiresAtMs <= WindowAt(calls, p).expiresAtMs
    {
      WindowsInOrder(calls, j, p, key, o);
    }
  }

  /** A window's count is the number of its calls so far. */
  lemma {:induction false} CountIsCalls(calls: seq<Call>, i: nat, key: string, o: Options)
    requires Monotone(calls) && SameLimit(calls, key, o) && i < |calls| && WindowKey(calls[i]) == key
    ensures WindowAt(calls, i).count == |SameWindow(calls, key, i)|
    decreases i
  {
    if h :| 0 <= h < i && WindowKey(calls[h]) == key {
      var p := PreviousCheck(calls, h, i);
      CountIsCalls(calls, p, key, o);
      NextInWindow(calls, p, i, key, o);
      assert i !in SameWindow(calls, key, p);
    } else {
      FirstCheck(calls, i);
      assert SameWindow(calls, key, i) == {i};
    }
  }

  /**
   * The limiter allows a call exactly when it is among the first `limit` of
   * its window: a window admits its first `limit` calls and no more.
   */
  lemma WindowAdmitsExactly(calls: seq<Call>, maxEntries: nat, c: Call, i: nat)
    requires Monotone(calls) && OneLimit(calls, c) && i < |calls| && Shares(calls[i], c)
    ensures Passes(calls, maxEntries, i) <==> |InSameWindow(calls, c, i)| <= c.options.limit
  {
    SameViews(calls, maxEntries, c);
    hide Passes, EndsAt, Shares, WindowKey;
    CountIsCalls(calls, i, WindowKey(c), c.options);
    assert InSameWindow(calls, c, i) == SameWindow(calls, WindowKey(c), i);
  }

  /** One window admits at most `limit` calls. */
  lemma WindowAdmits(calls: seq<Call>, maxEntries: nat, c: Call, from: int, to: int, expiresAtMs: int)
    requires Monotone(calls) && OneLimit(calls, c)
    ensures |set i | i in AdmittedByLimiter(calls, maxEntries, c, from, to) && EndsAt(calls, i) == expiresAtMs| <= c.options.limit
  {
    SameViews(calls, maxEntries, c);
    hide Passes, EndsAt, Shares, WindowKey, Allowed, WindowAt;
    KeyAdmits(calls, WindowKey(c), c.options, from, to, expiresAtMs);
    var admitted := Admitted(calls, WindowKey(c), from, to);
    assert AdmittedByLimiter(calls, maxEntries, c, from, to) == admitted;
    assert (set i | i in AdmittedByLimiter(calls, maxEntries, c, from, to) && EndsAt(calls, i) == expiresAtMs)
        == InWindow(calls, admitted, expiresAtMs);
  }

  /** Any time interval as long as a window admits at most twice the limit. */
  lemma LimiterAdmits(calls: seq<Call>, maxEntries: nat, c: Call, from: int, to: int)
    requires Monotone(calls) && OneLimit(calls, c)
    requires to <= from + (if c.options.windowSeconds == 0 then 1 else c.options.windowSeconds * 1000)
    ensures |AdmittedByLimiter(calls, maxEntries, c, from, to)| <= 2 * c.options.limit
  {
    SameViews(calls, maxEntries, c);
    hide Passes, EndsAt, Shares, WindowKey, Allowed, WindowAt;
    assert AdmittedByLimiter(calls, maxEntries, c, from, to) == Admitted(calls, WindowKey(c), from, to);
    IntervalAdmits(calls, WindowKey(c), c.options, from, to);
  }
}
