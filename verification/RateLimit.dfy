/**
 * Fixed-window rate limiting: the in-process limiter with its occasional
 * cleanup, the same limiter without cleanup, and the limiter over Redis, on
 * sequences of checks with a clock that never goes back.
 */
module RateLimit {
  import opened Prelude
  import opened Redis

  datatype Options = Options(keyPrefix: string, limit: nat, windowSeconds: nat)

  datatype Verdict = Verdict(allowed: bool, count: nat)

  /** A call of `check`, with the time it reads. */
  datatype Call = Call(now: int, key: string, options: Options)

  // ---- the local limiter

  datatype Window = Window(count: nat, expiresAtMs: int)

  type Windows = map<string, Window>

  function WindowKey(c: Call): string {
    c.options.keyPrefix + ":" + c.key
  }

  function WindowMs(o: Options): (ms: nat)
    ensures ms == if o.windowSeconds == 0 then 1 else o.windowSeconds * 1000
  {
    if o.windowSeconds * 1000 < 1 then 1 else o.windowSeconds * 1000
  }

  /** The window a call falls into, with the call counted. */
  function Counted(w: Windows, c: Call): Window {
    if WindowKey(c) in w && w[WindowKey(c)].expiresAtMs > c.now
    then Window(w[WindowKey(c)].count + 1, w[WindowKey(c)].expiresAtMs)
    else Window(1, c.now + WindowMs(c.options))
  }

  function VerdictOf(w: Windows, c: Call): Verdict {
    Verdict(Counted(w, c).count <= c.options.limit, Counted(w, c).count)
  }

  function LiveOnly(w: Windows, now: int): Windows {
    map k | k in w && w[k].expiresAtMs > now :: w[k]
  }

  function Cleaned(w: Windows, now: int, maxEntries: nat, checks: nat): Windows {
    if |w| <= maxEntries && checks % 1000 != 0 then w else LiveOnly(w, now)
  }

  class LocalRateLimiter {
    const maxEntries: nat
    var windows: Windows
    var checksSinceCleanup: nat
    ghost var calls: seq<Call>

    /** The windows are what the calls so far have left. */
    ghost predicate Valid()
      reads this
    {
      windows == Local(calls, maxEntries) && checksSinceCleanup == |calls|
    }

    constructor (maxEntries: nat)
      ensures Valid() && calls == [] && this.maxEntries == if maxEntries < 1 then 1 else maxEntries
    {
      this.maxEntries := if maxEntries < 1 then 1 else maxEntries;
      windows := map[];
      checksSinceCleanup := 0;
      calls := [];
    }

    /** `cleanupExpiredWindows`. */
    method CleanupExpiredWindows(now: int)
      modifies this`windows
      ensures windows == Cleaned(old(windows), now, maxEntries, checksSinceCleanup)
      ensures |windows| <= maxEntries || forall k | k in windows :: windows[k].expiresAtMs > now
    {
      if |windows| <= maxEntries && checksSinceCleanup % 1000 != 0 {
        return;
      }
      var keys := windows.Keys;
      while keys != {}
        invariant keys <= old(windows).Keys
        invariant windows == map k | k in old(windows) && (k in keys || old(windows)[k].expiresAtMs > now) :: old(windows)[k]
        decreases |keys|
      {
        var key :| key in keys;
        keys := keys - {key};
        if windows[key].expiresAtMs <= now {
          windows := windows - {key};
        }
      }
    }

    /** With a clock that does not go back, the verdict is that of a limiter only the calls sharing its window ever used. */
    method Check(c: Call) returns (v: Verdict)
      requires Valid()
      modifies this
      ensures Valid() && calls == old(calls) + [c]
      ensures Monotone(calls) ==> v == SoloVerdict(Sharing(old(calls), c), c)
      ensures v == VerdictOf(old(windows), c)
      ensures windows == Cleaned(old(windows)[WindowKey(c) := Counted(old(windows), c)], c.now, maxEntries, checksSinceCleanup)
      ensures |windows| <= maxEntries || forall k | k in windows :: windows[k].expiresAtMs > c.now
    {
      hide Local, SoloVerdict, Sharing, Cleaned, LiveOnly, Monotone;
      LocalGrows(calls, c, maxEntries);
      var windowKey := WindowKey(c);
      var window := if windowKey in windows && windows[windowKey].expiresAtMs > c.now
                    then windows[windowKey] else Window(0, c.now + WindowMs(c.options));
      window := window.(count := window.count + 1);
      windows := windows[windowKey := window];
      checksSinceCleanup := checksSinceCleanup + 1;
      CleanupExpiredWindows(c.now);
      if Monotone(calls + [c]) {
        OwnCallsOnly(calls, c, maxEntries);
      }
      calls := calls + [c];
      return Verdict(window.count <= c.options.limit, window.count);
    }
  }

  // ---- the three limiters over a sequence of calls

  ghost predicate Monotone(calls: seq<Call>) {
    forall i, j | 0 <= i <= j < |calls| :: calls[i].now <= calls[j].now
  }

  /** Windows after the calls when nothing is ever cleaned up. */
  function Plain(calls: seq<Call>): Windows {
    if calls == [] then map[]
    else
      var w, c := Plain(calls[..|calls| - 1]), calls[|calls| - 1];
      w[WindowKey(c) := Counted(w, c)]
  }

  /** Windows after the calls with the cleanup of `Check`. */
  function Local(calls: seq<Call>, maxEntries: nat): Windows {
    if calls == [] then map[]
    else
      var w, c := Local(calls[..|calls| - 1], maxEntries), calls[|calls| - 1];
      Cleaned(w[WindowKey(c) := Counted(w, c)], c.now, maxEntries, |calls|)
  }

  lemma LocalGrows(calls: seq<Call>, c: Call, maxEntries: nat)
    ensures
      var w := Local(calls, maxEntries);
      Local(calls + [c], maxEntries) == Cleaned(w[WindowKey(c) := Counted(w, c)], c.now, maxEntries, |calls| + 1)
  {
    assert (calls + [c])[..|calls|] == calls && (calls + [c])[|calls|] == c;
  }

  function RedisKey(windowKey: string): string {
    "rate:" + windowKey
  }

  /** A call counted, but its window's expiry not yet set. */
  function CountedOnly(s: KeyValues, c: Call): KeyValues {
    var k := RedisKey(WindowKey(c));
    Put(s, k, Number(CountAt(s, k, c.now) + 1), if Live(s, k, c.now) then s[k].expiresAt else 0)
  }

  /** What `checkRateLimit` leaves in Redis: a counter that expires with its window. */
  function RedisAfter(s: KeyValues, c: Call): KeyValues {
    var k := RedisKey(WindowKey(c));
    var counted := CountedOnly(s, c);
    if CountAt(s, k, c.now) + 1 == 1 then counted[k := counted[k].(expiresAt := c.now + c.options.windowSeconds * 1000)] else counted
  }

  function RedisVerdict(s: KeyValues, c: Call): Verdict {
    var count := CountAt(s, RedisKey(WindowKey(c)), c.now) + 1;
    Verdict(count <= c.options.limit, count)
  }

  function OverRedis(calls: seq<Call>): KeyValues {
    if calls == [] then map[] else RedisAfter(OverRedis(calls[..|calls| - 1]), calls[|calls| - 1])
  }

  /**
   * `checkRateLimit`: without Redis everything is allowed, and so it is when a
   * command fails, before or after the call was counted.
   */
  method CheckRateLimit(redis: FakeRedis?, c: Call, faulty: bool) returns (v: Verdict)
    requires redis != null ==>
               var k := RedisKey(WindowKey(c));
               && (Live(redis.store, k, c.now) ==> redis.store[k].value.Number? && redis.store[k].value.n >= 1)
    modifies redis
    ensures redis == null ==> v == Verdict(true, 0)
    ensures redis != null && !faulty ==> v == RedisVerdict(old(redis.store), c) && redis.store == RedisAfter(old(redis.store), c)
    ensures redis != null ==> forall k | k != "rate:" + c.options.keyPrefix + ":" + c.key ::
              (k in redis.store <==> k in old(redis.store)) && (k in redis.store ==> redis.store[k] == old(redis.store)[k])
    ensures redis != null && !faulty ==>
              var k := "rate:" + c.options.keyPrefix + ":" + c.key;
              && k in redis.store && redis.store[k].value == Number(v.count) && v.allowed == (v.count <= c.options.limit)
              && (if Live(old(redis.store), k, c.now) then v.count == CountAt(old(redis.store), k, c.now) + 1
                  else v.count == 1 && redis.store[k].expiresAt == c.now + c.options.windowSeconds * 1000)
    ensures redis != null && faulty ==>
              || (v == RedisVerdict(old(redis.store), c) && redis.store == RedisAfter(old(redis.store), c))
              || (v == Verdict(true, 0) && (redis.store == old(redis.store) || redis.store == CountedOnly(old(redis.store), c)))
  {
    assert RedisKey(WindowKey(c)) == "rate:" + c.options.keyPrefix + ":" + c.key by {
      assert "rate:" + (c.options.keyPrefix + ":" + c.key) == "rate:" + c.options.keyPrefix + ":" + c.key;
    }
    var failed: bool := *;
    if redis == null || (faulty && failed) {
      return Verdict(true, 0);
    }
    var redisKey := RedisKey(WindowKey(c));
    var counted := redis.Incr(redisKey, c.now);
    var count := counted.value;
    if count == 1 {
      failed := *;
      if faulty && failed {
        return Verdict(true, 0);
      }
      var _ := redis.Expire(redisKey, c.options.windowSeconds, c.now);
    }
    return Verdict(count <= c.options.limit, count);
  }

  // ---- cleanup is transparent

  /** The same windows are live. */
  ghost predicate Agree(a: Windows, b: Windows, now: int) {
    LiveOnly(a, now) == LiveOnly(b, now)
  }

  lemma AgreeLater(a: Windows, b: Windows, now: int, later: int)
    requires Agree(a, b, now) && now <= later
    ensures Agree(a, b, later)
  {
    assert LiveOnly(a, later) == LiveOnly(LiveOnly(a, now), later);
    assert LiveOnly(b, later) == LiveOnly(LiveOnly(b, now), later);
  }

  lemma AgreeCounts(a: Windows, b: Windows, c: Call)
    requires Agree(a, b, c.now)
    ensures Counted(a, c) == Counted(b, c)
  {
    var k := WindowKey(c);
    assert k in LiveOnly(a, c.now) <==> k in LiveOnly(b, c.now);
    if k in LiveOnly(a, c.now) { assert a[k] == LiveOnly(a, c.now)[k] == LiveOnly(b, c.now)[k] == b[k]; }
  }

  lemma AgreeAfter(a: Windows, b: Windows, c: Call, maxEntries: nat, checks: nat)
    requires Agree(a, b, c.now)
    ensures Agree(Cleaned(a[WindowKey(c) := Counted(a, c)], c.now, maxEntries, checks), b[WindowKey(c) := Counted(b, c)], c.now)
  {
    AgreeCounts(a, b, c);
    var k, w := WindowKey(c), Counted(a, c);
    assert LiveOnly(a[k := w], c.now) == LiveOnly(a, c.now)[k := w];
    assert LiveOnly(b[k := w], c.now) == LiveOnly(b, c.now)[k := w];
    assert LiveOnly(LiveOnly(a[k := w], c.now), c.now) == LiveOnly(a[k := w], c.now);
  }

  lemma {:induction false} CleanupKeepsLive(calls: seq<Call>, maxEntries: nat, now: int)
    requires Monotone(calls) && (calls != [] ==> calls[|calls| - 1].now <= now)
    ensures Agree(Local(calls, maxEntries), Plain(calls), now)
  {
    if calls != [] {
      var init, c := calls[..|calls| - 1], calls[|calls| - 1];
      CleanupKeepsLive(init, maxEntries, c.now);
      AgreeAfter(Local(init, maxEntries), Plain(init), c, maxEntries, |calls|);
      AgreeLater(Local(calls, maxEntries), Plain(calls), c.now, now);
    }
  }

  /** Cleanup never changes a verdict. */
  lemma CleanupTransparent(calls: seq<Call>, c: Call, maxEntries: nat)
    requires Monotone(calls + [c])
    ensures VerdictOf(Local(calls, maxEntries), c) == VerdictOf(Plain(calls), c)
  {
    assert forall i | 0 <= i < |calls| :: (calls + [c])[i] == calls[i];
    assert (calls + [c])[|calls|] == c;
    CleanupKeepsLive(calls, maxEntries, c.now);
    AgreeCounts(Local(calls, maxEntries), Plain(calls), c);
  }

  // ---- whose calls count

  predicate SamePair(c: Call, d: Call) {
    c.options.keyPrefix == d.options.keyPrefix && c.key == d.key
  }

  /** The longer prefix starts with the shorter one and a colon, and the keys make up the difference. */
  predicate Spills(c: Call, d: Call) {
    var p, q := c.options.keyPrefix, d.options.keyPrefix;
    p + ":" <= q && c.key == q[|p| + 1..] + ":" + d.key
  }

  /** Two calls share a window when they have the same prefix and key, or a prefix with a colon in it makes it look so. */
  predicate Shares(c: Call, d: Call) {
    SamePair(c, d) || Spills(c, d) || Spills(d, c)
  }

  lemma SharesExactly(c: Call, d: Call)
    ensures Shares(c, d) <==> WindowKey(c) == WindowKey(d)
  {
    SpillsShare(c, d);
    SpillsShare(d, c);
    if WindowKey(c) == WindowKey(d) {
      if |c.options.keyPrefix| <= |d.options.keyPrefix| { SharedSpills(c, d); } else { SharedSpills(d, c); }
    }
  }

  lemma SpillsShare(c: Call, d: Call)
    ensures Spills(c, d) ==> WindowKey(c) == WindowKey(d)
  {
    var p, q := c.options.keyPrefix, d.options.keyPrefix;
    if Spills(c, d) {
      var rest := q[|p| + 1..];
      assert q == p + ":" + rest;
      assert p + ":" + (rest + ":" + d.key) == (p + ":" + rest) + ":" + d.key;
    }
  }

  lemma SharedSpills(c: Call, d: Call)
    requires WindowKey(c) == WindowKey(d) && |c.options.keyPrefix| <= |d.options.keyPrefix|
    ensures SamePair(c, d) || Spills(c, d)
  {
    var p, q, flat := c.options.keyPrefix, d.options.keyPrefix, WindowKey(d);
    assert flat == p + ":" + c.key == q + ":" + d.key;
    assert p == flat[..|p|] && q == flat[..|q|];
    assert c.key == flat[|p| + 1..] && d.key == flat[|q| + 1..];
    if |p| < |q| {
      assert flat[|p|] == ':' && q[|p|] == ':';
      assert p + ":" == q[..|p| + 1];
      assert flat[|p| + 1..] == q[|p| + 1..] + ":" + d.key;
    } else {
      assert p == q;
    }
  }

  /** Prefixes without a colon keep all pairs apart. */
  lemma PlainPrefixesKeepApart(c: Call, d: Call)
    requires ':' !in c.options.keyPrefix && ':' !in d.options.keyPrefix
    ensures Shares(c, d) <==> SamePair(c, d)
  {
    HasColon(c.options.keyPrefix, d.options.keyPrefix);
    HasColon(d.options.keyPrefix, c.options.keyPrefix);
  }

  lemma HasColon(p: string, q: string)
    ensures p + ":" <= q ==> ':' in q
  {
    if p + ":" <= q {
      assert q[|p|] == (p + ":")[|p|] == ':';
    }
  }

  /** The calls that share a window with `c`. */
  function Sharing(calls: seq<Call>, c: Call): (own: seq<Call>)
    ensures forall d | d in own :: d in calls && Shares(d, c)
  {
    if calls == [] then []
    else Sharing(calls[..|calls| - 1], c) + if Shares(calls[|calls| - 1], c) then [calls[|calls| - 1]] else []
  }

  /** The one window of a limiter with a single caller. */
  function SoloNext(w: Option<Window>, c: Call): Window {
    if w.Some? && w.value.expiresAtMs > c.now then Window(w.value.count + 1, w.value.expiresAtMs)
    else Window(1, c.now + if c.options.windowSeconds == 0 then 1 else c.options.windowSeconds * 1000)
  }

  function Solo(own: seq<Call>): Option<Window> {
    if own == [] then None else Some(SoloNext(Solo(own[..|own| - 1]), own[|own| - 1]))
  }

  function SoloVerdict(own: seq<Call>, c: Call): Verdict {
    var count := SoloNext(Solo(own), c).count;
    Verdict(count <= c.options.limit, count)
  }

  function WindowOf(w: Windows, key: string): Option<Window> {
    if key in w then Some(w[key]) else None
  }

  lemma CountedIsSolo(w: Windows, c: Call)
    ensures Counted(w, c) == SoloNext(WindowOf(w, WindowKey(c)), c)
  {
  }

  lemma SharingSnoc(calls: seq<Call>, c: Call)
    requires calls != []
    ensures
      var init, d := calls[..|calls| - 1], calls[|calls| - 1];
      && (Shares(d, c) ==> Solo(Sharing(calls, c)) == Some(SoloNext(Solo(Sharing(init, c)), d)))
      && (!Shares(d, c) ==> Sharing(calls, c) == Sharing(init, c))
  {
    hide Shares, SoloNext;
    var init, d := calls[..|calls| - 1], calls[|calls| - 1];
    assert (Sharing(init, c) + [d])[..|Sharing(init, c)|] == Sharing(init, c);
    assert Sharing(init, c) + [] == Sharing(init, c);
  }

  lemma {:induction false} PlainIsSolo(calls: seq<Call>, c: Call)
    ensures WindowOf(Plain(calls), WindowKey(c)) == Solo(Sharing(calls, c))
  {
    if calls != [] {
      var init, d := calls[..|calls| - 1], calls[|calls| - 1];
      PlainIsSolo(init, c);
      SharesExactly(d, c);
      SharingSnoc(calls, c);
      CountedIsSolo(Plain(init), d);
      hide Shares, SoloNext, Solo, Sharing, Counted, WindowKey;
    }
  }

  /** A verdict depends on the calls that share its window and on no others, cleanup or not. */
  lemma OwnCallsOnly(calls: seq<Call>, c: Call, maxEntries: nat)
    requires Monotone(calls + [c])
    ensures VerdictOf(Local(calls, maxEntries), c) == SoloVerdict(Sharing(calls, c), c)
  {
    CleanupTransparent(calls, c, maxEntries);
    PlainIsSolo(calls, c);
  }

  lemma {:induction false} NoneSharing(calls: seq<Call>, c: Call)
    requires forall d | d in calls :: !Shares(d, c)
    ensures Sharing(calls, c) == []
  {
    if calls != [] {
      NoneSharing(calls[..|calls| - 1], c);
    }
  }

  /** A pair whose window nobody has used gets count 1. */
  lemma FirstCallCountsOne(calls: seq<Call>, c: Call, maxEntries: nat)
    requires Monotone(calls + [c]) && forall d | d in calls :: !Shares(d, c)
    ensures VerdictOf(Local(calls, maxEntries), c) == Verdict(1 <= c.options.limit, 1)
  {
    OwnCallsOnly(calls, c, maxEntries);
    NoneSharing(calls, c);
  }

  /** Of two calls at one moment the second counts 2 if they share a window, and 1 if not. */
  lemma InterfereExactly(d: Call, c: Call, maxEntries: nat)
    requires d.now == c.now
    ensures VerdictOf(Local([d], maxEntries), c).count == if Shares(d, c) then 2 else 1
  {
    OwnCallsOnly([d], c, maxEntries);
    assert [d][..0] == [];
    assert Sharing([d], c) == Sharing([], c) + if Shares(d, c) then [d] else [];
    assert Solo([d]) == Some(SoloNext(None, d));
    assert Sharing([], c) + [d] == [d] && Sharing([], c) + [] == Sharing([], c);
  }

  // ---- the local limiter is the Redis limiter

  /** Live windows and live counters correspond, key by key. */
  ghost predicate Mirrored(w: Windows, s: KeyValues, now: int) {
    forall k ::
      && (Live(s, RedisKey(k), now) <==> k in w && w[k].expiresAtMs > now)
      && (k in w && w[k].expiresAtMs > now ==>
            s[RedisKey(k)] == StoreEntry(Number(w[k].count), w[k].expiresAtMs) && w[k].count >= 1 && w[k].expiresAtMs != 0)
  }

  lemma RedisKeyInjective(j: string, k: string)
    requires RedisKey(j) == RedisKey(k)
    ensures j == k
  {
    assert RedisKey(j)[5..] == j && RedisKey(k)[5..] == k;
  }

  lemma MirroredAfter(w: Windows, s: KeyValues, c: Call)
    requires Mirrored(w, s, c.now) && c.options.windowSeconds >= 1 && c.now >= 0
    ensures Mirrored(w[WindowKey(c) := Counted(w, c)], RedisAfter(s, c), c.now)
    ensures VerdictOf(w, c) == RedisVerdict(s, c)
  {
    var key := WindowKey(c);
    var w', s' := w[key := Counted(w, c)], RedisAfter(s, c);
    forall k
      ensures (Live(s', RedisKey(k), c.now) <==> k in w' && w'[k].expiresAtMs > c.now)
      ensures k in w' && w'[k].expiresAtMs > c.now ==>
                s'[RedisKey(k)] == StoreEntry(Number(w'[k].count), w'[k].expiresAtMs) && w'[k].count >= 1 && w'[k].expiresAtMs != 0
    {
      if k != key {
        if RedisKey(k) == RedisKey(key) { RedisKeyInjective(k, key); }
        assert RedisKey(k) in s' <==> RedisKey(k) in s;
      }
    }
  }

  lemma MirroredLater(w: Windows, s: KeyValues, now: int, later: int)
    requires Mirrored(w, s, now) && now <= later
    requires forall k | k in s :: s[k].expiresAt != 0
    ensures Mirrored(w, s, later)
  {
    forall k
      ensures (Live(s, RedisKey(k), later) <==> k in w && w[k].expiresAtMs > later)
    {
      if Live(s, RedisKey(k), later) { assert Live(s, RedisKey(k), now); }
    }
  }

  ghost predicate WholeSeconds(calls: seq<Call>) {
    forall i | 0 <= i < |calls| :: calls[i].options.windowSeconds >= 1 && calls[i].now >= 0
  }

  lemma {:induction false} PlainMirrors(calls: seq<Call>, now: int)
    requires Monotone(calls) && WholeSeconds(calls) && (calls != [] ==> calls[|calls| - 1].now <= now)
    ensures Mirrored(Plain(calls), OverRedis(calls), now)
    ensures forall k | k in OverRedis(calls) :: OverRedis(calls)[k].expiresAt != 0
  {
    if calls != [] {
      var init, c := calls[..|calls| - 1], calls[|calls| - 1];
      PlainMirrors(init, c.now);
      assert Mirrored(Plain(init), OverRedis(init), c.now);
      MirroredAfter(Plain(init), OverRedis(init), c);
      MirroredLater(Plain(calls), OverRedis(calls), c.now, now);
    }
  }

  /**
   * For windows of at least a second, the local limiter and the Redis limiter
   * give the same verdict after any common sequence of checks, whatever keys,
   * limits and windows it mixed and whatever the cleanup removed.
   */
  lemma LocalMatchesRedis(calls: seq<Call>, c: Call, maxEntries: nat)
    requires Monotone(calls + [c]) && WholeSeconds(calls + [c])
    ensures VerdictOf(Local(calls, maxEntries), c) == RedisVerdict(OverRedis(calls), c)
  {
    assert forall i | 0 <= i < |calls| :: (calls + [c])[i] == calls[i];
    assert (calls + [c])[|calls|] == c;
    CleanupTransparent(calls, c, maxEntries);
    PlainMirrors(calls, c.now);
    MirroredAfter(Plain(calls), OverRedis(calls), c);
  }

  /** So the limiter over Redis, too, counts the calls that share a window and no others. */
  lemma RedisOwnCallsOnly(calls: seq<Call>, c: Call)
    requires Monotone(calls + [c]) && WholeSeconds(calls + [c])
    ensures RedisVerdict(OverRedis(calls), c) == SoloVerdict(Sharing(calls, c), c)
  {
    LocalMatchesRedis(calls, c, 0);
    OwnCallsOnly(calls, c, 0);
  }

  /** With a zero-second window they differ: the local one lasts a millisecond, the Redis one no time at all. */
  lemma ZeroWindowsDiffer(c: Call, maxEntries: nat)
    requires c.now > 0 && c.options.windowSeconds == 0
    ensures VerdictOf(Local([c], maxEntries), c).count == 2 && RedisVerdict(OverRedis([c]), c).count == 1
  {
    assert [c][..0] == [];
    assert forall i | 0 <= i < |[c] + [c]| :: ([c] + [c])[i] == c;
    CleanupTransparent([c], c, maxEntries);
    assert Plain([c]) == map[][WindowKey(c) := Window(1, c.now + 1)];
    assert OverRedis([c]) == RedisAfter(map[], c);
  }

  ghost predicate AllUse(calls: seq<Call>, o: Options) {
    forall i | 0 <= i < |calls| :: calls[i].options == o && calls[i].now >= 0
  }

  ghost predicate SameVerdict(calls: seq<Call>, c: Call, maxEntries: nat) {
    VerdictOf(Local(calls, maxEntries), c) == RedisVerdict(OverRedis(calls), c)
  }

  /** Under given options the two limiters agree on all sequences of checks if and only if the window is not empty. */
  lemma LimitersAgreeExactly(o: Options, maxEntries: nat)
    ensures (forall calls, c | Monotone(calls + [c]) && AllUse(calls + [c], o) :: SameVerdict(calls, c, maxEntries))
       <==> o.windowSeconds >= 1
  {
    if o.windowSeconds >= 1 {
      forall calls, c | Monotone(calls + [c]) && AllUse(calls + [c], o)
        ensures SameVerdict(calls, c, maxEntries)
      {
        assert WholeSeconds(calls + [c]);
        LocalMatchesRedis(calls, c, maxEntries);
      }
    } else {
      var c := Call(1, "", o);
      ZeroWindowsDiffer(c, maxEntries);
      assert Monotone([c] + [c]) && AllUse([c] + [c], o) && !SameVerdict([c], c, maxEntries);
    }
  }
}
