/**
 * The REST create among other clients: its cache lookup, insert, recovery and
 * cache write happen at different points of a run, with anyone's steps in
 * between. The cache stays right throughout, and the call answers as if it had
 * happened, without a cache, at the moment of its insert.
 */
module CacheRuns {
  import opened Prelude
  import opened Ranking
  import opened Store
  import opened Invariant
  import opened Steps
  import opened Runs
  import opened Leases
  import opened Histories
  import opened Processor
  import opened Redis
  import opened CreateMessage

  // ---- the cache along a run

  /** Entries vanish, by expiry or loss. */
  ghost predicate OnlyLoses(before: KeyValues, after: KeyValues) {
    forall key | key in after :: key in before && after[key] == before[key]
  }

  /** Some call writes the message it found in `messages` under its request `k`. */
  ghost predicate Writes(messages: Messages, before: KeyValues, after: KeyValues, k: Key, expiresAt: int) {
    ColonFree(k) && KeyTaken(messages, k) && after == Put(before, CacheKey(k), Json(Stored(messages, k)), expiresAt)
  }

  ghost predicate CacheMoves(states: seq<System>, before: KeyValues, after: KeyValues, j: nat)
    requires j < |states|
  {
    || OnlyLoses(before, after)
    || exists i, k, expiresAt :: 0 <= i <= j && Writes(states[i].db.messages, before, after, k, expiresAt)
  }

  /** The cache at each point of a run: empty at first; then it loses entries, or takes a message stored by then. */
  ghost predicate CacheRun(states: seq<System>, caches: seq<KeyValues>) {
    && |caches| == |states| && |states| > 0 && caches[0] == map[]
    && forall j | 0 < j < |caches| :: CacheMoves(states, caches[j - 1], caches[j], j)
  }

  lemma LosingStaysSound(before: KeyValues, after: KeyValues, messages: Messages)
    requires CacheSound(before, messages) && OnlyLoses(before, after)
    ensures CacheSound(after, messages)
  {
    hide Stored;
  }

  lemma WritingStaysSound(before: KeyValues, after: KeyValues, early: Db, late: Db, k: Key, expiresAt: int)
    requires CacheSound(before, late.messages) && Writes(early.messages, before, after, k, expiresAt)
    requires Linked(late) && Advances(early, late)
    ensures CacheSound(after, late.messages)
  {
    hide Linked, Advances, Stored, CacheSound;
    StoredIsFinal(early, late, k);
    CacheGains(before, late.messages, k, expiresAt);
  }

  /** At every point of every run every cache entry is the stored message of its request. */
  lemma {:induction false} CacheAlwaysSound(states: seq<System>, steps: seq<Step>, staleLockMs: nat, caches: seq<KeyValues>, j: nat)
    requires Run(states, steps, staleLockMs) && CacheRun(states, caches) && j < |caches|
    ensures CacheSound(caches[j], states[j].db.messages)
  {
    hide Init, Follows, Advances, Linked, Sequenced, RowsOk, TokensOk, CacheSound, OnlyLoses, Writes;
    if j == 0 {
      EmptyIsSound(states[0].db.messages);
    } else {
      CacheAlwaysSound(states, steps, staleLockMs, caches, j - 1);
      RunInvariant(states, steps, staleLockMs, j);
      RunAdvances(states, steps, staleLockMs, j - 1, j);
      CacheStaysSound(caches[j - 1], states[j - 1].db, states[j].db);
      assert CacheMoves(states, caches[j - 1], caches[j], j);
      if OnlyLoses(caches[j - 1], caches[j]) {
        LosingStaysSound(caches[j - 1], caches[j], states[j].db.messages);
      } else {
        var i, k, expiresAt :| 0 <= i <= j && Writes(states[i].db.messages, caches[j - 1], caches[j], k, expiresAt);
        RunAdvances(states, steps, staleLockMs, i, j);
        WritingStaysSound(caches[j - 1], caches[j], states[i].db, states[j].db, k, expiresAt);
      }
    }
  }

  lemma EmptyIsSound(messages: Messages)
    ensures CacheSound(map[], messages)
  {
  }

  // ---- one call

  /**
   * What a call of a member with a body answers when it looks in `cache`,
   * inserts into `insert`, and, if that meets a duplicate, looks it up in `find`.
   */
  ghost function Interleaved(cache: KeyValues, insert: Db, find: Db, input: Input, id: nat, createdAt: int, now: int)
    : Result<MessageDto, ServiceError>
  {
    var k := Key(input.senderId, if Given(input.requestId).Some? then Given(input.requestId).value else "");
    var cached := Lookup(cache, CacheKey(k), now);
    if Given(input.requestId).Some? && cached.Some? && cached.value.Json? then Ok(cached.value.message)
    else match Steps.RestCreate(insert, RowToCreate(input, id, createdAt))
      case Ok(after) => Ok(DtoOf(Uuid(id), after.messages[Uuid(id)]))
      case Err(e) =>
        if Given(input.requestId).None? || e != UniqueViolation then Err(DatabaseError(e))
        else if KeyTaken(find.messages, k) then Ok(Stored(find.messages, k))
        else Err(MessageNotFound)
  }

  /**
   * A call whose lookup, insert and recovery happen at points t0 <= t1 <= t2 of
   * a run, other clients acting in between, answers exactly as the call without
   * a cache does when it happens as a whole at t1.
   */
  lemma CallIsAtomicAtInsert(states: seq<System>, steps: seq<Step>, staleLockMs: nat, caches: seq<KeyValues>,
                             t0: nat, t1: nat, t2: nat,
                             members: set<(string, string)>, input: Input, id: nat, createdAt: int, now: int)
    requires Run(states, steps, staleLockMs) && CacheRun(states, caches) && t0 <= t1 <= t2 < |states|
    requires ':' !in input.senderId && input.body != "" && (input.senderId, input.chatId) in members
    requires input.chatId in states[t1].db.rooms && Uuid(id) !in states[t1].db.messages
    ensures Interleaved(caches[t0], states[t1].db, states[t2].db, input, id, createdAt, now)
         == Uncached(states[t1].db, members, input, id, createdAt).result
  {
    hide Init, Follows, Advances, Linked, Sequenced, RowsOk, TokensOk, Stored, Steps.RestCreate;
    if Given(input.requestId).Some? {
      var k := Key(input.senderId, Given(input.requestId).value);
      CacheAlwaysSound(states, steps, staleLockMs, caches, t0);
      RunInvariant(states, steps, staleLockMs, t1);
      RunInvariant(states, steps, staleLockMs, t2);
      RunAdvances(states, steps, staleLockMs, t0, t1);
      RunAdvances(states, steps, staleLockMs, t1, t2);
      RestViolation(states[t1].db, RowToCreate(input, id, createdAt));
      if KeyTaken(states[t0].db.messages, k) {
        StoredIsFinal(states[t0].db, states[t1].db, k);
      }
      if KeyTaken(states[t1].db.messages, k) {
        StoredIsFinal(states[t1].db, states[t2].db, k);
      }
    }
  }

  /** A created message is, at every later point, the stored message of its request, and so may be cached then. */
  lemma AnswerMayBeCached(states: seq<System>, steps: seq<Step>, staleLockMs: nat, i: nat, j: nat,
                          input: Input, id: nat, createdAt: int)
    requires Run(states, steps, staleLockMs) && i < j < |states| && Given(input.requestId).Some?
    requires Steps.RestCreate(states[i].db, RowToCreate(input, id, createdAt)).Ok?
    requires states[i + 1].db == Steps.RestCreate(states[i].db, RowToCreate(input, id, createdAt)).value
    ensures
      var k := Key(input.senderId, Given(input.requestId).value);
      && KeyTaken(states[j].db.messages, k)
      && Stored(states[j].db.messages, k) == DtoOf(Uuid(id), states[i + 1].db.messages[Uuid(id)])
  {
    hide Init, Follows, Advances, Linked, Sequenced, RowsOk, TokensOk, Stored;
    RunInvariant(states, steps, staleLockMs, i);
    RunInvariant(states, steps, staleLockMs, j);
    RunAdvances(states, steps, staleLockMs, i + 1, j);
    CreatedIsStored(states[i].db, input, id, createdAt);
    StoredIsFinal(states[i + 1].db, states[j].db, Key(input.senderId, Given(input.requestId).value));
  }

  /**
   * So is a recovered one: an insert that met a duplicate finds the stored
   * message whenever it looks, and that stays the request's message.
   */
  lemma RecoveredMayBeCached(states: seq<System>, steps: seq<Step>, staleLockMs: nat, i: nat, l: nat, j: nat,
                             input: Input, id: nat, createdAt: int)
    requires Run(states, steps, staleLockMs) && i <= l <= j < |states| && Given(input.requestId).Some?
    requires input.chatId in states[i].db.rooms && Uuid(id) !in states[i].db.messages
    requires Steps.RestCreate(states[i].db, RowToCreate(input, id, createdAt)) == Err(UniqueViolation)
    ensures
      var k := Key(input.senderId, Given(input.requestId).value);
      && KeyTaken(states[l].db.messages, k) && KeyTaken(states[j].db.messages, k)
      && Stored(states[j].db.messages, k) == Stored(states[l].db.messages, k)
  {
    hide Init, Follows, Advances, Linked, Sequenced, RowsOk, TokensOk, Stored, Steps.RestCreate;
    var k := Key(input.senderId, Given(input.requestId).value);
    RunInvariant(states, steps, staleLockMs, i);
    RunInvariant(states, steps, staleLockMs, l);
    RunInvariant(states, steps, staleLockMs, j);
    RunAdvances(states, steps, staleLockMs, i, l);
    RunAdvances(states, steps, staleLockMs, l, j);
    RestViolation(states[i].db, RowToCreate(input, id, createdAt));
    assert KeyTaken(states[i].db.messages, k);
    StoredIsFinal(states[i].db, states[l].db, k);
    StoredIsFinal(states[l].db, states[j].db, k);
  }
}
