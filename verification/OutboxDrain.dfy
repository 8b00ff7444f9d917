/** The outbox drain: claim, publish, and finish or fail each claimed row. */
module OutboxDrain {
  import opened Prelude
  import opened Ranking
  import opened Store
  import opened Invariant
  import opened Steps
  import opened Database
  import opened Processor

  datatype RoomEvent = RoomEvent(id: MessageId, message: MessageRow, origin: Option<string>)

  /** The Redis channel messages are fanned out on. */
  class EventPublisher {
    var events: seq<RoomEvent>

    /** Whether every publish reaches the server and its answer comes back. */
    const reliable: bool

    /** A publish that throws may have gone out all the same. */
    method Publish(e: RoomEvent) returns (ok: bool)
      modifies this`events
      ensures events == old(events) + [e] || (!ok && events == old(events))
      ensures reliable ==> ok
    {
      ok := *;
      ok := ok || reliable;
      var out: bool := *;
      if ok || out {
        events := events + [e];
      }
    }
  }

  /** The same writes, some of them, persisted before, now fanned out. */
  ghost predicate OnlyFannedOut(a: Writes, b: Writes) {
    b.Keys == a.Keys && forall k | k in a :: b[k] == a[k] || (a[k].status == PERSISTED && b[k] == a[k].(status := FANOUTED))
  }

  /** Nothing but outbox rows, and statuses of writes already persisted, changes in a drain. */
  ghost predicate DrainKeeps(a: Db, b: Db) {
    && b.users == a.users && b.rooms == a.rooms && b.messages == a.messages && b.outbox.Keys == a.outbox.Keys
    && OnlyFannedOut(a.writes, b.writes) && Advances(a, b)
  }

  lemma DrainKeepsTransitive(a: Db, b: Db, c: Db)
    requires DrainKeeps(a, b) && DrainKeeps(b, c)
    ensures DrainKeeps(a, c)
  {
    assert OnlyFannedOut(a.writes, c.writes) by {
      hide Advances;
      forall k | k in a.writes
        ensures c.writes[k] == a.writes[k] || (a.writes[k].status == PERSISTED && c.writes[k] == a.writes[k].(status := FANOUTED))
      {
        assert b.writes[k] == a.writes[k] || b.writes[k] == a.writes[k].(status := FANOUTED);
      }
    }
    AdvancesTransitive(a, b, c);
  }

  predicate Finished(row: OutboxRow) {
    row.status == PUBLISHED || row.status == FAILED
  }

  ghost predicate OthersUntouched(a: Outbox, b: Outbox, ids: set<MessageId>) {
    b.Keys == a.Keys && forall id | id in a && id !in ids :: b[id] == a[id]
  }

  /** What one claimed row comes to: published, or failed and due again one backoff after some time from `now` on. */
  ghost predicate Delivered(row: OutboxRow, attempts: nat, published: bool, now: int) {
    && row.attempts == attempts && row.lockedAt.None?
    && (if published then row.status == PUBLISHED
        else row.status == FAILED && row.nextAttemptAt.Some? && row.nextAttemptAt.value - RetryDelay(attempts) >= now)
  }

  /** The row is due again after one second a squared attempt, but within a minute. */
  ghost predicate FailedAt(before: OutboxRow, after: OutboxRow, attempts: nat, at: int) {
    var delay := if attempts == 0 then 1_000 else if attempts <= 7 then attempts * attempts * 1_000 else 60_000;
    after == before.(status := FAILED, nextAttemptAt := Some(at + delay), lockedAt := None)
  }

  /** `markOutboxFailed`, with the time it reads; when its answer is lost the row may have been updated or not. */
  method MarkOutboxFailed(db: MessageDatabase, id: MessageId, attempts: nat, at: int) returns (r: Result<bool, Failure>)
    requires db.Valid() && id in db.outbox
    modifies db
    ensures db.Valid() && DrainKeeps(old(db.Snapshot()), db.Snapshot())
    ensures OthersUntouched(old(db.outbox), db.outbox, {id}) && db.outbox[id].attempts == old(db.outbox)[id].attempts
    ensures r.Ok? ==> !r.value && FailedAt(old(db.outbox)[id], db.outbox[id], attempts, at)
    ensures db.outbox[id] == old(db.outbox)[id] || FailedAt(old(db.outbox)[id], db.outbox[id], attempts, at)
    ensures r.Err? ==> !db.reliable
  {
    hide Inv, Advances;
    AdvancesReflexive(db.Snapshot());
    var lost: bool := *;
    if lost && !db.reliable {
      return Err(Unavailable);
    }
    FailSteps(db.Snapshot(), id, attempts, at);
    db.UpdateOutboxFailed(id, attempts, at);
    lost := *;
    if lost && !db.reliable {
      return Err(Unavailable);
    }
    return Ok(false);
  }

  /**
   * One claimed row: publish the stored message, then finish the row or record
   * the failure. A finishing transaction whose answer is lost is recorded as a
   * failure too, whether it committed or not.
   */
  method DeliverRow(db: MessageDatabase, publisher: EventPublisher, id: MessageId, attempts: nat, message: MessageRow, now: int)
    returns (r: Result<bool, Failure>)
    requires db.Valid() && id in db.outbox
    modifies db, publisher
    ensures db.Valid() && DrainKeeps(old(db.Snapshot()), db.Snapshot())
    ensures OthersUntouched(old(db.outbox), db.outbox, {id}) && db.outbox[id].attempts == old(db.outbox)[id].attempts
    ensures r.Ok? && attempts == old(db.outbox)[id].attempts ==> Delivered(db.outbox[id], attempts, r.value, now)
    ensures r.Err? ==> !db.reliable
    ensures publisher.events == old(publisher.events)
         || publisher.events == old(publisher.events) + [RoomEvent(id, message, old(db.outbox)[id].origin)]
    ensures db.outbox[id].status == PUBLISHED && old(db.outbox)[id].status != PUBLISHED ==> publisher.events != old(publisher.events)
    ensures r == Ok(true) ==> publisher.events != old(publisher.events)
    ensures publisher.reliable && db.reliable ==> r == Ok(true)
  {
    hide Inv, Advances;
    var sent := publisher.Publish(RoomEvent(id, message, db.outbox[id].origin));
    var later :| now <= later;
    if !sent {
      r := MarkOutboxFailed(db, id, attempts, later);
      return;
    }
    var lost: bool := *;
    if lost && !db.reliable {
      var committed: bool := *;
      AdvancesReflexive(db.Snapshot());
      if committed {
        FinishSteps(db.Snapshot(), id);
        db.FinishOutbox(id);
      }
      ghost var between := db.Snapshot();
      r := MarkOutboxFailed(db, id, attempts, later);
      DrainKeepsTransitive(old(db.Snapshot()), between, db.Snapshot());
      return;
    }
    FinishSteps(db.Snapshot(), id);
    db.FinishOutbox(id);
    return Ok(true);
  }

  lemma ClaimedIdsMore(claimed: seq<(MessageId, nat)>, i: nat)
    requires i < |claimed|
    ensures ClaimedIds(claimed[..i + 1]) == ClaimedIds(claimed[..i]) + {claimed[i].0}
  {
    assert forall j | 0 <= j < i :: claimed[..i + 1][j] == claimed[..i][j];
    assert claimed[..i + 1][i] == claimed[i];
  }

  /** Events carry stored messages with the origins of their outbox rows. */
  ghost predicate Genuine(events: seq<RoomEvent>, messages: Messages, outbox: Outbox) {
    forall i | 0 <= i < |events| ::
      && events[i].id in messages && events[i].id in outbox
      && events[i].message == messages[events[i].id] && events[i].origin == outbox[events[i].id].origin
  }

  /** The events a drain adds are genuine and of claimed rows, at most one for each row. */
  ghost predicate FansOut(events: seq<RoomEvent>, messages: Messages, outbox: Outbox, ids: set<MessageId>) {
    && Genuine(events, messages, outbox)
    && (forall i | 0 <= i < |events| :: events[i].id in ids)
    && (forall i, j | 0 <= i < j < |events| :: events[i].id != events[j].id)
  }

  ghost predicate HasEvent(events: seq<RoomEvent>, id: MessageId) {
    exists i :: 0 <= i < |events| && events[i].id == id
  }

  /** Every row that ends PUBLISHED has been sent. */
  ghost predicate PublishedWereSent(events: seq<RoomEvent>, outbox: Outbox, ids: set<MessageId>) {
    forall id | id in ids && id in outbox && outbox[id].status == PUBLISHED :: HasEvent(events, id)
  }

  /** Every row is PUBLISHED, its write, if it was persisted, is fanned out, and it has been sent. */
  ghost predicate AllPublished(events: seq<RoomEvent>, before: Writes, after: Db, ids: set<MessageId>) {
    && (forall id | id in ids :: id in after.outbox && after.outbox[id].status == PUBLISHED && HasEvent(events, id))
    && (forall k | k in before && Stable(before[k].id) in ids && before[k].status == PERSISTED ::
          k in after.writes && after.writes[k].status == FANOUTED)
  }

  ghost function PublishedIn(outbox: Outbox, ids: set<MessageId>): set<MessageId> {
    set id | id in ids && id in outbox && outbox[id].status == PUBLISHED
  }

  /**
   * `drainMessageOutbox`: unless a statement throws, every row it claims ends
   * PUBLISHED, with its write fanned out, or FAILED with a later attempt due;
   * the result counts the published ones, and what goes out is what is stored.
   * When the database and the channel work, every row it claims is sent once
   * and ends PUBLISHED. A claim whose answer is lost, or a failed lookup, leaves
   * the rows claimed.
   */
  method DrainMessageOutbox(db: MessageDatabase, publisher: EventPublisher?, limit: nat, staleLockMs: nat, now: int)
    returns (r: Result<nat, Failure>, ghost ids: set<MessageId>)
    requires db.Valid()
    modifies db, publisher
    ensures db.Valid() && DrainKeeps(old(db.Snapshot()), db.Snapshot())
    ensures OthersUntouched(old(db.outbox), db.outbox, ids)
    ensures forall id | id in ids :: id in old(db.outbox) && Claimable(old(db.outbox)[id], now, staleLockMs)
    ensures publisher == null ==> r == Ok(0) && ids == {}
    ensures db.reliable ==> r.Ok?
    ensures publisher != null && db.reliable && db.alone ==>
              |ids| == limit || forall id | id in old(db.outbox) && Claimable(old(db.outbox)[id], now, staleLockMs) :: id in ids
    ensures |ids| <= limit && (db.alone ==> OldestFirst(old(db.outbox), db.place, ids, staleLockMs, now))
    ensures r.Ok? ==> r.value == |PublishedIn(db.outbox, ids)|
    ensures r.Ok? ==> forall id | id in ids ::
              Delivered(db.outbox[id], old(db.outbox)[id].attempts + 1, db.outbox[id].status == PUBLISHED, now)
    ensures publisher != null ==>
              && old(publisher.events) <= publisher.events
              && var added := publisher.events[|old(publisher.events)|..];
              && FansOut(added, db.messages, db.outbox, ids)
              && PublishedWereSent(added, db.outbox, ids)
              && (publisher.reliable && db.reliable ==>
                    r == Ok(|ids|) && |added| == |ids| && AllPublished(added, old(db.writes), db.Snapshot(), ids))
  {
    hide Inv, Advances, Claimable, FansOut, PublishedWereSent, AllPublished, Finished;
    ghost var start := db.Snapshot();
    ids := {};
    AdvancesReflexive(start);
    NothingSent(db.messages, db.outbox, start);
    assert publisher != null ==> publisher.events[|publisher.events|..] == [];
    if publisher == null {
      assert PublishedIn(db.outbox, {}) == {};
      return Ok(0), ids;
    }
    var lost: bool := *;
    if lost && !db.reliable {
      return Err(Unavailable), ids;
    }
    var claimed := db.ClaimOutbox(limit, staleLockMs, now);
    ids := ClaimedIds(claimed);
    ClaimSteps(start, ids, now);
    ClaimedCount(claimed);
    // The claim's answer may be lost, or the lookup that comes next may fail.
    lost := *;
    if lost && !db.reliable {
      NothingSentYet(start, ids, now);
      return Err(Unavailable), ids;
    }
    r := DeliverClaimed(db, publisher, claimed, now);
    SameOrigins(publisher.events[|old(publisher.events)|..], ClaimRows(start, ids, now), db.Snapshot(), ids);
    DrainKeepsTransitive(start, ClaimRows(start, ids, now), db.Snapshot());
    if publisher.reliable && db.reliable {
      EveryRowPublished(start.writes, db.Snapshot(), publisher.events[|old(publisher.events)|..], ids);
    }
  }

  lemma SameOrigins(events: seq<RoomEvent>, before: Db, after: Db, ids: set<MessageId>)
    requires FansOut(events, before.messages, before.outbox, ids) && DrainKeeps(before, after)
    ensures FansOut(events, after.messages, after.outbox, ids)
  {
  }

  lemma ClaimedCount(claimed: seq<(MessageId, nat)>)
    requires forall i, j | 0 <= i < j < |claimed| :: claimed[i].0 != claimed[j].0
    ensures |ClaimedIds(claimed)| == |claimed|
  {
    AllDistinct(claimed);
  }

  lemma NothingSent(messages: Messages, outbox: Outbox, start: Db)
    ensures FansOut([], messages, outbox, {}) && PublishedWereSent([], outbox, {})
    ensures AllPublished([], start.writes, start, {})
  {
  }

  lemma NothingSentYet(start: Db, ids: set<MessageId>, now: int)
    ensures FansOut([], start.messages, ClaimRows(start, ids, now).outbox, ids)
    ensures PublishedWereSent([], ClaimRows(start, ids, now).outbox, ids)
  {
  }

  /** As many published rows as there are rows means all of them, each with its event and its write fanned out. */
  lemma EveryRowPublished(before: Writes, after: Db, events: seq<RoomEvent>, ids: set<MessageId>)
    requires Inv(after) && OnlyFannedOut(before, after.writes) && ids <= after.outbox.Keys
    requires |PublishedIn(after.outbox, ids)| == |ids| && PublishedWereSent(events, after.outbox, ids)
    ensures AllPublished(events, before, after, ids)
  {
    hide Inv;
    SubsetSize(PublishedIn(after.outbox, ids), ids);
    assert PublishedIn(after.outbox, ids) == ids;
    forall id | id in ids
      ensures after.outbox[id].status == PUBLISHED
    {
      assert id in PublishedIn(after.outbox, ids);
    }
    forall k | k in before && Stable(before[k].id) in ids && before[k].status == PERSISTED
      ensures k in after.writes && after.writes[k].status == FANOUTED
    {
      PublishedIsFannedOut(after, k);
    }
  }

  lemma PublishedIsFannedOut(db: Db, k: Key)
    requires Inv(db) && k in db.writes && Stable(db.writes[k].id) in db.outbox
    requires db.outbox[Stable(db.writes[k].id)].status == PUBLISHED
    ensures db.writes[k].status == FANOUTED
  {
    assert Queued(db, Stable(db.writes[k].id));
    hide Sequenced, UniqueRequests, Placed, Backed, Settled;
    var j :| j in db.writes && db.writes[j].id == db.writes[k].id && db.writes[j].status == FANOUTED;
  }

  /** How far the loop has come: which rows are done, how many were published, what went out. */
  ghost predicate Progress(start: Db, current: Db, done: set<MessageId>, published: nat, now: int) {
    && DrainKeeps(start, current)
    && OthersUntouched(start.outbox, current.outbox, done)
    && done <= start.outbox.Keys
    && published == |PublishedIn(current.outbox, done)|
    && forall id | id in done ::
         Delivered(current.outbox[id], start.outbox[id].attempts, current.outbox[id].status == PUBLISHED, now)
  }

  lemma OneMorePublished(before: Outbox, after: Outbox, done: set<MessageId>, id: MessageId, ok: bool)
    requires OthersUntouched(before, after, {id}) && id !in done && id in before
    requires ok <==> after[id].status == PUBLISHED
    ensures PublishedIn(after, done + {id}) == PublishedIn(before, done) + if ok then {id} else {}
    ensures |PublishedIn(after, done + {id})| == |PublishedIn(before, done)| + if ok then 1 else 0
  {
  }

  lemma OthersDelivered(start: Outbox, before: Outbox, after: Outbox, done: set<MessageId>, id: MessageId, now: int)
    requires OthersUntouched(before, after, {id}) && id !in done && done <= start.Keys && done <= before.Keys
    requires forall o | o in done :: Delivered(before[o], start[o].attempts, before[o].status == PUBLISHED, now)
    ensures forall o | o in done :: Delivered(after[o], start[o].attempts, after[o].status == PUBLISHED, now)
  {
    hide Delivered;
  }

  lemma OneMoreDelivered(start: Db, before: Db, after: Db, done: set<MessageId>, published: nat, id: MessageId, ok: bool, now: int)
    requires Progress(start, before, done, published, now)
    requires DrainKeeps(before, after) && OthersUntouched(before.outbox, after.outbox, {id})
    requires id !in done && id in start.outbox && Delivered(after.outbox[id], before.outbox[id].attempts, ok, now)
    ensures Progress(start, after, done + {id}, published + if ok then 1 else 0, now)
  {
    assert ok <==> after.outbox[id].status == PUBLISHED;
    hide Advances, Delivered, PublishedIn, DrainKeeps;
    DrainKeepsTransitive(start, before, after);
    OneMorePublished(before.outbox, after.outbox, done, id, ok);
    OthersDelivered(start.outbox, before.outbox, after.outbox, done, id, now);
  }

  lemma NoProgress(start: Db, events: seq<RoomEvent>, now: int)
    ensures Progress(start, start, {}, 0, now)
    ensures Sent(events, events, start, start, {})
  {
    AdvancesReflexive(start);
    assert PublishedIn(start.outbox, {}) == {};
    assert events[|events|..] == [];
  }

  /** The loop over the claimed rows. */
  method DeliverClaimed(db: MessageDatabase, publisher: EventPublisher, claimed: seq<(MessageId, nat)>, now: int)
    returns (r: Result<nat, Failure>)
    requires db.Valid()
    requires forall i | 0 <= i < |claimed| :: claimed[i].0 in db.outbox && claimed[i].1 == db.outbox[claimed[i].0].attempts
    requires forall i | 0 <= i < |claimed| :: db.outbox[claimed[i].0].status == PUBLISHING
    requires forall i, j | 0 <= i < j < |claimed| :: claimed[i].0 != claimed[j].0
    modifies db, publisher
    ensures db.Valid() && DrainKeeps(old(db.Snapshot()), db.Snapshot())
    ensures OthersUntouched(old(db.outbox), db.outbox, ClaimedIds(claimed))
    ensures db.reliable ==> r.Ok?
    ensures |ClaimedIds(claimed)| == |claimed|
    ensures r.Ok? ==> Progress(old(db.Snapshot()), db.Snapshot(), ClaimedIds(claimed), r.value, now)
    ensures Sent(old(publisher.events), publisher.events, old(db.Snapshot()), db.Snapshot(), ClaimedIds(claimed))
    ensures publisher.reliable && db.reliable ==>
              r == Ok(|claimed|) && |publisher.events| == |old(publisher.events)| + |claimed|
  {
    hide Inv, Advances, Delivered, Sent, PublishedIn;
    ghost var start, from := db.Snapshot(), publisher.events;
    var messages := db.FindMessages(ClaimedIds(claimed));
    EveryRowHasItsMessage(start, claimed);
    NoProgress(start, from, now);
    AllDistinct(claimed);
    assert ClaimedIds(claimed[..0]) == {};
    var published: nat := 0;
    for i := 0 to |claimed|
      invariant db.Valid() && Progress(start, db.Snapshot(), ClaimedIds(claimed[..i]), published, now)
      invariant Sent(from, publisher.events, start, db.Snapshot(), ClaimedIds(claimed[..i]))
      invariant publisher.reliable && db.reliable ==> published == i && |publisher.events| == |from| + i
    {
      var (id, attempts) := claimed[i];
      // Every outbox row has its message, so the lookup never misses.
      assert id in messages && messages[id] == start.messages[id];
      ClaimedIdsMore(claimed, i);
      ghost var before, events := db.Snapshot(), publisher.events;
      var answer := DeliverRow(db, publisher, id, attempts, messages[id], now);
      SentMore(from, events, publisher.events, start, before, db.Snapshot(), ClaimedIds(claimed[..i]), id);
      if answer.Err? {
        StillOthers(start, before, db.Snapshot(), ClaimedIds(claimed[..i]), ClaimedIds(claimed), id, published, now);
        SentAmongAll(from, publisher.events, start, db.Snapshot(), ClaimedIds(claimed[..i + 1]), claimed);
        return Err(answer.error);
      }
      OneMoreDelivered(start, before, db.Snapshot(), ClaimedIds(claimed[..i]), published, id, answer.value, now);
      if answer.value {
        published := published + 1;
      }
    }
    assert claimed[..|claimed|] == claimed;
    return Ok(published);
  }

  /** What went out since `from`: the stored messages and origins of rows done, once each, and of every one now PUBLISHED. */
  ghost predicate Sent(from: seq<RoomEvent>, events: seq<RoomEvent>, start: Db, current: Db, done: set<MessageId>) {
    && from <= events
    && FansOut(events[|from|..], start.messages, start.outbox, done)
    && PublishedWereSent(events[|from|..], current.outbox, done)
  }

  lemma SentMore(from: seq<RoomEvent>, before: seq<RoomEvent>, after: seq<RoomEvent>, start: Db, earlier: Db, later: Db,
                 done: set<MessageId>, id: MessageId)
    requires Sent(from, before, start, earlier, done) && id !in done
    requires id in start.messages && id in start.outbox && id in earlier.outbox && earlier.outbox[id] == start.outbox[id]
    requires earlier.outbox[id].status == PUBLISHING && OthersUntouched(earlier.outbox, later.outbox, {id})
    requires after == before || after == before + [RoomEvent(id, start.messages[id], start.outbox[id].origin)]
    requires later.outbox[id].status == PUBLISHED ==> after != before
    ensures Sent(from, after, start, later, done + {id})
  {
    var old', new' := before[|from|..], after[|from|..];
    if after != before {
      var e := RoomEvent(id, start.messages[id], start.outbox[id].origin);
      assert new' == old' + [e] && new'[|old'|] == e;
    }
    forall o | o in done + {id} && o in later.outbox && later.outbox[o].status == PUBLISHED
      ensures HasEvent(new', o)
    {
      if o != id {
        var i :| 0 <= i < |old'| && old'[i].id == o;
        assert new'[i].id == o;
      }
    }
  }

  lemma SentAmongAll(from: seq<RoomEvent>, events: seq<RoomEvent>, start: Db, current: Db, done: set<MessageId>,
                     claimed: seq<(MessageId, nat)>)
    requires Sent(from, events, start, current, done) && done <= ClaimedIds(claimed)
    requires forall id | id in ClaimedIds(claimed) && id in current.outbox && current.outbox[id].status == PUBLISHED :: id in done
    ensures Sent(from, events, start, current, ClaimedIds(claimed))
  {
  }

  lemma StillOthers(start: Db, before: Db, after: Db, done: set<MessageId>, ids: set<MessageId>, id: MessageId, published: nat, now: int)
    requires Progress(start, before, done, published, now) && done <= ids && id in ids
    requires DrainKeeps(before, after) && OthersUntouched(before.outbox, after.outbox, {id})
    ensures DrainKeeps(start, after) && OthersUntouched(start.outbox, after.outbox, ids)
  {
    AdvancesTransitive(start, before, after);
  }

  lemma {:induction false} AllDistinct(claimed: seq<(MessageId, nat)>)
    requires forall i, j | 0 <= i < j < |claimed| :: claimed[i].0 != claimed[j].0
    ensures |ClaimedIds(claimed)| == |claimed|
    ensures forall i | 0 <= i < |claimed| :: claimed[i].0 !in ClaimedIds(claimed[..i]) && ClaimedIds(claimed[..i]) <= ClaimedIds(claimed)
  {
    forall i | 0 <= i < |claimed|
      ensures claimed[i].0 !in ClaimedIds(claimed[..i]) && ClaimedIds(claimed[..i]) <= ClaimedIds(claimed)
    {
      assert forall j | 0 <= j < i :: claimed[..i][j] == claimed[j];
    }
    if claimed == [] {
      assert ClaimedIds(claimed) == {};
    } else {
      var n := |claimed| - 1;
      AllDistinct(claimed[..n]);
      ClaimedIdsMore(claimed, n);
      assert claimed[..n + 1] == claimed;
    }
  }

  lemma EveryRowHasItsMessage(db: Db, claimed: seq<(MessageId, nat)>)
    requires Inv(db) && forall i | 0 <= i < |claimed| :: claimed[i].0 in db.outbox
    ensures forall i | 0 <= i < |claimed| :: claimed[i].0 in db.messages
  {
    forall i | 0 <= i < |claimed|
      ensures claimed[i].0 in db.messages
    {
      assert Queued(db, claimed[i].0);
    }
  }
}
