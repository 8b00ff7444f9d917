/**
 * Reading a room's history page by page: the newest rows from the messages and
 * the pending writes before a cursor, merged, and the walk that passes the
 * last id of each page to the next call.
 */
module Paging {
  import opened Prelude
  import opened Ranking
  import opened Store
  import opened Invariant
  import opened Steps
  import opened Redis
  import opened CreateMessage
  import opened Newest

  // ---- what there is to see

  function StoredIn(db: Db, roomId: string): set<Shown> {
    set id | id in db.messages && db.messages[id].roomId == roomId :: Shown(DtoOf(id, db.messages[id]), false)
  }

  function PendingDto(k: Key, w: WriteRow): MessageDto {
    MessageDto(Stable(w.id), w.roomId, k.senderId, w.content, w.acceptedAt)
  }

  function PendingIn(db: Db, roomId: string): set<Shown> {
    set k | k in db.writes && db.writes[k].roomId == roomId && db.writes[k].status == PENDING ::
      Shown(PendingDto(k, db.writes[k]), true)
  }

  /** The columns of a stored message. */
  predicate IsMessage(d: MessageDto, m: MessageRow, roomId: string) {
    d.chatId == roomId == m.roomId && d.senderId == m.senderId && d.body == m.content && d.createdAt == m.createdAt
  }

  /** The columns of a write that is still pending. */
  predicate IsPendingWrite(d: MessageDto, k: Key, w: WriteRow, roomId: string) {
    && w.status == PENDING && d.id == Stable(w.id) && d.chatId == roomId == w.roomId
    && d.senderId == k.senderId && d.body == w.content && d.createdAt == w.acceptedAt
  }

  /** A row to show is a message of the room, or a pending write of it, column by column. */
  ghost predicate FromTables(x: Shown, messages: Messages, writes: Writes, roomId: string) {
    if x.pending then exists k :: k in writes && IsPendingWrite(x.message, k, writes[k], roomId)
    else x.message.id in messages && IsMessage(x.message, messages[x.message.id], roomId)
  }

  /** The rows of the two sources are exactly the room's messages and its pending writes. */
  lemma SourcesExactly(messages: Db, writes: Db, roomId: string, x: Shown)
    ensures x in StoredIn(messages, roomId) <==> !x.pending && FromTables(x, messages.messages, writes.writes, roomId)
    ensures x in PendingIn(writes, roomId) <==> x.pending && FromTables(x, messages.messages, writes.writes, roomId)
  {
    if !x.pending && FromTables(x, messages.messages, writes.writes, roomId) {
      assert x == Shown(DtoOf(x.message.id, messages.messages[x.message.id]), false);
    }
    if x.pending && FromTables(x, messages.messages, writes.writes, roomId) {
      var k :| k in writes.writes && IsPendingWrite(x.message, k, writes.writes[k], roomId);
      assert x == Shown(PendingDto(k, writes.writes[k]), true);
    }
  }

  /** Every stored and pending message of the room, once. */
  ghost function History(db: Db, roomId: string): set<Shown> {
    Union(StoredIn(db, roomId), PendingIn(db, roomId))
  }

  /** The rows strictly older than the cursor. */
  ghost function OlderThan(rows: set<Shown>, before: Option<int>): set<Shown> {
    set x | x in rows && (before.Some? ==> x.At() < before.value)
  }

  lemma SourcesAreSound(db: Db, roomId: string)
    requires Linked(db)
    ensures TwoSources(StoredIn(db, roomId), PendingIn(db, roomId))
    ensures forall m, p | m in StoredIn(db, roomId) && p in PendingIn(db, roomId) :: m.Id() != p.Id()
  {
    forall m, p | m in StoredIn(db, roomId) && p in PendingIn(db, roomId)
      ensures m.Id() != p.Id()
    {
      assert m.Id().Stable? ==> Backed(db, m.Id());
    }
  }

  /**
   * The page reads messages and pending writes separately. Even when one read
   * sees later tables than the other, a message and a pending copy of it carry
   * the same time.
   */
  lemma CopiesAgreeAcrossReads(early: Db, late: Db, roomId: string)
    requires Linked(early) && Linked(late) && Advances(early, late)
    ensures TwoSources(StoredIn(late, roomId), PendingIn(early, roomId))
    ensures TwoSources(StoredIn(early, roomId), PendingIn(late, roomId))
  {
    SourcesAreSound(early, roomId);
    SourcesAreSound(late, roomId);
    forall m, p | m in StoredIn(late, roomId) && p in PendingIn(early, roomId) && m.Id() == p.Id()
      ensures m.At() == p.At()
    {
      var k :| k in early.writes && p == Shown(PendingDto(k, early.writes[k]), true);
      assert WriteAdvances(early.writes[k], late.writes[k]);
      assert Backed(late, m.Id());
    }
    forall m, p | m in StoredIn(early, roomId) && p in PendingIn(late, roomId)
      ensures m.Id() != p.Id()
    {
      assert m.Id() in late.messages && (m.Id().Stable? ==> Backed(late, m.Id()));
    }
  }

  lemma OlderSources(stored: set<Shown>, pending: set<Shown>, before: Option<int>)
    requires TwoSources(stored, pending)
    ensures TwoSources(OlderThan(stored, before), OlderThan(pending, before))
    ensures Union(OlderThan(stored, before), OlderThan(pending, before)) == OlderThan(Union(stored, pending), before)
  {
  }

  // ---- one page

  /** ORDER BY time DESC LIMIT: ties fall as the database likes. */
  method NewestRows(rows: set<Shown>, limit: nat) returns (page: seq<Shown>)
    ensures NewestOf(rows, limit, page)
  {
    page := [];
    var rest := rows;
    while rest != {} && |page| < limit
      invariant rest <= rows && |page| <= limit
      invariant forall x :: x in page <==> x in rows && x !in rest
      invariant Distinct(page) && Descending(page)
      invariant forall x, y | x in rest && y in page :: x.At() <= y.At()
      decreases |rest|
    {
      var x := NewestExists(rest);
      page := page + [x];
      rest := rest - {x};
    }
  }

  method NewestExists(rows: set<Shown>) returns (newest: Shown)
    requires rows != {}
    ensures newest in rows && forall y | y in rows :: y.At() <= newest.At()
  {
    newest :| newest in rows;
    var rest := rows - {newest};
    while rest != {}
      invariant newest in rows && rest <= rows
      invariant forall y | y in rows && y !in rest :: y.At() <= newest.At()
      decreases |rest|
    {
      var x :| x in rest;
      rest := rest - {x};
      if x.At() > newest.At() {
        newest := x;
      }
    }
  }

  /** The time of the row a cursor names: a message's, else a write's, else none. */
  function CursorTime(db: Db, beforeMessageId: Option<MessageId>): Option<int>
    requires UniqueWriteIds(db.writes)
  {
    if beforeMessageId.None? then None
    else if beforeMessageId.value in db.messages then Some(db.messages[beforeMessageId.value].createdAt)
    else if exists k :: k in db.writes && Stable(db.writes[k].id) == beforeMessageId.value then
      var k :| k in db.writes && Stable(db.writes[k].id) == beforeMessageId.value;
      Some(db.writes[k].acceptedAt)
    else None
  }

  /** A cursor that names no row is no cursor; one that names a row stands for its time, a message's before a write's. */
  lemma CursorExactly(db: Db, id: MessageId)
    requires UniqueWriteIds(db.writes)
    ensures CursorTime(db, None) == None
    ensures id in db.messages ==> CursorTime(db, Some(id)) == Some(db.messages[id].createdAt)
    ensures id !in db.messages ==>
              (forall k | k in db.writes && id == Stable(db.writes[k].id) :: CursorTime(db, Some(id)) == Some(db.writes[k].acceptedAt))
    ensures id !in db.messages && (forall k | k in db.writes :: id != Stable(db.writes[k].id)) ==> CursorTime(db, Some(id)) == None
  {
  }

  /** 50 unless asked otherwise, never more than 100. */
  function PageSize(limit: Option<nat>): (size: nat)
    ensures 1 <= size <= 100
    ensures limit.Some? && 1 <= limit.value <= 100 ==> size == limit.value
    ensures limit.Some? && limit.value > 100 ==> size == 100
    ensures limit == None || limit == Some(0) ==> size == 50
  {
    var asked := if limit.None? || limit.value == 0 then 50 else limit.value;
    if asked > 100 then 100 else asked
  }

  /** The merge, sort and cut of the two query results. */
  method MergePages(messages: seq<Shown>, pendingWrites: seq<Shown>, pageSize: nat) returns (page: seq<Shown>)
    ensures page == Merged(messages, pendingWrites, |pendingWrites|, pageSize)
  {
    var merged := messages;
    var ids := Ids(messages);
    for i := 0 to |pendingWrites|
      invariant merged == messages + Unseen(Ids(messages), pendingWrites[..i])
      invariant ids == Ids(messages)
    {
      assert pendingWrites[..i + 1][..i] == pendingWrites[..i];
      if pendingWrites[i].Id() !in ids {
        merged := merged + [pendingWrites[i]];
      }
    }
    assert pendingWrites[..|pendingWrites|] == pendingWrites;
    return Take(SortDescending(merged), pageSize);
  }

  /** What a page shows from: messages of one moment and pending writes of another. */
  ghost function SeenBy(messages: Db, writes: Db, roomId: string): set<Shown> {
    Union(StoredIn(messages, roomId), PendingIn(writes, roomId))
  }

  /** Two moments of one run, in either order. */
  ghost predicate OneRun(a: Db, b: Db) {
    Linked(a) && Linked(b) && (Advances(a, b) || Advances(b, a))
  }

  lemma ReadsAreSound(messages: Db, writes: Db, roomId: string)
    requires OneRun(messages, writes)
    ensures TwoSources(StoredIn(messages, roomId), PendingIn(writes, roomId))
  {
    hide Linked, Advances, TwoSources;
    if Advances(writes, messages) {
      CopiesAgreeAcrossReads(writes, messages, roomId);
    } else {
      CopiesAgreeAcrossReads(messages, writes, roomId);
    }
  }

  /**
   * `getMessages`, its cursor, messages and pending writes read at moments of
   * their own: the newest rows before the cursor of all that the reads saw.
   */
  method GetMessages(cursors: Db, messages: Db, writes: Db, members: set<(string, string)>, userId: string, chatId: string,
                     beforeMessageId: Option<MessageId>, limit: Option<nat>)
      returns (r: Result<seq<Shown>, ServiceError>)
    requires Linked(cursors) && OneRun(messages, writes)
    ensures r.Err? <==> (userId, chatId) !in members
    ensures r.Err? ==> r.error == NotAMember
    ensures r.Ok? ==>
              NewestOf(OlderThan(SeenBy(messages, writes, chatId), CursorTime(cursors, beforeMessageId)), PageSize(limit), r.value)
    ensures r.Ok? ==> forall x | x in r.value :: FromTables(x, messages.messages, writes.writes, chatId)
  {
    if (userId, chatId) !in members {
      return Err(NotAMember);
    }
    var before := CursorTime(cursors, beforeMessageId);
    var stored := set x | x in StoredIn(messages, chatId) && (before.Some? ==> x.At() < before.value);
    var pending := set x | x in PendingIn(writes, chatId) && (before.Some? ==> x.At() < before.value);
    var storedRows := NewestRows(stored, PageSize(limit));
    var pendingWrites := NewestRows(pending, PageSize(limit));
    var page := MergePages(storedRows, pendingWrites, PageSize(limit));
    hide Linked, OneRun, NewestOf, TwoSources, StoredIn, PendingIn, Merged;
    ReadsAreSound(messages, writes, chatId);
    assert stored == OlderThan(StoredIn(messages, chatId), before) && pending == OlderThan(PendingIn(writes, chatId), before);
    OlderSources(StoredIn(messages, chatId), PendingIn(writes, chatId), before);
    TwoSourceNewest(stored, pending, storedRows, pendingWrites, PageSize(limit));
    PageFromTables(messages, writes, chatId, before, PageSize(limit), page);
    return Ok(page);
  }

  lemma PageFromTables(messages: Db, writes: Db, roomId: string, before: Option<int>, k: nat, page: seq<Shown>)
    requires NewestOf(OlderThan(SeenBy(messages, writes, roomId), before), k, page)
    ensures forall x | x in page :: FromTables(x, messages.messages, writes.writes, roomId)
  {
    hide FromTables, StoredIn, PendingIn;
    forall x | x in page
      ensures FromTables(x, messages.messages, writes.writes, roomId)
    {
      SourcesExactly(messages, writes, roomId, x);
    }
  }

  ghost predicate ShowsId(rows: set<Shown>, id: MessageId) {
    exists x :: x in rows && x.Id() == id
  }

  /** When the pending writes are read first, nothing that was there is missed. */
  lemma NothingMissed(early: Db, late: Db, roomId: string, x: Shown)
    requires Linked(early) && Linked(late) && Advances(early, late) && x in History(early, roomId)
    ensures ShowsId(SeenBy(late, early, roomId), x.Id())
  {
    if x in StoredIn(early, roomId) {
      assert x in StoredIn(late, roomId);
    } else {
      assert x in PendingIn(early, roomId);
      if m :| m in StoredIn(late, roomId) && m.Id() == x.Id() {
        assert m in SeenBy(late, early, roomId);
      } else {
        assert x in SeenBy(late, early, roomId);
      }
    }
  }

  lemma StillShown(early: Db, late: Db, roomId: string, k: Key)
    requires Linked(early) && WritesAdvance(early.writes, late.writes)
    requires k in early.writes && early.writes[k].roomId == roomId && early.writes[k].status == PENDING
    requires k in late.writes && late.writes[k].status == PENDING
    ensures ShowsId(SeenBy(early, late, roomId), Stable(early.writes[k].id))
  {
    SourcesAreSound(early, roomId);
    assert WriteAdvances(early.writes[k], late.writes[k]);
    var p := Shown(PendingDto(k, early.writes[k]), true);
    assert p == Shown(PendingDto(k, late.writes[k]), true);
    hide Linked;
    assert p in PendingIn(early, roomId) && p in PendingIn(late, roomId);
    assert forall m | m in StoredIn(early, roomId) :: m.Id() != p.Id();
    assert p in SeenBy(early, late, roomId);
  }

  lemma ShownIsPending(early: Db, late: Db, roomId: string, k: Key, x: Shown)
    requires Linked(early) && Linked(late) && WritesAdvance(early.writes, late.writes)
    requires k in early.writes && early.writes[k].roomId == roomId && early.writes[k].status == PENDING
    requires x in SeenBy(early, late, roomId) && x.Id() == Stable(early.writes[k].id)
    ensures k in late.writes && late.writes[k].status == PENDING
  {
    SourcesAreSound(early, roomId);
    assert WriteAdvances(early.writes[k], late.writes[k]);
    var p := Shown(PendingDto(k, early.writes[k]), true);
    assert p in PendingIn(early, roomId);
    assert p.Id() == x.Id();
    assert forall m | m in StoredIn(early, roomId) :: m.Id() != p.Id();
    assert x in PendingIn(late, roomId);
    var j :| j in late.writes && late.writes[j].status == PENDING && x == Shown(PendingDto(j, late.writes[j]), true);
    assert x.Id() == PendingDto(j, late.writes[j]).id == Stable(late.writes[j].id);
    assert late.writes[j].id == late.writes[k].id;
  }

  /** When the messages are read first, a pending write is missed exactly when it stops being pending in between. */
  lemma MissedExactly(early: Db, late: Db, roomId: string, k: Key)
    requires Linked(early) && Linked(late) && Advances(early, late)
    requires k in early.writes && early.writes[k].roomId == roomId && early.writes[k].status == PENDING
    ensures k in late.writes
    ensures ShowsId(SeenBy(early, late, roomId), Stable(early.writes[k].id)) <==> late.writes[k].status == PENDING
  {
    hide Linked, SeenBy, RoomsAdvance, MessagesAdvance, OutboxAdvances;
    if late.writes[k].status == PENDING {
      StillShown(early, late, roomId, k);
    }
    if ShowsId(SeenBy(early, late, roomId), Stable(early.writes[k].id)) {
      var x :| x in SeenBy(early, late, roomId) && x.Id() == Stable(early.writes[k].id);
      ShownIsPending(early, late, roomId, k, x);
    }
  }

  /** The cursor made of a page's last row stands for that row's time. */
  lemma CursorOfRow(db: Db, roomId: string, x: Shown)
    requires Linked(db) && x in History(db, roomId)
    ensures CursorTime(db, Some(x.Id())) == Some(x.At())
  {
    if x !in StoredIn(db, roomId) {
      assert x in PendingIn(db, roomId);
      var k :| k in db.writes && db.writes[k].status == PENDING && x == Shown(PendingDto(k, db.writes[k]), true);
      assert x.Id() in db.messages ==> Backed(db, x.Id());
    }
  }

  // ---- the walk

  function LastAt(page: seq<Shown>): int
    requires page != []
  {
    page[|page| - 1].At()
  }

  /** The cursor time of page `i`: none, then the last row of the page before. */
  function CursorAt(pages: seq<seq<Shown>>, i: nat): Option<int>
    requires i <= |pages| && forall j | 0 <= j < i :: pages[j] != []
  {
    if i == 0 then None else Some(LastAt(pages[i - 1]))
  }

  /** Pages read one after another, none of them empty. */
  ghost predicate Walk(rows: set<Shown>, k: nat, pages: seq<seq<Shown>>) {
    && (forall i | 0 <= i < |pages| :: pages[i] != [])
    && (forall i | 0 <= i < |pages| :: NewestOf(OlderThan(rows, CursorAt(pages, i)), k, pages[i]))
  }

  /** The next page would be empty. */
  ghost predicate Finished(rows: set<Shown>, k: nat, pages: seq<seq<Shown>>) {
    Walk(rows, k, pages) && NewestOf(OlderThan(rows, CursorAt(pages, |pages|)), k, [])
  }

  ghost predicate Visited(pages: seq<seq<Shown>>, x: Shown) {
    exists i :: 0 <= i < |pages| && x in pages[i]
  }

  lemma PagesNonEmpty(rows: set<Shown>, k: nat, pages: seq<seq<Shown>>)
    requires Walk(rows, k, pages)
    ensures forall i | 0 <= i < |pages| :: pages[i] != []
  {
  }

  lemma PageIsNewest(rows: set<Shown>, k: nat, pages: seq<seq<Shown>>, i: nat)
    requires Walk(rows, k, pages) && i < |pages|
    ensures (forall j | 0 <= j < i :: pages[j] != []) && NewestOf(OlderThan(rows, CursorAt(pages, i)), k, pages[i])
  {
  }

  lemma PageBelow(rows: set<Shown>, k: nat, pages: seq<seq<Shown>>, i: nat)
    requires Walk(rows, k, pages) && 0 < i < |pages|
    ensures forall y | y in pages[i] :: y.At() < LastAt(pages[i - 1])
  {
    assert NewestOf(OlderThan(rows, CursorAt(pages, i)), k, pages[i]);
  }

  lemma LastIsOldest(rows: set<Shown>, k: nat, pages: seq<seq<Shown>>, i: nat)
    requires Walk(rows, k, pages) && i < |pages|
    ensures forall y | y in pages[i] :: LastAt(pages[i]) <= y.At()
  {
    assert NewestOf(OlderThan(rows, CursorAt(pages, i)), k, pages[i]);
  }

  /** Every row of a later page is strictly older than every row of an earlier one: nothing repeats. */
  lemma {:induction false} PagesDescend(rows: set<Shown>, k: nat, pages: seq<seq<Shown>>, i: nat, j: nat, x: Shown, y: Shown)
    requires Walk(rows, k, pages) && i < j < |pages| && x in pages[i] && y in pages[j]
    ensures y.At() < x.At()
    decreases j
  {
    hide Walk, NewestOf, OlderThan;
    PagesNonEmpty(rows, k, pages);
    PageBelow(rows, k, pages, j);
    if i == j - 1 {
      LastIsOldest(rows, k, pages, i);
    } else {
      PagesDescend(rows, k, pages, i, j - 1, x, pages[j - 1][|pages[j - 1]| - 1]);
    }
  }

  /** No row shares its time with the last row of a page without being on that page. */
  ghost predicate NoSplitTies(rows: set<Shown>, pages: seq<seq<Shown>>) {
    forall i, x | 0 <= i < |pages| && pages[i] != [] && x in rows && x.At() == LastAt(pages[i]) :: x in pages[i]
  }

  lemma SkippedIsOlder(rows: set<Shown>, k: nat, page: seq<Shown>, x: Shown)
    requires NewestOf(rows, k, page) && page != [] && x in rows && x !in page
    ensures x.At() <= LastAt(page)
  {
    assert page[|page| - 1] in page;
  }

  lemma NotTied(rows: set<Shown>, pages: seq<seq<Shown>>, x: Shown, i: nat)
    requires NoSplitTies(rows, pages) && x in rows && !Visited(pages, x) && i < |pages| && pages[i] != []
    ensures x !in pages[i] && x.At() != LastAt(pages[i])
  {
  }

  lemma OlderAt(rows: set<Shown>, pages: seq<seq<Shown>>, x: Shown, i: nat)
    requires x in rows && i <= |pages| && forall j | 0 <= j < |pages| :: pages[j] != []
    ensures x in OlderThan(rows, CursorAt(pages, i)) <==> i == 0 || x.At() < LastAt(pages[i - 1])
  {
  }

  lemma {:induction false} UnvisitedIsOlder(rows: set<Shown>, k: nat, pages: seq<seq<Shown>>, x: Shown, i: nat)
    requires Walk(rows, k, pages) && NoSplitTies(rows, pages) && x in rows && !Visited(pages, x) && i <= |pages|
    ensures x in OlderThan(rows, CursorAt(pages, i))
  {
    hide Walk, NewestOf, NoSplitTies, Visited, OlderThan, CursorAt;
    PagesNonEmpty(rows, k, pages);
    OlderAt(rows, pages, x, i);
    if i > 0 {
      UnvisitedIsOlder(rows, k, pages, x, i - 1);
      PageIsNewest(rows, k, pages, i - 1);
      NotTied(rows, pages, x, i - 1);
      SkippedIsOlder(OlderThan(rows, CursorAt(pages, i - 1)), k, pages[i - 1], x);
    }
  }

  lemma EmptyPage(rows: set<Shown>, k: nat)
    requires NewestOf(rows, k, []) && k >= 1
    ensures rows == {}
  {
  }

  lemma UnsplitIsComplete(rows: set<Shown>, k: nat, pages: seq<seq<Shown>>, x: Shown)
    requires Finished(rows, k, pages) && k >= 1 && NoSplitTies(rows, pages) && x in rows
    ensures Visited(pages, x)
  {
    EmptyPage(OlderThan(rows, CursorAt(pages, |pages|)), k);
    hide Walk, NewestOf, CursorAt, NoSplitTies, Visited;
    if !Visited(pages, x) {
      UnvisitedIsOlder(rows, k, pages, x, |pages|);
    }
  }

  lemma CompleteIsUnsplit(rows: set<Shown>, k: nat, pages: seq<seq<Shown>>, i: nat, x: Shown)
    requires Walk(rows, k, pages) && i < |pages| && pages[i] != [] && Visited(pages, x) && x.At() == LastAt(pages[i])
    ensures x in pages[i]
  {
    hide Walk;
    var j :| 0 <= j < |pages| && x in pages[j];
    var last := pages[i][|pages[i]| - 1];
    if i < j { PagesDescend(rows, k, pages, i, j, last, x); }
    if j < i { PagesDescend(rows, k, pages, j, i, x, last); }
  }

  /** A finished walk has shown every row if and only if no page cut a tie short. */
  lemma CompleteUnsplit(rows: set<Shown>, k: nat, pages: seq<seq<Shown>>)
    requires Finished(rows, k, pages) && k >= 1
    ensures (forall x | x in rows :: Visited(pages, x)) <==> NoSplitTies(rows, pages)
  {
    hide Walk, NewestOf, CursorAt, Visited;
    if NoSplitTies(rows, pages) {
      forall x | x in rows
        ensures Visited(pages, x)
      {
        UnsplitIsComplete(rows, k, pages, x);
      }
    }
    if forall x | x in rows :: Visited(pages, x) {
      forall i, x | 0 <= i < |pages| && pages[i] != [] && x in rows && x.At() == LastAt(pages[i])
        ensures x in pages[i]
      {
        CompleteIsUnsplit(rows, k, pages, i, x);
      }
    }
  }

  // ---- when the walk is complete, from the rows alone

  function NewerThan(rows: set<Shown>, t: int): set<Shown> {
    set x | x in rows && x.At() > t
  }

  function AtLeast(rows: set<Shown>, t: int): set<Shown> {
    set x | x in rows && x.At() >= t
  }

  /** No multiple of the page size falls strictly inside a group of rows with one time. */
  ghost predicate TiesFit(rows: set<Shown>, k: nat)
    requires k >= 1
  {
    forall x | x in rows :: |NewerThan(rows, x.At())| / k == (|AtLeast(rows, x.At())| - 1) / k
  }

  /** The rows the cursor has passed. */
  function Passed(rows: set<Shown>, before: Option<int>): set<Shown> {
    if before.None? then {} else AtLeast(rows, before.value)
  }

  /** No page before page `i` cut a tie short. */
  ghost predicate UnsplitBefore(rows: set<Shown>, pages: seq<seq<Shown>>, i: nat)
    requires i <= |pages|
  {
    forall j, x | 0 <= j < i && pages[j] != [] && x in rows && x.At() == LastAt(pages[j]) :: x in pages[j]
  }

  ghost predicate PageUnsplit(rows: set<Shown>, page: seq<Shown>)
    requires page != []
  {
    forall x | x in rows && x.At() == LastAt(page) :: x in page
  }

  lemma Quotient(n: nat, k: nat, i: nat)
    requires k >= 1
    ensures i * k <= n < i * k + k <==> n / k == i
  {
    assert n == k * (n / k) + n % k;
    if n / k < i {
      assert (n / k + 1) * k <= i * k;
    } else if n / k > i {
      assert (i + 1) * k <= (n / k) * k;
    }
  }

  /** A page that cuts no tie short moves the cursor past exactly its own rows. */
  lemma PagePasses(rows: set<Shown>, before: Option<int>, k: nat, page: seq<Shown>)
    requires NewestOf(OlderThan(rows, before), k, page) && page != [] && PageUnsplit(rows, page)
    ensures |AtLeast(rows, LastAt(page))| == |Passed(rows, before)| + |page|
  {
    var last, shown := page[|page| - 1], set x | x in page;
    assert last in page;
    forall x | x in AtLeast(rows, LastAt(page)) && x !in Passed(rows, before)
      ensures x in page
    {
      assert x in OlderThan(rows, before);
      if x !in page { SkippedIsOlder(OlderThan(rows, before), k, page, x); }
    }
    forall x | x in page
      ensures x in AtLeast(rows, LastAt(page)) && x !in Passed(rows, before)
    {
      assert x in OlderThan(rows, before);
    }
    assert AtLeast(rows, LastAt(page)) == Passed(rows, before) + shown;
    DistinctSize(page, shown);
  }

  lemma PassedAt(rows: set<Shown>, pages: seq<seq<Shown>>, i: nat)
    requires i <= |pages| && forall j | 0 <= j < |pages| :: pages[j] != []
    ensures Passed(rows, CursorAt(pages, i)) == if i == 0 then {} else AtLeast(rows, LastAt(pages[i - 1]))
  {
  }

  /** A page followed by another is full. */
  lemma FollowedIsFull(rows: set<Shown>, k: nat, pages: seq<seq<Shown>>, i: nat)
    requires Walk(rows, k, pages) && i + 1 < |pages|
    ensures |pages[i]| == k
  {
    hide Walk;
    PagesNonEmpty(rows, k, pages);
    PageIsNewest(rows, k, pages, i);
    PageIsNewest(rows, k, pages, i + 1);
    PageBelow(rows, k, pages, i + 1);
    LastIsOldest(rows, k, pages, i);
    var x := pages[i + 1][0];
    assert x in pages[i + 1] && x in OlderThan(rows, CursorAt(pages, i + 1));
    assert x !in pages[i];
    OlderAt(rows, pages, x, i);
    if i > 0 {
      PageBelow(rows, k, pages, i);
      assert pages[i][0] in pages[i];
    }
  }

  /** As long as no tie was cut short, page `i` starts after exactly `i` full pages of rows. */
  lemma {:induction false} PageStartsAtMultiple(rows: set<Shown>, k: nat, pages: seq<seq<Shown>>, i: nat)
    requires Walk(rows, k, pages) && i < |pages| && UnsplitBefore(rows, pages, i)
    ensures |Passed(rows, CursorAt(pages, i))| == i * k
  {
    hide Walk, NewestOf, AtLeast, OlderThan, Passed, CursorAt;
    PagesNonEmpty(rows, k, pages);
    PassedAt(rows, pages, i);
    if i > 0 {
      PageStartsAtMultiple(rows, k, pages, i - 1);
      PageIsNewest(rows, k, pages, i - 1);
      assert PageUnsplit(rows, pages[i - 1]);
      PagePasses(rows, CursorAt(pages, i - 1), k, pages[i - 1]);
      FollowedIsFull(rows, k, pages, i - 1);
      assert (i - 1) * k + k == i * k;
    }
  }

  lemma SetOfPage(page: seq<Shown>)
    requires Distinct(page)
    ensures |set x | x in page| == |page|
  {
    DistinctSize(page, set x | x in page);
  }

  /** A row on a page that starts at a multiple and cuts no tie: its whole group lies within the page's stretch. */
  lemma GroupOnPage(rows: set<Shown>, before: Option<int>, k: nat, page: seq<Shown>, x: Shown, i: nat)
    requires NewestOf(OlderThan(rows, before), k, page) && page != [] && PageUnsplit(rows, page)
    requires |Passed(rows, before)| == i * k && x in page && k >= 1
    ensures |NewerThan(rows, x.At())| / k == i == (|AtLeast(rows, x.At())| - 1) / k
  {
    var n, m := NewerThan(rows, x.At()), AtLeast(rows, x.At());
    assert x in OlderThan(rows, before);
    SubsetSize(Passed(rows, before), n);
    assert n <= m && x in m && x !in n;
    SubsetSize(n, m);
    assert LastAt(page) <= x.At();
    var all := AtLeast(rows, LastAt(page));
    SubsetSize(m, all);
    PagePasses(rows, before, k, page);
    Quotient(|n|, k, i);
    Quotient(|m| - 1, k, i);
  }

  lemma NewerThanLast(rows: set<Shown>, before: Option<int>, k: nat, page: seq<Shown>)
    requires NewestOf(OlderThan(rows, before), k, page) && page != []
    ensures |Passed(rows, before)| <= |NewerThan(rows, LastAt(page))| < |Passed(rows, before)| + |page|
  {
    var last, shown := page[|page| - 1], set y | y in page;
    SetOfPage(page);
    assert last in page && last in OlderThan(rows, before);
    var passed, n := Passed(rows, before), NewerThan(rows, LastAt(page));
    forall y | y in n
      ensures y in passed + (shown - {last})
    {
      if y !in passed && y !in page {
        SkippedIsOlder(OlderThan(rows, before), k, page, y);
      }
    }
    SubsetSize(n, passed + (shown - {last}));
    SubsetSize(passed, n);
  }

  lemma CutTie(rows: set<Shown>, before: Option<int>, k: nat, page: seq<Shown>, x: Shown)
    requires NewestOf(OlderThan(rows, before), k, page) && page != []
    requires x in rows && x.At() == LastAt(page) && x !in page
    ensures |page| == k && |Passed(rows, before)| + k + 1 <= |AtLeast(rows, LastAt(page))|
  {
    var last, shown := page[|page| - 1], set y | y in page;
    SetOfPage(page);
    assert last in page && last in OlderThan(rows, before) && x in OlderThan(rows, before);
    var passed, m := Passed(rows, before), AtLeast(rows, LastAt(page));
    assert passed !! shown && x !in passed && x !in shown;
    assert forall y | y in page :: y in OlderThan(rows, before) && LastAt(page) <= y.At();
    assert passed + shown + {x} <= m;
    hide NewestOf, OlderThan, Passed, AtLeast;
    SubsetSize(passed + shown + {x}, m);
  }

  /** A page that starts at a multiple and cuts a tie short: a multiple falls inside that tie. */
  lemma SplitMisfits(rows: set<Shown>, before: Option<int>, k: nat, page: seq<Shown>, x: Shown, i: nat)
    requires NewestOf(OlderThan(rows, before), k, page) && page != [] && |Passed(rows, before)| == i * k && k >= 1
    requires x in rows && x.At() == LastAt(page) && x !in page
    ensures |NewerThan(rows, x.At())| / k != (|AtLeast(rows, x.At())| - 1) / k
  {
    NewerThanLast(rows, before, k, page);
    CutTie(rows, before, k, page, x);
    hide NewestOf, OlderThan, Passed, NewerThan, AtLeast;
    Quotient(|NewerThan(rows, x.At())|, k, i);
    Quotient(|AtLeast(rows, x.At())| - 1, k, i);
  }

  lemma UnsplitMore(rows: set<Shown>, pages: seq<seq<Shown>>, i: nat)
    requires i < |pages| && pages[i] != [] && UnsplitBefore(rows, pages, i) && PageUnsplit(rows, pages[i])
    ensures UnsplitBefore(rows, pages, i + 1)
  {
  }

  lemma FittingPage(rows: set<Shown>, before: Option<int>, k: nat, page: seq<Shown>, i: nat)
    requires NewestOf(OlderThan(rows, before), k, page) && page != [] && |Passed(rows, before)| == i * k && k >= 1
    requires TiesFit(rows, k)
    ensures PageUnsplit(rows, page)
  {
    hide NewestOf, OlderThan, Passed, NewerThan, AtLeast;
    forall x | x in rows && x.At() == LastAt(page)
      ensures x in page
    {
      if x !in page { SplitMisfits(rows, before, k, page, x, i); }
    }
  }

  lemma {:induction false} FittingNeverSplits(rows: set<Shown>, k: nat, pages: seq<seq<Shown>>, i: nat)
    requires Walk(rows, k, pages) && k >= 1 && TiesFit(rows, k) && i <= |pages|
    ensures UnsplitBefore(rows, pages, i)
  {
    hide Walk, NewestOf, CursorAt, OlderThan, Passed, TiesFit, PageUnsplit;
    if i > 0 {
      FittingNeverSplits(rows, k, pages, i - 1);
      hide UnsplitBefore;
      PagesNonEmpty(rows, k, pages);
      PageStartsAtMultiple(rows, k, pages, i - 1);
      PageIsNewest(rows, k, pages, i - 1);
      FittingPage(rows, CursorAt(pages, i - 1), k, pages[i - 1], i - 1);
      UnsplitMore(rows, pages, i - 1);
    }
  }

  lemma CompleteFits(rows: set<Shown>, k: nat, pages: seq<seq<Shown>>)
    requires Walk(rows, k, pages) && k >= 1 && NoSplitTies(rows, pages)
    requires forall x | x in rows :: Visited(pages, x)
    ensures TiesFit(rows, k)
  {
    hide Walk, NewestOf, CursorAt, OlderThan, Passed, NewerThan, AtLeast;
    PagesNonEmpty(rows, k, pages);
    forall x | x in rows
      ensures |NewerThan(rows, x.At())| / k == (|AtLeast(rows, x.At())| - 1) / k
    {
      assert Visited(pages, x);
      var i :| 0 <= i < |pages| && x in pages[i];
      assert UnsplitBefore(rows, pages, i);
      PageStartsAtMultiple(rows, k, pages, i);
      PageIsNewest(rows, k, pages, i);
      assert PageUnsplit(rows, pages[i]);
      GroupOnPage(rows, CursorAt(pages, i), k, pages[i], x, i);
    }
  }

  /**
   * Every finished walk has shown every row if and only if no multiple of the
   * page size falls strictly inside a group of rows that share one time: a
   * condition on the rows and the page size, whatever the walk chose. The
   * strict comparison skips the part of a group that a page boundary cuts off.
   */
  lemma CompleteExactly(rows: set<Shown>, k: nat, pages: seq<seq<Shown>>)
    requires Finished(rows, k, pages) && k >= 1
    ensures (forall x | x in rows :: Visited(pages, x)) <==> TiesFit(rows, k)
  {
    hide Walk, NewestOf, CursorAt, Visited;
    CompleteUnsplit(rows, k, pages);
    if TiesFit(rows, k) {
      FittingNeverSplits(rows, k, pages, |pages|);
    } else if forall x | x in rows :: Visited(pages, x) {
      CompleteFits(rows, k, pages);
    }
  }

  ghost predicate DistinctTimes(rows: set<Shown>) {
    forall x, y | x in rows && y in rows && x.At() == y.At() :: x == y
  }

  /** Rows with distinct times fit every page size. */
  lemma DistinctTimesFit(rows: set<Shown>, k: nat)
    requires k >= 1 && DistinctTimes(rows)
    ensures TiesFit(rows, k)
  {
    forall x | x in rows
      ensures |NewerThan(rows, x.At())| == |AtLeast(rows, x.At())| - 1
    {
      assert AtLeast(rows, x.At()) == NewerThan(rows, x.At()) + {x};
    }
  }

  /** Each page leaves strictly less to show. */
  lemma PageShrinks(rows: set<Shown>, before: Option<int>, k: nat, page: seq<Shown>)
    requires NewestOf(OlderThan(rows, before), k, page) && page != []
    ensures |OlderThan(rows, Some(LastAt(page)))| < |OlderThan(rows, before)|
  {
    var last := page[|page| - 1];
    assert last in page && last in OlderThan(rows, before) && last !in OlderThan(rows, Some(last.At()));
    assert OlderThan(rows, Some(last.At())) <= OlderThan(rows, before);
    SubsetSize(OlderThan(rows, Some(last.At())), OlderThan(rows, before));
  }

  lemma WalkOn(rows: set<Shown>, k: nat, pages: seq<seq<Shown>>, page: seq<Shown>)
    requires Walk(rows, k, pages) && NewestOf(OlderThan(rows, CursorAt(pages, |pages|)), k, page) && page != []
    ensures Walk(rows, k, pages + [page]) && CursorAt(pages + [page], |pages| + 1) == Some(LastAt(page))
  {
    hide NewestOf, OlderThan;
    var longer := pages + [page];
    forall i | 0 <= i < |longer|
      ensures longer[i] != [] && NewestOf(OlderThan(rows, CursorAt(longer, i)), k, longer[i])
    {
      assert CursorAt(longer, i) == CursorAt(pages, i);
    }
  }

  lemma UnionUniqueIds(stored: set<Shown>, pending: set<Shown>)
    requires TwoSources(stored, pending)
    ensures UniqueIds(Union(stored, pending))
  {
  }

  lemma OnPageOfRows(rows: set<Shown>, k: nat, pages: seq<seq<Shown>>, i: nat, a: nat)
    requires Walk(rows, k, pages) && i < |pages| && a < |pages[i]|
    ensures pages[i][a] in rows && Distinct(pages[i])
  {
    hide Walk;
    PageIsNewest(rows, k, pages, i);
    assert pages[i][a] in pages[i];
  }

  /** No id is shown twice in a walk. */
  lemma NoIdTwice(rows: set<Shown>, k: nat, pages: seq<seq<Shown>>, i: nat, a: nat, j: nat, b: nat)
    requires Walk(rows, k, pages) && UniqueIds(rows)
    requires i < |pages| && a < |pages[i]| && j < |pages| && b < |pages[j]| && pages[i][a].Id() == pages[j][b].Id()
    ensures i == j && a == b
  {
    hide Walk;
    OnPageOfRows(rows, k, pages, i, a);
    OnPageOfRows(rows, k, pages, j, b);
    var x, y := pages[i][a], pages[j][b];
    assert x == y && x in pages[i] && y in pages[j];
    if i < j { PagesDescend(rows, k, pages, i, j, x, y); }
    if j < i { PagesDescend(rows, k, pages, j, i, y, x); }
  }

  ghost predicate IdsOnce(pages: seq<seq<Shown>>) {
    forall i, a, j, b | 0 <= i < |pages| && 0 <= a < |pages[i]| && 0 <= j < |pages| && 0 <= b < |pages[j]|
      && pages[i][a].Id() == pages[j][b].Id() :: i == j && a == b
  }

  lemma WalkShowsIdsOnce(rows: set<Shown>, k: nat, pages: seq<seq<Shown>>)
    requires Walk(rows, k, pages) && UniqueIds(rows)
    ensures IdsOnce(pages)
  {
    hide Walk, UniqueIds;
    forall i, a, j, b | 0 <= i < |pages| && 0 <= a < |pages[i]| && 0 <= j < |pages| && 0 <= b < |pages[j]|
        && pages[i][a].Id() == pages[j][b].Id()
      ensures i == j && a == b
    {
      NoIdTwice(rows, k, pages, i, a, j, b);
    }
  }

  /**
   * Paging to the end: a client that keeps passing the last id back stops, and
   * has then walked the room's history without seeing an id twice; it has seen
   * every stored and pending message if and only if ties fit the page size, as
   * they do when times are distinct.
   */
  method ReadHistory(db: Db, members: set<(string, string)>, userId: string, chatId: string, limit: Option<nat>)
      returns (pages: seq<seq<Shown>>)
    requires Linked(db) && (userId, chatId) in members
    ensures Finished(History(db, chatId), PageSize(limit), pages)
    ensures IdsOnce(pages)
    ensures forall x | Visited(pages, x) :: FromTables(x, db.messages, db.writes, chatId)
    ensures (forall x | x in History(db, chatId) :: Visited(pages, x)) <==> TiesFit(History(db, chatId), PageSize(limit))
  {
    ghost var rows, k := History(db, chatId), PageSize(limit);
    SourcesAreSound(db, chatId);
    UnionUniqueIds(StoredIn(db, chatId), PendingIn(db, chatId));
    AdvancesReflexive(db);
    hide Linked, Advances, NewestOf, UniqueIds, IdsOnce, StoredIn, PendingIn;
    pages := [];
    var cursor: Option<MessageId> := None;
    var r := GetMessages(db, db, db, members, userId, chatId, cursor, limit);
    var page := r.value;
    while page != []
      invariant Walk(rows, k, pages)
      invariant NewestOf(OlderThan(rows, CursorAt(pages, |pages|)), k, page)
      decreases |OlderThan(rows, CursorAt(pages, |pages|))|
    {
      ghost var before := CursorAt(pages, |pages|);
      PageShrinks(rows, before, k, page);
      WalkOn(rows, k, pages, page);
      LastInHistory(rows, before, k, page);
      CursorOfRow(db, chatId, page[|page| - 1]);
      cursor := Some(page[|page| - 1].Id());
      pages := pages + [page];
      r := GetMessages(db, db, db, members, userId, chatId, cursor, limit);
      page := r.value;
    }
    WalkShowsIdsOnce(rows, k, pages);
    CompleteExactly(rows, k, pages);
    VisitedFromTables(db, chatId, k, pages);
  }

  lemma VisitedFromTables(db: Db, roomId: string, k: nat, pages: seq<seq<Shown>>)
    requires Walk(History(db, roomId), k, pages)
    ensures forall x | Visited(pages, x) :: FromTables(x, db.messages, db.writes, roomId)
  {
    hide FromTables, StoredIn, PendingIn;
    forall x | Visited(pages, x)
      ensures FromTables(x, db.messages, db.writes, roomId)
    {
      var i :| 0 <= i < |pages| && x in pages[i];
      PageFromTables(db, db, roomId, CursorAt(pages, i), k, pages[i]);
    }
  }

  /** Two messages of one room stored at the same moment. */
  function TwinDb(): Db {
    Db({"u"}, map["r" := RoomRow(3, 5)], map[],
       map[Uuid(0) := MessageRow("first", 5, "u", None, "r", 1), Uuid(1) := MessageRow("second", 5, "u", None, "r", 2)],
       map[])
  }

  function Twin(n: nat): Shown
    requires n < 2
  {
    Shown(DtoOf(Uuid(n), TwinDb().messages[Uuid(n)]), false)
  }

  lemma TwinDbIsSound()
    ensures Inv(TwinDb())
  {
    var db := TwinDb();
    assert forall id | id in db.messages :: Placed(db, id) && InRange(db, id);
    assert db.messages[Uuid(0)].roomSequence == 1 && db.messages[Uuid(1)].roomSequence == 2;
    assert HasSlot(db.messages, "r", 1) && HasSlot(db.messages, "r", 2);
  }

  lemma TwinHistory()
    ensures History(TwinDb(), "r") == {Twin(0), Twin(1)} && Twin(0) != Twin(1)
  {
    assert PendingIn(TwinDb(), "r") == {};
    assert Twin(0) in StoredIn(TwinDb(), "r") && Twin(1) in StoredIn(TwinDb(), "r");
  }

  /** With a page size of one, the walk over two messages of one moment ends with one of them unseen. */
  lemma TiedMessageIsLost() returns (pages: seq<seq<Shown>>)
    ensures Inv(TwinDb())
    ensures Finished(History(TwinDb(), "r"), PageSize(Some(1)), pages)
    ensures Twin(1) in History(TwinDb(), "r") && !Visited(pages, Twin(1))
  {
    TwinDbIsSound();
    TwinHistory();
    var rows := History(TwinDb(), "r");
    hide Inv, History;
    pages := [[Twin(0)]];
    assert NewestOf(OlderThan(rows, None), 1, [Twin(0)]);
    assert OlderThan(rows, Some(5)) == {};
  }

  lemma LastInHistory(rows: set<Shown>, before: Option<int>, k: nat, page: seq<Shown>)
    requires NewestOf(OlderThan(rows, before), k, page) && page != []
    ensures page[|page| - 1] in rows
  {
    assert page[|page| - 1] in page;
  }
}
