/**
 * The chat list: each chat's last message is the newest of what is stored and
 * what is still pending, and chats are listed by it, newest first.
 */
module ChatList {
  import opened Prelude
  import opened Store
  import opened Invariant
  import opened Newest
  import opened Paging

  datatype Chat = Chat(id: string, createdAt: int, last: Option<Shown>)

  /** The newest row of a set, if there is any. */
  ghost predicate LatestOf(rows: set<Shown>, x: Option<Shown>) {
    && (x.None? <==> rows == {})
    && (x.Some? ==> x.value in rows && forall y | y in rows :: y.At() <= x.value.At())
  }

  /** `newestMessage`: the left one on a tie. */
  function NewestMessage(left: Option<Shown>, right: Option<Shown>): Option<Shown> {
    if left.None? then right
    else if right.None? then left
    else if left.value.At() >= right.value.At() then left else right
  }

  /** The newer of the two sources' newest rows is the newest row of their union. */
  lemma NewestOfBoth(stored: set<Shown>, pending: set<Shown>, left: Option<Shown>, right: Option<Shown>)
    requires TwoSources(stored, pending) && LatestOf(stored, left) && LatestOf(pending, right)
    ensures LatestOf(Union(stored, pending), NewestMessage(left, right))
  {
    if left.Some? && right.Some? && left.value.At() < right.value.At() {
      assert right.value in Union(stored, pending);
    }
  }

  function InRoom(rows: seq<Shown>, roomId: string): set<Shown> {
    set x | x in rows && x.message.chatId == roomId
  }

  function FirstSeen(byRoom: map<string, Shown>, roomId: string): Option<Shown> {
    if roomId in byRoom then Some(byRoom[roomId]) else None
  }

  ghost predicate FirstOfEach(rows: seq<Shown>, byRoom: map<string, Shown>) {
    forall r :: LatestOf(InRoom(rows, r), FirstSeen(byRoom, r))
  }

  lemma OneMoreRow(rows: seq<Shown>, row: Shown, byRoom: map<string, Shown>)
    requires Descending(rows + [row]) && FirstOfEach(rows, byRoom)
    ensures FirstOfEach(rows + [row], if row.message.chatId in byRoom then byRoom else byRoom[row.message.chatId := row])
  {
    var after := if row.message.chatId in byRoom then byRoom else byRoom[row.message.chatId := row];
    forall i | 0 <= i < |rows|
      ensures rows[i].At() >= row.At()
    {
      assert (rows + [row])[i] == rows[i] && (rows + [row])[|rows|] == row;
    }
    forall r
      ensures LatestOf(InRoom(rows + [row], r), FirstSeen(after, r))
    {
      assert LatestOf(InRoom(rows, r), FirstSeen(byRoom, r));
      assert InRoom(rows + [row], r) == InRoom(rows, r) + if row.message.chatId == r then {row} else {};
    }
  }

  /** The first row of each room, which is its newest when rows come newest first. */
  method FirstPerRoom(pendingWrites: seq<Shown>) returns (byRoom: map<string, Shown>)
    requires Descending(pendingWrites)
    ensures FirstOfEach(pendingWrites, byRoom)
  {
    hide LatestOf, InRoom;
    byRoom := map[];
    NoRows();
    for i := 0 to |pendingWrites|
      invariant FirstOfEach(pendingWrites[..i], byRoom)
    {
      var write := pendingWrites[i];
      assert pendingWrites[..i + 1] == pendingWrites[..i] + [write];
      OneMoreRow(pendingWrites[..i], write, byRoom);
      if write.message.chatId in byRoom {
        continue;
      }
      byRoom := byRoom[write.message.chatId := write];
    }
    assert pendingWrites[..|pendingWrites|] == pendingWrites;
  }

  lemma NoRows()
    ensures FirstOfEach([], map[])
  {
  }

  // ---- the list

  function ShownAt(c: Chat): int {
    if c.last.Some? then c.last.value.At() else c.createdAt
  }

  function InsertChat(s: seq<Chat>, c: Chat): seq<Chat> {
    if s == [] || ShownAt(s[|s| - 1]) >= ShownAt(c) then s + [c] else InsertChat(s[..|s| - 1], c) + [s[|s| - 1]]
  }

  function SortChats(s: seq<Chat>): seq<Chat> {
    if s == [] then [] else InsertChat(SortChats(s[..|s| - 1]), s[|s| - 1])
  }

  ghost predicate NewestFirst(s: seq<Chat>) {
    forall i, j | 0 <= i < j < |s| :: ShownAt(s[i]) >= ShownAt(s[j])
  }

  /** A chat counts from its last message, or, without one, from its creation. */
  ghost predicate ListedBefore(a: Chat, b: Chat) {
    (if b.last.Some? then b.last.value.message.createdAt else b.createdAt)
    <= if a.last.Some? then a.last.value.message.createdAt else a.createdAt
  }

  lemma {:induction false} InsertChatSorts(s: seq<Chat>, c: Chat)
    requires NewestFirst(s)
    ensures NewestFirst(InsertChat(s, c)) && multiset(InsertChat(s, c)) == multiset(s) + multiset{c}
  {
    if s != [] && ShownAt(s[|s| - 1]) < ShownAt(c) {
      var init, last := s[..|s| - 1], s[|s| - 1];
      InsertChatSorts(init, c);
      assert s == init + [last];
      var front := InsertChat(init, c);
      forall i | 0 <= i < |front|
        ensures ShownAt(front[i]) >= ShownAt(last)
      {
        assert front[i] in multiset(front);
        assert front[i] in init || front[i] == c;
      }
    }
  }

  lemma {:induction false} SortChatsSorts(s: seq<Chat>)
    ensures NewestFirst(SortChats(s)) && multiset(SortChats(s)) == multiset(s)
  {
    if s != [] {
      var init, last := s[..|s| - 1], s[|s| - 1];
      SortChatsSorts(init);
      InsertChatSorts(SortChats(init), last);
      assert s == init + [last];
    }
  }

  /** The pending rows of the rooms asked for: ORDER BY acceptedAt DESC. */
  ghost predicate PendingRowsOf(db: Db, chats: seq<Chat>, rows: seq<Shown>) {
    && Descending(rows)
    && forall i | 0 <= i < |chats| :: InRoom(rows, chats[i].id) == PendingIn(db, chats[i].id)
  }

  /**
   * `attachPendingLatestMessages`: given chats with their newest stored
   * message, the same chats with the newest message of their whole history,
   * the most recent first.
   */
  method AttachPendingLatestMessages(db: Db, chats: seq<Chat>, pendingWrites: seq<Shown>) returns (listed: seq<Chat>, attached: seq<Chat>)
    requires Linked(db) && PendingRowsOf(db, chats, pendingWrites)
    requires forall i | 0 <= i < |chats| :: LatestOf(StoredIn(db, chats[i].id), chats[i].last)
    ensures |attached| == |chats| && forall i | 0 <= i < |chats| ::
              && attached[i].id == chats[i].id && attached[i].createdAt == chats[i].createdAt
              && LatestOf(History(db, chats[i].id), attached[i].last)
              && (attached[i].last.Some? ==> FromTables(attached[i].last.value, db.messages, db.writes, chats[i].id))
    ensures forall i, j | 0 <= i < j < |listed| :: ListedBefore(listed[i], listed[j])
    ensures multiset(listed) == multiset(attached)
  {
    hide Linked, LatestOf, StoredIn, PendingIn, FromTables;
    var pendingByRoom := FirstPerRoom(pendingWrites);
    attached := [];
    for i := 0 to |chats|
      invariant |attached| == i && forall j | 0 <= j < i ::
                  && attached[j].id == chats[j].id && attached[j].createdAt == chats[j].createdAt
                  && LatestOf(History(db, chats[j].id), attached[j].last)
    {
      var chat := chats[i];
      var pending := if chat.id in pendingByRoom then Some(pendingByRoom[chat.id]) else None;
      assert LatestOf(InRoom(pendingWrites, chat.id), FirstSeen(pendingByRoom, chat.id));
      SourcesAreSound(db, chat.id);
      NewestOfBoth(StoredIn(db, chat.id), PendingIn(db, chat.id), chat.last, pending);
      attached := attached + [chat.(last := NewestMessage(chat.last, pending))];
    }
    LastFromTables(db, chats, attached);
    listed := SortChats(attached);
    SortChatsSorts(attached);
  }

  lemma LastFromTables(db: Db, chats: seq<Chat>, attached: seq<Chat>)
    requires |attached| == |chats| && forall i | 0 <= i < |chats| :: LatestOf(History(db, chats[i].id), attached[i].last)
    ensures forall i | 0 <= i < |chats| && attached[i].last.Some? ::
              FromTables(attached[i].last.value, db.messages, db.writes, chats[i].id)
  {
    hide FromTables, StoredIn, PendingIn;
    forall i | 0 <= i < |chats| && attached[i].last.Some?
      ensures FromTables(attached[i].last.value, db.messages, db.writes, chats[i].id)
    {
      SourcesExactly(db, db, chats[i].id, attached[i].last.value);
    }
  }
}
