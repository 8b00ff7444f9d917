/**
 * The REST create with its idempotency cache: looked up before the tables,
 * filled after them, allowed to fail or expire at any time. The reference is
 * the same call without a cache.
 */
module CreateMessage {
  import opened Prelude
  import opened Ranking
  import opened Store
  import opened Invariant
  import opened Steps
  import opened Database
  import opened Processor
  import opened Redis

  const TTL_SECONDS: nat := 300

  /** `body` is the trimmed text. */
  datatype Input = Input(senderId: string, chatId: string, body: string, requestId: Option<string>)

  datatype ServiceError = BodyRequired | NotAMember | DatabaseError(cause: RestError) | MessageNotFound

  /** What a call returns, leaves in the tables, and announces to the room. */
  datatype Response = Response(result: Result<MessageDto, ServiceError>, db: Db, announced: bool)

  /** An empty request id counts as none. */
  function Given(requestId: Option<string>): Option<string> {
    if requestId == Some("") then None else requestId
  }

  function DtoOf(id: MessageId, m: MessageRow): MessageDto {
    MessageDto(id, m.roomId, m.senderId, m.content, m.createdAt)
  }

  /** The message stored for a request. */
  function Stored(messages: Messages, k: Key): MessageDto
    requires KeyTaken(messages, k)
  {
    DtoOf(MessageOf(messages, k), messages[MessageOf(messages, k)])
  }

  function RowToCreate(input: Input, id: nat, createdAt: int): RestMessage {
    RestMessage(id, input.senderId, input.chatId, input.body, Given(input.requestId), createdAt)
  }

  /** The call without a cache; `id` and `createdAt` are what the database would assign. */
  ghost function Uncached(db: Db, members: set<(string, string)>, input: Input, id: nat, createdAt: int): Response {
    if input.body == "" then Response(Err(BodyRequired), db, false)
    else if (input.senderId, input.chatId) !in members then Response(Err(NotAMember), db, false)
    else match RestCreate(db, RowToCreate(input, id, createdAt))
      case Ok(after) =>
        Response(Ok(DtoOf(Uuid(id), after.messages[Uuid(id)])), TouchRoom(after, input.chatId, createdAt), true)
      case Err(e) =>
        if Given(input.requestId).None? || e != UniqueViolation then Response(Err(DatabaseError(e)), db, false)
        else
          var k := Key(input.senderId, Given(input.requestId).value);
          if KeyTaken(db.messages, k) then Response(Ok(Stored(db.messages, k)), db, false)
          else Response(Err(MessageNotFound), db, false)
  }

  // ---- what a call comes to, column by column

  /** The sender's message with this request id, if the call gives one. */
  ghost predicate HasSent(messages: Messages, input: Input, mid: MessageId) {
    && mid in messages && messages[mid].senderId == input.senderId
    && input.requestId.Some? && input.requestId != Some("") && messages[mid].requestId == input.requestId
  }

  ghost predicate AlreadySent(messages: Messages, input: Input) {
    exists mid :: HasSent(messages, input, mid)
  }

  predicate MayPost(members: set<(string, string)>, input: Input) {
    input.body != "" && (input.senderId, input.chatId) in members
  }

  /** Nothing stands in the way of a new message. */
  ghost predicate Creates(db: Db, members: set<(string, string)>, input: Input, id: nat) {
    && MayPost(members, input) && input.chatId in db.rooms && input.senderId in db.users
    && Uuid(id) !in db.messages && !AlreadySent(db.messages, input)
  }

  /** The new message, last in its room, in the answer and in the tables; nothing else changes but the room's counter and time. */
  ghost predicate CreatedIn(db: Db, after: Db, input: Input, id: nat, createdAt: int, result: Result<MessageDto, ServiceError>)
    requires input.chatId in db.rooms
  {
    var room := db.rooms[input.chatId];
    && result == Ok(MessageDto(Uuid(id), input.chatId, input.senderId, input.body, createdAt))
    && after.messages == db.messages[Uuid(id) :=
         MessageRow(input.body, createdAt, input.senderId, if input.requestId == Some("") then None else input.requestId,
                    input.chatId, room.nextMessageSeq)]
    && after.rooms == db.rooms[input.chatId :=
         RoomRow(room.nextMessageSeq + 1, if room.lastMessageAt < createdAt then createdAt else room.lastMessageAt)]
    && after.users == db.users && after.writes == db.writes && after.outbox == db.outbox
  }

  /** The columns of the message a repeated request gets back. */
  ghost predicate Repeats(db: Db, input: Input, result: Result<MessageDto, ServiceError>) {
    && result.Ok? && HasSent(db.messages, input, result.value.id)
    && var m := db.messages[result.value.id];
       result.value == MessageDto(result.value.id, m.roomId, m.senderId, m.content, m.createdAt)
  }

  /** Which error a call gets when it neither creates nor repeats. */
  ghost function ErrorOf(db: Db, members: set<(string, string)>, input: Input, id: nat): ServiceError {
    if input.body == "" then BodyRequired
    else if (input.senderId, input.chatId) !in members then NotAMember
    else if input.chatId !in db.rooms then DatabaseError(RoomNotFound)
    else if Uuid(id) in db.messages then
      if input.requestId == None || input.requestId == Some("") then DatabaseError(UniqueViolation) else MessageNotFound
    else DatabaseError(ForeignKeyViolation)
  }

  /** A call creates and announces, or answers with the message its request already has, or fails and says why. */
  ghost predicate Answers(db: Db, members: set<(string, string)>, input: Input, id: nat, createdAt: int, r: Response) {
    if Creates(db, members, input, id) then r.announced && CreatedIn(db, r.db, input, id, createdAt, r.result)
    else
      && !r.announced && r.db == db
      && if MayPost(members, input) && input.chatId in db.rooms && AlreadySent(db.messages, input)
         then Repeats(db, input, r.result)
         else r.result == Err(ErrorOf(db, members, input, id))
  }

  lemma SentIsTaken(messages: Messages, input: Input)
    ensures AlreadySent(messages, input)
       <==> Given(input.requestId).Some? && KeyTaken(messages, Key(input.senderId, Given(input.requestId).value))
  {
    if Given(input.requestId).Some? {
      var k := Key(input.senderId, Given(input.requestId).value);
      assert forall mid | mid in messages :: HasKey(messages[mid], k) <==> HasSent(messages, input, mid);
    }
  }

  lemma UncachedAnswers(db: Db, members: set<(string, string)>, input: Input, id: nat, createdAt: int)
    requires Inv(db)
    ensures Answers(db, members, input, id, createdAt, Uncached(db, members, input, id, createdAt))
  {
    SentIsTaken(db.messages, input);
    if MayPost(members, input) && input.chatId in db.rooms {
      RestViolation(db, RowToCreate(input, id, createdAt));
    }
    hide Inv, AlreadySent, Conflicts;
    if Creates(db, members, input, id) {
      LaterOf(db.rooms[input.chatId].lastMessageAt, createdAt);
    }
  }

  lemma LaterOf(a: int, b: int)
    ensures MaxOf({a, b}) == if a < b then b else a
  {
    assert IsMax({a, b}, MaxOf({a, b}));
  }

  // ---- the cache

  /** `messageIdempotencyKey`. */
  function CacheKey(k: Key): string {
    "idempotency:message:" + FlatKey(k)
  }

  lemma CacheKeyInjective(j: Key, k: Key)
    requires ColonFree(j) && ColonFree(k) && CacheKey(j) == CacheKey(k)
    ensures j == k
  {
    assert CacheKey(j)[20..] == FlatKey(j) && CacheKey(k)[20..] == FlatKey(k);
    FlatKeyInjective(j, k);
  }

  /** Every cached entry is the stored message of its request. */
  ghost predicate CacheSound(s: KeyValues, messages: Messages) {
    forall k | ColonFree(k) && CacheKey(k) in s :: KeyTaken(messages, k) && s[CacheKey(k)].value == Json(Stored(messages, k))
  }

  lemma StoredIsFinal(db: Db, db': Db, k: Key)
    requires Linked(db') && Advances(db, db') && KeyTaken(db.messages, k)
    ensures KeyTaken(db'.messages, k) && Stored(db'.messages, k) == Stored(db.messages, k)
  {
    var id := MessageOf(db.messages, k);
    assert id in db'.messages && HasKey(db'.messages[id], k);
    assert HasKey(db'.messages[MessageOf(db'.messages, k)], k);
  }

  /** Whatever other clients do to the tables, and however long entries live, the cache stays right. */
  lemma CacheStaysSound(s: KeyValues, db: Db, db': Db)
    requires CacheSound(s, db.messages) && Linked(db') && Advances(db, db')
    ensures CacheSound(s, db'.messages)
    ensures forall now :: CacheSound(View(s, now), db'.messages)
  {
    hide Linked, Advances, Stored;
    forall k | ColonFree(k) && CacheKey(k) in s
      ensures KeyTaken(db'.messages, k) && s[CacheKey(k)].value == Json(Stored(db'.messages, k))
    {
      StoredIsFinal(db, db', k);
    }
  }

  lemma CacheGains(s: KeyValues, messages: Messages, k: Key, expiresAt: int)
    requires CacheSound(s, messages) && ColonFree(k) && KeyTaken(messages, k)
    ensures CacheSound(Put(s, CacheKey(k), Json(Stored(messages, k)), expiresAt), messages)
  {
    hide Stored;
    forall j | ColonFree(j) && j != k
      ensures CacheKey(j) != CacheKey(k)
    {
      if CacheKey(j) == CacheKey(k) { CacheKeyInjective(j, k); }
    }
  }

  /** `getCachedMessage`; failures read as misses. */
  method GetCachedMessage(redis: FakeRedis?, senderId: string, requestId: Option<string>, now: int, faulty: bool,
                          ghost messages: Messages)
      returns (cached: Option<MessageDto>)
    requires redis != null ==> CacheSound(redis.store, messages)
    requires ':' !in senderId
    modifies redis
    ensures redis != null ==> CacheSound(redis.store, messages)
    ensures cached.Some? ==>
              && redis != null && Given(requestId).Some?
              && KeyTaken(messages, Key(senderId, Given(requestId).value))
              && cached.value == Stored(messages, Key(senderId, Given(requestId).value))
    ensures redis != null && !faulty && Given(requestId).Some? ==>
              var key := "idempotency:message:" + senderId + ":" + Given(requestId).value;
              (if cached.Some? then Some(Json(cached.value)) else None) == Lookup(old(redis.store), key, now) == Lookup(redis.store, key, now)
  {
    hide Stored;
    if redis == null || requestId.None? || requestId.value == "" {
      return None;
    }
    var failed: bool := *;
    if faulty && failed {
      return None;
    }
    var k := Key(senderId, requestId.value);
    KeyText(k);
    var raw := redis.Get(CacheKey(k), now);
    return if raw.Some? && raw.value.Json? then Some(raw.value.message) else None;
  }

  lemma KeyText(k: Key)
    ensures CacheKey(k) == "idempotency:message:" + k.senderId + ":" + k.requestId
  {
    assert "idempotency:message:" + (k.senderId + ":" + k.requestId) == "idempotency:message:" + k.senderId + ":" + k.requestId;
  }

  /** `cacheMessage`, for five minutes; failures are swallowed. */
  method StoreInCache(redis: FakeRedis?, senderId: string, requestId: Option<string>, message: MessageDto, now: int, faulty: bool,
                      ghost messages: Messages)
    requires redis != null ==> CacheSound(redis.store, messages)
    requires ':' !in senderId
    requires Given(requestId).Some? ==>
               var k := Key(senderId, Given(requestId).value);
               KeyTaken(messages, k) && message == Stored(messages, k)
    modifies redis
    ensures redis != null ==> CacheSound(redis.store, messages)
    ensures redis != null && !faulty ==>
              redis.store == if Given(requestId).None? then old(redis.store) else
                old(redis.store)["idempotency:message:" + senderId + ":" + Given(requestId).value :=
                                 StoreEntry(Json(message), now + 300_000)]
  {
    hide Stored;
    var failed: bool := *;
    if redis == null || requestId.None? || requestId.value == "" || (faulty && failed) {
      return;
    }
    var k := Key(senderId, requestId.value);
    KeyText(k);
    CacheGains(redis.store, messages, k, ExpiryAfter(now, TTL_SECONDS));
    var _ := redis.Set(CacheKey(k), Json(message), TTL_SECONDS, false, now);
  }

  // ---- the call

  lemma DuplicateRecovers(db: Db, members: set<(string, string)>, input: Input, id: nat, createdAt: int)
    requires Inv(db) && input.body != "" && (input.senderId, input.chatId) in members && input.chatId in db.rooms
    requires Given(input.requestId).Some? && KeyTaken(db.messages, Key(input.senderId, Given(input.requestId).value))
    ensures
      var k := Key(input.senderId, Given(input.requestId).value);
      Uncached(db, members, input, id, createdAt) == Response(Ok(Stored(db.messages, k)), db, false)
  {
    RestViolation(db, RowToCreate(input, id, createdAt));
  }

  lemma CreatedIsStored(db: Db, input: Input, id: nat, createdAt: int)
    requires Inv(db) && RestCreate(db, RowToCreate(input, id, createdAt)).Ok? && Given(input.requestId).Some?
    ensures
      var after := RestCreate(db, RowToCreate(input, id, createdAt)).value;
      var k := Key(input.senderId, Given(input.requestId).value);
      KeyTaken(after.messages, k) && Stored(after.messages, k) == DtoOf(Uuid(id), after.messages[Uuid(id)])
  {
    RestSteps(db, RowToCreate(input, id, createdAt));
    var after := RestCreate(db, RowToCreate(input, id, createdAt)).value;
    var k := Key(input.senderId, Given(input.requestId).value);
    assert HasKey(after.messages[Uuid(id)], k);
    assert HasKey(after.messages[MessageOf(after.messages, k)], k);
  }

  /**
   * What is announced is new: it was not stored before, is stored now as
   * answered, comes last in its room, and the room's last-message time covers it.
   */
  lemma AnnouncedIsNew(db: Db, members: set<(string, string)>, input: Input, id: nat, createdAt: int)
    requires Inv(db) && Uncached(db, members, input, id, createdAt).announced
    ensures
      var r := Uncached(db, members, input, id, createdAt);
      && r.result.Ok? && r.result.value.id !in db.messages && r.result.value.id in r.db.messages
      && r.result.value == DtoOf(r.result.value.id, r.db.messages[r.result.value.id])
      && input.chatId in r.db.rooms && createdAt <= r.db.rooms[input.chatId].lastMessageAt
      && (forall o | o in db.messages && db.messages[o].roomId == input.chatId ::
            db.messages[o].roomSequence < r.db.messages[r.result.value.id].roomSequence)
  {
    forall o | o in db.messages && db.messages[o].roomId == input.chatId
      ensures db.messages[o].roomSequence < db.rooms[input.chatId].nextMessageSeq
    {
      assert InRange(db, o);
    }
  }

  /**
   * `createMessage` returns, stores and announces what it would without the
   * cache, whatever the cache has kept, lost or failed to answer, and leaves
   * the cache right; when the cache works, the answer is in it afterwards.
   */
  method CreateMessage(db: MessageDatabase, redis: FakeRedis?, members: set<(string, string)>, input: Input,
                       id: nat, createdAt: int, now: int, faulty: bool)
      returns (result: Result<MessageDto, ServiceError>, announced: bool)
    requires db.Valid() && ':' !in input.senderId
    requires forall m | m in members :: m.1 in db.rooms
    requires redis != null ==> CacheSound(redis.store, db.messages)
    modifies db, redis
    ensures db.Valid() && Advances(old(db.Snapshot()), db.Snapshot())
    ensures Response(result, db.Snapshot(), announced) == Uncached(old(db.Snapshot()), members, input, id, createdAt)
    ensures Answers(old(db.Snapshot()), members, input, id, createdAt, Response(result, db.Snapshot(), announced))
    ensures redis != null ==> CacheSound(redis.store, db.messages)
    ensures redis != null && !faulty && Given(input.requestId).Some? && result.Ok? ==>
              Lookup(redis.store, "idempotency:message:" + input.senderId + ":" + Given(input.requestId).value, now)
              == Some(Json(result.value))
  {
    hide Inv, Advances, RestCreate, TouchRoom, Stored, CacheSound, Answers;
    ghost var start := db.Snapshot();
    UncachedAnswers(start, members, input, id, createdAt);
    AdvancesReflexive(start);
    if input.body == "" {
      return Err(BodyRequired), false;
    }
    if (input.senderId, input.chatId) !in members {
      return Err(NotAMember), false;
    }
    var cached := GetCachedMessage(redis, input.senderId, input.requestId, now, faulty, db.messages);
    if cached.Some? {
      DuplicateRecovers(start, members, input, id, createdAt);
      return Ok(cached.value), false;
    }
    var row := RowToCreate(input, id, createdAt);
    var created := db.CreateMessageRow(row);
    if created.Ok? {
      RestSteps(start, row);
      result, announced := Ok(DtoOf(Uuid(id), created.value)), true;
      CreatedRow(start, row);
      TouchAfter(redis, db, start, created.value.createdAt, input.chatId);
      db.UpdateLastMessageAt(input.chatId, created.value.createdAt);
      if Given(input.requestId).Some? {
        CreatedIsStored(start, input, id, createdAt);
      }
    } else {
      if Given(input.requestId).None? || created.error != UniqueViolation {
        return Err(DatabaseError(created.error)), false;
      }
      var k := Key(input.senderId, Given(input.requestId).value);
      var found := db.FindMessageByRequestId(k);
      if found.None? {
        return Err(MessageNotFound), false;
      }
      result, announced := Ok(DtoOf(found.value, db.messages[found.value])), false;
      FoundIsStored(db.messages, k);
    }
    StoreInCache(redis, input.senderId, input.requestId, result.value, now, faulty, db.messages);
  }

  lemma FoundIsStored(messages: Messages, k: Key)
    requires KeyTaken(messages, k)
    ensures DtoOf(MessageOf(messages, k), messages[MessageOf(messages, k)]) == Stored(messages, k)
  {
  }

  lemma CreatedRow(db: Db, m: RestMessage)
    requires RestCreate(db, m).Ok?
    ensures Uuid(m.id) in RestCreate(db, m).value.messages && RestCreate(db, m).value.messages[Uuid(m.id)].createdAt == m.createdAt
  {
  }

  /** After the insert: the room bump keeps everything, and so does the cache. */
  lemma TouchAfter(redis: FakeRedis?, db: MessageDatabase, start: Db, at: int, chatId: string)
    requires Inv(start) && Inv(db.Snapshot()) && Advances(start, db.Snapshot())
    requires redis != null ==> CacheSound(redis.store, start.messages)
    ensures Inv(TouchRoom(db.Snapshot(), chatId, at)) && Advances(start, TouchRoom(db.Snapshot(), chatId, at))
    ensures TouchRoom(db.Snapshot(), chatId, at).messages == db.messages
    ensures redis != null ==> CacheSound(redis.store, db.messages)
  {
    TouchRoomSteps(db.Snapshot(), chatId, at);
    AdvancesTransitive(start, db.Snapshot(), TouchRoom(db.Snapshot(), chatId, at));
    if redis != null {
      CacheStaysSound(redis.store, start, db.Snapshot());
    }
  }
}
