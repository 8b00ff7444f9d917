/**
 * The in-memory Redis: string counters, sets and documents under keys with an
 * optional expiry time. Expired entries are dropped lazily, when they are read.
 */
module Redis {
  import opened Prelude
  import opened Ranking

  /** The message object clients see. */
  datatype MessageDto = MessageDto(id: MessageId, chatId: string, senderId: string, body: string, createdAt: int)

  /** Text values: a decimal number, an encoded message, or other text; and sets. */
  datatype Value = Text(text: string) | Number(n: nat) | Json(message: MessageDto) | Members(members: set<string>)

  /** `expiresAt` 0 is an absent expiry: the code tests it for truth. */
  datatype StoreEntry = StoreEntry(value: Value, expiresAt: int)

  type KeyValues = map<string, StoreEntry>

  predicate Expired(e: StoreEntry, now: int) {
    e.expiresAt != 0 && e.expiresAt <= now
  }

  predicate Live(s: KeyValues, key: string, now: int) {
    key in s && !Expired(s[key], now)
  }

  /** What a store that dropped entries the moment they expire would hold. */
  ghost function View(s: KeyValues, now: int): KeyValues {
    map k | k in s && !Expired(s[k], now) :: s[k]
  }

  /** `getEntry`: an expired entry is deleted on the way. */
  function Purge(s: KeyValues, key: string, now: int): KeyValues {
    if key in s && Expired(s[key], now) then s - {key} else s
  }

  function Lookup(s: KeyValues, key: string, now: int): Option<Value> {
    if Live(s, key, now) then Some(s[key].value) else None
  }

  function ExpiryAfter(now: int, seconds: nat): int {
    if seconds == 0 then 0 else now + seconds * 1000
  }

  function MembersAt(s: KeyValues, key: string, now: int): set<string> {
    if Live(s, key, now) && s[key].value.Members? then s[key].value.members else {}
  }

  function CountAt(s: KeyValues, key: string, now: int): nat {
    if Live(s, key, now) && s[key].value.Number? then s[key].value.n else 0
  }

  /** What `Number(value ?? '0') + 1` makes of the entry; none for not-a-number. */
  function Incremented(s: KeyValues, key: string, now: int): Option<nat> {
    match Lookup(s, key, now)
    case None => Some(1)
    case Some(Members(_)) => Some(1)
    case Some(Number(n)) => Some(n + 1)
    case Some(Text(t)) => if t == "" then Some(1) else None
    case Some(Json(_)) => None
  }

  // ---- the operations on a store without expired entries

  function Put(v: KeyValues, key: string, value: Value, expiresAt: int): KeyValues {
    v[key := StoreEntry(value, expiresAt)]
  }

  lemma ViewLive(s: KeyValues, key: string, now: int)
    ensures key in View(s, now) <==> Live(s, key, now)
    ensures Live(s, key, now) ==> View(s, now)[key] == s[key]
  {
  }

  /** A presence announcement, as published on the presence channel. */
  datatype PresenceEvent = PresenceEvent(userId: string, online: bool)

  class FakeRedis {
    var store: KeyValues
    var published: seq<PresenceEvent>

    constructor ()
      ensures store == map[] && published == []
    {
      store := map[];
      published := [];
    }

    method Publish(event: PresenceEvent)
      modifies this`published
      ensures published == old(published) + [event]
    {
      published := published + [event];
    }

    /** `getEntry`. */
    method GetEntry(key: string, now: int) returns (entry: Option<StoreEntry>)
      modifies this`store
      ensures entry == if key in View(old(store), now) then Some(View(old(store), now)[key]) else None
      ensures store == Purge(old(store), key, now)
      ensures entry.Some? ==> key in store && store[key] == entry.value && store == old(store)
    {
      if key !in store {
        return None;
      }
      if store[key].expiresAt != 0 && store[key].expiresAt <= now {
        store := store - {key};
        return None;
      }
      return Some(store[key]);
    }

    /** `get`: sets read as null. */
    method Get(key: string, now: int) returns (value: Option<Value>)
      modifies this`store
      ensures value == if Lookup(old(store), key, now).Some? && !Lookup(old(store), key, now).value.Members?
                       then Lookup(old(store), key, now) else None
      ensures store == Purge(old(store), key, now)
    {
      var entry := GetEntry(key, now);
      if entry.Some? && !entry.value.value.Members? {
        return Some(entry.value.value);
      }
      return None;
    }

    /** `set` with an expiry; with `onlyNew`, refused when a live entry is there. */
    method Set(key: string, value: Value, seconds: nat, onlyNew: bool, now: int) returns (ok: bool)
      modifies this`store
      ensures ok == !(onlyNew && Live(old(store), key, now))
      ensures store == if ok then Put(old(store), key, value, ExpiryAfter(now, seconds)) else old(store)
    {
      if onlyNew {
        var entry := GetEntry(key, now);
        if entry.Some? {
          return false;
        }
      }
      store := Put(store, key, value, ExpiryAfter(now, seconds));
      return true;
    }

    /**
     * `incr`: counts from zero when nothing live is there or a set is, and
     * keeps the expiry. Text that is no number becomes, and answers, not-a-number.
     */
    method Incr(key: string, now: int) returns (count: Option<nat>)
      modifies this`store
      ensures count == Incremented(old(store), key, now)
      ensures store == Put(old(store), key, if count.Some? then Number(count.value) else Text("NaN"),
                           if Live(old(store), key, now) then old(store)[key].expiresAt else 0)
      ensures (Live(old(store), key, now) ==> old(store)[key].value.Number?) ==> count == Some(CountAt(old(store), key, now) + 1)
    {
      var current := Get(key, now);
      count := if current.None? then Some(1) else match current.value
        case Number(n) => Some(n + 1)
        case Text(t) => if t == "" then Some(1) else None
        case _ => None;
      var existing := GetEntry(key, now);
      store := Put(store, key, if count.Some? then Number(count.value) else Text("NaN"),
                   if existing.Some? then existing.value.expiresAt else 0);
    }

    /** `expire`: false when nothing live is there. */
    method Expire(key: string, seconds: nat, now: int) returns (ok: bool)
      modifies this`store
      ensures ok == Live(old(store), key, now)
      ensures store == if ok then old(store)[key := old(store)[key].(expiresAt := now + seconds * 1000)]
                       else Purge(old(store), key, now)
    {
      var entry := GetEntry(key, now);
      if entry.None? {
        return false;
      }
      store := store[key := entry.value.(expiresAt := now + seconds * 1000)];
      return true;
    }

    /** `del`. */
    method Del(key: string) returns (removed: nat)
      modifies this`store
      ensures store == old(store) - {key} && removed == if key in old(store) then 1 else 0
    {
      if key !in store {
        return 0;
      }
      store := store - {key};
      return 1;
    }

    /** `sAdd` of one member; the set never expires. */
    method SAdd(key: string, member: string, now: int) returns (added: nat)
      modifies this`store
      ensures store == Put(old(store), key, Members(MembersAt(old(store), key, now) + {member}), 0)
      ensures added == if member in MembersAt(old(store), key, now) then 0 else 1
    {
      var entry := GetEntry(key, now);
      var members := if entry.Some? && entry.value.value.Members? then entry.value.value.members else {};
      added := if member in members then 0 else 1;
      store := Put(store, key, Members(members + {member}), 0);
    }

    /** `sRem` of one member; an emptied set is deleted. */
    method SRem(key: string, member: string, now: int) returns (removed: nat)
      modifies this`store
      ensures store == WithoutMember(old(store), key, member, now)
      ensures removed == if member in MembersAt(old(store), key, now) then 1 else 0
    {
      var entry := GetEntry(key, now);
      if entry.None? || !entry.value.value.Members? {
        return 0;
      }
      var members := entry.value.value.members;
      removed := if member in members then 1 else 0;
      if members - {member} == {} {
        store := store - {key};
      } else {
        store := store[key := entry.value.(value := Members(members - {member}))];
      }
    }

    /** `sMembers`. */
    method SMembers(key: string, now: int) returns (members: set<string>)
      modifies this`store
      ensures members == MembersAt(old(store), key, now)
      ensures store == Purge(old(store), key, now)
    {
      var entry := GetEntry(key, now);
      if entry.Some? && entry.value.value.Members? {
        return entry.value.value.members;
      }
      return {};
    }
  }

  function WithoutMember(s: KeyValues, key: string, member: string, now: int): KeyValues {
    if Live(s, key, now) && s[key].value.Members? then
      var rest := s[key].value.members - {member};
      if rest == {} then s - {key} else s[key := s[key].(value := Members(rest))]
    else Purge(s, key, now)
  }

  lemma AnswersAlike(s: KeyValues, key: string, now: int)
    ensures Lookup(View(s, now), key, now) == Lookup(s, key, now)
    ensures MembersAt(View(s, now), key, now) == MembersAt(s, key, now)
    ensures CountAt(View(s, now), key, now) == CountAt(s, key, now)
  {
    ViewLive(s, key, now);
  }

  lemma ViewOfView(s: KeyValues, now: int, later: int)
    requires now <= later
    ensures View(View(s, now), later) == View(s, later)
  {
  }

  /**
   * Lazy expiry is invisible: after writing or deleting a key, a store that
   * still holds expired entries and one that dropped them when they expired
   * look the same, now and later.
   */
  lemma LazyExpiryInvisible(s: KeyValues, key: string, e: StoreEntry, now: int, later: int)
    requires now <= later
    ensures View(View(s, now)[key := e], later) == View(s[key := e], later)
    ensures View(View(s, now) - {key}, later) == View(s - {key}, later)
    ensures View(Purge(s, key, now), later) == View(s, later)
  {
    ViewOfView(s, now, later);
    var v := View(s, now);
    forall k
      ensures k in View(v[key := e], later) <==> k in View(s[key := e], later)
      ensures k in View(v - {key}, later) <==> k in View(s - {key}, later)
    {
      assert k in View(v, later) <==> k in View(s, later);
    }
  }
}
