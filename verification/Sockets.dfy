/**
 * The realtime service's indexes: which sockets a user and a room have, kept
 * by hand beside the client states, against what a scan over the client
 * states would find.
 */
module Sockets {
  import opened Prelude

  /** What the store knows of one client. */
  datatype Client = Client(userId: string, roomIds: set<string>)

  type Clients = map<nat, Client>
  type SocketSets = map<string, set<nat>>

  /** The three maps. A socket is a number; a client state carries its rooms. */
  datatype Index = Index(clients: Clients, userSockets: SocketSets, roomSockets: SocketSets)

  // ---- what a scan finds

  function SocketsOfUser(clients: Clients, userId: string): set<nat> {
    set ws | ws in clients && clients[ws].userId == userId
  }

  function SocketsOfRoom(clients: Clients, roomId: string): set<nat> {
    set ws | ws in clients && roomId in clients[ws].roomIds
  }

  /** The indexes are the inverses of the client states and hold no empty sets. */
  ghost predicate Consistent(ix: Index) {
    && (forall u :: (u in ix.userSockets <==> SocketsOfUser(ix.clients, u) != {})
                    && (u in ix.userSockets ==> ix.userSockets[u] == SocketsOfUser(ix.clients, u)))
    && (forall r :: (r in ix.roomSockets <==> SocketsOfRoom(ix.clients, r) != {})
                    && (r in ix.roomSockets ==> ix.roomSockets[r] == SocketsOfRoom(ix.clients, r)))
  }

  /** The client states determine the indexes. */
  lemma ConsistentIsUnique(a: Index, b: Index)
    requires Consistent(a) && Consistent(b) && a.clients == b.clients
    ensures a == b
  {
    assert forall u :: u in a.userSockets <==> u in b.userSockets;
    assert forall r :: r in a.roomSockets <==> r in b.roomSockets;
    assert a.userSockets == b.userSockets && a.roomSockets == b.roomSockets;
  }

  // ---- the operations on the maps

  function SetAt(sets: SocketSets, key: string): set<nat> {
    if key in sets then sets[key] else {}
  }

  function WithSocket(sets: SocketSets, key: string, ws: nat): SocketSets {
    sets[key := SetAt(sets, key) + {ws}]
  }

  /** Removal from one set; an emptied set goes. */
  function WithoutSocket(sets: SocketSets, key: string, ws: nat): SocketSets {
    if key !in sets then sets
    else if sets[key] - {ws} == {} then sets - {key}
    else sets[key := sets[key] - {ws}]
  }

  /** Removal from several sets. */
  function WithoutSocketIn(sets: SocketSets, keys: set<string>, ws: nat): SocketSets {
    map k | k in sets && !(k in keys && sets[k] - {ws} == {}) :: if k in keys then sets[k] - {ws} else sets[k]
  }

  lemma OneMoreRoom(sets: SocketSets, keys: set<string>, key: string, ws: nat)
    requires key !in keys
    ensures WithoutSocketIn(sets, keys + {key}, ws) == WithoutSocket(WithoutSocketIn(sets, keys, ws), key, ws)
  {
  }

  lemma NoRooms(sets: SocketSets, ws: nat)
    ensures WithoutSocketIn(sets, {}, ws) == sets
  {
  }

  function Added(ix: Index, ws: nat, userId: string, roomIds: set<string>): Index {
    Index(ix.clients[ws := Client(userId, roomIds)], WithSocket(ix.userSockets, userId, ws), ix.roomSockets)
  }

  /** A room join by a registered client: its state and the index record it. */
  function Joined(ix: Index, ws: nat, roomId: string): Index
    requires ws in ix.clients
  {
    Index(ix.clients[ws := ix.clients[ws].(roomIds := ix.clients[ws].roomIds + {roomId})],
          ix.userSockets, WithSocket(ix.roomSockets, roomId, ws))
  }

  /** A room join by a client whose state is not registered: only the index records it. */
  function Strayed(ix: Index, ws: nat, roomId: string): Index {
    Index(ix.clients, ix.userSockets, WithSocket(ix.roomSockets, roomId, ws))
  }

  function Removed(ix: Index, ws: nat): Index {
    if ws !in ix.clients then ix
    else Index(ix.clients - {ws},
               WithoutSocket(ix.userSockets, ix.clients[ws].userId, ws),
               WithoutSocketIn(ix.roomSockets, ix.clients[ws].roomIds, ws))
  }

  // ---- consistency

  /** When registering a socket fits the indexes: it is new and in no room, or it registers again just as it was. */
  predicate Fits(ix: Index, ws: nat, userId: string, roomIds: set<string>) {
    if ws in ix.clients then ix.clients[ws] == Client(userId, roomIds) else roomIds == {}
  }

  lemma AddedScans(ix: Index, ws: nat, userId: string, roomIds: set<string>)
    requires Fits(ix, ws, userId, roomIds)
    ensures
      var after := Added(ix, ws, userId, roomIds).clients;
      && (forall u :: SocketsOfUser(after, u)
                      == if u == userId then SocketsOfUser(ix.clients, u) + {ws} else SocketsOfUser(ix.clients, u))
      && (forall r :: SocketsOfRoom(after, r) == SocketsOfRoom(ix.clients, r))
  {
  }

  lemma AddedStays(ix: Index, ws: nat, userId: string, roomIds: set<string>)
    requires Consistent(ix) && Fits(ix, ws, userId, roomIds)
    ensures Consistent(Added(ix, ws, userId, roomIds))
  {
    AddedScans(ix, ws, userId, roomIds);
    hide Fits, SocketsOfUser, SocketsOfRoom;
  }

  lemma AddedBreaks(ix: Index, ws: nat, userId: string, roomIds: set<string>)
    requires Consistent(ix) && !Fits(ix, ws, userId, roomIds)
    ensures !Consistent(Added(ix, ws, userId, roomIds))
  {
    var ix' := Added(ix, ws, userId, roomIds);
    if ws in ix.clients && ix.clients[ws].userId != userId {
      var u := ix.clients[ws].userId;
      assert ws in SocketsOfUser(ix.clients, u) && ws !in SocketsOfUser(ix'.clients, u);
      assert ws in ix'.userSockets[u];
    } else {
      var had := if ws in ix.clients then ix.clients[ws].roomIds else {};
      var r := Pick((had - roomIds) + (roomIds - had));
      assert ws in SocketsOfRoom(ix.clients, r) <==> r in had;
      assert ws in SocketsOfRoom(ix'.clients, r) <==> r in roomIds;
      assert ix'.roomSockets == ix.roomSockets;
    }
  }

  /** Registering a socket keeps the indexes right exactly when it fits them. */
  lemma AddedConsistent(ix: Index, ws: nat, userId: string, roomIds: set<string>)
    requires Consistent(ix)
    ensures Consistent(Added(ix, ws, userId, roomIds)) <==> Fits(ix, ws, userId, roomIds)
  {
    if Fits(ix, ws, userId, roomIds) {
      AddedStays(ix, ws, userId, roomIds);
    } else {
      AddedBreaks(ix, ws, userId, roomIds);
    }
  }

  /**
   * A room join by a registered client keeps the indexes right. One by a client
   * that is not registered does only if the socket's registered state, should
   * there be another, is in the room already.
   */
  lemma JoinedConsistent(ix: Index, ws: nat, roomId: string)
    requires Consistent(ix)
    ensures ws in ix.clients ==> Consistent(Joined(ix, ws, roomId))
    ensures Consistent(Strayed(ix, ws, roomId)) <==> ws in ix.clients && roomId in ix.clients[ws].roomIds
  {
    if ws in ix.clients {
      JoinedStays(ix, ws, roomId);
    }
    var stray := Strayed(ix, ws, roomId);
    assert stray.roomSockets[roomId] == SetAt(ix.roomSockets, roomId) + {ws};
    assert ws in SocketsOfRoom(ix.clients, roomId) <==> ws in ix.clients && roomId in ix.clients[ws].roomIds;
    if ws in SocketsOfRoom(ix.clients, roomId) {
      assert stray.roomSockets[roomId] == ix.roomSockets[roomId];
      assert stray.roomSockets == ix.roomSockets;
    } else {
      assert ws in stray.roomSockets[roomId];
    }
  }

  lemma JoinedStays(ix: Index, ws: nat, roomId: string)
    requires Consistent(ix) && ws in ix.clients
    ensures Consistent(Joined(ix, ws, roomId))
  {
    var ix' := Joined(ix, ws, roomId);
    forall u
      ensures SocketsOfUser(ix'.clients, u) == SocketsOfUser(ix.clients, u)
    {
    }
    forall r
      ensures SocketsOfRoom(ix'.clients, r) == if r == roomId then SocketsOfRoom(ix.clients, r) + {ws} else SocketsOfRoom(ix.clients, r)
    {
    }
  }

  lemma RemovedConsistent(ix: Index, ws: nat)
    requires Consistent(ix)
    ensures Consistent(Removed(ix, ws))
  {
    if ws in ix.clients {
      var ix' := Removed(ix, ws);
      forall u
        ensures SocketsOfUser(ix'.clients, u) == SocketsOfUser(ix.clients, u) - {ws}
        ensures u != ix.clients[ws].userId ==> ws !in SocketsOfUser(ix.clients, u)
      {
      }
      forall r
        ensures SocketsOfRoom(ix'.clients, r) == SocketsOfRoom(ix.clients, r) - {ws}
        ensures r !in ix.clients[ws].roomIds ==> ws !in SocketsOfRoom(ix.clients, r)
      {
      }
    }
  }

  function JoinedAll(ix: Index, ws: nat, roomIds: seq<string>): (after: Index)
    requires ws in ix.clients
    ensures ws in after.clients && after.clients - {ws} == ix.clients - {ws}
  {
    if roomIds == [] then ix else Joined(JoinedAll(ix, ws, roomIds[..|roomIds| - 1]), ws, roomIds[|roomIds| - 1])
  }

  lemma {:induction false} JoinedAllConsistent(ix: Index, ws: nat, roomIds: seq<string>)
    requires Consistent(ix) && ws in ix.clients
    ensures Consistent(JoinedAll(ix, ws, roomIds))
  {
    hide Consistent;
    if roomIds != [] {
      JoinedAllConsistent(ix, ws, roomIds[..|roomIds| - 1]);
      JoinedConsistent(JoinedAll(ix, ws, roomIds[..|roomIds| - 1]), ws, roomIds[|roomIds| - 1]);
    }
  }

  /** Removing a client undoes its registration and any joins, exactly. */
  lemma RemoveUndoesAdd(ix: Index, ws: nat, userId: string, roomIds: seq<string>)
    requires Consistent(ix) && ws !in ix.clients
    ensures Removed(JoinedAll(Added(ix, ws, userId, {}), ws, roomIds), ws) == ix
  {
    hide Consistent;
    var joined := JoinedAll(Added(ix, ws, userId, {}), ws, roomIds);
    AddedConsistent(ix, ws, userId, {});
    JoinedAllConsistent(Added(ix, ws, userId, {}), ws, roomIds);
    RemovedConsistent(joined, ws);
    assert Removed(joined, ws).clients == ix.clients;
    ConsistentIsUnique(Removed(joined, ws), ix);
  }

  // ---- the store

  /** A connection's state, shared with the server; rooms are added in place. */
  class ClientState {
    const ws: nat
    const userId: string
    var roomIds: set<string>

    constructor (ws: nat, userId: string)
      ensures this.ws == ws && this.userId == userId && roomIds == {}
    {
      this.ws := ws;
      this.userId := userId;
      roomIds := {};
    }
  }

  ghost function ClientsOf(states: map<nat, ClientState>): Clients
    reads states.Values
  {
    map ws | ws in states :: Client(states[ws].userId, states[ws].roomIds)
  }

  lemma ClientsWith(states: map<nat, ClientState>, state: ClientState)
    ensures ClientsOf(states).Keys == states.Keys
    ensures ClientsOf(states[state.ws := state]) == ClientsOf(states)[state.ws := Client(state.userId, state.roomIds)]
  {
  }

  class InMemoryPresenceStore {
    var roomSockets: SocketSets
    var userSockets: SocketSets
    var clientStates: map<nat, ClientState>

    ghost function Snapshot(): Index
      reads this, clientStates.Values
    {
      Index(ClientsOf(clientStates), userSockets, roomSockets)
    }

    /** Every state is filed under its own socket. */
    ghost predicate Filed()
      reads this, clientStates.Values
    {
      forall ws | ws in clientStates :: clientStates[ws].ws == ws
    }

    /** And the indexes are right. */
    ghost predicate Valid()
      reads this, clientStates.Values
    {
      Filed() && Consistent(Snapshot())
    }

    constructor ()
      ensures Valid() && clientStates == map[]
    {
      roomSockets, userSockets, clientStates := map[], map[], map[];
    }

    /** The user index alone. */
    method IndexUserSocket(userId: string, ws: nat)
      modifies this`userSockets
      ensures userSockets == WithSocket(old(userSockets), userId, ws)
    {
      var sockets := if userId in userSockets then userSockets[userId] else {};
      userSockets := userSockets[userId := sockets + {ws}];
    }

    /** The room index alone. */
    method IndexRoomSocket(roomId: string, ws: nat)
      modifies this`roomSockets
      ensures roomSockets == WithSocket(old(roomSockets), roomId, ws)
    {
      var sockets := if roomId in roomSockets then roomSockets[roomId] else {};
      roomSockets := roomSockets[roomId := sockets + {ws}];
    }

    method AddClient(state: ClientState)
      requires Filed()
      modifies this
      ensures Filed() && Snapshot() == Added(old(Snapshot()), state.ws, state.userId, state.roomIds)
      ensures clientStates == old(clientStates)[state.ws := state]
      ensures old(Valid()) ==> (Valid() <==> Fits(old(Snapshot()), state.ws, state.userId, state.roomIds))
    {
      hide Consistent, SocketsOfUser, SocketsOfRoom, WithSocket, ClientsOf;
      ClientsWith(clientStates, state);
      if Consistent(Snapshot()) {
        AddedConsistent(Snapshot(), state.ws, state.userId, state.roomIds);
      }
      clientStates := clientStates[state.ws := state];
      IndexUserSocket(state.userId, state.ws);
      ClientsWith(old(clientStates), state);
      assert ClientsOf(old(clientStates)) == old(ClientsOf(clientStates));
    }

    /** `addSocketToRoom`; the state is the registered one unless the client has gone in the meantime. */
    method AddSocketToRoom(state: ClientState, roomId: string)
      requires Filed()
      modifies this`roomSockets, state
      ensures Filed() && state.roomIds == old(state.roomIds) + {roomId}
      ensures Snapshot() == if state in clientStates.Values then Joined(old(Snapshot()), state.ws, roomId)
                            else Strayed(old(Snapshot()), state.ws, roomId)
      ensures old(Valid()) && state in clientStates.Values ==> Valid()
    {
      hide Consistent, SocketsOfUser, SocketsOfRoom, WithSocket;
      if Consistent(Snapshot()) {
        JoinedConsistent(Snapshot(), state.ws, roomId);
      }
      ghost var before := ClientsOf(clientStates);
      assert forall ws | ws in clientStates && ws != state.ws :: clientStates[ws] != state;
      assert state in clientStates.Values ==> state.ws in clientStates && before[state.ws] == Client(state.userId, state.roomIds);
      state.roomIds := state.roomIds + {roomId};
      ghost var after := ClientsOf(clientStates);
      assert after == if state in clientStates.Values then before[state.ws := Client(state.userId, state.roomIds)] else before;
      IndexRoomSocket(roomId, state.ws);
      assert ClientsOf(clientStates) == after;
    }

    method RemoveSocketFromRooms(state: ClientState)
      modifies this`roomSockets
      ensures roomSockets == WithoutSocketIn(old(roomSockets), state.roomIds, state.ws)
    {
      hide WithoutSocketIn;
      var done, rest := {}, state.roomIds;
      NoRooms(roomSockets, state.ws);
      while rest != {}
        invariant done + rest == state.roomIds && done !! rest
        invariant roomSockets == WithoutSocketIn(old(roomSockets), done, state.ws)
        decreases |rest|
      {
        var roomId :| roomId in rest;
        OneMoreRoom(old(roomSockets), done, roomId, state.ws);
        done, rest := done + {roomId}, rest - {roomId};
        if roomId in roomSockets {
          var sockets := roomSockets[roomId] - {state.ws};
          if sockets == {} {
            roomSockets := roomSockets - {roomId};
          } else {
            roomSockets := roomSockets[roomId := sockets];
          }
        }
      }
      assert done == state.roomIds;
    }

    method RemoveClient(ws: nat) returns (removed: Option<ClientState>)
      requires Filed()
      modifies this
      ensures Filed() && Snapshot() == Removed(old(Snapshot()), ws)
      ensures old(Valid()) ==> Valid()
      ensures removed == if ws in old(clientStates) then Some(old(clientStates)[ws]) else None
    {
      hide Consistent, SocketsOfUser, SocketsOfRoom, WithoutSocketIn;
      if Consistent(Snapshot()) {
        RemovedConsistent(Snapshot(), ws);
      }
      ghost var before := ClientsOf(clientStates);
      if ws !in clientStates {
        return None;
      }
      var state := clientStates[ws];
      RemoveSocketFromRooms(state);
      if state.userId in userSockets {
        var sockets := userSockets[state.userId] - {ws};
        if sockets == {} {
          userSockets := userSockets - {state.userId};
        } else {
          userSockets := userSockets[state.userId := sockets];
        }
      }
      clientStates := clientStates - {ws};
      assert ClientsOf(clientStates) == before - {ws};
      return Some(state);
    }

    /** `hasOpenSocketForUser`, `open` being the sockets whose ready state is OPEN, is a scan over all clients. */
    method HasOpenSocketForUser(userId: string, open: set<nat>) returns (found: bool)
      requires Valid()
      ensures found <==> exists ws :: ws in clientStates && clientStates[ws].userId == userId && ws in open
    {
      assert forall ws :: ws in SocketsOfUser(Snapshot().clients, userId)
                          <==> ws in clientStates && clientStates[ws].userId == userId;
      if userId !in userSockets {
        return false;
      }
      var rest := userSockets[userId];
      while rest != {}
        invariant rest <= userSockets[userId]
        invariant forall ws | ws in userSockets[userId] && ws !in rest :: ws !in open
        decreases |rest|
      {
        var ws :| ws in rest;
        if ws in open {
          return true;
        }
        rest := rest - {ws};
      }
      return false;
    }
  }
}
