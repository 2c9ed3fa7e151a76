/** The in-memory connection hub of a quiz room server (`ConnectionManager`):
    which sockets are open in which room, which usernames are present in a
    room, and which (username, room) each socket belongs to, plus the fan-out
    of `{type, data}` payloads to a room's sockets.

    Sockets are opaque ids. Every `send_json` the hub attempts is appended to
    `outbox` together with its outcome; the outcome is chosen by the transport,
    so the model leaves it unconstrained. */
module ConnectionHub {

  type SocketId = nat
  type RoomCode = string
  type Name = string

  /** The `data` argument of `broadcast`: absent, a user list, or a chat line. */
  datatype Data = NoData | Names(names: seq<Name>) | ChatLine(line: string)

  /** What is put under "data" in the payload that is sent. */
  datatype PayloadData = EmptyObject | UserList(users: seq<Name>) | Chat(text: string)

  /** `{"type": msgType, "data": data}`. */
  datatype Payload = Payload(msgType: string, data: PayloadData)

  /** One `send_json` attempt: the socket, the payload, and whether it went out. */
  datatype Delivery = Delivery(socket: SocketId, payload: Payload, delivered: bool)

  /** Python truthiness of the `data` argument: None, an empty list and an
      empty string are false. */
  predicate Falsy(data: Data) {
    match data
    case NoData => true
    case Names(ns) => ns == []
    case ChatLine(l) => l == ""
  }

  /** `{"type": message_type, "data": data or {}}`. */
  function MakePayload(msgType: string, data: Data): (p: Payload)
    ensures p.msgType == msgType
    ensures p.data == EmptyObject <==> Falsy(data)
    ensures data.Names? && !Falsy(data) ==> p.data == UserList(data.names)
    ensures data.ChatLine? && !Falsy(data) ==> p.data == Chat(data.line)
  {
    if Falsy(data) then Payload(msgType, EmptyObject)
    else if data.Names? then Payload(msgType, UserList(data.names))
    else Payload(msgType, Chat(data.line))
  }

  predicate NoDuplicates<T(==)>(s: seq<T>) {
    forall i, j :: 0 <= i < j < |s| ==> s[i] != s[j]
  }

  /** `names` lists the elements of `users`, each once, in some order. */
  ghost predicate ListsExactly(names: seq<Name>, users: set<Name>) {
    NoDuplicates(names) && forall x :: x in names <==> x in users
  }

  /** The attempts in `ds` go to `sockets`, one each, in that order, and all
      carry `p`; their outcomes are free. */
  ghost predicate FannedOut(ds: seq<Delivery>, sockets: seq<SocketId>, p: Payload) {
    |ds| == |sockets| &&
    forall i :: 0 <= i < |ds| ==> ds[i].socket == sockets[i] && ds[i].payload == p
  }

  /** The attempts in `ds` are one `user_list` broadcast to `sockets` whose
      list holds exactly the names in `users`. */
  ghost predicate UserListSent(ds: seq<Delivery>, sockets: seq<SocketId>, users: set<Name>) {
    exists names :: ListsExactly(names, users) && FannedOut(ds, sockets, MakePayload("user_list", Names(names)))
  }

  /** `list(s)`: the elements of a set, in the order the set yields them. */
  method ListOf(s: set<Name>) returns (names: seq<Name>)
    ensures NoDuplicates(names)
    ensures forall x :: x in names <==> x in s
  {
    names := [];
    var rest := s;
    while rest != {}
      invariant rest <= s
      invariant forall x :: x in names <==> x in s && x !in rest
      invariant NoDuplicates(names)
      decreases |rest|
    {
      var x :| x in rest;
      names := names + [x];
      rest := rest - {x};
    }
  }

  /** `list.remove(x)`, with the `ValueError` of an absent `x` swallowed. */
  function RemoveFirst(s: seq<SocketId>, x: SocketId): (r: seq<SocketId>)
    ensures x !in s ==> r == s
    ensures x in s ==> |r| == |s| - 1 && multiset(r) == multiset(s) - multiset{x}
  {
    if s == [] then []
    else if s[0] == x then (assert s == [s[0]] + s[1..]; s[1..])
    else (assert s == [s[0]] + s[1..]; [s[0]] + RemoveFirst(s[1..], x))
  }

  /** Removing from a list without repeats leaves a list without repeats
      that holds everything but `x`. */
  lemma {:induction false} RemoveFirstOfDistinct(s: seq<SocketId>, x: SocketId)
    requires NoDuplicates(s)
    ensures NoDuplicates(RemoveFirst(s, x))
    ensures forall y :: y in RemoveFirst(s, x) <==> y in s && y != x
  {
    if s != [] && s[0] != x {
      assert NoDuplicates(s[1..]) by {
        forall i, j | 0 <= i < j < |s[1..]| ensures s[1..][i] != s[1..][j] {
          assert s[1..][i] == s[i + 1] && s[1..][j] == s[j + 1];
        }
      }
      RemoveFirstOfDistinct(s[1..], x);
      var r := RemoveFirst(s[1..], x);
      assert RemoveFirst(s, x) == [s[0]] + r;
      assert s[0] !in r by {
        forall k | 1 <= k < |s| ensures s[k] != s[0] { }
      }
    } else if s != [] {
      assert forall k :: 1 <= k < |s| ==> s[k] != s[0];
    }
  }

  /** The names that some mapped socket of `room` carries. */
  ghost function Present(mapping: map<SocketId, (Name, RoomCode)>, room: RoomCode): set<Name> {
    set ws | ws in mapping && mapping[ws].1 == room :: mapping[ws].0
  }

  /** The comprehension `still_connected` is non-empty. */
  predicate StillConnected(mapping: map<SocketId, (Name, RoomCode)>, name: Name, room: RoomCode) {
    exists ws :: ws in mapping && mapping[ws] == (name, room)
  }

  lemma PresentMeansConnected(mapping: map<SocketId, (Name, RoomCode)>, room: RoomCode, name: Name)
    ensures name in Present(mapping, room) <==> StillConnected(mapping, name, room)
  {
    if StillConnected(mapping, name, room) {
      var ws :| ws in mapping && mapping[ws] == (name, room);
      assert mapping[ws].0 in Present(mapping, room);
    }
  }

  /** Adding a socket adds its name to its room's presence and to no other room's. */
  lemma PresentAfterAdd(mapping: map<SocketId, (Name, RoomCode)>, ws: SocketId, name: Name, room: RoomCode, r: RoomCode)
    requires ws !in mapping
    ensures Present(mapping[ws := (name, room)], r) == if r == room then Present(mapping, r) + {name} else Present(mapping, r)
  {
    var m' := mapping[ws := (name, room)];
    forall n | n in Present(m', r)
      ensures n in (if r == room then Present(mapping, r) + {name} else Present(mapping, r))
    {
      PresentMeansConnected(m', r, n);
      var w :| w in m' && m'[w] == (n, r);
      if w != ws {
        PresentMeansConnected(mapping, r, n);
      }
    }
    forall n | n in (if r == room then Present(mapping, r) + {name} else Present(mapping, r))
      ensures n in Present(m', r)
    {
      PresentMeansConnected(m', r, n);
      if r == room && n == name {
        assert m'[ws] == (n, r);
      } else {
        PresentMeansConnected(mapping, r, n);
        var w :| w in mapping && mapping[w] == (n, r);
        assert m'[w] == (n, r);
      }
    }
  }

  /** Dropping a socket drops its name from its room exactly when no other
      socket still carries that (name, room). */
  lemma PresentAfterDrop(mapping: map<SocketId, (Name, RoomCode)>, ws: SocketId, r: RoomCode)
    requires ws in mapping
    ensures var name, room := mapping[ws].0, mapping[ws].1;
            var m' := mapping - {ws};
            Present(m', r) == if r == room && !StillConnected(m', name, room) then Present(mapping, r) - {name} else Present(mapping, r)
  {
    var name, room := mapping[ws].0, mapping[ws].1;
    var m' := mapping - {ws};
    var expected := if r == room && !StillConnected(m', name, room) then Present(mapping, r) - {name} else Present(mapping, r);
    forall n | n in Present(m', r) ensures n in expected {
      PresentMeansConnected(m', r, n);
      var w :| w in m' && m'[w] == (n, r);
      assert mapping[w] == (n, r);
      PresentMeansConnected(mapping, r, n);
    }
    forall n | n in expected ensures n in Present(m', r) {
      PresentMeansConnected(mapping, r, n);
      PresentMeansConnected(m', r, n);
      var w :| w in mapping && mapping[w] == (n, r);
      if w == ws {
        assert r == room && n == name;
      } else {
        assert m'[w] == (n, r);
      }
    }
  }

  /** The hub's bookkeeping agrees with itself: a mapped socket is listed
      once, in its own room only; a listed socket is mapped; and a room's
      presence set is exactly the names of its mapped sockets. */
  ghost predicate Consistent(lists: map<RoomCode, seq<SocketId>>, users: map<RoomCode, set<Name>>,
                             mapping: map<SocketId, (Name, RoomCode)>)
  {
    && (forall ws :: ws in mapping ==>
          mapping[ws].1 in lists && ws in lists[mapping[ws].1] && mapping[ws].1 in users)
    && (forall r, ws :: r in lists && ws in lists[r] ==> ws in mapping && mapping[ws].1 == r)
    && (forall r :: r in lists ==> NoDuplicates(lists[r]))
    && (forall r :: r in users ==> users[r] == Present(mapping, r))
  }

  function ListOrEmpty(lists: map<RoomCode, seq<SocketId>>, room: RoomCode): seq<SocketId> {
    if room in lists then lists[room] else []
  }

  function SetOrEmpty(users: map<RoomCode, set<Name>>, room: RoomCode): set<Name> {
    if room in users then users[room] else {}
  }

  /** `connect` of a socket that is not yet mapped keeps the bookkeeping consistent. */
  lemma ConnectKeepsConsistent(lists: map<RoomCode, seq<SocketId>>, users: map<RoomCode, set<Name>>,
                               mapping: map<SocketId, (Name, RoomCode)>, ws: SocketId, room: RoomCode, name: Name)
    requires Consistent(lists, users, mapping)
    requires ws !in mapping
    ensures Consistent(lists[room := ListOrEmpty(lists, room) + [ws]],
                       users[room := SetOrEmpty(users, room) + {name}],
                       mapping[ws := (name, room)])
  {
    var lists', users', mapping' := lists[room := ListOrEmpty(lists, room) + [ws]],
                                    users[room := SetOrEmpty(users, room) + {name}],
                                    mapping[ws := (name, room)];
    forall r | r in users' ensures users'[r] == Present(mapping', r) {
      PresentAfterAdd(mapping, ws, name, room, r);
    }
    AddKeepsLists(lists, mapping, ws, room, name);
    assert users'.Keys == users.Keys + {room};
  }

  /** The list half of `ConnectKeepsConsistent`. */
  lemma AddKeepsLists(lists: map<RoomCode, seq<SocketId>>, mapping: map<SocketId, (Name, RoomCode)>,
                      ws: SocketId, room: RoomCode, name: Name)
    requires forall w :: w in mapping ==> mapping[w].1 in lists && w in lists[mapping[w].1]
    requires forall r, w :: r in lists && w in lists[r] ==> w in mapping && mapping[w].1 == r
    requires forall r :: r in lists ==> NoDuplicates(lists[r])
    requires ws !in mapping
    ensures var lists' := lists[room := ListOrEmpty(lists, room) + [ws]];
            var mapping' := mapping[ws := (name, room)];
            && (forall w :: w in mapping' ==> mapping'[w].1 in lists' && w in lists'[mapping'[w].1])
            && (forall r, w :: r in lists' && w in lists'[r] ==> w in mapping' && mapping'[w].1 == r)
            && (forall r :: r in lists' ==> NoDuplicates(lists'[r]))
  {
    var lists' := lists[room := ListOrEmpty(lists, room) + [ws]];
    var mapping' := mapping[ws := (name, room)];
    forall r | r in lists' ensures NoDuplicates(lists'[r]) {
      if r == room {
        assert ws !in ListOrEmpty(lists, room);
      }
    }
    forall w | w in mapping' ensures mapping'[w].1 in lists' && w in lists'[mapping'[w].1] {
      if w != ws {
        var r := mapping[w].1;
        assert mapping'[w] == mapping[w];
        if r == room {
          assert lists'[r] == lists[r] + [ws];
        }
      }
    }
    forall r, w | r in lists' && w in lists'[r] ensures w in mapping' && mapping'[w].1 == r {
      if r == room && w != ws {
        assert w in ListOrEmpty(lists, room);
      } else if r != room {
        assert lists'[r] == lists[r];
      }
    }
  }

  /** `disconnect` of a mapped socket keeps the bookkeeping consistent, and
      the socket is no longer listed anywhere. */
  lemma DisconnectKeepsConsistent(lists: map<RoomCode, seq<SocketId>>, users: map<RoomCode, set<Name>>,
                                  mapping: map<SocketId, (Name, RoomCode)>, ws: SocketId)
    requires Consistent(lists, users, mapping)
    requires ws in mapping
    ensures var name, room := mapping[ws].0, mapping[ws].1;
            var mapping' := mapping - {ws};
            var lists' := if room in lists then lists[room := RemoveFirst(lists[room], ws)] else lists;
            var users' := if room in users && !StillConnected(mapping', name, room)
                          then users[room := users[room] - {name}] else users;
            Consistent(lists', users', mapping') &&
            forall r :: r in lists' ==> ws !in lists'[r]
  {
    var name, room := mapping[ws].0, mapping[ws].1;
    var mapping' := mapping - {ws};
    var lists' := if room in lists then lists[room := RemoveFirst(lists[room], ws)] else lists;
    var users' := if room in users && !StillConnected(mapping', name, room)
                  then users[room := users[room] - {name}] else users;
    forall r | r in users' ensures users'[r] == Present(mapping', r) {
      PresentAfterDrop(mapping, ws, r);
    }
    DropKeepsLists(lists, mapping, ws);
    assert users'.Keys == users.Keys;
  }

  /** The list half of `DisconnectKeepsConsistent`. */
  lemma DropKeepsLists(lists: map<RoomCode, seq<SocketId>>, mapping: map<SocketId, (Name, RoomCode)>, ws: SocketId)
    requires forall w :: w in mapping ==> mapping[w].1 in lists && w in lists[mapping[w].1]
    requires forall r, w :: r in lists && w in lists[r] ==> w in mapping && mapping[w].1 == r
    requires forall r :: r in lists ==> NoDuplicates(lists[r])
    requires ws in mapping
    ensures var room := mapping[ws].1;
            var mapping' := mapping - {ws};
            var lists' := lists[room := RemoveFirst(lists[room], ws)];
            && (forall w :: w in mapping' ==> mapping'[w].1 in lists' && w in lists'[mapping'[w].1])
            && (forall r, w :: r in lists' && w in lists'[r] ==> w in mapping' && mapping'[w].1 == r)
            && (forall r :: r in lists' ==> NoDuplicates(lists'[r]))
            && (forall r :: r in lists' ==> ws !in lists'[r])
  {
    var room := mapping[ws].1;
    var mapping' := mapping - {ws};
    var lists' := lists[room := RemoveFirst(lists[room], ws)];
    RemoveFirstOfDistinct(lists[room], ws);
    forall w | w in mapping' ensures mapping'[w].1 in lists' && w in lists'[mapping'[w].1] {
      assert w != ws && mapping'[w] == mapping[w];
    }
    forall r, w | r in lists' && w in lists'[r] ensures w in mapping' && mapping'[w].1 == r {
      if r == room {
        assert w in lists[r] && w != ws;
      } else {
        assert lists'[r] == lists[r];
      }
      assert w in mapping && mapping[w].1 == r && w != ws;
    }
    forall r | r in lists' ensures ws !in lists'[r] {
      if r != room {
        assert lists'[r] == lists[r];
      }
    }
  }

  class ConnectionManager {
    /** room code -> the sockets open in that room, in connection order */
    var activeConnections: map<RoomCode, seq<SocketId>>
    /** room code -> the usernames present in that room */
    var roomUsers: map<RoomCode, set<Name>>
    /** socket -> (username, room code) */
    var websocketToGuest: map<SocketId, (Name, RoomCode)>
    /** every send attempted so far, in order, with its outcome */
    var outbox: seq<Delivery>

    /** See `Consistent`. */
    ghost predicate Valid()
      reads this`activeConnections, this`roomUsers, this`websocketToGuest
    {
      Consistent(activeConnections, roomUsers, websocketToGuest)
    }

    constructor ()
      ensures activeConnections == map[] && roomUsers == map[] && websocketToGuest == map[]
      ensures outbox == []
      ensures Valid()
    {
      activeConnections, roomUsers, websocketToGuest := map[], map[], map[];
      outbox := [];
    }

    /** `active_connections.get(room, [])` */
    function Connections(room: RoomCode): seq<SocketId>
      reads this`activeConnections
    {
      if room in activeConnections then activeConnections[room] else []
    }

    /** `room_users.get(room, set())` */
    function UsersIn(room: RoomCode): set<Name>
      reads this`roomUsers
    {
      if room in roomUsers then roomUsers[room] else {}
    }

    /** Under `Valid`, a name is present in a room exactly when one of the
        room's mapped sockets carries it. */
    lemma PresenceInvariant(room: RoomCode, name: Name)
      requires Valid()
      requires room in roomUsers
      ensures name in UsersIn(room) <==> StillConnected(websocketToGuest, name, room)
    {
      PresentMeansConnected(websocketToGuest, room, name);
    }

    /** `broadcast(message_type, room_code, data)`: one send attempt per socket
        of the room, in list order; a failed send neither stops the loop nor
        removes the socket. */
    method Broadcast(msgType: string, room: RoomCode, data: Data)
      modifies this`outbox
      ensures |outbox| >= |old(outbox)| && outbox[..|old(outbox)|] == old(outbox)
      ensures FannedOut(outbox[|old(outbox)|..], Connections(room), MakePayload(msgType, data))
    {
      var payload := MakePayload(msgType, data);
      var sockets := Connections(room);
      var i := 0;
      while i < |sockets|
        invariant 0 <= i <= |sockets|
        invariant |outbox| == |old(outbox)| + i && outbox[..|old(outbox)|] == old(outbox)
        invariant FannedOut(outbox[|old(outbox)|..], sockets[..i], payload)
      {
        var delivered: bool := *;  // send_json either succeeds or raises
        outbox := outbox + [Delivery(sockets[i], payload, delivered)];
        i := i + 1;
      }
    }

    /** `broadcast_user_list(room_code)` */
    method BroadcastUserList(room: RoomCode)
      modifies this`outbox
      ensures |outbox| >= |old(outbox)| && outbox[..|old(outbox)|] == old(outbox)
      ensures UserListSent(outbox[|old(outbox)|..], Connections(room), UsersIn(room))
    {
      var names := ListOf(UsersIn(room));
      Broadcast("user_list", room, Names(names));
      assert ListsExactly(names, UsersIn(room));
    }

    /** `connect(websocket, room_code, guest_name)`: register the socket, mark
        the name present, map the socket, then broadcast the room's user list. */
    method Connect(ws: SocketId, room: RoomCode, guestName: Name)
      modifies this
      ensures activeConnections == old(activeConnections)[room := old(Connections(room)) + [ws]]
      ensures roomUsers == old(roomUsers)[room := old(UsersIn(room)) + {guestName}]
      ensures websocketToGuest == old(websocketToGuest)[ws := (guestName, room)]
      ensures |outbox| >= |old(outbox)| && outbox[..|old(outbox)|] == old(outbox)
      ensures UserListSent(outbox[|old(outbox)|..], Connections(room), UsersIn(room))
      ensures old(Valid()) && ws !in old(websocketToGuest) ==> Valid()
    {
      if Valid() && ws !in websocketToGuest {
        ConnectKeepsConsistent(activeConnections, roomUsers, websocketToGuest, ws, room, guestName);
      }
      activeConnections := activeConnections[room := Connections(room) + [ws]];
      roomUsers := roomUsers[room := UsersIn(room) + {guestName}];
      websocketToGuest := websocketToGuest[ws := (guestName, room)];
      BroadcastUserList(room);
    }

    /** `disconnect(websocket)`: a socket with no mapping changes nothing;
        otherwise the mapping is popped, the socket is removed from its room's
        list if it is there, and the name leaves the room's presence set only
        when no other mapped socket carries the same (name, room). */
    method Disconnect(ws: SocketId)
      modifies this
      ensures outbox == old(outbox)
      ensures ws !in old(websocketToGuest) ==>
                activeConnections == old(activeConnections) &&
                roomUsers == old(roomUsers) &&
                websocketToGuest == old(websocketToGuest)
      ensures ws in old(websocketToGuest) ==>
                var name, room := old(websocketToGuest)[ws].0, old(websocketToGuest)[ws].1;
                && websocketToGuest == old(websocketToGuest) - {ws}
                && activeConnections == (if room in old(activeConnections)
                                         then old(activeConnections)[room := RemoveFirst(old(activeConnections)[room], ws)]
                                         else old(activeConnections))
                && roomUsers == (if room in old(roomUsers) && !StillConnected(websocketToGuest, name, room)
                                 then old(roomUsers)[room := old(roomUsers)[room] - {name}]
                                 else old(roomUsers))
      ensures ws !in websocketToGuest
      ensures old(Valid()) ==> Valid()
      ensures old(Valid()) ==> forall r :: r in activeConnections ==> ws !in activeConnections[r]
    {
      if ws !in websocketToGuest {
        return;
      }
      var (guestName, room) := websocketToGuest[ws];
      var mapping := websocketToGuest - {ws};
      var lists := activeConnections;
      if room in lists {
        lists := lists[room := RemoveFirst(lists[room], ws)];
      }
      var users := roomUsers;
      var still := StillConnected(mapping, guestName, room);
      if !still {
        if room in users {
          users := users[room := users[room] - {guestName}];
        }
      }
      assert users == if room in roomUsers && !still then roomUsers[room := roomUsers[room] - {guestName}] else roomUsers;
      assert Valid() ==> Consistent(lists, users, mapping) && forall r :: r in lists ==> ws !in lists[r] by {
        if Valid() {
          DisconnectKeepsConsistent(activeConnections, roomUsers, websocketToGuest, ws);
        }
      }
      websocketToGuest, activeConnections, roomUsers := mapping, lists, users;
    }
  }

  /** A second `disconnect` of the same socket changes nothing: two calls
      leave the manager exactly as one call does. */
  method DisconnectTwice(m: ConnectionManager, ws: SocketId)
    modifies m
    ensures m.outbox == old(m.outbox)
    ensures ws in old(m.websocketToGuest) ==>
              var name, room := old(m.websocketToGuest)[ws].0, old(m.websocketToGuest)[ws].1;
              && m.websocketToGuest == old(m.websocketToGuest) - {ws}
              && m.activeConnections == (if room in old(m.activeConnections)
                                         then old(m.activeConnections)[room := RemoveFirst(old(m.activeConnections)[room], ws)]
                                         else old(m.activeConnections))
              && m.roomUsers == (if room in old(m.roomUsers) && !StillConnected(m.websocketToGuest, name, room)
                                 then old(m.roomUsers)[room := old(m.roomUsers)[room] - {name}]
                                 else old(m.roomUsers))
    ensures ws !in old(m.websocketToGuest) ==>
              m.activeConnections == old(m.activeConnections) &&
              m.roomUsers == old(m.roomUsers) &&
              m.websocketToGuest == old(m.websocketToGuest)
  {
    m.Disconnect(ws);
    m.Disconnect(ws);
  }
}
