/** The socket route of a quiz room (`/{room_code}`): the handshake that admits
    or refuses a socket, the receive loop that relays chat, the handling of
    the socket's end; and the start signal sent to a room. The transport is
    reduced to what the route sees: the `token` query parameter, what the JWT
    decoder makes of it, and the sequence of events `receive_text` reports. */
module Sessions {
  import opened Common
  import opened Store
  import opened ConnectionHub
  import Rooms

  /** What `verify_bearer_token_manual` makes of a token: its claims, of which
      only `id` is read, or an exception (expired or invalid token). */
  datatype Claims = Claims(id: Option<int>) | BadToken

  /** How the route leaves a socket it does not serve. */
  datatype Close = NotClosed | Closed(code: int)

  /** The WebSocket close code for a policy violation (RFC 6455, section 7.4.1). */
  const PolicyViolation := 1008
  /** The close code for an unexpected condition on the server (RFC 6455, section 7.4.1). */
  const InternalError := 1011

  /** The outcome of the handshake. */
  datatype Handshake = Admit(username: Name) | Refuse(close: Close)

  /** The handshake: a missing or empty token, a falsy `id` claim and an
      unknown user are closed as policy violations; a token the decoder
      rejects raises before the socket is accepted, so the route cannot close
      it. */
  function Admission(users: seq<UserRow>, token: Option<string>, decode: string -> Claims): (a: Handshake)
    ensures a.Admit? <==>
      && token.Some? && token.value != ""
      && decode(token.value).Claims? && decode(token.value).id.Some? && decode(token.value).id.value != 0
      && Rooms.UserById(users, decode(token.value).id.value).Some?
    ensures a.Admit? ==> a.username == Rooms.UserById(users, decode(token.value).id.value).value.username
    ensures a == Refuse(NotClosed) <==> token.Some? && token.value != "" && decode(token.value).BadToken?
    ensures a.Refuse? && a.close != NotClosed ==> a.close == Closed(PolicyViolation)
  {
    if token.None? || token.value == "" then Refuse(Closed(PolicyViolation))
    else
      match decode(token.value)
      case BadToken => Refuse(NotClosed)
      case Claims(id) =>
        if id.None? || id.value == 0 then Refuse(Closed(PolicyViolation))
        else
          match Rooms.UserById(users, id.value)
          case None => Refuse(Closed(PolicyViolation))
          case Some(u) => Admit(u.username)
  }

  /** What `receive_text` reports: a text frame, the client going away
      (`WebSocketDisconnect`), or any other exception. */
  datatype Event = Received(text: string) | Dropped | Failed

  /** The chat line a received text is relayed as. */
  function ChatText(username: Name, text: string): string {
    username + ": " + text
  }

  /** The chat line an event is relayed as, if any. */
  function LineOf(username: Name, e: Event): seq<string> {
    if e.Received? then [ChatText(username, e.text)] else []
  }

  /** The chat lines relayed for the received texts among `events`. */
  function ChatLines(username: Name, events: seq<Event>): seq<string> {
    if events == [] then [] else LineOf(username, events[0]) + ChatLines(username, events[1..])
  }

  /** What the relay sends: at most one line per event, each the line of a
      received text, and a line for every received text. */
  lemma ChatLinesMeaning(username: Name, events: seq<Event>)
    ensures |ChatLines(username, events)| <= |events|
    ensures forall k :: 0 <= k < |ChatLines(username, events)| ==>
      exists j :: 0 <= j < |events| && events[j].Received? && ChatLines(username, events)[k] == ChatText(username, events[j].text)
    ensures forall j :: 0 <= j < |events| && events[j].Received? ==> ChatText(username, events[j].text) in ChatLines(username, events)
  {
    ChatLinesSound(username, events);
    ChatLinesComplete(username, events);
  }

  lemma {:induction false} ChatLinesSound(username: Name, events: seq<Event>)
    ensures |ChatLines(username, events)| <= |events|
    ensures forall k :: 0 <= k < |ChatLines(username, events)| ==>
      exists j :: 0 <= j < |events| && events[j].Received? && ChatLines(username, events)[k] == ChatText(username, events[j].text)
  {
    if events != [] {
      ChatLinesSound(username, events[1..]);
      var head, rest := LineOf(username, events[0]), ChatLines(username, events[1..]);
      assert ChatLines(username, events) == head + rest;
      forall k | 0 <= k < |head + rest|
        ensures exists j :: 0 <= j < |events| && events[j].Received? && (head + rest)[k] == ChatText(username, events[j].text)
      {
        if k >= |head| {
          var j :| 0 <= j < |events[1..]| && events[1..][j].Received? && rest[k - |head|] == ChatText(username, events[1..][j].text);
          assert events[j + 1] == events[1..][j];
        }
      }
    }
  }

  lemma {:induction false} ChatLinesComplete(username: Name, events: seq<Event>)
    ensures forall j :: 0 <= j < |events| && events[j].Received? ==> ChatText(username, events[j].text) in ChatLines(username, events)
  {
    if events != [] {
      ChatLinesComplete(username, events[1..]);
      var head, rest := LineOf(username, events[0]), ChatLines(username, events[1..]);
      assert ChatLines(username, events) == head + rest;
      forall j | 1 <= j < |events| ensures events[j] == events[1..][j - 1] {}
    }
  }

  lemma {:induction false} ChatLinesAppend(username: Name, events: seq<Event>, e: Event)
    ensures ChatLines(username, events + [e]) == ChatLines(username, events) + LineOf(username, e)
  {
    var es := events + [e];
    if events == [] {
      assert es == [e] && es[1..] == [];
    } else {
      assert es[0] == events[0] && es[1..] == events[1..] + [e];
      ChatLinesAppend(username, events[1..], e);
      var h, rest := LineOf(username, events[0]), ChatLines(username, events[1..]);
      assert ChatLines(username, es) == h + (rest + LineOf(username, e));
      assert h + (rest + LineOf(username, e)) == (h + rest) + LineOf(username, e);
    }
  }

  /** `ds` is one `chat` broadcast to `sockets` per line of `lines`, in order. */
  ghost predicate ChatsSent(ds: seq<Delivery>, sockets: seq<SocketId>, lines: seq<string>)
    decreases |lines|
  {
    if lines == [] then ds == []
    else
      && |ds| >= |sockets|
      && FannedOut(ds[..|sockets|], sockets, MakePayload("chat", ChatLine(lines[0])))
      && ChatsSent(ds[|sockets|..], sockets, lines[1..])
  }

  lemma {:induction false} ChatsSentAppend(ds: seq<Delivery>, sockets: seq<SocketId>, lines: seq<string>,
                                          more: seq<Delivery>, line: string)
    requires ChatsSent(ds, sockets, lines)
    requires FannedOut(more, sockets, MakePayload("chat", ChatLine(line)))
    ensures ChatsSent(ds + more, sockets, lines + [line])
    decreases |lines|
  {
    if lines == [] {
      assert ds + more == more;
      assert more[..|sockets|] == more && more[|sockets|..] == [];
      assert (lines + [line])[1..] == [];
    } else {
      ChatsSentAppend(ds[|sockets|..], sockets, lines[1..], more, line);
      assert (ds + more)[..|sockets|] == ds[..|sockets|];
      assert (ds + more)[|sockets|..] == ds[|sockets|..] + more;
      assert (lines + [line])[1..] == lines[1..] + [line];
    }
  }

  /** What a call that keeps `before` as a prefix of `after` added to it. */
  lemma Extension<T>(before: seq<T>, after: seq<T>)
    requires |before| <= |after| && after[..|before|] == before
    ensures after == before + after[|before|..]
  {
  }

  /** One turn of the receive loop: the broadcast of the next text extends the
      chat by that text's line. */
  lemma RelayStep(chat: seq<Delivery>, more: seq<Delivery>, sockets: seq<SocketId>,
                  username: Name, events: seq<Event>, consumed: nat)
    requires consumed < |events| && events[consumed].Received?
    requires ChatsSent(chat, sockets, ChatLines(username, events[..consumed]))
    requires FannedOut(more, sockets, MakePayload("chat", ChatLine(ChatText(username, events[consumed].text))))
    ensures ChatsSent(chat + more, sockets, ChatLines(username, events[..consumed + 1]))
  {
    ChatsSentAppend(chat, sockets, ChatLines(username, events[..consumed]), more, ChatText(username, events[consumed].text));
    assert events[..consumed + 1] == events[..consumed] + [events[consumed]];
    ChatLinesAppend(username, events[..consumed], events[consumed]);
  }

  /** One turn of the receive loop: the next text is relayed and the chat
      log grows by its line. */
  method RelayOne(m: ConnectionManager, room: RoomCode, username: Name, events: seq<Event>, consumed: nat,
                  ghost chat: seq<Delivery>, ghost sockets: seq<SocketId>)
    returns (ghost more: seq<Delivery>)
    requires consumed < |events| && events[consumed].Received?
    requires m.Connections(room) == sockets
    requires ChatsSent(chat, sockets, ChatLines(username, events[..consumed]))
    modifies m`outbox
    ensures m.outbox == old(m.outbox) + more && m.activeConnections == old(m.activeConnections)
    ensures ChatsSent(chat + more, sockets, ChatLines(username, events[..consumed + 1]))
  {
    more := SendChat(m, room, ChatText(username, events[consumed].text));
    RelayStep(chat, more, sockets, username, events, consumed);
  }

  /** `broadcast("chat", room_code, line)`; `more` is what it adds to the outbox. */
  method SendChat(m: ConnectionManager, room: RoomCode, line: string) returns (ghost more: seq<Delivery>)
    modifies m`outbox
    ensures m.outbox == old(m.outbox) + more
    ensures FannedOut(more, m.Connections(room), MakePayload("chat", ChatLine(line)))
  {
    m.Broadcast("chat", room, ChatLine(line));
    more := m.outbox[|old(m.outbox)|..];
    Extension(old(m.outbox), m.outbox);
  }

  /** The receive loop of `websocket_endpoint`: every text received is relayed
      to the room as a `chat` line until an event other than a text arrives.
      `consumed` counts the texts relayed, `chat` is what they added to the
      outbox. */
  method Relay(m: ConnectionManager, room: RoomCode, username: Name, events: seq<Event>)
    returns (consumed: nat, ghost chat: seq<Delivery>)
    modifies m`outbox
    ensures consumed <= |events| && (forall j :: 0 <= j < consumed ==> events[j].Received?)
    ensures consumed == |events| || !events[consumed].Received?
    ensures m.outbox == old(m.outbox) + chat
    ensures ChatsSent(chat, m.Connections(room), ChatLines(username, events[..consumed]))
  {
    consumed, chat := 0, [];
    ghost var sockets := m.Connections(room);
    while consumed < |events| && events[consumed].Received?
      invariant 0 <= consumed <= |events|
      invariant forall j :: 0 <= j < consumed ==> events[j].Received?
      invariant m.outbox == old(m.outbox) + chat
      invariant m.activeConnections == old(m.activeConnections)
      invariant ChatsSent(chat, sockets, ChatLines(username, events[..consumed]))
    {
      ghost var more := RelayOne(m, room, username, events, consumed, chat, sockets);
      chat := chat + more;
      consumed := consumed + 1;
    }
  }

  /** `connect(websocket, room_code, name)`; `listed` is the user list it sends. */
  method Join(m: ConnectionManager, ws: SocketId, room: RoomCode, name: Name) returns (ghost listed: seq<Delivery>)
    requires m.Valid() && ws !in m.websocketToGuest
    modifies m
    ensures m.Valid()
    ensures m.outbox == old(m.outbox) + listed
    ensures m.Connections(room) == old(m.Connections(room)) + [ws]
    ensures UserListSent(listed, old(m.Connections(room)) + [ws], old(m.UsersIn(room)) + {name})
    ensures m.websocketToGuest == old(m.websocketToGuest)[ws := (name, room)]
    ensures m.activeConnections == old(m.activeConnections)[room := old(m.Connections(room)) + [ws]]
    ensures m.roomUsers == old(m.roomUsers)[room := old(m.UsersIn(room)) + {name}]
  {
    m.Connect(ws, room, name);
    listed := m.outbox[|old(m.outbox)|..];
    Extension(old(m.outbox), m.outbox);
  }

  /** `disconnect(websocket)` followed by `broadcast_user_list(room_code)`;
      `farewell` is the user list sent. */
  method Leave(m: ConnectionManager, ws: SocketId, room: RoomCode) returns (ghost farewell: seq<Delivery>)
    requires m.Valid() && ws in m.websocketToGuest
    modifies m
    ensures m.Valid()
    ensures m.outbox == old(m.outbox) + farewell
    ensures m.websocketToGuest == old(m.websocketToGuest) - {ws}
    ensures forall r :: r in m.activeConnections ==> ws !in m.activeConnections[r]
    ensures UserListSent(farewell, m.Connections(room), m.UsersIn(room))
  {
    m.Disconnect(ws);
    ghost var out := m.outbox;
    m.BroadcastUserList(room);
    farewell := m.outbox[|out|..];
    Extension(out, m.outbox);
  }

  /** Mapping a fresh key and removing it again gives the map back. */
  lemma AddThenRemove<K, V>(mp: map<K, V>, k: K, v: V)
    requires k !in mp
    ensures mp[k := v] - {k} == mp
  {
    assert forall x :: x in mp[k := v] - {k} <==> x in mp;
  }

  /** How a served socket's session ends. */
  datatype SessionEnd =
    | Refused(close: Close)   // the handshake refused it
    | Open                    // every event so far was a text; still waiting
    | Left                    // the client went away
    | Aborted(close: Close)   // another exception ended the loop

  /** `websocket_endpoint` once the handshake has admitted `name`: `connect`
      and its user list (`listed`), the receive loop and its chat (`chat`), and
      the handling of the loop's end, with the user list sent after the client
      went away (`farewell`). */
  method Session(m: ConnectionManager, ws: SocketId, room: RoomCode, name: Name, events: seq<Event>)
    returns (end: SessionEnd, consumed: nat, ghost listed: seq<Delivery>, ghost chat: seq<Delivery>, ghost farewell: seq<Delivery>)
    requires m.Valid() && ws !in m.websocketToGuest
    modifies m
    ensures m.Valid()
    ensures !end.Refused?
    ensures consumed <= |events| && (forall j :: 0 <= j < consumed ==> events[j].Received?)
    ensures end == Open <==> consumed == |events|
    ensures end == Left <==> consumed < |events| && events[consumed].Dropped?
    ensures end == Aborted(Closed(InternalError)) <==> consumed < |events| && events[consumed].Failed?
    ensures m.outbox == old(m.outbox) + listed + chat + farewell
    ensures UserListSent(listed, old(m.Connections(room)) + [ws], old(m.UsersIn(room)) + {name})
    ensures ChatsSent(chat, old(m.Connections(room)) + [ws], ChatLines(name, events[..consumed]))
    ensures end != Left ==>
      && farewell == []
      && m.websocketToGuest == old(m.websocketToGuest)[ws := (name, room)]
      && m.activeConnections == old(m.activeConnections)[room := old(m.Connections(room)) + [ws]]
      && m.roomUsers == old(m.roomUsers)[room := old(m.UsersIn(room)) + {name}]
    ensures end == Left ==>
      && ws !in m.websocketToGuest && m.websocketToGuest == old(m.websocketToGuest)
      && (forall r :: r in m.activeConnections ==> ws !in m.activeConnections[r])
      && UserListSent(farewell, m.Connections(room), m.UsersIn(room))
  {
    ghost var mapping0 := m.websocketToGuest;
    listed := Join(m, ws, room, name);
    consumed, chat := Relay(m, room, name, events);
    farewell := [];
    if consumed == |events| {
      end := Open;
    } else if events[consumed].Dropped? {
      farewell := Leave(m, ws, room);
      AddThenRemove(mapping0, ws, (name, room));
      end := Left;
    } else {
      end := Aborted(Closed(InternalError));
    }
  }

  /** `websocket_endpoint(websocket, room_code)` over the events the socket
      produces: a refused handshake leaves the manager as it was; an admitted
      one runs the session under the user's name. */
  method Serve(m: ConnectionManager, users: seq<UserRow>, ws: SocketId, room: RoomCode,
               token: Option<string>, decode: string -> Claims, events: seq<Event>)
    returns (handshake: Handshake, end: SessionEnd, consumed: nat)
    requires m.Valid() && ws !in m.websocketToGuest
    modifies m
    ensures handshake == Admission(users, token, decode)
    ensures m.Valid()
    ensures handshake.Refuse? ==> end == Refused(handshake.close) && consumed == 0 && unchanged(m)
    ensures handshake.Admit? ==> !end.Refused? && consumed <= |events|
  {
    handshake := Admission(users, token, decode);
    if handshake.Refuse? {
      return handshake, Refused(handshake.close), 0;
    }
    ghost var listed, chat, farewell;
    end, consumed, listed, chat, farewell := Session(m, ws, room, handshake.username, events);
  }

  /** `POST /start-quiz/{room_code}`: a `quiz_started` broadcast with empty
      data, with no check of who asks or whether the room exists. */
  method StartQuiz(m: ConnectionManager, room: RoomCode) returns (message: string)
    modifies m`outbox
    ensures message == "Quiz started and broadcasted to all participants"
    ensures |m.outbox| >= |old(m.outbox)| && m.outbox[..|old(m.outbox)|] == old(m.outbox)
    ensures FannedOut(m.outbox[|old(m.outbox)|..], m.Connections(room), Payload("quiz_started", EmptyObject))
  {
    m.Broadcast("quiz_started", room, NoData);
    message := "Quiz started and broadcasted to all participants";
  }
}
