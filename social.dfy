/** The follow graph and room invitations: following a user, the list of
    users a caller can invite (those who follow the caller and whom the caller
    follows), and sending an invite to a room. */
module Social {
  import opened Common
  import opened Query
  import opened Store
  import Rooms

  /** The follow row for the pair (`follower`, `following`), if any. */
  function FollowOf(fs: seq<FollowRow>, follower: int, following: int): (r: Option<FollowRow>)
    ensures r.None? <==> forall k :: 0 <= k < |fs| ==> !(fs[k].followerId == follower && fs[k].followingId == following)
    ensures r.Some? ==> r.value in fs && r.value.followerId == follower && r.value.followingId == following
  {
    FirstWhere(fs, (f: FollowRow) => f.followerId == follower && f.followingId == following)
  }

  /** `POST /follow-user`: `me` follows the user whose id is the text `target`.
      `toInt` is Python's `int()` on that text, `None` where it raises. */
  method FollowUser(db: Database, me: int, target: string, toInt: string -> Option<int>) returns (r: Result<string>)
    requires db.FollowTableOk()
    modifies db`follows, db`nextFollowId
    ensures db.FollowTableOk()
    ensures toInt(target).None? ==> r == Err(HttpError(500, Foreign)) && unchanged(db)
    ensures toInt(target) == Some(me) ==>
      r == Err(Rewrap(500, HttpError(400, Text("Cannot Follow Yourself")))) && unchanged(db)
    ensures toInt(target).Some? && toInt(target).value != me && FollowOf(old(db.follows), me, toInt(target).value).Some? ==>
      r == Err(Rewrap(500, HttpError(400, Text("Already following this user")))) && unchanged(db)
    ensures toInt(target).Some? && toInt(target).value != me && FollowOf(old(db.follows), me, toInt(target).value).None? ==>
      && r == Ok("Followed to User ID : " + target)
      && db.follows == old(db.follows) + [FollowRow(old(db.nextFollowId), me, toInt(target).value)]
      && db.nextFollowId == old(db.nextFollowId) + 1
  {
    var t := toInt(target);
    if t.None? {
      return Err(HttpError(500, Foreign));
    }
    if me == t.value {
      return Err(Rewrap(500, HttpError(400, Text("Cannot Follow Yourself"))));
    }
    if FollowOf(db.follows, me, t.value).Some? {
      return Err(Rewrap(500, HttpError(400, Text("Already following this user"))));
    }
    var row := FollowRow(db.nextFollowId, me, t.value);
    FollowAppendKeepsIds(db.follows, db.nextFollowId, row);
    FollowAppendKeepsProper(db.follows, row);
    db.follows := db.follows + [row];
    db.nextFollowId := db.nextFollowId + 1;
    r := Ok("Followed to User ID : " + target);
  }

  /** A follow that is new and not a self-follow keeps the graph proper. */
  lemma FollowAppendKeepsProper(fs: seq<FollowRow>, row: FollowRow)
    requires ProperFollows(fs)
    requires row.followerId != row.followingId
    requires FollowOf(fs, row.followerId, row.followingId).None?
    ensures ProperFollows(fs + [row])
  {
    var fs' := fs + [row];
    forall i, j | 0 <= i < j < |fs'|
      ensures (fs'[i].followerId, fs'[i].followingId) != (fs'[j].followerId, fs'[j].followingId)
    {
      if j == |fs| {
        assert !(fs[i].followerId == row.followerId && fs[i].followingId == row.followingId);
      }
    }
  }

  /** Following a user twice: the second request is refused and leaves the
      graph as the first one left it. */
  method FollowTwice(db: Database, me: int, target: string, toInt: string -> Option<int>)
    returns (first: Result<string>, second: Result<string>)
    requires db.FollowTableOk()
    requires toInt(target).Some? && toInt(target).value != me
    modifies db`follows, db`nextFollowId
    ensures db.FollowTableOk()
    ensures second == Err(Rewrap(500, HttpError(400, Text("Already following this user"))))
    ensures |db.follows| <= |old(db.follows)| + 1
    ensures exists k :: 0 <= k < |db.follows| && db.follows[k].followerId == me && db.follows[k].followingId == toInt(target).value
  {
    ghost var before := db.follows;
    first := FollowUser(db, me, target, toInt);
    if FollowOf(before, me, toInt(target).value).None? {
      assert db.follows[|before|] == FollowRow(old(db.nextFollowId), me, toInt(target).value);
    }
    ghost var f := FollowOf(db.follows, me, toInt(target).value);
    assert f.Some?;
    second := FollowUser(db, me, target, toInt);
    ghost var k :| 0 <= k < |db.follows| && db.follows[k] == f.value;
  }

  /** `u` follows `me` and `me` follows `u`: the two joins of `GET /invite-user-list`. */
  predicate Mutual(fs: seq<FollowRow>, me: int, u: UserRow) {
    && (exists f1 :: f1 in fs && f1.followerId == u.id && f1.followingId == me)
    && (exists f2 :: f2 in fs && f2.followerId == me && f2.followingId == u.id)
  }

  /** The user rows the invite-list query returns, in table order. The
      double join yields a user once per pair of follow rows; with no
      duplicate follow pairs (`ProperFollows`, which `FollowUser` keeps) that
      is once per user. */
  function MutualFollows(users: seq<UserRow>, fs: seq<FollowRow>, me: int): (r: seq<UserRow>)
    requires ProperFollows(fs)
    ensures forall u :: u in r <==> u in users && Mutual(fs, me, u)
  {
    Filter(users, (u: UserRow) => Mutual(fs, me, u))
  }

  /** One entry of the invite list. */
  datatype Invitee = Invitee(userId: int, username: string, image: Option<string>)

  function AsInvitee(u: UserRow): Invitee {
    Invitee(u.id, u.username, u.photo)
  }

  /** `GET /invite-user-list`: the mutual follows of `me`, each shaped as an
      entry, in the order the query returns them; no mutual follow gives the
      empty list. */
  method InviteUserList(users: seq<UserRow>, fs: seq<FollowRow>, me: int) returns (list: seq<Invitee>)
    requires ProperFollows(fs)
    ensures |list| == |MutualFollows(users, fs, me)|
    ensures forall i :: 0 <= i < |list| ==> list[i] == AsInvitee(MutualFollows(users, fs, me)[i])
  {
    var rows := MutualFollows(users, fs, me);
    if rows == [] {
      return [];
    }
    list := [];
    var i := 0;
    while i < |rows|
      invariant 0 <= i <= |rows| && |list| == i
      invariant forall j :: 0 <= j < i ==> list[j] == AsInvitee(rows[j])
    {
      list := list + [AsInvitee(rows[i])];
      i := i + 1;
    }
  }

  /** The invite list holds exactly the users who follow `me` and whom `me`
      follows, and is empty when there are none. */
  lemma InviteListMeaning(users: seq<UserRow>, fs: seq<FollowRow>, me: int, list: seq<Invitee>)
    requires ProperFollows(fs)
    requires |list| == |MutualFollows(users, fs, me)|
    requires forall i :: 0 <= i < |list| ==> list[i] == AsInvitee(MutualFollows(users, fs, me)[i])
    ensures forall e :: e in list <==> exists u :: u in users && Mutual(fs, me, u) && e == AsInvitee(u)
    ensures list == [] <==> forall u :: u in users ==> !Mutual(fs, me, u)
  {
    var rows := MutualFollows(users, fs, me);
    forall e | e in list ensures exists u :: u in users && Mutual(fs, me, u) && e == AsInvitee(u) {
      var i :| 0 <= i < |list| && list[i] == e;
      assert rows[i] in rows;
    }
    forall u | u in users && Mutual(fs, me, u) ensures AsInvitee(u) in list {
      var i :| 0 <= i < |rows| && rows[i] == u;
      assert list[i] == AsInvitee(u);
    }
    if list != [] {
      assert rows[0] in rows;
    }
  }

  /** `POST /room/{room_code}/invite`. `mailed` is whether looking up the
      invitee's email and sending the invitation both succeed. */
  method InviteFriends(db: Database, me: int, invitedTo: string, roomCode: string, mailed: bool)
    returns (r: Result<string>)
    requires db.InviteTableOk()
    modifies db`invites, db`nextInviteId
    ensures db.InviteTableOk()
    ensures IntToString(me) == invitedTo ==>
      r == Err(Rewrap(500, HttpError(400, Text("You cannot invite yourself")))) && unchanged(db)
    ensures IntToString(me) != invitedTo && Rooms.RoomByCode(db.rooms, roomCode).None? ==>
      r == Err(Rewrap(500, HttpError(404, Text("Invalid Room Code")))) && unchanged(db)
    ensures IntToString(me) != invitedTo && Rooms.RoomByCode(db.rooms, roomCode).Some? &&
            (Rooms.UserById(db.users, me).None? || !mailed) ==>
      r == Err(HttpError(500, Foreign)) && unchanged(db)
    ensures r.Ok? <==>
      IntToString(me) != invitedTo && Rooms.RoomByCode(db.rooms, roomCode).Some? &&
      Rooms.UserById(db.users, me).Some? && mailed
    ensures r.Ok? ==>
      && r.value == "Invite Sent"
      && db.invites == old(db.invites) +
           [InviteRow(old(db.nextInviteId), Rooms.RoomByCode(db.rooms, roomCode).value.id, me, invitedTo, true)]
      && db.nextInviteId == old(db.nextInviteId) + 1
  {
    if IntToString(me) == invitedTo {
      return Err(Rewrap(500, HttpError(400, Text("You cannot invite yourself"))));
    }
    var room := Rooms.RoomByCode(db.rooms, roomCode);
    if room.None? {
      return Err(Rewrap(500, HttpError(404, Text("Invalid Room Code"))));
    }
    // `fetchone()[0]` on a missing inviter raises
    if Rooms.UserById(db.users, me).None? || !mailed {
      return Err(HttpError(500, Foreign));
    }
    var row := InviteRow(db.nextInviteId, room.value.id, me, invitedTo, true);
    InviteAppendKeepsIds(db.invites, db.nextInviteId, row);
    db.invites := db.invites + [row];
    db.nextInviteId := db.nextInviteId + 1;
    r := Ok("Invite Sent");
  }

  /** `POST /room/{room_code}/invite` as written. Past the room check every
      request raises: the invitee lookup passes the bare id text as its
      parameter list (app/features/main.py:121), which only a one-character
      text survives, and the send passes `is_html`, a keyword that
      `send_email(subject, to_whom, body)` (services/email_send.py:9) does
      not take, so the call raises before any mail or insert. */
  function InviteAsWritten(rooms: seq<RoomRow>, users: seq<UserRow>, me: int, invitedTo: string,
                           roomCode: string): (r: Result<string>)
    ensures IntToString(me) == invitedTo ==> r == Err(Rewrap(500, HttpError(400, Text("You cannot invite yourself"))))
    ensures IntToString(me) != invitedTo && Rooms.RoomByCode(rooms, roomCode).None? ==>
      r == Err(Rewrap(500, HttpError(404, Text("Invalid Room Code"))))
    ensures IntToString(me) != invitedTo && Rooms.RoomByCode(rooms, roomCode).Some? ==> r == Err(HttpError(500, Foreign))
  {
    if IntToString(me) == invitedTo then Err(Rewrap(500, HttpError(400, Text("You cannot invite yourself"))))
    else if Rooms.RoomByCode(rooms, roomCode).None? then Err(Rewrap(500, HttpError(404, Text("Invalid Room Code"))))
    else if Rooms.UserById(users, me).None? then Err(HttpError(500, Foreign))
    else
      // the invitee lookup or, failing that, the keyword the send does not take
      Err(HttpError(500, Foreign))
  }

  /** The handler as written never sends an invite: wherever the intended
      handler, `InviteFriends` with a sent mail, answers "Invite Sent", the
      written one answers a 500, and it answers "Invite Sent" for no input. */
  lemma InviteAsWrittenNeverSends(rooms: seq<RoomRow>, users: seq<UserRow>, me: int, invitedTo: string,
                                  roomCode: string)
    ensures InviteAsWritten(rooms, users, me, invitedTo, roomCode).Err?
    ensures IntToString(me) != invitedTo && Rooms.RoomByCode(rooms, roomCode).Some? &&
            Rooms.UserById(users, me).Some? ==>
      InviteAsWritten(rooms, users, me, invitedTo, roomCode) == Err(HttpError(500, Foreign))
  {
  }

  /** The self-invite check of `InviteFriends` compares texts: the decimal
      text of an integer invitee id is refused for the inviter and for no
      other integer id, while the same id written with a leading zero is a
      different text and passes. */
  lemma SelfInviteIsTextual(me: int, other: int)
    ensures IntToString(me) != "0" + IntToString(me)
    ensures IntToString(me) == IntToString(other) <==> me == other
  {
    IntToStringInjective(me, other);
  }
}
