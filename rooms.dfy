/** The room handlers of the websocket router: creating a room, joining it,
    submitting an answer over HTTP, the leaderboard and one user's result; and
    the answer helper that the socket layer uses. Each handler is one step
    against the tables of `Store.Database`: what it commits is assigned, and a
    handler that fails before its commit leaves the tables as they were. */
module Rooms {
  import opened Common
  import opened Query
  import opened Store

  // ---------------------------------------------------------------------
  // Lookups: `fetchone()` after a `WHERE`, the first matching row.

  function RoomByCode(rooms: seq<RoomRow>, code: string): (r: Option<RoomRow>)
    ensures r.None? <==> forall k :: 0 <= k < |rooms| ==> rooms[k].roomCode != code
    ensures r.Some? ==> r.value in rooms && r.value.roomCode == code
  {
    FirstWhere(rooms, (x: RoomRow) => x.roomCode == code)
  }

  function ParticipantOf(ps: seq<ParticipantRow>, roomId: Id, userId: int): (r: Option<ParticipantRow>)
    ensures r.None? <==> forall k :: 0 <= k < |ps| ==> !(ps[k].roomId == roomId && ps[k].userId == userId)
    ensures r.Some? ==> r.value in ps && r.value.roomId == roomId && r.value.userId == userId
  {
    FirstWhere(ps, (x: ParticipantRow) => x.roomId == roomId && x.userId == userId)
  }

  /** `WHERE question_index = index AND quiz_id = quizId`. */
  function QuestionAt(qs: seq<QuestionRow>, quizId: int, index: int): (r: Option<QuestionRow>)
    ensures r.None? <==> forall k :: 0 <= k < |qs| ==> !(qs[k].questionIndex == index && qs[k].quizId == quizId)
    ensures r.Some? ==> r.value in qs && r.value.questionIndex == index && r.value.quizId == quizId
  {
    FirstWhere(qs, (x: QuestionRow) => x.questionIndex == index && x.quizId == quizId)
  }

  function UserById(users: seq<UserRow>, id: int): (r: Option<UserRow>)
    ensures r.None? <==> forall k :: 0 <= k < |users| ==> users[k].id != id
    ensures r.Some? ==> r.value in users && r.value.id == id
  {
    FirstWhere(users, (x: UserRow) => x.id == id)
  }

  // ---------------------------------------------------------------------
  // Scores.

  /** `UPDATE room_participants SET score = score + point WHERE id = pid`. */
  function AddScore(ps: seq<ParticipantRow>, pid: Id, point: int): (r: seq<ParticipantRow>)
    ensures |r| == |ps|
    ensures forall i :: 0 <= i < |ps| ==>
      r[i] == if ps[i].id == pid then ps[i].(score := ps[i].score + point) else ps[i]
  {
    if ps == [] then []
    else
      var head := if ps[0].id == pid then ps[0].(score := ps[0].score + point) else ps[0];
      [head] + AddScore(ps[1..], pid, point)
  }

  /** Changing a score keeps the participant table's ids and its one row per
      (room, user). */
  lemma AddScoreKeepsTable(ps: seq<ParticipantRow>, pid: Id, point: int, next: nat)
    requires ParticipantIdsOk(ps, next) && UniqueMembership(ps)
    ensures ParticipantIdsOk(AddScore(ps, pid, point), next)
    ensures UniqueMembership(AddScore(ps, pid, point))
  {
    var r := AddScore(ps, pid, point);
    assert forall i :: 0 <= i < |ps| ==> r[i].id == ps[i].id && r[i].roomId == ps[i].roomId && r[i].userId == ps[i].userId;
  }

  // ---------------------------------------------------------------------
  // The leaderboard.

  /** One row of `room_participants JOIN users ON rp.user_id = u.id`. */
  datatype Standing = Standing(userId: int, name: string, photo: Option<string>, score: int)

  /** The user a participant row joins with. User ids are unique, so the first
      user with the id is the only one. */
  function Joined(p: ParticipantRow, users: seq<UserRow>): Option<Standing> {
    match UserById(users, p.userId)
    case Some(u) => Some(Standing(u.id, u.fullName, u.photo, p.score))
    case None => None
  }

  /** The join restricted to `rp.room_id = roomId`, in table order. */
  function Standings(ps: seq<ParticipantRow>, users: seq<UserRow>, roomId: Id): (r: seq<Standing>)
    ensures |r| <= |ps|
  {
    if ps == [] then []
    else
      var rest := Standings(ps[1..], users, roomId);
      if ps[0].roomId == roomId && Joined(ps[0], users).Some? then [Joined(ps[0], users).value] + rest else rest
  }

  /** The join holds exactly the room's participants whose user exists. */
  lemma {:induction false} StandingsAreRoomMembers(ps: seq<ParticipantRow>, users: seq<UserRow>, roomId: Id, s: Standing)
    ensures s in Standings(ps, users, roomId) <==>
      exists i :: 0 <= i < |ps| && ps[i].roomId == roomId && Joined(ps[i], users) == Some(s)
  {
    if ps != [] {
      var rest := Standings(ps[1..], users, roomId);
      StandingsAreRoomMembers(ps[1..], users, roomId, s);
      var head := ps[0].roomId == roomId && Joined(ps[0], users) == Some(s);
      assert s in Standings(ps, users, roomId) <==> head || s in rest;
      if head {
        assert 0 < |ps| && ps[0].roomId == roomId && Joined(ps[0], users) == Some(s);
      } else if s in rest {
        var i :| 0 <= i < |ps[1..]| && ps[1..][i].roomId == roomId && Joined(ps[1..][i], users) == Some(s);
        assert ps[i + 1] == ps[1..][i];
      }
      if exists i :: 0 <= i < |ps| && ps[i].roomId == roomId && Joined(ps[i], users) == Some(s) {
        var i :| 0 <= i < |ps| && ps[i].roomId == roomId && Joined(ps[i], users) == Some(s);
        if i > 0 {
          assert ps[1..][i - 1] == ps[i];
        }
      }
    }
  }

  function ScoreOf(s: Standing): int { s.score }

  /** One entry of the list the leaderboard returns. */
  datatype BoardEntry = BoardEntry(userId: int, name: string, image: Option<string>, rank: int, score: int)

  function Unrank(e: BoardEntry): Standing {
    Standing(e.userId, e.name, e.image, e.score)
  }

  /** `enumerate(rows)` with `rank = idx + 1`. */
  function Ranked(rows: seq<Standing>): (r: seq<BoardEntry>)
    ensures |r| == |rows|
    ensures forall i :: 0 <= i < |r| ==> r[i].rank == i + 1 && Unrank(r[i]) == rows[i]
  {
    seq(|rows|, i requires 0 <= i < |rows| => BoardEntry(rows[i].userId, rows[i].name, rows[i].photo, i + 1, rows[i].score))
  }

  /** The rows of a leaderboard without their ranks. */
  function Unranked(b: seq<BoardEntry>): (r: seq<Standing>)
    ensures |r| == |b| && forall i :: 0 <= i < |b| ==> r[i] == Unrank(b[i])
  {
    seq(|b|, i requires 0 <= i < |b| => Unrank(b[i]))
  }

  /** `ORDER BY rp.score DESC`, then ranked by position. */
  function Board(ps: seq<ParticipantRow>, users: seq<UserRow>, roomId: Id): seq<BoardEntry> {
    Ranked(SortByKeyDesc(Standings(ps, users, roomId), ScoreOf))
  }

  /** `b` ranks `rows`: the same rows, scores never increasing down the list,
      and rank `i + 1` at position `i`. */
  ghost predicate IsRanking(b: seq<BoardEntry>, rows: seq<Standing>) {
    && |b| == |rows|
    && (forall i :: 0 <= i < |b| ==> b[i].rank == i + 1)
    && (forall i, j :: 0 <= i < j < |b| ==> b[i].score >= b[j].score)
    && multiset(Unranked(b)) == multiset(rows)
  }

  lemma BoardRanksStandings(ps: seq<ParticipantRow>, users: seq<UserRow>, roomId: Id)
    ensures IsRanking(Board(ps, users, roomId), Standings(ps, users, roomId))
  {
    var rows := Standings(ps, users, roomId);
    var sorted := SortByKeyDesc(rows, ScoreOf);
    var b := Board(ps, users, roomId);
    SortIsOrdered(rows, ScoreOf);
    assert Unranked(b) == sorted;
    forall i, j | 0 <= i < j < |b| ensures b[i].score >= b[j].score {
      assert ScoreOf(sorted[i]) >= ScoreOf(sorted[j]);
      assert Unrank(b[i]) == sorted[i] && Unrank(b[j]) == sorted[j];
    }
  }

  /** `GET /{room_code}/{quiz_id}/leaderboard`. */
  function Leaderboard(rooms: seq<RoomRow>, ps: seq<ParticipantRow>, users: seq<UserRow>, roomCode: string)
    : (r: Result<seq<BoardEntry>>)
    ensures RoomByCode(rooms, roomCode).None? ==> r == Err(Rewrap(500, HttpError(404, Text("Room not found"))))
    ensures RoomByCode(rooms, roomCode).Some? && Standings(ps, users, RoomByCode(rooms, roomCode).value.id) == [] ==>
      r == Err(Rewrap(500, HttpError(404, Text("No participants found"))))
    ensures r.Ok? <==>
      RoomByCode(rooms, roomCode).Some? && Standings(ps, users, RoomByCode(rooms, roomCode).value.id) != []
    ensures r.Ok? ==>
      |r.value| >= 1 && IsRanking(r.value, Standings(ps, users, RoomByCode(rooms, roomCode).value.id))
  {
    match RoomByCode(rooms, roomCode)
    case None => Err(Rewrap(500, HttpError(404, Text("Room not found"))))
    case Some(room) =>
      var rows := Standings(ps, users, room.id);
      if rows == [] then Err(Rewrap(500, HttpError(404, Text("No participants found"))))
      else
        BoardRanksStandings(ps, users, room.id);
        Ok(Board(ps, users, room.id))
  }

  // ---------------------------------------------------------------------
  // Creating and joining a room.

  datatype RoomLink = RoomLink(roomCode: string, redirect: string)

  /** `GET /room-code`: inserts a room for the `quiz_id` text under the code
      the generator produced. The text goes to the INSERT as it came:
      `toInt` is PostgreSQL's reading of it as an integer column, and
      `inserted` whether the database accepts the row (a missing quiz
      violates the foreign key). A rejected INSERT and a falsy id from
      `RETURNING id` are both re-raised as 400. */
  method CreateRoom(db: Database, roomCode: string, quizId: string, creatorId: int,
                    toInt: string -> Option<int>, inserted: bool) returns (r: Result<RoomLink>)
    requires db.RoomTableOk()
    modifies db`rooms, db`nextRoomId
    ensures db.RoomTableOk()
    ensures toInt(quizId).None? || !inserted ==> r == Err(HttpError(400, Foreign)) && unchanged(db)
    ensures toInt(quizId).Some? && inserted && old(db.nextRoomId) == 0 ==>
      r == Err(Rewrap(400, HttpError(500, Text("Something went wrong")))) && unchanged(db)
    ensures r.Ok? <==> toInt(quizId).Some? && inserted && old(db.nextRoomId) != 0
    ensures r.Ok? ==>
      && r.value == RoomLink(roomCode, "room/" + roomCode + "/admin")
      && db.rooms == old(db.rooms) + [RoomRow(old(db.nextRoomId), roomCode, toInt(quizId).value, creatorId)]
      && db.nextRoomId == old(db.nextRoomId) + 1
  {
    var quiz := toInt(quizId);
    if quiz.None? || !inserted {
      return Err(HttpError(400, Foreign));
    }
    var id := db.nextRoomId;
    if id == 0 {
      return Err(Rewrap(400, HttpError(500, Text("Something went wrong"))));
    }
    var row := RoomRow(id, roomCode, quiz.value, creatorId);
    RoomAppendKeepsIds(db.rooms, db.nextRoomId, row);
    db.rooms := db.rooms + [row];
    db.nextRoomId := id + 1;
    r := Ok(RoomLink(roomCode, "room/" + roomCode + "/admin"));
  }

  datatype JoinReply = JoinReply(message: string, participantId: Id, isJoined: bool)

  /** `POST /{room_code}/join`. */
  method JoinRoom(db: Database, roomCode: string, userId: int, now: int) returns (r: Result<JoinReply>)
    requires db.ParticipantTableOk()
    modifies db`participants, db`nextParticipantId
    ensures db.ParticipantTableOk()
    ensures RoomByCode(db.rooms, roomCode).None? ==>
      r == Err(Rewrap(500, HttpError(404, Text("Room not found")))) && unchanged(db)
    ensures RoomByCode(db.rooms, roomCode).Some? ==>
      var room := RoomByCode(db.rooms, roomCode).value;
      match ParticipantOf(old(db.participants), room.id, userId)
      case Some(p) =>
        r == Ok(JoinReply("Already joined", p.id, true)) && unchanged(db)
      case None =>
        && r == Ok(JoinReply("joined", old(db.nextParticipantId), true))
        && db.participants == old(db.participants) + [ParticipantRow(old(db.nextParticipantId), room.id, userId, 0, now)]
        && db.nextParticipantId == old(db.nextParticipantId) + 1
  {
    var room := RoomByCode(db.rooms, roomCode);
    if room.None? {
      return Err(Rewrap(500, HttpError(404, Text("Room not found"))));
    }
    var roomId := room.value.id;
    var existing := ParticipantOf(db.participants, roomId, userId);
    if existing.Some? {
      return Ok(JoinReply("Already joined", existing.value.id, true));
    }
    var id := db.nextParticipantId;
    var row := ParticipantRow(id, roomId, userId, 0, now);
    ParticipantAppendKeepsIds(db.participants, id, row);
    JoinKeepsMembershipUnique(db.participants, row);
    db.participants := db.participants + [row];
    db.nextParticipantId := id + 1;
    r := Ok(JoinReply("joined", id, true));
  }

  lemma JoinKeepsMembershipUnique(ps: seq<ParticipantRow>, row: ParticipantRow)
    requires UniqueMembership(ps)
    requires forall k :: 0 <= k < |ps| ==> !(ps[k].roomId == row.roomId && ps[k].userId == row.userId)
    ensures UniqueMembership(ps + [row])
  {
    var t := ps + [row];
    forall i, j | 0 <= i < j < |t| ensures (t[i].roomId, t[i].userId) != (t[j].roomId, t[j].userId) {
      if j == |ps| {
        assert t[i] == ps[i];
      } else {
        assert t[i] == ps[i] && t[j] == ps[j];
      }
    }
  }

  /** Joining is idempotent: a second join of the same user finds the row the
      first one left and inserts nothing. */
  method JoinTwice(db: Database, roomCode: string, userId: int, now: int, later: int)
    returns (first: Result<JoinReply>, second: Result<JoinReply>)
    requires db.ParticipantTableOk()
    modifies db`participants, db`nextParticipantId
    ensures db.ParticipantTableOk()
    ensures first.Err? <==> second.Err?
    ensures first.Ok? ==>
      second == Ok(JoinReply("Already joined", first.value.participantId, true))
    ensures |db.participants| <= |old(db.participants)| + 1
  {
    first := JoinRoom(db, roomCode, userId, now);
    ghost var afterFirst := db.participants;
    second := JoinRoom(db, roomCode, userId, later);
    if first.Ok? && first.value.message == "joined" {
      var room := RoomByCode(db.rooms, roomCode).value;
      var ps0 := old(db.participants);
      assert afterFirst == ps0 + [ParticipantRow(first.value.participantId, room.id, userId, 0, now)];
      ParticipantOfAppended(ps0, ParticipantRow(first.value.participantId, room.id, userId, 0, now));
    }
  }

  /** The first match in `ps + [row]`, when no row of `ps` matches, is `row`. */
  lemma ParticipantOfAppended(ps: seq<ParticipantRow>, row: ParticipantRow)
    requires ParticipantOf(ps, row.roomId, row.userId).None?
    ensures ParticipantOf(ps + [row], row.roomId, row.userId) == Some(row)
  {
    var t := ps + [row];
    assert t[|ps|] == row;
  }

  // ---------------------------------------------------------------------
  // Answers.

  /** `str(correct_option) == str(selected_option)`. */
  predicate Matches(correct: int, selected: Value) {
    IntToString(correct) == Str(selected)
  }

  /** A number is right exactly when it equals the stored option; a text is
      right exactly when it is the stored option printed in decimal. */
  lemma MatchesMeaning(correct: int, selected: Value)
    ensures selected.IntValue? ==> (Matches(correct, selected) <==> selected.i == correct)
    ensures selected.StrValue? ==> (Matches(correct, selected) <==> selected.s == IntToString(correct))
  {
    if selected.IntValue? {
      StrIntEquality(correct, selected.i);
    }
  }

  /** The invariants of the tables an answer writes. */
  ghost predicate AnswerTablesOk(db: Database)
    reads db`participants, db`nextParticipantId, db`shown, db`nextShownId, db`answers, db`nextAnswerId
  {
    db.ParticipantTableOk() && db.ShownTableOk() && db.AnswerTableOk()
  }

  /** Appends the `room_questions` row and the `room_answers` row, and adds
      `point` to the participant's score when the answer is right. */
  method RecordAnswer(db: Database, roomId: Id, participantId: Id, questionIndex: int, selected: Value,
                      correct: bool, point: int, answeredAt: string, now: int)
    returns (questionShowId: Id, answerId: Id)
    requires AnswerTablesOk(db)
    modifies db`participants, db`shown, db`nextShownId, db`answers, db`nextAnswerId
    ensures AnswerTablesOk(db)
    ensures db.participants == if correct then AddScore(old(db.participants), participantId, point) else old(db.participants)
    ensures questionShowId == old(db.nextShownId) && db.nextShownId == questionShowId + 1
    ensures db.shown == old(db.shown) + [ShownRow(questionShowId, roomId, questionIndex, now)]
    ensures answerId == old(db.nextAnswerId) && db.nextAnswerId == answerId + 1
    ensures db.answers == old(db.answers) + [AnswerRow(answerId, roomId, participantId, questionIndex, selected, correct, answeredAt)]
  {
    if correct {
      AddScoreKeepsTable(db.participants, participantId, point, db.nextParticipantId);
      db.participants := AddScore(db.participants, participantId, point);
    }
    questionShowId := db.nextShownId;
    var shownRow := ShownRow(questionShowId, roomId, questionIndex, now);
    ShownAppendKeepsIds(db.shown, db.nextShownId, shownRow);
    db.shown := db.shown + [shownRow];
    db.nextShownId := questionShowId + 1;
    answerId := db.nextAnswerId;
    var answerRow := AnswerRow(answerId, roomId, participantId, questionIndex, selected, correct, answeredAt);
    AnswerAppendKeepsIds(db.answers, db.nextAnswerId, answerRow);
    db.answers := db.answers + [answerRow];
    db.nextAnswerId := answerId + 1;
  }

  /** The answer as a socket client sends it: a dictionary whose keys may be
      missing. */
  datatype AnswerInput = AnswerInput(questionId: Option<int>, selectedOption: Option<Value>,
                                     point: Option<int>, answeredAt: Option<string>)

  /** `question_id and selected_option is not None and answered_at`, with
      Python's truthiness: ordinal 0 and an empty timestamp count as missing. */
  predicate Complete(a: AnswerInput) {
    && a.questionId.Some? && a.questionId.value != 0
    && a.selectedOption.Some?
    && a.answeredAt.Some? && a.answeredAt.value != ""
  }

  /** What the checks of an answer decide: what to record, or why not. */
  datatype Verdict =
    | Accept(roomId: Id, participantId: Id, questionIndex: int, selected: Value,
             point: int, answeredAt: string, correct: bool)
    | Reject(reason: Detail)

  /** The checks of the answer helper, in the order it makes them: the room, the
      membership, the answer's fields, the timestamp's format, the question.
      `parsesIso` says whether `datetime.fromisoformat` accepts a timestamp. */
  function CheckAnswer(rooms: seq<RoomRow>, ps: seq<ParticipantRow>, qs: seq<QuestionRow>,
                       userId: int, roomCode: string, a: AnswerInput, parsesIso: string -> bool): (v: Verdict)
    ensures RoomByCode(rooms, roomCode).None? ==> v == Reject(Text("Invalid room code"))
    ensures RoomByCode(rooms, roomCode).Some? &&
            ParticipantOf(ps, RoomByCode(rooms, roomCode).value.id, userId).None? ==>
              v == Reject(Text("User not participant in room"))
    ensures !Complete(a) ==> v.Reject?
    ensures RoomByCode(rooms, roomCode).Some? &&
            ParticipantOf(ps, RoomByCode(rooms, roomCode).value.id, userId).Some? &&
            !Complete(a) ==>
              v == Reject(Text("Incomplete answer data"))
    ensures RoomByCode(rooms, roomCode).Some? &&
            ParticipantOf(ps, RoomByCode(rooms, roomCode).value.id, userId).Some? &&
            Complete(a) && !parsesIso(a.answeredAt.value) ==>
              v == Reject(Foreign)
    ensures RoomByCode(rooms, roomCode).Some? &&
            ParticipantOf(ps, RoomByCode(rooms, roomCode).value.id, userId).Some? &&
            Complete(a) && parsesIso(a.answeredAt.value) &&
            QuestionAt(qs, RoomByCode(rooms, roomCode).value.quizId, a.questionId.value).None? ==>
              v == Reject(Text("Question not found"))
    ensures v.Accept? <==>
      && RoomByCode(rooms, roomCode).Some?
      && ParticipantOf(ps, RoomByCode(rooms, roomCode).value.id, userId).Some?
      && Complete(a) && parsesIso(a.answeredAt.value)
      && QuestionAt(qs, RoomByCode(rooms, roomCode).value.quizId, a.questionId.value).Some?
    ensures v.Accept? ==>
      && v.roomId == RoomByCode(rooms, roomCode).value.id
      && v.participantId == ParticipantOf(ps, v.roomId, userId).value.id
      && v.questionIndex == a.questionId.value && v.selected == a.selectedOption.value
      && v.answeredAt == a.answeredAt.value
      && v.point == (if a.point.Some? then a.point.value else 0)
      && v.correct == Matches(QuestionAt(qs, RoomByCode(rooms, roomCode).value.quizId, v.questionIndex).value.correctOption, v.selected)
  {
    match RoomByCode(rooms, roomCode)
    case None => Reject(Text("Invalid room code"))
    case Some(room) =>
      match ParticipantOf(ps, room.id, userId)
      case None => Reject(Text("User not participant in room"))
      case Some(p) =>
        if !Complete(a) then Reject(Text("Incomplete answer data"))
        else if !parsesIso(a.answeredAt.value) then Reject(Foreign)
        else
          match QuestionAt(qs, room.quizId, a.questionId.value)
          case None => Reject(Text("Question not found"))
          case Some(q) =>
            var selected := a.selectedOption.value;
            Accept(room.id, p.id, a.questionId.value, selected,
                   if a.point.Some? then a.point.value else 0, a.answeredAt.value,
                   Matches(q.correctOption, selected))
  }

  /** What the helper returns: the new rows' ids, or `{"error": ...}`. */
  datatype HelperReply = Recorded(answerId: Id, questionShowId: Id, isCorrect: bool) | Refused(error: Detail)

  /** `process_answer_and_update_leaderboard`. After the commit it builds the
      leaderboard and hands it to a push whose outcome is `pushOk`; a failed
      push is reported as an error but the commit stands. */
  method ProcessAnswer(db: Database, userId: int, roomCode: string, a: AnswerInput,
                       parsesIso: string -> bool, now: int, pushOk: bool)
    returns (reply: HelperReply, pushed: Option<seq<BoardEntry>>)
    requires AnswerTablesOk(db)
    modifies db`participants, db`shown, db`nextShownId, db`answers, db`nextAnswerId
    ensures AnswerTablesOk(db)
    ensures var v := CheckAnswer(old(db.rooms), old(db.participants), old(db.questions), userId, roomCode, a, parsesIso);
      v.Reject? ==> reply == Refused(v.reason) && pushed == None && unchanged(db)
    ensures var v := CheckAnswer(old(db.rooms), old(db.participants), old(db.questions), userId, roomCode, a, parsesIso);
      v.Accept? ==>
        && db.participants == (if v.correct then AddScore(old(db.participants), v.participantId, v.point) else old(db.participants))
        && db.shown == old(db.shown) + [ShownRow(old(db.nextShownId), v.roomId, v.questionIndex, now)]
        && db.answers == old(db.answers) + [AnswerRow(old(db.nextAnswerId), v.roomId, v.participantId, v.questionIndex, v.selected, v.correct, v.answeredAt)]
        && db.nextShownId == old(db.nextShownId) + 1 && db.nextAnswerId == old(db.nextAnswerId) + 1
        && pushed == Some(Board(db.participants, db.users, v.roomId))
        && reply == (if pushOk then Recorded(old(db.nextAnswerId), old(db.nextShownId), v.correct) else Refused(Foreign))
  {
    var room := RoomByCode(db.rooms, roomCode);
    if room.None? {
      return Refused(Text("Invalid room code")), None;
    }
    var participant := ParticipantOf(db.participants, room.value.id, userId);
    if participant.None? {
      return Refused(Text("User not participant in room")), None;
    }
    if !Complete(a) {
      return Refused(Text("Incomplete answer data")), None;
    }
    if !parsesIso(a.answeredAt.value) {
      return Refused(Foreign), None;
    }
    var question := QuestionAt(db.questions, room.value.quizId, a.questionId.value);
    if question.None? {
      return Refused(Text("Question not found")), None;
    }
    var point := if a.point.Some? then a.point.value else 0;
    var correct := Matches(question.value.correctOption, a.selectedOption.value);
    var questionShowId, answerId := RecordAnswer(db, room.value.id, participant.value.id, a.questionId.value,
                                                 a.selectedOption.value, correct, point, a.answeredAt.value, now);
    // committed; the leaderboard is read back from the new state
    pushed := Some(Board(db.participants, db.users, room.value.id));
    reply := if pushOk then Recorded(answerId, questionShowId, correct) else Refused(Foreign);
  }

  /** The body of `POST /{room_code}/game`, as its schema types it. */
  datatype AnswerData = AnswerData(questionId: int, selectedOption: string, point: int, answeredAt: string)

  datatype AnswerReceipt = AnswerReceipt(answerId: Id, questionShowId: Id, isCorrect: bool)

  /** The checks of the HTTP twin, in its order and with its words: no field
      check and no timestamp parsing. */
  function CheckSubmission(rooms: seq<RoomRow>, ps: seq<ParticipantRow>, qs: seq<QuestionRow>,
                           userId: int, roomCode: string, a: AnswerData): (v: Verdict)
    ensures RoomByCode(rooms, roomCode).None? ==> v == Reject(Text("Invalid room code"))
    ensures RoomByCode(rooms, roomCode).Some? &&
            ParticipantOf(ps, RoomByCode(rooms, roomCode).value.id, userId).None? ==>
              v == Reject(Text("User not in this room"))
    ensures RoomByCode(rooms, roomCode).Some? &&
            ParticipantOf(ps, RoomByCode(rooms, roomCode).value.id, userId).Some? &&
            QuestionAt(qs, RoomByCode(rooms, roomCode).value.quizId, a.questionId).None? ==>
              v == Reject(Text("Question not found"))
    ensures v.Accept? <==>
      && RoomByCode(rooms, roomCode).Some?
      && ParticipantOf(ps, RoomByCode(rooms, roomCode).value.id, userId).Some?
      && QuestionAt(qs, RoomByCode(rooms, roomCode).value.quizId, a.questionId).Some?
    ensures v.Reject? ==> v.reason.Text?
    ensures v.Accept? ==>
      && v.roomId == RoomByCode(rooms, roomCode).value.id
      && v.participantId == ParticipantOf(ps, v.roomId, userId).value.id
      && v.questionIndex == a.questionId && v.selected == StrValue(a.selectedOption)
      && v.point == a.point && v.answeredAt == a.answeredAt
      && (v.correct <==> a.selectedOption == IntToString(QuestionAt(qs, RoomByCode(rooms, roomCode).value.quizId, a.questionId).value.correctOption))
  {
    match RoomByCode(rooms, roomCode)
    case None => Reject(Text("Invalid room code"))
    case Some(room) =>
      match ParticipantOf(ps, room.id, userId)
      case None => Reject(Text("User not in this room"))
      case Some(p) =>
        match QuestionAt(qs, room.quizId, a.questionId)
        case None => Reject(Text("Question not found"))
        case Some(q) =>
          Accept(room.id, p.id, a.questionId, StrValue(a.selectedOption), a.point, a.answeredAt,
                 Matches(q.correctOption, StrValue(a.selectedOption)))
  }

  /** `POST /{room_code}/game`: the same recording as the helper; its own
      errors are raised as 400 and re-raised as 500. */
  method SubmitAnswer(db: Database, userId: int, roomCode: string, a: AnswerData, now: int)
    returns (r: Result<AnswerReceipt>)
    requires AnswerTablesOk(db)
    modifies db`participants, db`shown, db`nextShownId, db`answers, db`nextAnswerId
    ensures AnswerTablesOk(db)
    ensures var v := CheckSubmission(old(db.rooms), old(db.participants), old(db.questions), userId, roomCode, a);
      v.Reject? ==> r == Err(Rewrap(500, HttpError(400, v.reason))) && unchanged(db)
    ensures var v := CheckSubmission(old(db.rooms), old(db.participants), old(db.questions), userId, roomCode, a);
      v.Accept? ==>
        && db.participants == (if v.correct then AddScore(old(db.participants), v.participantId, v.point) else old(db.participants))
        && db.shown == old(db.shown) + [ShownRow(old(db.nextShownId), v.roomId, v.questionIndex, now)]
        && db.answers == old(db.answers) + [AnswerRow(old(db.nextAnswerId), v.roomId, v.participantId, v.questionIndex, v.selected, v.correct, v.answeredAt)]
        && db.nextShownId == old(db.nextShownId) + 1 && db.nextAnswerId == old(db.nextAnswerId) + 1
        && r == Ok(AnswerReceipt(old(db.nextAnswerId), old(db.nextShownId), v.correct))
  {
    var room := RoomByCode(db.rooms, roomCode);
    if room.None? {
      return Err(Rewrap(500, HttpError(400, Text("Invalid room code"))));
    }
    var participant := ParticipantOf(db.participants, room.value.id, userId);
    if participant.None? {
      return Err(Rewrap(500, HttpError(400, Text("User not in this room"))));
    }
    var question := QuestionAt(db.questions, room.value.quizId, a.questionId);
    if question.None? {
      return Err(Rewrap(500, HttpError(400, Text("Question not found"))));
    }
    var correctOption := question.value.correctOption;
    var isCorrect := false;
    if IntToString(correctOption) == a.selectedOption {
      isCorrect := true;
    }
    if IntToString(correctOption) != a.selectedOption {
      isCorrect := false;
    }
    var questionShowId, answerId := RecordAnswer(db, room.value.id, participant.value.id, a.questionId,
                                                 StrValue(a.selectedOption), isCorrect, a.point, a.answeredAt, now);
    r := Ok(AnswerReceipt(answerId, questionShowId, isCorrect));
  }

  /** A score update changes no row's id, room or user. */
  lemma AddScoreKeepsKeys(ps: seq<ParticipantRow>, pid: Id, point: int)
    ensures forall k :: 0 <= k < |ps| ==>
      AddScore(ps, pid, point)[k].id == ps[k].id &&
      AddScore(ps, pid, point)[k].roomId == ps[k].roomId && AddScore(ps, pid, point)[k].userId == ps[k].userId
  {
    var t := AddScore(ps, pid, point);
    forall k | 0 <= k < |ps| ensures t[k].id == ps[k].id && t[k].roomId == ps[k].roomId && t[k].userId == ps[k].userId {
      assert t[k] == if ps[k].id == pid then ps[k].(score := ps[k].score + point) else ps[k];
    }
  }

  /** A score update leaves every participant row where it was: the lookup of
      (room, user) finds the same participant before and after. */
  lemma ScoreKeepsParticipant(ps: seq<ParticipantRow>, pid: Id, point: int, roomId: Id, userId: int)
    requires UniqueMembership(ps)
    ensures ParticipantOf(AddScore(ps, pid, point), roomId, userId).Some? == ParticipantOf(ps, roomId, userId).Some?
    ensures ParticipantOf(ps, roomId, userId).Some? ==>
      ParticipantOf(AddScore(ps, pid, point), roomId, userId).value.id == ParticipantOf(ps, roomId, userId).value.id
  {
    var t := AddScore(ps, pid, point);
    AddScoreKeepsKeys(ps, pid, point);
    var before := ParticipantOf(ps, roomId, userId);
    var after := ParticipantOf(t, roomId, userId);
    if before.Some? {
      var k :| 0 <= k < |ps| && ps[k] == before.value;
      assert t[k].roomId == roomId && t[k].userId == userId;
      var k2 :| 0 <= k2 < |t| && t[k2] == after.value;
      assert ps[k2].roomId == roomId && ps[k2].userId == userId;
      assert k == k2;
    }
  }

  /** Nothing stops a repeated answer: sending the same right answer twice
      records it twice and adds its point twice. */
  method AnswerTwice(db: Database, userId: int, roomCode: string, a: AnswerData, now: int)
    returns (first: Result<AnswerReceipt>, second: Result<AnswerReceipt>)
    requires AnswerTablesOk(db)
    requires CheckSubmission(db.rooms, db.participants, db.questions, userId, roomCode, a).Accept?
    requires CheckSubmission(db.rooms, db.participants, db.questions, userId, roomCode, a).correct
    modifies db`participants, db`shown, db`nextShownId, db`answers, db`nextAnswerId
    ensures first.Ok? && second.Ok? && first.value.answerId != second.value.answerId
    ensures |db.answers| == |old(db.answers)| + 2
    ensures var pid := CheckSubmission(old(db.rooms), old(db.participants), old(db.questions), userId, roomCode, a).participantId;
      forall i :: 0 <= i < |old(db.participants)| && i < |db.participants| && db.participants[i].id == pid ==>
        db.participants[i].score == old(db.participants[i].score) + 2 * a.point
  {
    ghost var ps0, answers0, next0 := db.participants, db.answers, db.nextAnswerId;
    ghost var v := CheckSubmission(db.rooms, ps0, db.questions, userId, roomCode, a);
    first := SubmitAnswer(db, userId, roomCode, a, now);
    assert first.Ok? && first.value.answerId == next0;
    assert |db.answers| == |answers0| + 1 && db.nextAnswerId == next0 + 1;
    assert db.participants == AddScore(ps0, v.participantId, v.point);
    ResubmitSameVerdict(db.rooms, ps0, db.questions, userId, roomCode, a);
    ghost var ps1, answers1 := db.participants, db.answers;
    assert CheckSubmission(db.rooms, ps1, db.questions, userId, roomCode, a) == v;
    second := SubmitAnswer(db, userId, roomCode, a, now);
    assert second.Ok? && second.value.answerId == next0 + 1;
    assert |db.answers| == |answers1| + 1;
    assert db.participants == AddScore(ps1, v.participantId, v.point);
    AddScoreTwice(ps0, v.participantId, a.point);
  }

  /** A right answer's score update does not change how the same submission
      is judged again. */
  lemma ResubmitSameVerdict(rooms: seq<RoomRow>, ps: seq<ParticipantRow>, qs: seq<QuestionRow>,
                            userId: int, roomCode: string, a: AnswerData)
    requires UniqueMembership(ps)
    requires CheckSubmission(rooms, ps, qs, userId, roomCode, a).Accept?
    ensures var v := CheckSubmission(rooms, ps, qs, userId, roomCode, a);
      CheckSubmission(rooms, AddScore(ps, v.participantId, v.point), qs, userId, roomCode, a) == v
  {
    var v := CheckSubmission(rooms, ps, qs, userId, roomCode, a);
    ScoreKeepsParticipant(ps, v.participantId, v.point, v.roomId, userId);
  }

  /** Two score updates of one participant add the point twice to its rows. */
  lemma AddScoreTwice(ps: seq<ParticipantRow>, pid: Id, point: int)
    ensures |AddScore(AddScore(ps, pid, point), pid, point)| == |ps|
    ensures forall i :: 0 <= i < |ps| && AddScore(AddScore(ps, pid, point), pid, point)[i].id == pid ==>
      AddScore(AddScore(ps, pid, point), pid, point)[i].score == ps[i].score + 2 * point
  {
    var t := AddScore(ps, pid, point);
    AddScoreKeepsKeys(ps, pid, point);
    AddScoreKeepsKeys(t, pid, point);
  }

  // ---------------------------------------------------------------------
  // One user's result.

  datatype UserInfo = UserInfo(id: int, name: string, image: Option<string>, score: int)
  datatype AnswerView = AnswerView(question: string, options: seq<string>, selectedOption: Value,
                                   correctOption: int, isCorrect: bool)
  datatype UserResult = UserResult(info: UserInfo, answers: seq<AnswerView>)

  /** One row of `room_answers JOIN quiz_questions`. */
  datatype AnsweredQuestion = AnsweredQuestion(answer: AnswerRow, question: QuestionRow)

  /** `WHERE ra.room_id = roomId AND ra.participant_id = pid`, in table order. */
  function AnswersOf(rows: seq<AnswerRow>, roomId: Id, pid: Id): (r: seq<AnswerRow>)
    ensures forall x :: x in r <==> x in rows && x.roomId == roomId && x.participantId == pid
  {
    Filter(rows, (x: AnswerRow) => x.roomId == roomId && x.participantId == pid)
  }

  /** Each answer paired with every question that `meets` accepts for it:
      an inner join, answers in table order. */
  function JoinQuestions(rows: seq<AnswerRow>, qs: seq<QuestionRow>, meets: (AnswerRow, QuestionRow) -> bool)
    : (r: seq<AnsweredQuestion>)
    ensures forall x :: x in r <==> x.answer in rows && x.question in qs && meets(x.answer, x.question)
  {
    if rows == [] then []
    else
      var ms := Filter(qs, (q: QuestionRow) => meets(rows[0], q));
      var here := seq(|ms|, i requires 0 <= i < |ms| => AnsweredQuestion(rows[0], ms[i]));
      assert forall x: AnsweredQuestion :: x in here <==> x.answer == rows[0] && x.question in ms by {
        forall x: AnsweredQuestion | x.answer == rows[0] && x.question in ms ensures x in here {
          var i :| 0 <= i < |ms| && ms[i] == x.question;
          assert here[i] == x;
        }
      }
      assert rows == [rows[0]] + rows[1..];
      here + JoinQuestions(rows[1..], qs, meets)
  }

  /** The join the answers are recorded for: the stored question ordinal
      against `question_index`, within the room's quiz. */
  function ByOrdinal(quizId: int): (AnswerRow, QuestionRow) -> bool {
    (a: AnswerRow, q: QuestionRow) => q.quizId == quizId && q.questionIndex == a.questionId
  }

  /** The join as the handler writes it: `ra.question_id = qq.id`. */
  function ById(a: AnswerRow, q: QuestionRow): bool {
    q.id == a.questionId
  }

  /** `ORDER BY qq.question_index ASC`, as a descending sort on the negated
      index. */
  function NegatedIndex(x: AnsweredQuestion): int { -x.question.questionIndex }

  /** The participant's answered questions, ordered by question index. */
  function ResultRows(answers: seq<AnswerRow>, qs: seq<QuestionRow>, roomId: Id, quizId: int, pid: Id)
    : (r: seq<AnsweredQuestion>)
    ensures forall i, j :: 0 <= i < j < |r| ==> r[i].question.questionIndex <= r[j].question.questionIndex
  {
    SortedJoinMeaning(AnswersOf(answers, roomId, pid), qs, ByOrdinal(quizId));
    SortByKeyDesc(JoinQuestions(AnswersOf(answers, roomId, pid), qs, ByOrdinal(quizId)), NegatedIndex)
  }

  /** The rows as the handler computes them, joining on the question's id. */
  function ResultRowsAsWritten(answers: seq<AnswerRow>, qs: seq<QuestionRow>, roomId: Id, pid: Id)
    : (r: seq<AnsweredQuestion>)
    ensures forall i, j :: 0 <= i < j < |r| ==> r[i].question.questionIndex <= r[j].question.questionIndex
  {
    SortedJoinMeaning(AnswersOf(answers, roomId, pid), qs, ById);
    SortByKeyDesc(JoinQuestions(AnswersOf(answers, roomId, pid), qs, ById), NegatedIndex)
  }

  /** The result lists every answer the participant recorded in the room whose
      ordinal names a question of the room's quiz, with that question, in
      increasing question order, and holds each joined pair as often as the
      inner join produces it. */
  lemma ResultRowsMeaning(answers: seq<AnswerRow>, qs: seq<QuestionRow>, roomId: Id, quizId: int, pid: Id)
    ensures var rows := ResultRows(answers, qs, roomId, quizId, pid);
      forall i, j :: 0 <= i < j < |rows| ==> rows[i].question.questionIndex <= rows[j].question.questionIndex
    ensures forall x :: x in ResultRows(answers, qs, roomId, quizId, pid) <==>
      && x.answer in answers && x.answer.roomId == roomId && x.answer.participantId == pid
      && x.question in qs && x.question.quizId == quizId && x.question.questionIndex == x.answer.questionId
    ensures multiset(ResultRows(answers, qs, roomId, quizId, pid)) ==
            multiset(JoinQuestions(AnswersOf(answers, roomId, pid), qs, ByOrdinal(quizId)))
  {
    SortedJoinMeaning(AnswersOf(answers, roomId, pid), qs, ByOrdinal(quizId));
  }

  /** The rows as the handler computes them: every answer of the participant
      in the room beside each question, of any quiz, whose id equals the
      stored number, in increasing question order, each joined pair as often
      as the inner join produces it. */
  lemma ResultRowsAsWrittenMeaning(answers: seq<AnswerRow>, qs: seq<QuestionRow>, roomId: Id, pid: Id)
    ensures var rows := ResultRowsAsWritten(answers, qs, roomId, pid);
      forall i, j :: 0 <= i < j < |rows| ==> rows[i].question.questionIndex <= rows[j].question.questionIndex
    ensures forall x :: x in ResultRowsAsWritten(answers, qs, roomId, pid) <==>
      && x.answer in answers && x.answer.roomId == roomId && x.answer.participantId == pid
      && x.question in qs && x.question.id == x.answer.questionId
    ensures multiset(ResultRowsAsWritten(answers, qs, roomId, pid)) ==
            multiset(JoinQuestions(AnswersOf(answers, roomId, pid), qs, ById))
  {
    SortedJoinMeaning(AnswersOf(answers, roomId, pid), qs, ById);
  }

  /** `ORDER BY qq.question_index ASC` over an inner join: the same pairs with
      the same multiplicities, in increasing question order. */
  lemma SortedJoinMeaning(rows: seq<AnswerRow>, qs: seq<QuestionRow>, meets: (AnswerRow, QuestionRow) -> bool)
    ensures var sorted := SortByKeyDesc(JoinQuestions(rows, qs, meets), NegatedIndex);
      && multiset(sorted) == multiset(JoinQuestions(rows, qs, meets))
      && (forall i, j :: 0 <= i < j < |sorted| ==> sorted[i].question.questionIndex <= sorted[j].question.questionIndex)
      && (forall x :: x in sorted <==> x.answer in rows && x.question in qs && meets(x.answer, x.question))
  {
    var joined := JoinQuestions(rows, qs, meets);
    var sorted := SortByKeyDesc(joined, NegatedIndex);
    SortIsOrdered(joined, NegatedIndex);
    forall i, j | 0 <= i < j < |sorted| ensures sorted[i].question.questionIndex <= sorted[j].question.questionIndex {
      assert NegatedIndex(sorted[i]) >= NegatedIndex(sorted[j]);
    }
    forall x: AnsweredQuestion ensures x in sorted <==> x in joined {
      assert x in sorted <==> x in multiset(sorted);
      assert x in joined <==> x in multiset(joined);
    }
  }

  /** A counterexample to the join as written: the quiz's first question has id
      7, the participant's answer to it is accepted and recorded with ordinal
      1, and the handler's join on the id drops it. */
  lemma AsWrittenDropsRecordedAnswer()
    ensures var q := QuestionRow(7, 1, "2 + 2 = ?", 1, ["3", "4"], 1, 10, 30);
            var room := RoomRow(1, "ABCD", 1, 1);
            var p := ParticipantRow(1, 1, 5, 0, 0);
            var a := AnswerInput(Some(1), Some(IntValue(1)), Some(10), Some("2024-01-01T00:00:00Z"));
            var ans := AnswerRow(1, 1, 1, 1, IntValue(1), true, "2024-01-01T00:00:00Z");
            && CheckAnswer([room], [p], [q], 5, "ABCD", a, (t: string) => true)
                 == Accept(1, 1, 1, IntValue(1), 10, "2024-01-01T00:00:00Z", true)
            && ResultRowsAsWritten([ans], [q], 1, 1) == []
            && ResultRows([ans], [q], 1, 1, 1) == [AnsweredQuestion(ans, q)]
  {
    var q := QuestionRow(7, 1, "2 + 2 = ?", 1, ["3", "4"], 1, 10, 30);
    var ans := AnswerRow(1, 1, 1, 1, IntValue(1), true, "2024-01-01T00:00:00Z");
    assert AnswersOf([ans], 1, 1) == [ans];
  }

  /** The join as written can show the wrong question: when the stored
      ordinal of an answer happens to be the id of a question of another quiz,
      the handler pairs the answer with that question, while the corrected
      join pairs it with the room quiz's question of that ordinal. For
      instance quiz 1's second question has id 7 and quiz 9's question has
      id 2; an answer recorded for ordinal 2 shows quiz 9's question. */
  lemma AsWrittenShowsOtherQuestion(answers: seq<AnswerRow>, qs: seq<QuestionRow>, roomId: Id, quizId: int, pid: Id,
                                    ans: AnswerRow, mine: QuestionRow, other: QuestionRow)
    requires ans in answers && ans.roomId == roomId && ans.participantId == pid
    requires mine in qs && mine.quizId == quizId && mine.questionIndex == ans.questionId && mine.id != ans.questionId
    requires other in qs && other.quizId != quizId && other.id == ans.questionId
    ensures AnsweredQuestion(ans, other) in ResultRowsAsWritten(answers, qs, roomId, pid)
    ensures AnsweredQuestion(ans, mine) !in ResultRowsAsWritten(answers, qs, roomId, pid)
    ensures AnsweredQuestion(ans, mine) in ResultRows(answers, qs, roomId, quizId, pid)
    ensures AnsweredQuestion(ans, other) !in ResultRows(answers, qs, roomId, quizId, pid)
  {
    ResultRowsAsWrittenMeaning(answers, qs, roomId, pid);
    ResultRowsMeaning(answers, qs, roomId, quizId, pid);
  }

  function View(x: AnsweredQuestion): AnswerView {
    AnswerView(x.question.question, x.question.options, x.answer.selectedOption,
               x.question.correctOption, x.answer.isCorrect)
  }

  /** The handler's accumulator loop over the fetched rows. */
  method ShapeAnswers(rows: seq<AnsweredQuestion>) returns (views: seq<AnswerView>)
    ensures |views| == |rows|
    ensures forall i :: 0 <= i < |rows| ==> views[i] == View(rows[i])
  {
    views := [];
    var k := 0;
    while k < |rows|
      invariant 0 <= k <= |rows|
      invariant |views| == k
      invariant forall i :: 0 <= i < k ==> views[i] == View(rows[i])
    {
      views := views + [View(rows[k])];
      k := k + 1;
    }
  }

  /** `GET /{room_code}/{quiz_id}/{user_id}/result`, with the join as the
      handler writes it (`ra.question_id = qq.id`); it reads the tables and
      changes nothing. */
  method EachUserResult(db: Database, roomCode: string, userId: int) returns (r: Result<UserResult>)
    ensures RoomByCode(db.rooms, roomCode).None? ==>
      r == Err(Rewrap(500, HttpError(404, Text("Room not found"))))
    ensures RoomByCode(db.rooms, roomCode).Some? ==>
      var room := RoomByCode(db.rooms, roomCode).value;
      match (UserById(db.users, userId), ParticipantOf(db.participants, room.id, userId))
      case (Some(u), Some(p)) =>
        && r.Ok? && r.value.info == UserInfo(u.id, u.fullName, u.photo, p.score)
        && var rows := ResultRowsAsWritten(db.answers, db.questions, room.id, p.id);
           |r.value.answers| == |rows| && forall i :: 0 <= i < |rows| ==> r.value.answers[i] == View(rows[i])
      case _ =>
        r == Err(Rewrap(500, HttpError(404, Text("Participant not found"))))
  {
    var room := RoomByCode(db.rooms, roomCode);
    if room.None? {
      return Err(Rewrap(500, HttpError(404, Text("Room not found"))));
    }
    var user := UserById(db.users, userId);
    var participant := ParticipantOf(db.participants, room.value.id, userId);
    if user.None? || participant.None? {
      return Err(Rewrap(500, HttpError(404, Text("Participant not found"))));
    }
    var u, p := user.value, participant.value;
    var rows := ResultRowsAsWritten(db.answers, db.questions, room.value.id, p.id);
    var views := ShapeAnswers(rows);
    r := Ok(UserResult(UserInfo(u.id, u.fullName, u.photo, p.score), views));
  }
}
