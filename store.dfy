/** The tables the handlers read and write, as an in-memory stand-in for the
    PostgreSQL database. Each table is a sequence of rows in insertion order;
    `RETURNING id` hands out the next value of the table's own id sequence, so
    ids grow along every table. Timestamps are integers (seconds). A handler runs as
    one step: what it commits is assigned to the fields, what it rolls back
    is never assigned. */
module Store {
  import opened Common

  type Id = nat

  datatype UserRow = UserRow(id: Id, fullName: string, username: string, email: string,
                             hashedPassword: string, isVerified: bool, photo: Option<string>)
  datatype RoomRow = RoomRow(id: Id, roomCode: string, quizId: int, createdBy: int)
  datatype ParticipantRow = ParticipantRow(id: Id, roomId: Id, userId: int, score: int, joinedAt: int)
  datatype QuestionRow = QuestionRow(id: Id, quizId: Id, question: string, questionIndex: int,
                                     options: seq<string>, correctOption: int, points: int, duration: int)
  /** `room_questions`: a question shown in a room. */
  datatype ShownRow = ShownRow(id: Id, roomId: Id, questionId: int, shownAt: int)
  /** `room_answers`. `questionId` holds what the client sent as the question
      ordinal. */
  datatype AnswerRow = AnswerRow(id: Id, roomId: Id, participantId: Id, questionId: int,
                                 selectedOption: Value, isCorrect: bool, answeredAt: string)
  datatype QuizRow = QuizRow(id: Id, coverPhoto: Option<string>, title: string, description: Option<string>,
                             isPublished: Option<bool>, createdAt: int, creatorId: int)
  datatype TagRow = TagRow(id: Id, name: string)
  datatype QuizTagRow = QuizTagRow(quizId: Id, tagId: Id)
  datatype FollowRow = FollowRow(id: Id, followerId: int, followingId: int)
  /** `room_invites`; the invited user's id is stored as the text the client sent. */
  datatype InviteRow = InviteRow(id: Id, roomId: Id, invitedBy: int, invitedUserId: string, emailSent: bool)
  /** `verify_email_token` and `forgot_password_token`. The token is kept as
      the text of the one-time code, the form the handlers compare it in. */
  datatype VerifyTokenRow = VerifyTokenRow(id: Id, userId: Id, token: string, expiry: int)
  datatype ResetTokenRow = ResetTokenRow(id: Id, userId: Id, token: string, expiry: int, isReset: bool)

  // Ids strictly increasing along the table and below the next id the
  // table's sequence hands out.
  ghost predicate UserIdsOk(rows: seq<UserRow>, next: nat) {
    (forall i, j :: 0 <= i < j < |rows| ==> rows[i].id < rows[j].id) &&
    (forall i :: 0 <= i < |rows| ==> rows[i].id < next)
  }
  ghost predicate RoomIdsOk(rows: seq<RoomRow>, next: nat) {
    (forall i, j :: 0 <= i < j < |rows| ==> rows[i].id < rows[j].id) &&
    (forall i :: 0 <= i < |rows| ==> rows[i].id < next)
  }
  ghost predicate ParticipantIdsOk(rows: seq<ParticipantRow>, next: nat) {
    (forall i, j :: 0 <= i < j < |rows| ==> rows[i].id < rows[j].id) &&
    (forall i :: 0 <= i < |rows| ==> rows[i].id < next)
  }
  ghost predicate QuestionIdsOk(rows: seq<QuestionRow>, next: nat) {
    (forall i, j :: 0 <= i < j < |rows| ==> rows[i].id < rows[j].id) &&
    (forall i :: 0 <= i < |rows| ==> rows[i].id < next)
  }
  ghost predicate ShownIdsOk(rows: seq<ShownRow>, next: nat) {
    (forall i, j :: 0 <= i < j < |rows| ==> rows[i].id < rows[j].id) &&
    (forall i :: 0 <= i < |rows| ==> rows[i].id < next)
  }
  ghost predicate AnswerIdsOk(rows: seq<AnswerRow>, next: nat) {
    (forall i, j :: 0 <= i < j < |rows| ==> rows[i].id < rows[j].id) &&
    (forall i :: 0 <= i < |rows| ==> rows[i].id < next)
  }
  ghost predicate QuizIdsOk(rows: seq<QuizRow>, next: nat) {
    (forall i, j :: 0 <= i < j < |rows| ==> rows[i].id < rows[j].id) &&
    (forall i :: 0 <= i < |rows| ==> rows[i].id < next)
  }
  ghost predicate TagIdsOk(rows: seq<TagRow>, next: nat) {
    (forall i, j :: 0 <= i < j < |rows| ==> rows[i].id < rows[j].id) &&
    (forall i :: 0 <= i < |rows| ==> rows[i].id < next)
  }
  ghost predicate FollowIdsOk(rows: seq<FollowRow>, next: nat) {
    (forall i, j :: 0 <= i < j < |rows| ==> rows[i].id < rows[j].id) &&
    (forall i :: 0 <= i < |rows| ==> rows[i].id < next)
  }
  ghost predicate InviteIdsOk(rows: seq<InviteRow>, next: nat) {
    (forall i, j :: 0 <= i < j < |rows| ==> rows[i].id < rows[j].id) &&
    (forall i :: 0 <= i < |rows| ==> rows[i].id < next)
  }
  ghost predicate VerifyTokenIdsOk(rows: seq<VerifyTokenRow>, next: nat) {
    (forall i, j :: 0 <= i < j < |rows| ==> rows[i].id < rows[j].id) &&
    (forall i :: 0 <= i < |rows| ==> rows[i].id < next)
  }
  ghost predicate ResetTokenIdsOk(rows: seq<ResetTokenRow>, next: nat) {
    (forall i, j :: 0 <= i < j < |rows| ==> rows[i].id < rows[j].id) &&
    (forall i :: 0 <= i < |rows| ==> rows[i].id < next)
  }

  // Appending a row that carries the sequence's next id keeps the ids in order.
  lemma UserAppendKeepsIds(rows: seq<UserRow>, next: nat, row: UserRow)
    requires UserIdsOk(rows, next) && row.id == next
    ensures UserIdsOk(rows + [row], next + 1)
  {
  }
  lemma RoomAppendKeepsIds(rows: seq<RoomRow>, next: nat, row: RoomRow)
    requires RoomIdsOk(rows, next) && row.id == next
    ensures RoomIdsOk(rows + [row], next + 1)
  {
  }
  lemma ParticipantAppendKeepsIds(rows: seq<ParticipantRow>, next: nat, row: ParticipantRow)
    requires ParticipantIdsOk(rows, next) && row.id == next
    ensures ParticipantIdsOk(rows + [row], next + 1)
  {
  }
  lemma QuestionAppendKeepsIds(rows: seq<QuestionRow>, next: nat, row: QuestionRow)
    requires QuestionIdsOk(rows, next) && row.id == next
    ensures QuestionIdsOk(rows + [row], next + 1)
  {
  }
  lemma ShownAppendKeepsIds(rows: seq<ShownRow>, next: nat, row: ShownRow)
    requires ShownIdsOk(rows, next) && row.id == next
    ensures ShownIdsOk(rows + [row], next + 1)
  {
  }
  lemma AnswerAppendKeepsIds(rows: seq<AnswerRow>, next: nat, row: AnswerRow)
    requires AnswerIdsOk(rows, next) && row.id == next
    ensures AnswerIdsOk(rows + [row], next + 1)
  {
  }
  lemma QuizAppendKeepsIds(rows: seq<QuizRow>, next: nat, row: QuizRow)
    requires QuizIdsOk(rows, next) && row.id == next
    ensures QuizIdsOk(rows + [row], next + 1)
  {
  }
  lemma TagAppendKeepsIds(rows: seq<TagRow>, next: nat, row: TagRow)
    requires TagIdsOk(rows, next) && row.id == next
    ensures TagIdsOk(rows + [row], next + 1)
  {
  }
  lemma FollowAppendKeepsIds(rows: seq<FollowRow>, next: nat, row: FollowRow)
    requires FollowIdsOk(rows, next) && row.id == next
    ensures FollowIdsOk(rows + [row], next + 1)
  {
  }
  lemma InviteAppendKeepsIds(rows: seq<InviteRow>, next: nat, row: InviteRow)
    requires InviteIdsOk(rows, next) && row.id == next
    ensures InviteIdsOk(rows + [row], next + 1)
  {
  }
  lemma VerifyTokenAppendKeepsIds(rows: seq<VerifyTokenRow>, next: nat, row: VerifyTokenRow)
    requires VerifyTokenIdsOk(rows, next) && row.id == next
    ensures VerifyTokenIdsOk(rows + [row], next + 1)
  {
  }
  lemma ResetTokenAppendKeepsIds(rows: seq<ResetTokenRow>, next: nat, row: ResetTokenRow)
    requires ResetTokenIdsOk(rows, next) && row.id == next
    ensures ResetTokenIdsOk(rows + [row], next + 1)
  {
  }

  /** No two users share an email or a username. */
  ghost predicate UniqueAccounts(users: seq<UserRow>) {
    forall i, j :: 0 <= i < j < |users| ==>
      users[i].email != users[j].email && users[i].username != users[j].username
  }

  /** At most one participant row per (room, user). */
  ghost predicate UniqueMembership(ps: seq<ParticipantRow>) {
    forall i, j :: 0 <= i < j < |ps| ==> (ps[i].roomId, ps[i].userId) != (ps[j].roomId, ps[j].userId)
  }

  ghost predicate UniqueTagNames(tags: seq<TagRow>) {
    forall i, j :: 0 <= i < j < |tags| ==> tags[i].name != tags[j].name
  }

  /** Each (follower, following) pair at most once, and nobody follows themself. */
  ghost predicate ProperFollows(fs: seq<FollowRow>) {
    (forall i, j :: 0 <= i < j < |fs| ==>
       (fs[i].followerId, fs[i].followingId) != (fs[j].followerId, fs[j].followingId)) &&
    (forall i :: 0 <= i < |fs| ==> fs[i].followerId != fs[i].followingId)
  }

  class Database {
    var users: seq<UserRow>
    var rooms: seq<RoomRow>
    var participants: seq<ParticipantRow>
    var questions: seq<QuestionRow>
    var shown: seq<ShownRow>
    var answers: seq<AnswerRow>
    var quizzes: seq<QuizRow>
    var quizTags: seq<QuizTagRow>
    var tags: seq<TagRow>
    var follows: seq<FollowRow>
    var invites: seq<InviteRow>
    var verifyTokens: seq<VerifyTokenRow>
    var resetTokens: seq<ResetTokenRow>
    // the next id of each table's sequence
    var nextUserId: nat
    var nextRoomId: nat
    var nextParticipantId: nat
    var nextQuestionId: nat
    var nextShownId: nat
    var nextAnswerId: nat
    var nextQuizId: nat
    var nextTagId: nat
    var nextFollowId: nat
    var nextInviteId: nat
    var nextVerifyTokenId: nat
    var nextResetTokenId: nat

    ghost predicate UserTableOk()
      reads this`users, this`nextUserId
    {
      UserIdsOk(users, nextUserId) && UniqueAccounts(users)
    }

    ghost predicate RoomTableOk()
      reads this`rooms, this`nextRoomId
    {
      RoomIdsOk(rooms, nextRoomId)
    }

    ghost predicate ParticipantTableOk()
      reads this`participants, this`nextParticipantId
    {
      ParticipantIdsOk(participants, nextParticipantId) && UniqueMembership(participants)
    }

    ghost predicate QuestionTableOk()
      reads this`questions, this`nextQuestionId
    {
      QuestionIdsOk(questions, nextQuestionId)
    }

    ghost predicate ShownTableOk()
      reads this`shown, this`nextShownId
    {
      ShownIdsOk(shown, nextShownId)
    }

    ghost predicate AnswerTableOk()
      reads this`answers, this`nextAnswerId
    {
      AnswerIdsOk(answers, nextAnswerId)
    }

    ghost predicate QuizTableOk()
      reads this`quizzes, this`nextQuizId
    {
      QuizIdsOk(quizzes, nextQuizId)
    }

    ghost predicate TagTableOk()
      reads this`tags, this`nextTagId
    {
      TagIdsOk(tags, nextTagId) && UniqueTagNames(tags)
    }

    ghost predicate FollowTableOk()
      reads this`follows, this`nextFollowId
    {
      FollowIdsOk(follows, nextFollowId) && ProperFollows(follows)
    }

    ghost predicate InviteTableOk()
      reads this`invites, this`nextInviteId
    {
      InviteIdsOk(invites, nextInviteId)
    }

    ghost predicate VerifyTokenTableOk()
      reads this`verifyTokens, this`nextVerifyTokenId
    {
      VerifyTokenIdsOk(verifyTokens, nextVerifyTokenId)
    }

    ghost predicate ResetTokenTableOk()
      reads this`resetTokens, this`nextResetTokenId
    {
      ResetTokenIdsOk(resetTokens, nextResetTokenId)
    }

    /** Every table's ids grow and stay below its sequence, and each table keeps
        its own uniqueness rule. */
    ghost predicate Valid()
      reads this
    {
      && UserTableOk()
      && RoomTableOk()
      && ParticipantTableOk()
      && QuestionTableOk()
      && ShownTableOk()
      && AnswerTableOk()
      && QuizTableOk()
      && TagTableOk()
      && FollowTableOk()
      && InviteTableOk()
      && VerifyTokenTableOk()
      && ResetTokenTableOk()
    }

    /** A database whose tables are all empty is valid, whatever its sequences hold. */
    lemma EmptyIsValid()
      requires users == [] && rooms == [] && participants == [] && questions == []
      requires shown == [] && answers == [] && quizzes == [] && tags == [] && quizTags == []
      requires follows == [] && invites == [] && verifyTokens == [] && resetTokens == []
      ensures Valid()
    {
    }

    /** An empty database. */
    constructor ()
      ensures Valid()
      ensures users == [] && rooms == [] && participants == [] && questions == []
      ensures shown == [] && answers == [] && quizzes == [] && tags == [] && quizTags == []
      ensures follows == [] && invites == [] && verifyTokens == [] && resetTokens == []
    {
      users, rooms, participants, questions := [], [], [], [];
      shown, answers, quizzes, tags, quizTags := [], [], [], [], [];
      follows, invites, verifyTokens, resetTokens := [], [], [], [];
      nextUserId := 1;
      nextRoomId := 1;
      nextParticipantId := 1;
      nextQuestionId := 1;
      nextShownId := 1;
      nextAnswerId := 1;
      nextQuizId := 1;
      nextTagId := 1;
      nextFollowId := 1;
      nextInviteId := 1;
      nextVerifyTokenId := 1;
      nextResetTokenId := 1;
      new;
      EmptyIsValid();
    }
  }
}
