# QuizIt backend core, modelled in Dafny

QuizIt is a quiz-room backend. Users sign up, verify their email and log in.
A quiz author uploads a quiz with questions and tags, and opens a room for it
under a room code. Players join the room over HTTP, connect to it over a
WebSocket, chat, and submit answers that raise their score. A leaderboard
ranks them. Users can also follow each other and invite mutual followers to
a room. A small generic CRUD helper assembles SQL text for one allow-listed
table.

The model covers these parts:

- **`ConnectionHub`** (`hub.dfy`). The WebSocket connection manager, modelled as a
  class with three maps:
  - room → socket list;
  - room → present names;
  - socket → (name, room).

  It also keeps an `outbox` log of every attempted send and whether it
  succeeded. Its invariant `Consistent` says that the presence set of a room
  is exactly the set of names some mapped socket still carries there.
- **`Sessions`** (`sessions.dfy`). The WebSocket endpoint:
  - the token handshake, refused with close code 1008 (policy violation,
    section 7.4.1 of RFC 6455);
  - connect, then a relay loop that rebroadcasts each received text as
    `"{username}: {text}"`;
  - on disconnect, the user-list re-broadcast;
  - `start_quiz`.
- **`Rooms`** (`rooms.dfy`). The room endpoints:
  - room creation and the idempotent join;
  - answer submission, both as the WebSocket helper and as the HTTP handler;
  - the leaderboard (score descending, `rank = index + 1`);
  - the per-user result page.
- **`Social`** (`social.dfy`):
  - follow;
  - the mutual-follow invite list;
  - room invitations.
- **`QuizUpload`** (`quiz_upload.dfy`):
  - quiz and question inserts;
  - tag get-or-create and linking;
  - the tag option list.
- **`Crud`** (`crud.dfy`):
  - the table allow-list;
  - the INSERT/UPDATE/DELETE text, where the number of `%s` placeholders
    equals the number of parameters;
  - the not-found rules;
  - the effect of each statement on an untyped table of rows.
- **`Authentication`** (`auth.dfy`). The email-verification and
  password-reset token state machine over the users and the two token tables.
- **`Store`**, **`Query`** and **`Common`** are shared:
  - the database as a class of row sequences with id sequences;
  - first/last/filter/sort helpers over sequences;
  - Python's `str()` on integers;
  - `HTTPException` re-wrapping.

Each handler is one atomic step. A handler's commit assigns the new tables to
the `Database` fields. A rollback assigns nothing. Results that come from
outside the code are parameters:

- the clock;
- the one-time code;
- bcrypt;
- JWT decoding;
- whether an email was sent;
- whether a query raised, for the CRUD layer, `UploadQuiz` and `CreateRoom` only (the other handlers' queries always succeed, see "## Left out");
- `datetime.fromisoformat`;
- Python's `int()`.

## Model

| member | source | states |
|---|---|---|
| ConnectionHub.ConnectionManager.constructor | app/websocket/websocket_manager/ws_manager.py:5-8 | all three maps start empty and the manager is consistent |
| ConnectionHub.ConnectionManager.Connect | app/websocket/websocket_manager/ws_manager.py:10-23 | the room's list gains the socket at its end, missing entries are created, the name joins the room's presence set, the socket maps to (name, room), a `user_list` message with exactly the room's names is then fanned out to the room's sockets, and consistency is kept for a socket not yet mapped |
| ConnectionHub.ConnectionManager.Disconnect | app/websocket/websocket_manager/ws_manager.py:25-45 | an unmapped socket changes nothing; otherwise its mapping is dropped, its first occurrence leaves its room's list (an absent socket is tolerated), the name leaves presence exactly when no other mapped socket has the same (name, room), nothing is sent, and consistency is kept |
| ConnectionHub.DisconnectTwice | app/websocket/websocket_manager/ws_manager.py:25-28 | two disconnects of one socket leave the manager exactly as one disconnect does |
| ConnectionHub.ConnectionManager.PresenceInvariant | app/websocket/websocket_manager/ws_manager.py:38-45 | in a consistent manager a name is present in a room iff some mapped socket carries (name, room) |
| ConnectionHub.ConnectKeepsConsistent | app/websocket/websocket_manager/ws_manager.py:14-21 | registering an unmapped socket keeps the presence invariant |
| ConnectionHub.DisconnectKeepsConsistent | app/websocket/websocket_manager/ws_manager.py:26-45 | popping a mapped socket keeps the presence invariant and removes the socket from every list |
| ConnectionHub.PresentAfterAdd | app/websocket/websocket_manager/ws_manager.py:17-21 | mapping a new socket adds exactly its name to its room's presence and changes no other room |
| ConnectionHub.PresentAfterDrop | app/websocket/websocket_manager/ws_manager.py:38-45 | dropping a socket removes its name from its room's presence exactly when no other socket carries it |
| ConnectionHub.PresentMeansConnected | app/websocket/websocket_manager/ws_manager.py:39-44 | the set form of presence agrees with the `still_connected` comprehension |
| ConnectionHub.RemoveFirst | app/websocket/websocket_manager/ws_manager.py:33-36 | `list.remove` leaves the list alone when the socket is absent, else removes exactly one occurrence |
| ConnectionHub.RemoveFirstOfDistinct | app/websocket/websocket_manager/ws_manager.py:34 | on a duplicate-free list the removal keeps every other socket and no duplicates |
| ConnectionHub.MakePayload | app/websocket/websocket_manager/ws_manager.py:52 | `data or {}`: the payload keeps the type, and its data is the empty object exactly when the data is falsy (None, empty list, empty text) |
| ConnectionHub.ListOf | app/websocket/websocket_manager/ws_manager.py:48 | `list(set)` holds every name of the set once and nothing else |
| ConnectionHub.ConnectionManager.Broadcast | app/websocket/websocket_manager/ws_manager.py:51-57 | one send is attempted per socket of the room, in list order, with the same payload, whatever earlier sends returned; an unknown room gets none; no map changes |
| ConnectionHub.ConnectionManager.BroadcastUserList | app/websocket/websocket_manager/ws_manager.py:47-49 | the room's sockets are sent a `user_list` message listing exactly the room's present names |
| Sessions.Admission | app/websocket/main.py:111-136 | a socket is admitted iff the token is present and non-empty, decodes, has a truthy id, and names an existing user, whose username it carries; a missing token, id or user is closed with 1008; a token that fails to decode is left unclosed |
| Sessions.Session | app/websocket/main.py:138-151 | after connect, the user list is sent; each received text is relayed as `"{username}: {text}"` to the room, in order; a transport disconnect unregisters the socket and re-broadcasts the user list; another failure ends with close code 1011 and leaves the registration |
| Sessions.Serve | app/websocket/main.py:109-151 | the handshake is `Admission`, and a refused socket never reaches the manager |
| Sessions.Relay | app/websocket/main.py:140-142 | the loop consumes received texts up to the first non-text event and has relayed exactly their chat lines |
| Sessions.SendChat | app/websocket/main.py:142 | one chat line is fanned out to every socket of the room |
| Sessions.Join | app/websocket/main.py:138 | connect for an unmapped socket, with the new maps and the user list sent |
| Sessions.Leave | app/websocket/main.py:144-146 | disconnect then a user-list broadcast of what remains |
| Sessions.ChatLinesAppend | app/websocket/main.py:140-142 | one more received text adds exactly one chat line at the end |
| Sessions.ChatLinesMeaning | app/websocket/main.py:140-142 | `ChatLines`, the lines the relay sends, holds at most one line per event; each line is `"{username}: {text}"` of a received text, and every received text has its line |
| Sessions.ChatsSentAppend | app/websocket/main.py:140-142 | a further fan-out of one line extends the relayed log by that line |
| Sessions.RelayStep | app/websocket/main.py:140-142 | one loop iteration keeps the relay invariant |
| Sessions.StartQuiz | app/websocket/main.py:154-157 | with no room or host check, `quiz_started` with empty data is fanned out to the room and the fixed message is returned |
| Rooms.CreateRoom | app/websocket/main.py:23-53 | a `quiz_id` text the integer column rejects or an INSERT the database refuses is a 400 with nothing committed; a falsy returned id is a 500 re-raised as 400 with nothing committed; otherwise, and only then, one room row with the parsed quiz id is appended and the admin redirect `room/{code}/admin` is returned |
| Rooms.JoinRoom | app/websocket/main.py:56-106 | an unknown room is 404 (re-raised as 500); an existing participant returns its id with "Already joined" and no insert; otherwise exactly one participant row with score 0 is appended and its id returned |
| Rooms.JoinTwice | app/websocket/main.py:74-85 | join is idempotent: the second call answers "Already joined" with the first call's id and the table has grown by at most one row |
| Rooms.JoinKeepsMembershipUnique | app/websocket/main.py:87-92 | a join that inserts keeps (room, user) pairs unique |
| Rooms.ParticipantOfAppended | app/websocket/main.py:87-92 | after the insert the participant lookup finds the new row |
| Rooms.CheckAnswer | app/websocket/helper/helper_functions.py:15-51 | each check's own answer once the earlier ones pass: "Invalid room code", "User not participant in room", "Incomplete answer data" (a missing or falsy ordinal, selection or timestamp), the foreign error of an unparsable timestamp, "Question not found" for (ordinal, quiz); the answer is accepted iff all pass, with the participant's id, the point (default 0) and correctness as `str(correct) == str(selected)` |
| Rooms.ProcessAnswer | app/websocket/helper/helper_functions.py:8-120 | a rejected answer changes nothing and returns the error; an accepted one adds the point only when correct, appends one shown row and one answer row, commits, and builds the leaderboard over the committed table; a failing push leaves the commit in place and returns an error |
| Rooms.RecordAnswer | app/websocket/helper/helper_functions.py:53-81 | the score update happens only when correct, and exactly one shown row and one answer row are appended, whatever the correctness |
| Rooms.MatchesMeaning | app/websocket/helper/helper_functions.py:51 | an integer option matches iff it equals the stored one; a text option matches iff it is the stored option's decimal text |
| Rooms.AddScore | app/websocket/helper/helper_functions.py:53-57 | the participant with the id gains the point and every other row is unchanged |
| Rooms.AddScoreKeepsTable | app/websocket/helper/helper_functions.py:53-57 | a score update keeps the ids and the unique membership |
| Rooms.AddScoreKeepsKeys | app/websocket/helper/helper_functions.py:53-57 | a score update changes no id, room or user |
| Rooms.ScoreKeepsParticipant | app/websocket/main.py:204-208 | a score update neither adds nor removes a participant and keeps its id |
| Rooms.CheckSubmission | app/websocket/main.py:170-202 | each check's own answer once the earlier ones pass: "Invalid room code", "User not in this room", "Question not found"; acceptance iff all three pass; correctness iff the selected text equals the stored option's text |
| Rooms.SubmitAnswer | app/websocket/main.py:160-249 | a rejection is 400 re-raised as 500 with nothing changed; otherwise the point is added only when correct, one shown row and one answer row are appended and their ids returned with the verdict |
| Rooms.AnswerTwice | app/websocket/main.py:204-234 | with no duplicate check, submitting the same correct answer twice records two answers and adds the point twice |
| Rooms.ResubmitSameVerdict | app/websocket/main.py:170-202 | raising a score does not change the verdict of the same submission |
| Rooms.AddScoreTwice | app/websocket/main.py:204-208 | two score updates for one participant add twice the point |
| Rooms.Standings | app/websocket/main.py:267-277 | the joined rows of the room are never more than its participants |
| Rooms.StandingsAreRoomMembers | app/websocket/main.py:267-277 | a row is in the join iff it comes from a participant of the room whose user exists |
| Rooms.Ranked | app/websocket/main.py:282-285 | `enumerate` gives rank `index + 1` and keeps each row |
| Rooms.BoardRanksStandings | app/websocket/helper/helper_functions.py:83-104 | the board is a permutation of the room's joined rows with scores non-increasing and ranks 1..n by position |
| Rooms.Leaderboard | app/websocket/main.py:252-294 | an unknown room and an empty room are 404s re-raised as 500; the call succeeds exactly for a known room with at least one participant row, and then gives a non-empty ranking of the room's rows |
| Rooms.AnswersOf | app/websocket/main.py:333-345 | the answers kept are exactly those of the room and participant |
| Rooms.JoinQuestions | app/websocket/main.py:333-345 | the join holds exactly the (answer, question) pairs that meet the join condition |
| Rooms.ResultRowsAsWrittenMeaning | app/websocket/main.py:333-345 | the handler's rows pair each answer of the participant in the room with every question, of any quiz, whose id equals the stored number, ordered by question index, each pair as often as the inner join yields it |
| Rooms.ResultRowsAsWritten | app/websocket/main.py:333-345 | the result query as the handler writes it (the participant's answers in the room joined to questions on `ra.question_id = qq.id`, `ORDER BY qq.question_index ASC`); its rows come in non-decreasing question index |
| Rooms.ResultRows | app/websocket/main.py:333-345 | the same query with the corrected join on the room quiz's question ordinal; its rows come in non-decreasing question index |
| Rooms.ResultRowsMeaning | app/websocket/main.py:333-345 | the corrected result rows pair each answer of the participant in the room with the quiz's question of that ordinal, ordered by question index, each pair as often as the inner join yields it |
| Rooms.AsWrittenDropsRecordedAnswer | app/websocket/main.py:342 | an answer accepted and recorded for ordinal 1 whose question has id 7 is missing from the join as written and present in the corrected one |
| Rooms.AsWrittenShowsOtherQuestion | app/websocket/main.py:342 | whenever an answer's stored ordinal is the id of another quiz's question, the join as written shows that question and not the room quiz's question of that ordinal, and the corrected join does the reverse |
| Rooms.ShapeAnswers | app/websocket/main.py:350-370 | the accumulator loop yields one view per fetched row, in order |
| Rooms.EachUserResult | app/websocket/main.py:297-381 | an unknown room or a non-participant is a 404 re-raised as 500; otherwise the user's info with the participant's score and one view per row of the join as written (`ra.question_id = qq.id`), in order |
| Rooms.RoomByCode | app/websocket/main.py:66-70 | none iff no room has the code; a found row has it |
| Rooms.ParticipantOf | app/websocket/main.py:74-78 | none iff no row pairs the room and user; a found row does |
| Rooms.QuestionAt | app/websocket/main.py:188-194 | none iff no question has the (ordinal, quiz); a found row has them |
| Social.FollowUser | app/features/main.py:14-56 | an unparsable id is a 500; a self-follow (integer comparison) and an existing follow are 400s re-raised as 500 with nothing changed; otherwise exactly one (follower, following) row is appended |
| Social.FollowTwice | app/features/main.py:26-31 | a second follow is refused, the graph grows by at most one row and holds the pair |
| Social.FollowAppendKeepsProper | app/features/main.py:33-46 | a new non-self pair keeps the graph free of self-follows and duplicate pairs |
| Social.FollowOf | app/features/main.py:26-30 | none iff the pair is absent; a found row is the pair |
| Social.MutualFollows | app/features/main.py:66-72 | over a follow table without duplicate pairs (which `FollowUser` keeps, so the double join yields each user once), a user is listed iff they follow the caller and the caller follows them |
| Social.InviteUserList | app/features/main.py:59-91 | the loop shapes each mutual follow, in query order, and gives the empty list when there are none |
| Social.InviteListMeaning | app/features/main.py:66-83 | the entries are exactly the shaped mutual follows; the list is empty iff there is no mutual follow |
| Social.InviteFriends | app/features/main.py:94-152 | the intended handler (see "## Findings"): self-invites (text comparison) and unknown rooms are rejected with nothing recorded; a missing inviter or failed email is a 500; the invite row with `email_sent` true is appended iff all pass |
| Social.InviteAsWritten | app/features/main.py:106-130 | as written: self-invites and unknown rooms are rejected as in `InviteFriends`, and every other request answers a 500 |
| Social.InviteAsWrittenNeverSends | app/features/main.py:119-130 | the handler as written answers "Invite Sent" for no input, and a 500 wherever the intended handler would send the invite |
| Social.SelfInviteIsTextual | app/features/main.py:106 | for every inviter id, the self-invite check refuses the decimal text of that id and of no other integer id, and the same id written with a leading zero passes it |
| QuizUpload.UploadQuiz | app/quiz/main.py:12-105 | a failure rolls everything back; otherwise one quiz row, then one question row per input in order for the new quiz, the tags got or created, one link per tag name (repeats included), all committed together |
| QuizUpload.InsertQuestions | app/quiz/main.py:47-67 | one question row per input, in list order, with consecutive ids, tied to the quiz |
| QuizUpload.LinkTags | app/quiz/main.py:73-88 | each name reuses an existing tag or inserts one new tag; one link per name; tag names stay unique |
| QuizUpload.LinkExistingTag | app/quiz/main.py:77-78 | an existing tag is linked without an insert |
| QuizUpload.LinkNewTag | app/quiz/main.py:79-81 | a missing tag is inserted once and linked |
| QuizUpload.TagAppendKeepsUnique | app/quiz/main.py:79-81 | inserting a name that is absent keeps tag names unique |
| QuizUpload.TagByName | app/quiz/main.py:74-75 | none iff no tag has the name; a found row has it |
| QuizUpload.TagByNameAppend | app/quiz/main.py:74-81 | the lookup after an insert finds the earlier tag, else the new one |
| QuizUpload.QuestionRowOf | app/quiz/main.py:56-66 | the row carries its id, the new quiz's id, and the input's question text, ordinal, options, correct option, points and duration |
| QuizUpload.UploadedQuestionIsLookedUp | app/quiz/main.py:47-67 | under a fresh quiz id, the first uploaded question with an ordinal is the row the answer handlers' `(question_index, quiz_id)` lookup finds, so their correct option is the uploaded one |
| QuizUpload.QuizTagsOption | app/quiz/main.py:108-111 | the values of the tag enum in declaration order |
| QuizUpload.TagsOptionListsEveryTag | app/quiz/quiz_models/quiz_model.py:25-34 | every enum value is listed, and none twice |
| Crud.NewCrud | crud/crud.py:5-13 | the constructor succeeds iff the table is allow-listed, otherwise 404 "Invalid Table" |
| Crud.Table.Create | crud/crud.py:15-44 | the statement is INSERT text with the keys joined by commas and one value per key in key order; an empty record or failing query is a 500; otherwise one row is appended and its id returned |
| Crud.InsertPlaceholdersMatch | crud/crud.py:22-26 | the INSERT text has exactly as many `%s` as keys, and no other `%` directive |
| Crud.Table.Update | crud/crud.py:87-119 | the statement is `key=%s` per key and the condition, parameters the values then the condition value; no matching row is 404 re-raised as 500 with nothing committed; otherwise the matching rows take the fields and the first match's id is returned |
| Crud.UpdatePlaceholdersMatch | crud/crud.py:93-98 | the UPDATE text has exactly one `%s` per key plus one for the condition, which is the parameter count |
| Crud.UpdateWrites | crud/crud.py:93-98 | an updated row takes each field's value, keeps its other cells and gains no other keys |
| Crud.Table.Delete | crud/crud.py:121-141 | the statement is DELETE text with one parameter; the matching rows are removed and committed; zero removed is 404 re-raised as 500 |
| Crud.DeletePlaceholdersMatch | crud/crud.py:124-125 | the DELETE text has exactly one `%s` |
| Crud.DeleteMeaning | crud/crud.py:127-131 | after the delete no row matches and every non-matching row is kept |
| Crud.Read | crud/crud.py:46-65 | a failing query is 500; an empty table is a 404 re-raised as 500; otherwise all rows |
| Crud.ReadEach | crud/crud.py:67-85 | a failing query is 500; no row with the id is a 404 re-raised as 500; when some row has the id, the first such row in table order is returned |
| Crud.TextIdFindsIntegerId | crud/crud.py:67-78 | the id given as decimal text finds the first row whose integer id it spells, as PostgreSQL's conversion of the parameter does |
| Crud.ReadEachWithinRead | crud/crud.py:46-85 | a row read by id is among the rows read in full, and a failing full read means the read by id fails |
| Crud.Assignments | crud/crud.py:93 | one `key=%s` per key, in key order |
| Crud.Repeat | crud/crud.py:23 | n copies of the placeholder |
| Crud.InsertSql | crud/crud.py:22-26 | the query text of `create_method` starts with `INSERT INTO <table>` and ends with `) RETURNING id` (its `%s` count is `Crud.InsertPlaceholdersMatch`) |
| Crud.UpdateSql | crud/crud.py:93-98 | the query text of `update_method` starts with `UPDATE <table> SET ` and ends with ` WHERE <condition>=%s RETURNING id` (its `%s` count is `Crud.UpdatePlaceholdersMatch`) |
| Crud.DeleteSql | crud/crud.py:124-125 | the query text of `delete_method` starts with `DELETE FROM <table>` and ends with ` WHERE <condition>=%s` (its `%s` count is `Crud.DeletePlaceholdersMatch`) |
| Crud.SplitJoin | crud/crud.py:22 | joining keys by a separator they do not contain can be split back into the keys |
| Authentication.Signup | app/authentication/main.py:51-103 | an existing email or username is a 409 re-raised as 404 with nothing inserted; otherwise one unverified user row, then one verify token for the OTP text expiring at now + 5 minutes; a failed email keeps the committed user row, inserts no verify token and returns an error |
| Authentication.NewAccountKeepsUnique | app/authentication/main.py:65-80 | inserting an account only after both the email and the username lookups came back empty keeps emails and usernames unique across the user table |
| Authentication.VerifyEmail | app/authentication/main.py:106-153 | only the newest token of the email counts; the checks run in order (no row 404, mismatch 401, now > expiry 401, already verified 409, all re-raised as 404); only when all pass is the user verified and that token deleted |
| Authentication.VerifiedAfterMark | app/authentication/main.py:137-141 | after a successful verification the email's account is the same account with `is_verified` set |
| Authentication.RenewVerifyToken | app/authentication/main.py:156-206 | an unknown email and an already verified user are rejected (re-raised as 400) with nothing changed; otherwise all the user's tokens are deleted and one new token inserted, so the user has exactly that one token |
| Authentication.Login | app/authentication/main.py:209-260 | rejections in order (unknown email 404, password mismatch 401, unverified 401, re-raised as 404); success iff all pass, with the issued tokens and the user's details |
| Authentication.VerifiedAccountLogsIn | app/authentication/main.py:225-234 | a verified account whose password matches logs in |
| Authentication.ForgotPassword | app/authentication/main.py:269-307 | an unknown email is 404 with nothing inserted; otherwise one reset token, not yet opened, expiring at now + 5 minutes |
| Authentication.CheckResetToken | app/authentication/main.py:310-357 | over a user table with unique emails (which `Signup` keeps), only the newest reset token counts; no row 404, mismatch 401, expired 401 (re-raised as 404); when all pass, all the user's reset tokens are opened (`is_reset`) |
| Authentication.ResetLookupEmail | app/authentication/main.py:339-340 | the joined lookup always returns the asked email, so the "Wrong Email" check never fires |
| Authentication.ResetPassword | app/authentication/main.py:360-406 | no row 404, a newest token not opened 404 "You are not allowed to Reset Password"; otherwise the hash is replaced and all the user's reset tokens are deleted |
| Authentication.CheckOpensReset | app/authentication/main.py:342-345 | after a successful token check the reset lookup still finds the user's newest token, now opened, so a reset then passes its check |
| Authentication.NewCodeClosesReset | app/authentication/main.py:283-293 | after a new forgot-password code is appended, the reset lookup finds exactly that code (appended not opened), so a reset needs a new token check |
| Authentication.ResetConsumesCodes | app/authentication/main.py:386-393 | after a reset (new hash, the user's reset tokens deleted) the reset lookup for the email finds nothing |
| Authentication.ResetTwice | app/authentication/main.py:371-395 | a second reset without a new token fails with 404 "Invalid Email" |
| Authentication.UserByEmail | app/authentication/main.py:65-67 | none iff no account has the email; a found one has it |
| Authentication.UserByUsername | app/authentication/main.py:68-69 | none iff no account has the username; a found one has it |
| Authentication.EmailNamesOneAccount | app/authentication/main.py:319 | with unique emails, every account with an email is the one the lookup by that email finds, so the email join sees one account |
| Authentication.VerifyLookup | app/authentication/main.py:115-118 | the joined row is an account with the email and a token of that account with no later token of it in the table; none iff the account is missing or has no token |
| Authentication.ResetLookup | app/authentication/main.py:319-323 | the joined row is an account with the email and a reset code of that account with no later code of it in the table; none iff the account is missing or has no code (the same query reappears at :371-375) |
| Authentication.MarkVerified | app/authentication/main.py:137-141 | the user table keeps its length; rows with the email get `is_verified` set and nothing else changed; other rows are kept |
| Authentication.SetPassword | app/authentication/main.py:389-390 | the user table keeps its length; rows with the email get the new hash and nothing else changed; other rows are kept |
| Authentication.MarkReset | app/authentication/main.py:342-345 | the code table keeps its length; the user's codes get `is_reset` set and nothing else changed; other codes are kept |
| Authentication.LatestVerifyToken | app/authentication/main.py:115 | none iff the user has no token; a found one is the user's last token in table order |
| Authentication.LatestVerifyIsNewest | app/authentication/main.py:115 | the last token in table order has the largest id, which is what `ORDER BY id DESC LIMIT 1` picks |
| Authentication.LatestResetToken | app/authentication/main.py:319-323 | none iff the user has no reset token; a found one is the user's last in table order |
| Authentication.LatestResetIsNewest | app/authentication/main.py:319-323 | the last reset token in table order has the largest id |
| Common.IntToStringInjective | app/features/main.py:106 | `str()` of distinct integers gives distinct texts, so the text comparison agrees with the integer comparison on canonical texts |
| Common.IntToString | app/websocket/helper/helper_functions.py:51 | Python's `str()` of an integer is an optional minus sign followed by at least one digit, with the sign exactly for a negative number |
| Common.Str | app/websocket/helper/helper_functions.py:51 | `str()` of a text is the text; of a number, a decimal text signed exactly when negative |
| Common.ErrorText | app/authentication/main.py:97-99 | `str(e)` of an `HTTPException` is `"<status>: <detail>"`; a foreign message stays foreign |
| Common.Rewrap | app/authentication/main.py:97-99 | the handler-wide `except Exception as e: raise HTTPException(outer, str(e))` keeps the outer status and carries `str(e)` as the detail |

## Left out

- WebSocket transport, FastAPI routing and async scheduling. Sockets are opaque ids, a send's outcome is chosen freely, and each handler is one atomic step. `accept` and the close frames are not modelled beyond the close code the handshake picks.
- PostgreSQL. Tables are sequences of rows and a sequence hands out ids. SQL is not parsed. A query that raises is modelled only in `Crud.Table.Create`/`Update`/`Delete`, `Crud.Read`/`ReadEach` and `QuizUpload.UploadQuiz` (a `dbOk` flag) and in `Rooms.CreateRoom` (the `toInt` reading of the `quiz_id` text and the `inserted` flag). In every other Rooms, Social, Sessions and Authentication handler every query succeeds, and their `Foreign` errors come only from mail, `int()`, `fromisoformat` or the push; a failing query there (a lost connection, a constraint violation) is not modelled. The model's id counters are restored on rollback (`UploadQuiz` and `CreateRoom` leave the database unchanged on failure), so model ids never skip; a PostgreSQL sequence keeps a value a rolled-back insert consumed, so real ids can skip.
- `ORDER BY` ties. A sort by score keeps the existing table order among equal scores. SQL leaves the order of ties unspecified.
- JWT encoding and decoding are a `decode` parameter and issued tokens are parameters. The access- and refresh-token expiry constants live in code that is not part of this model.
- bcrypt hashing and checking are parameters: a hash text and a `matches` predicate.
- SMTP is a `mailed` flag. The email templates under `messages/` are not part of this model.
- `generate_otp` is an integer parameter. Its range of 100000 to 999999 is not enforced, and no property depends on it.
- The clock is an integer `now` and timestamps are integers. `datetime.fromisoformat` is a `parsesIso` predicate.
- The room-code generator is an input. Its source is not part of this model.
- `manager.send_leaderboard` is not defined on `ConnectionManager`. The push after the commit is a `pushOk` flag, and a failed push returns an error while the commit stands. Where the push would go is not modelled.
- Rooms.ProcessAnswer: the error dictionary's text for a foreign exception is not modelled. Any such error is `Foreign`.
- The legacy `authentication/main.py` flow is not mounted by the application and is not part of this model.
- Token columns are held as the OTP's text. The schema is not in the repository, and the handlers compare tokens as text.
- The "Wrong Email" guard of the forgot-password token check is not a branch of the model. `Authentication.ResetLookupEmail` shows it cannot fire.
- Social.InviteFriends: the invitee email lookup and the send are one `mailed` flag. This is the intended handler. As written, the lookup and the send always raise, so every request past the room check answers a 500 and no invite is ever recorded; `Social.InviteAsWritten` models that (see "## Findings").
- Social.FollowUser: the caller's id is taken as already an integer. Only the followed id goes through `int()`, which is a `toInt` parameter.
- Social.InviteUserList: the response model (app/features/models/response_model.py:5-8) declares `image: str`, so a mutual follow with a NULL photo makes response validation fail with a 500; the model instead returns that entry with `image` `None`.
- Crud: rows are untyped maps from column names to values. The `WHERE column=%s` comparison is PostgreSQL's, which converts the quoted parameter to the column's type; the model compares the two values' `str()` texts. It therefore agrees with PostgreSQL for a decimal text against an integer column only when the text is canonical: a text such as `05` or ` 5`, which PostgreSQL converts to 5, does not match, and a text that is no integer, or an integer against a text column, which PostgreSQL rejects with an error, is a plain comparison rather than a 500. `RETURNING id` of an update is the first matching row's id in table order.
- Sessions.Serve: states only the handshake and that a refused socket is untouched. What an admitted session does is stated by `Sessions.Session`, which `Serve` calls.
- Rooms.AnswerInput: a `point` key present with JSON null cannot be represented. In the source, `answer_data.get("point", 0)` then yields None and a correct answer's `score + NULL` sets the score to NULL.
- `print` calls and logging are not modelled.
- Pydantic validation is not modelled; the schemas give only the datatype shapes.

## Findings

| source | as written | input that shows it | evidently intended | confidence | as-written member | corrected member |
|---|---|---|---|---|---|---|
| app/websocket/main.py:342 | the result page joins answers to questions on `ra.question_id = qq.id`, but both answer handlers store the question ordinal (`question_index`) in `room_answers.question_id` | quiz 1 whose question 7 has ordinal 1; a participant's accepted, recorded answer for ordinal 1 | join on the quiz's question with that ordinal (`qq.quiz_id = room's quiz and qq.question_index = ra.question_id`), so every recorded answer shows on the result page | not executed | Rooms.EachUserResult, Rooms.AsWrittenDropsRecordedAnswer, Rooms.AsWrittenShowsOtherQuestion | Rooms.ResultRowsMeaning |
| app/features/main.py:121-130 | the invitee lookup passes the bare `invited_to_id` text as the parameter list, and `send_email` is called with `is_html=True`, a keyword `send_email(subject, to_whom, body)` (services/email_send.py:9) does not take | any invite by an existing user, in an existing room, of an id other than their own | look the invitee up with `(invited_to_id,)`, send the invitation and record the invite with `email_sent` true | not executed | Social.InviteAsWritten, Social.InviteAsWrittenNeverSends | Social.InviteFriends |
