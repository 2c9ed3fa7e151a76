/** Accounts and their one-time codes: signing up, verifying the email with
    the code mailed at signup (or a renewed one), logging in, and the
    forgotten-password flow (request a code, check it, reset the password).
    Each handler runs its guard checks in order and then changes the `Users`,
    `verify_email_token` and `forgot_password_token` tables. Every error
    raised inside a handler is caught by the handler's own catch and raised
    again with one outer status: 404, and 400 in the renewal handler. */
module Authentication {
  import opened Common
  import opened Query
  import opened Store

  /** `VERIFY_MAIL_EXPIRY` and `FORGOT_PASSWORD_EXPIRY`: five minutes, in seconds. */
  const VerifyMailExpiry: int := 5 * 60
  const ForgotPasswordExpiry: int := 5 * 60

  // ------------------------------------------------------------ lookups

  function HasEmail(email: string): UserRow -> bool {
    (u: UserRow) => u.email == email
  }

  /** `SELECT ... FROM Users WHERE email=%s`. */
  function UserByEmail(users: seq<UserRow>, email: string): (r: Option<UserRow>)
    ensures r.None? <==> forall k :: 0 <= k < |users| ==> users[k].email != email
    ensures r.Some? ==> r.value in users && r.value.email == email
  {
    FirstWhere(users, HasEmail(email))
  }

  /** `SELECT * FROM Users WHERE username=%s`. */
  function UserByUsername(users: seq<UserRow>, username: string): (r: Option<UserRow>)
    ensures r.None? <==> forall k :: 0 <= k < |users| ==> users[k].username != username
    ensures r.Some? ==> r.value in users && r.value.username == username
  {
    FirstWhere(users, (u: UserRow) => u.username == username)
  }

  function VerifyOf(userId: Id): VerifyTokenRow -> bool {
    (t: VerifyTokenRow) => t.userId == userId
  }

  function VerifyNotOf(userId: Id): VerifyTokenRow -> bool {
    (t: VerifyTokenRow) => t.userId != userId
  }

  function ResetOf(userId: Id): ResetTokenRow -> bool {
    (t: ResetTokenRow) => t.userId == userId
  }

  function ResetNotOf(userId: Id): ResetTokenRow -> bool {
    (t: ResetTokenRow) => t.userId != userId
  }

  /** The newest verify token of a user: `ORDER BY v.id DESC LIMIT 1`. */
  function LatestVerifyToken(ts: seq<VerifyTokenRow>, userId: Id): (r: Option<VerifyTokenRow>)
    ensures r.None? <==> forall k :: 0 <= k < |ts| ==> ts[k].userId != userId
    ensures r.Some? ==> exists k :: 0 <= k < |ts| && ts[k] == r.value && r.value.userId == userId &&
                                    forall j :: k < j < |ts| ==> ts[j].userId != userId
  {
    var r := LastWhere(ts, VerifyOf(userId));
    assert r.Some? ==> ts[LastIndex(ts, VerifyOf(userId))] == r.value;
    r
  }

  /** The newest reset token of a user: `ORDER BY f.id DESC LIMIT 1`. */
  function LatestResetToken(ts: seq<ResetTokenRow>, userId: Id): (r: Option<ResetTokenRow>)
    ensures r.None? <==> forall k :: 0 <= k < |ts| ==> ts[k].userId != userId
    ensures r.Some? ==> exists k :: 0 <= k < |ts| && ts[k] == r.value && r.value.userId == userId &&
                                    forall j :: k < j < |ts| ==> ts[j].userId != userId
  {
    var r := LastWhere(ts, ResetOf(userId));
    assert r.Some? ==> ts[LastIndex(ts, ResetOf(userId))] == r.value;
    r
  }

  /** "The newest" is the one with the largest id: since ids grow along the
      table, no token of the user has a larger id than the one picked. */
  lemma LatestVerifyIsNewest(ts: seq<VerifyTokenRow>, next: nat, userId: Id)
    requires VerifyTokenIdsOk(ts, next)
    requires LatestVerifyToken(ts, userId).Some?
    ensures forall t :: t in ts && t.userId == userId ==> t.id <= LatestVerifyToken(ts, userId).value.id
  {
    var latest := LatestVerifyToken(ts, userId).value;
    var k :| 0 <= k < |ts| && ts[k] == latest && forall j :: k < j < |ts| ==> ts[j].userId != userId;
    forall t | t in ts && t.userId == userId ensures t.id <= latest.id {
      var j :| 0 <= j < |ts| && ts[j] == t;
      assert j <= k;
    }
  }

  lemma LatestResetIsNewest(ts: seq<ResetTokenRow>, next: nat, userId: Id)
    requires ResetTokenIdsOk(ts, next)
    requires LatestResetToken(ts, userId).Some?
    ensures forall t :: t in ts && t.userId == userId ==> t.id <= LatestResetToken(ts, userId).value.id
  {
    var latest := LatestResetToken(ts, userId).value;
    var k :| 0 <= k < |ts| && ts[k] == latest && forall j :: k < j < |ts| ==> ts[j].userId != userId;
    forall t | t in ts && t.userId == userId ensures t.id <= latest.id {
      var j :| 0 <= j < |ts| && ts[j] == t;
      assert j <= k;
    }
  }

  /** A row of the join of `Users` with a token table for one email. */
  datatype Joined<T> = Joined(user: UserRow, token: T)

  /** The join `Users JOIN verify_email_token ... WHERE u.email=%s ORDER BY v.id DESC LIMIT 1`. */
  function VerifyLookup(users: seq<UserRow>, ts: seq<VerifyTokenRow>, email: string): (r: Option<Joined<VerifyTokenRow>>)
    ensures r.None? <==>
      UserByEmail(users, email).None? || forall k :: 0 <= k < |ts| ==> ts[k].userId != UserByEmail(users, email).value.id
    ensures r.Some? ==>
      && r.value.user in users && r.value.user.email == email && r.value.token.userId == r.value.user.id
      && exists k :: 0 <= k < |ts| && ts[k] == r.value.token && forall j :: k < j < |ts| ==> ts[j].userId != r.value.user.id
  {
    match UserByEmail(users, email)
    case None => None
    case Some(u) =>
      match LatestVerifyToken(ts, u.id)
      case None => None
      case Some(t) => Some(Joined(u, t))
  }

  /** The join `forgot_password_token JOIN users ... WHERE u.email = %s ORDER BY f.id DESC LIMIT 1`. */
  function ResetLookup(users: seq<UserRow>, ts: seq<ResetTokenRow>, email: string): (r: Option<Joined<ResetTokenRow>>)
    ensures r.None? <==>
      UserByEmail(users, email).None? || forall k :: 0 <= k < |ts| ==> ts[k].userId != UserByEmail(users, email).value.id
    ensures r.Some? ==>
      && r.value.user in users && r.value.user.email == email && r.value.token.userId == r.value.user.id
      && exists k :: 0 <= k < |ts| && ts[k] == r.value.token && forall j :: k < j < |ts| ==> ts[j].userId != r.value.user.id
  {
    match UserByEmail(users, email)
    case None => None
    case Some(u) =>
      match LatestResetToken(ts, u.id)
      case None => None
      case Some(t) => Some(Joined(u, t))
  }

  // ----------------------------------------------------- table updates

  /** `UPDATE Users SET is_verified=%s WHERE email=%s` with `True`. */
  function MarkVerified(users: seq<UserRow>, email: string): (r: seq<UserRow>)
    ensures |r| == |users|
    ensures forall i :: 0 <= i < |users| && users[i].email != email ==> r[i] == users[i]
    ensures forall i :: 0 <= i < |users| && users[i].email == email ==>
      r[i].isVerified && r[i].(isVerified := users[i].isVerified) == users[i]
  {
    seq(|users|, i requires 0 <= i < |users| => if users[i].email == email then users[i].(isVerified := true) else users[i])
  }

  /** `UPDATE Users SET hashed_password=%s WHERE email=%s`. */
  function SetPassword(users: seq<UserRow>, email: string, hashed: string): (r: seq<UserRow>)
    ensures |r| == |users|
    ensures forall i :: 0 <= i < |users| && users[i].email != email ==> r[i] == users[i]
    ensures forall i :: 0 <= i < |users| && users[i].email == email ==>
      r[i].hashedPassword == hashed && r[i].(hashedPassword := users[i].hashedPassword) == users[i]
  {
    seq(|users|, i requires 0 <= i < |users| => if users[i].email == email then users[i].(hashedPassword := hashed) else users[i])
  }

  /** `UPDATE forgot_password_token SET is_reset = %s WHERE user_id=%s` with `True`. */
  function MarkReset(ts: seq<ResetTokenRow>, userId: Id): (r: seq<ResetTokenRow>)
    ensures |r| == |ts|
    ensures forall i :: 0 <= i < |ts| && ts[i].userId != userId ==> r[i] == ts[i]
    ensures forall i :: 0 <= i < |ts| && ts[i].userId == userId ==>
      r[i].isReset && r[i].(isReset := ts[i].isReset) == ts[i]
  {
    seq(|ts|, i requires 0 <= i < |ts| => if ts[i].userId == userId then ts[i].(isReset := true) else ts[i])
  }

  /** `DELETE FROM verify_email_token WHERE user_id = %s AND token=%s`: the rows kept. */
  function VerifyNotPair(userId: Id, token: string): VerifyTokenRow -> bool {
    (t: VerifyTokenRow) => !(t.userId == userId && t.token == token)
  }

  /** A user's verify tokens, in table order. */
  function VerifyTokensOf(ts: seq<VerifyTokenRow>, userId: Id): seq<VerifyTokenRow> {
    Filter(ts, VerifyOf(userId))
  }

  /** An update that changes no id, email or username keeps the user table's
      rules. */
  lemma SameAccountsKeepTable(users: seq<UserRow>, users': seq<UserRow>, next: nat)
    requires UserIdsOk(users, next) && UniqueAccounts(users)
    requires |users'| == |users|
    requires forall i :: 0 <= i < |users| ==>
      users'[i].id == users[i].id && users'[i].email == users[i].email && users'[i].username == users[i].username
    ensures UserIdsOk(users', next) && UniqueAccounts(users')
  {
  }

  /** With unique emails, the lookup after an update that keeps every email
      finds the updated row at the place of the old one. */
  lemma LookupAfterUpdate(users: seq<UserRow>, users': seq<UserRow>, email: string, i: nat)
    requires UniqueAccounts(users') && |users'| == |users| && i < |users|
    requires forall j :: 0 <= j < |users| ==> users'[j].email == users[j].email
    requires users[i].email == email
    ensures UserByEmail(users', email) == Some(users'[i])
  {
    var v := UserByEmail(users', email);
    assert users'[i].email == email;
    var j :| 0 <= j < |users'| && users'[j] == v.value;
    assert j == i;
  }

  /** A filter of a token table keeps its ids in order. */
  lemma VerifyFilterKeepsIds(ts: seq<VerifyTokenRow>, next: nat, p: VerifyTokenRow -> bool)
    requires VerifyTokenIdsOk(ts, next)
    ensures VerifyTokenIdsOk(Filter(ts, p), next)
  {
    FilterKeepsIncreasing(ts, p, (t: VerifyTokenRow) => t.id);
    forall k | 0 <= k < |Filter(ts, p)| ensures Filter(ts, p)[k].id < next {
      assert Filter(ts, p)[k] in ts;
    }
  }

  lemma ResetFilterKeepsIds(ts: seq<ResetTokenRow>, next: nat, p: ResetTokenRow -> bool)
    requires ResetTokenIdsOk(ts, next)
    ensures ResetTokenIdsOk(Filter(ts, p), next)
  {
    FilterKeepsIncreasing(ts, p, (t: ResetTokenRow) => t.id);
    forall k | 0 <= k < |Filter(ts, p)| ensures Filter(ts, p)[k].id < next {
      assert Filter(ts, p)[k] in ts;
    }
  }

  /** A filter that nothing passes is empty. */
  lemma FilterNone<T(!new)>(s: seq<T>, p: T -> bool)
    requires forall x :: x in s ==> !p(x)
    ensures Filter(s, p) == []
  {
    if Filter(s, p) != [] {
      assert Filter(s, p)[0] in Filter(s, p);
    }
  }

  // ------------------------------------------------------------ signup

  /** `POST /signup`. `hashed` is bcrypt's hash of the password, `otp` the
      generated code, `mailed` whether sending the code succeeds. The user
      row is committed before the mail goes out, so a failed mail leaves an
      account without a code. */
  method Signup(db: Database, fullName: string, username: string, email: string, hashed: string,
                now: int, otp: int, mailed: bool) returns (r: Result<string>)
    requires db.UserTableOk() && db.VerifyTokenTableOk()
    modifies db`users, db`nextUserId, db`verifyTokens, db`nextVerifyTokenId
    ensures db.UserTableOk() && db.VerifyTokenTableOk()
    ensures UserByEmail(old(db.users), email).Some? || UserByUsername(old(db.users), username).Some? ==>
      r == Err(Rewrap(404, HttpError(409, Text("Email or Username already exist")))) && unchanged(db)
    ensures UserByEmail(old(db.users), email).None? && UserByUsername(old(db.users), username).None? ==>
      && db.users == old(db.users) + [UserRow(old(db.nextUserId), fullName, username, email, hashed, false, None)]
      && db.nextUserId == old(db.nextUserId) + 1
      && (mailed ==>
            && r == Ok("Signup Successful. Please verify your email.")
            && db.verifyTokens == old(db.verifyTokens) +
                 [VerifyTokenRow(old(db.nextVerifyTokenId), old(db.nextUserId), IntToString(otp), now + VerifyMailExpiry)]
            && db.nextVerifyTokenId == old(db.nextVerifyTokenId) + 1)
      && (!mailed ==>
            r == Err(HttpError(404, Foreign)) &&
            db.verifyTokens == old(db.verifyTokens) && db.nextVerifyTokenId == old(db.nextVerifyTokenId))
  {
    if UserByEmail(db.users, email).Some? || UserByUsername(db.users, username).Some? {
      return Err(Rewrap(404, HttpError(409, Text("Email or Username already exist"))));
    }
    var user := UserRow(db.nextUserId, fullName, username, email, hashed, false, None);
    InsertAccount(db, user);
    // first commit; then the mail
    if !mailed {
      return Err(HttpError(404, Foreign));
    }
    var token := VerifyTokenRow(db.nextVerifyTokenId, user.id, IntToString(otp), now + VerifyMailExpiry);
    InsertVerifyToken(db, token);
    r := Ok("Signup Successful. Please verify your email.");
  }

  /** The account insert of `Signup`: a row with the next id whose email and
      username are both new. */
  method InsertAccount(db: Database, user: UserRow)
    requires db.UserTableOk()
    requires user.id == db.nextUserId
    requires UserByEmail(db.users, user.email).None? && UserByUsername(db.users, user.username).None?
    modifies db`users, db`nextUserId
    ensures db.UserTableOk()
    ensures db.users == old(db.users) + [user] && db.nextUserId == old(db.nextUserId) + 1
  {
    UserAppendKeepsIds(db.users, db.nextUserId, user);
    NewAccountKeepsUnique(db.users, user);
    db.users := db.users + [user];
    db.nextUserId := db.nextUserId + 1;
  }

  /** The code insert of `Signup`: a row with the next id. */
  method InsertVerifyToken(db: Database, token: VerifyTokenRow)
    requires db.VerifyTokenTableOk()
    requires token.id == db.nextVerifyTokenId
    modifies db`verifyTokens, db`nextVerifyTokenId
    ensures db.VerifyTokenTableOk()
    ensures db.verifyTokens == old(db.verifyTokens) + [token] && db.nextVerifyTokenId == old(db.nextVerifyTokenId) + 1
  {
    VerifyTokenAppendKeepsIds(db.verifyTokens, db.nextVerifyTokenId, token);
    db.verifyTokens := db.verifyTokens + [token];
    db.nextVerifyTokenId := db.nextVerifyTokenId + 1;
  }

  /** With unique emails, every account with an email is the one the lookup
      by that email finds, so a join on the email sees only that account. */
  lemma EmailNamesOneAccount(users: seq<UserRow>, email: string, u: UserRow)
    requires UniqueAccounts(users)
    requires u in users && u.email == email
    ensures UserByEmail(users, email) == Some(u)
  {
    var found := UserByEmail(users, email).value;
    var i :| 0 <= i < |users| && users[i] == u;
    var j :| 0 <= j < |users| && users[j] == found;
    assert i == j;
  }

  /** An account whose email and username are both new keeps accounts unique. */
  lemma NewAccountKeepsUnique(users: seq<UserRow>, row: UserRow)
    requires UniqueAccounts(users)
    requires UserByEmail(users, row.email).None? && UserByUsername(users, row.username).None?
    ensures UniqueAccounts(users + [row])
  {
    var us := users + [row];
    forall i, j | 0 <= i < j < |us| ensures us[i].email != us[j].email && us[i].username != us[j].username {
      if j == |users| {
        assert us[i] == users[i] && us[j] == row;
      } else {
        assert us[i] == users[i] && us[j] == users[j];
      }
    }
  }

  // ------------------------------------------------ email verification

  /** `POST /email-token-verify`: only the newest code of the account counts.
      The checks run in this order: no code for that email, a different
      code, an expired code, an account already verified. */
  method VerifyEmail(db: Database, email: string, token: string, now: int) returns (r: Result<string>)
    requires db.UserTableOk() && db.VerifyTokenTableOk()
    modifies db`users, db`verifyTokens
    ensures db.UserTableOk() && db.VerifyTokenTableOk()
    ensures VerifyLookup(old(db.users), old(db.verifyTokens), email).None? ==>
      r == Err(Rewrap(404, HttpError(404, Text("Invalid Email Address")))) && unchanged(db)
    ensures VerifyLookup(old(db.users), old(db.verifyTokens), email).Some? ==>
      var j := VerifyLookup(old(db.users), old(db.verifyTokens), email).value;
      && (token != j.token.token ==>
            r == Err(Rewrap(404, HttpError(401, Text("Invalid or Incorrect Token")))) && unchanged(db))
      && (token == j.token.token && now > j.token.expiry ==>
            r == Err(Rewrap(404, HttpError(401, Text("Token Expired")))) && unchanged(db))
      && (token == j.token.token && now <= j.token.expiry && j.user.isVerified ==>
            r == Err(Rewrap(404, HttpError(409, Text("Email already Verified")))) && unchanged(db))
      && (token == j.token.token && now <= j.token.expiry && !j.user.isVerified ==>
            && r == Ok("Email is Verified")
            && db.users == MarkVerified(old(db.users), email)
            && db.verifyTokens == Filter(old(db.verifyTokens), VerifyNotPair(j.user.id, token)))
  {
    var found := VerifyLookup(db.users, db.verifyTokens, email);
    if found.None? {
      return Err(Rewrap(404, HttpError(404, Text("Invalid Email Address"))));
    }
    var j := found.value;
    if token != j.token.token {
      return Err(Rewrap(404, HttpError(401, Text("Invalid or Incorrect Token"))));
    }
    if now > j.token.expiry {
      return Err(Rewrap(404, HttpError(401, Text("Token Expired"))));
    }
    if j.user.isVerified {
      return Err(Rewrap(404, HttpError(409, Text("Email already Verified"))));
    }
    MarkEmailVerified(db, email, j.user.id, token);
    r := Ok("Email is Verified");
  }

  /** The commit of a successful verification: the account is flagged and
      the code used is deleted. */
  method MarkEmailVerified(db: Database, email: string, userId: Id, token: string)
    requires db.UserTableOk() && db.VerifyTokenTableOk()
    modifies db`users, db`verifyTokens
    ensures db.UserTableOk() && db.VerifyTokenTableOk()
    ensures db.users == MarkVerified(old(db.users), email)
    ensures db.verifyTokens == Filter(old(db.verifyTokens), VerifyNotPair(userId, token))
  {
    SameAccountsKeepTable(db.users, MarkVerified(db.users, email), db.nextUserId);
    VerifyFilterKeepsIds(db.verifyTokens, db.nextVerifyTokenId, VerifyNotPair(userId, token));
    db.users := MarkVerified(db.users, email);
    db.verifyTokens := Filter(db.verifyTokens, VerifyNotPair(userId, token));
  }

  /** After a verification the account behind the email is verified, and it
      is the same account with only that flag changed. */
  lemma VerifiedAfterMark(users: seq<UserRow>, email: string)
    requires UniqueAccounts(users)
    requires UserByEmail(users, email).Some?
    ensures UserByEmail(MarkVerified(users, email), email) == Some(UserByEmail(users, email).value.(isVerified := true))
  {
    var u := UserByEmail(users, email).value;
    var i :| 0 <= i < |users| && users[i] == u;
    LookupAfterUpdate(users, MarkVerified(users, email), email, i);
  }

  // -------------------------------------------------------- renewal

  /** `POST /renew-verify-email-token`: an unknown email or an account
      already verified is refused; otherwise every earlier code of the
      account is deleted and committed before the mail goes out, and the new
      code is stored once the mail is sent. */
  method RenewVerifyToken(db: Database, email: string, otp: int, now: int, mailed: bool) returns (r: Result<string>)
    requires db.VerifyTokenTableOk()
    modifies db`verifyTokens, db`nextVerifyTokenId
    ensures db.VerifyTokenTableOk()
    ensures UserByEmail(db.users, email).None? ==>
      r == Err(Rewrap(400, HttpError(400, Text("User not Found with that Email")))) && unchanged(db)
    ensures UserByEmail(db.users, email).Some? && UserByEmail(db.users, email).value.isVerified ==>
      r == Err(Rewrap(400, HttpError(409, Text("Email already Verified")))) && unchanged(db)
    ensures UserByEmail(db.users, email).Some? && !UserByEmail(db.users, email).value.isVerified ==>
      var u := UserByEmail(db.users, email).value;
      && (mailed ==>
            && r == Ok("Verify Mail Token has Resend")
            && db.verifyTokens == Filter(old(db.verifyTokens), VerifyNotOf(u.id)) +
                 [VerifyTokenRow(old(db.nextVerifyTokenId), u.id, IntToString(otp), now + VerifyMailExpiry)]
            && db.nextVerifyTokenId == old(db.nextVerifyTokenId) + 1
            && VerifyTokensOf(db.verifyTokens, u.id) ==
                 [VerifyTokenRow(old(db.nextVerifyTokenId), u.id, IntToString(otp), now + VerifyMailExpiry)])
      && (!mailed ==>
            && r == Err(HttpError(400, Foreign))
            && db.verifyTokens == Filter(old(db.verifyTokens), VerifyNotOf(u.id))
            && db.nextVerifyTokenId == old(db.nextVerifyTokenId)
            && VerifyTokensOf(db.verifyTokens, u.id) == [])
  {
    var user := UserByEmail(db.users, email);
    if user.None? {
      return Err(Rewrap(400, HttpError(400, Text("User not Found with that Email"))));
    }
    var u := user.value;
    if u.isVerified {
      return Err(Rewrap(400, HttpError(409, Text("Email already Verified"))));
    }
    VerifyFilterKeepsIds(db.verifyTokens, db.nextVerifyTokenId, VerifyNotOf(u.id));
    var kept := Filter(db.verifyTokens, VerifyNotOf(u.id));
    OthersHaveNoneOf(db.verifyTokens, u.id);
    db.verifyTokens := kept;
    // committed; then the mail
    if !mailed {
      return Err(HttpError(400, Foreign));
    }
    var token := VerifyTokenRow(db.nextVerifyTokenId, u.id, IntToString(otp), now + VerifyMailExpiry);
    RenewLeavesOneToken(kept, token);
    InsertVerifyToken(db, token);
    r := Ok("Verify Mail Token has Resend");
  }

  /** Deleting a user's codes leaves none of them. */
  lemma OthersHaveNoneOf(ts: seq<VerifyTokenRow>, userId: Id)
    ensures VerifyTokensOf(Filter(ts, VerifyNotOf(userId)), userId) == []
  {
    FilterNone(Filter(ts, VerifyNotOf(userId)), VerifyOf(userId));
  }

  /** After a renewal the account has exactly one code: the new one. */
  lemma RenewLeavesOneToken(kept: seq<VerifyTokenRow>, token: VerifyTokenRow)
    requires VerifyTokensOf(kept, token.userId) == []
    ensures VerifyTokensOf(kept + [token], token.userId) == [token]
  {
    FilterAppend(kept, [token], VerifyOf(token.userId));
    assert [token][1..] == [];
  }

  // ------------------------------------------------------------ login

  /** What a successful login answers; the access and refresh tokens are
      JWTs issued for the user id. */
  datatype LoginReply = LoginReply(message: string, accessToken: string, refreshToken: string,
                                   userId: Id, username: string, email: string, fullName: string)

  /** `POST /login`. `matches(password, hash)` is bcrypt's check; `access`
      and `refresh` issue the two JWTs for a user id. The checks run in
      this order: unknown email, wrong password, unverified email. */
  function Login(users: seq<UserRow>, email: string, password: string, matches: (string, string) -> bool,
                 access: Id -> string, refresh: Id -> string): (r: Result<LoginReply>)
    ensures UserByEmail(users, email).None? ==>
      r == Err(Rewrap(404, HttpError(404, Text("Email doesnot Exist"))))
    ensures UserByEmail(users, email).Some? && !matches(password, UserByEmail(users, email).value.hashedPassword) ==>
      r == Err(Rewrap(404, HttpError(401, Text("Invalid Password"))))
    ensures UserByEmail(users, email).Some? && matches(password, UserByEmail(users, email).value.hashedPassword) &&
            !UserByEmail(users, email).value.isVerified ==>
      r == Err(Rewrap(404, HttpError(401, Text("Please Verify Your Email"))))
    ensures r.Ok? <==>
      UserByEmail(users, email).Some? && matches(password, UserByEmail(users, email).value.hashedPassword) &&
      UserByEmail(users, email).value.isVerified
    ensures r.Ok? ==>
      var u := UserByEmail(users, email).value;
      r.value == LoginReply("Login Successful", access(u.id), refresh(u.id), u.id, u.username, email, u.fullName)
  {
    match UserByEmail(users, email)
    case None => Err(Rewrap(404, HttpError(404, Text("Email doesnot Exist"))))
    case Some(u) =>
      if !matches(password, u.hashedPassword) then Err(Rewrap(404, HttpError(401, Text("Invalid Password"))))
      else if !u.isVerified then Err(Rewrap(404, HttpError(401, Text("Please Verify Your Email"))))
      else Ok(LoginReply("Login Successful", access(u.id), refresh(u.id), u.id, u.username, email, u.fullName))
  }

  /** Verifying the email is what lets the account log in: once verified, a
      login with the right password succeeds. */
  lemma VerifiedAccountLogsIn(users: seq<UserRow>, email: string, password: string,
                              matches: (string, string) -> bool, access: Id -> string, refresh: Id -> string)
    requires UniqueAccounts(users)
    requires UserByEmail(users, email).Some?
    requires matches(password, UserByEmail(users, email).value.hashedPassword)
    ensures Login(MarkVerified(users, email), email, password, matches, access, refresh).Ok?
  {
    VerifiedAfterMark(users, email);
  }

  // -------------------------------------------------- password reset

  /** `POST /forgot-password`: a code for a known email. The code is
      committed before the mail goes out, so a failed mail still leaves it. */
  method ForgotPassword(db: Database, email: string, otp: int, now: int, mailed: bool) returns (r: Result<string>)
    requires db.ResetTokenTableOk()
    modifies db`resetTokens, db`nextResetTokenId
    ensures db.ResetTokenTableOk()
    ensures UserByEmail(db.users, email).None? ==>
      r == Err(Rewrap(404, HttpError(404, Text("Invalid Email")))) && unchanged(db)
    ensures UserByEmail(db.users, email).Some? ==>
      && db.resetTokens == old(db.resetTokens) +
           [ResetTokenRow(old(db.nextResetTokenId), UserByEmail(db.users, email).value.id, IntToString(otp),
                          now + ForgotPasswordExpiry, false)]
      && db.nextResetTokenId == old(db.nextResetTokenId) + 1
      && r == if mailed then Ok("Token Has Sent to Your Email") else Err(HttpError(404, Foreign))
  {
    var user := UserByEmail(db.users, email);
    if user.None? {
      return Err(Rewrap(404, HttpError(404, Text("Invalid Email"))));
    }
    var token := ResetTokenRow(db.nextResetTokenId, user.value.id, IntToString(otp), now + ForgotPasswordExpiry, false);
    ResetTokenAppendKeepsIds(db.resetTokens, db.nextResetTokenId, token);
    db.resetTokens := db.resetTokens + [token];
    db.nextResetTokenId := db.nextResetTokenId + 1;
    // committed; then the mail
    r := if mailed then Ok("Token Has Sent to Your Email") else Err(HttpError(404, Foreign));
  }

  /** `POST /forgot-password-token`: the newest code of the account must
      match and must not have expired; then every reset code of the account
      is marked as checked. The handler's last guard, that the email of the
      joined row differs from the one sent, cannot fire: the join selects the
      row by that email (`ResetLookupEmail`). The join ranges over every
      account with that email; with unique emails that is the one account
      `UserByEmail` finds (`EmailNamesOneAccount`). */
  method CheckResetToken(db: Database, email: string, token: string, now: int) returns (r: Result<string>)
    requires db.UserTableOk() && db.ResetTokenTableOk()
    modifies db`resetTokens
    ensures db.ResetTokenTableOk()
    ensures ResetLookup(db.users, old(db.resetTokens), email).None? ==>
      r == Err(Rewrap(404, HttpError(404, Text("Invalid Email or Token")))) && unchanged(db)
    ensures ResetLookup(db.users, old(db.resetTokens), email).Some? ==>
      var j := ResetLookup(db.users, old(db.resetTokens), email).value;
      && (token != j.token.token ==>
            r == Err(Rewrap(404, HttpError(401, Text("Invalid Token")))) && unchanged(db))
      && (token == j.token.token && now > j.token.expiry ==>
            r == Err(Rewrap(404, HttpError(401, Text("Token Expired")))) && unchanged(db))
      && (token == j.token.token && now <= j.token.expiry ==>
            r == Ok("Valid Token Now You Can Reset Password") &&
            db.resetTokens == MarkReset(old(db.resetTokens), j.user.id))
  {
    var found := ResetLookup(db.users, db.resetTokens, email);
    if found.None? {
      return Err(Rewrap(404, HttpError(404, Text("Invalid Email or Token"))));
    }
    var j := found.value;
    if token != j.token.token {
      return Err(Rewrap(404, HttpError(401, Text("Invalid Token"))));
    }
    if now > j.token.expiry {
      return Err(Rewrap(404, HttpError(401, Text("Token Expired"))));
    }
    db.resetTokens := MarkReset(db.resetTokens, j.user.id);
    r := Ok("Valid Token Now You Can Reset Password");
  }

  /** The joined row always carries the email it was selected by. */
  lemma ResetLookupEmail(users: seq<UserRow>, ts: seq<ResetTokenRow>, email: string)
    requires ResetLookup(users, ts, email).Some?
    ensures ResetLookup(users, ts, email).value.user.email == email
    ensures ResetLookup(users, ts, email).value.token.userId == ResetLookup(users, ts, email).value.user.id
  {
  }

  /** `POST /reset-password`: allowed only when the newest reset code of the
      account has been checked; the password hash is replaced and every
      reset code of the account is deleted. */
  method ResetPassword(db: Database, email: string, hashed: string) returns (r: Result<string>)
    requires db.UserTableOk() && db.ResetTokenTableOk()
    modifies db`users, db`resetTokens
    ensures db.UserTableOk() && db.ResetTokenTableOk()
    ensures ResetLookup(old(db.users), old(db.resetTokens), email).None? ==>
      r == Err(Rewrap(404, HttpError(404, Text("Invalid Email")))) && unchanged(db)
    ensures ResetLookup(old(db.users), old(db.resetTokens), email).Some? ==>
      var j := ResetLookup(old(db.users), old(db.resetTokens), email).value;
      && (!j.token.isReset ==>
            r == Err(Rewrap(404, HttpError(404, Text("You are not allowed to Reset Password")))) && unchanged(db))
      && (j.token.isReset ==>
            && r == Ok("Password has been Reset")
            && db.users == SetPassword(old(db.users), email, hashed)
            && db.resetTokens == Filter(old(db.resetTokens), ResetNotOf(j.user.id)))
  {
    var found := ResetLookup(db.users, db.resetTokens, email);
    if found.None? {
      return Err(Rewrap(404, HttpError(404, Text("Invalid Email"))));
    }
    var j := found.value;
    if !j.token.isReset {
      return Err(Rewrap(404, HttpError(404, Text("You are not allowed to Reset Password"))));
    }
    CommitReset(db, email, j.user.id, hashed);
    r := Ok("Password has been Reset");
  }

  /** The commits of a reset: the new hash, then the deletion of every code
      of the account. */
  method CommitReset(db: Database, email: string, userId: Id, hashed: string)
    requires db.UserTableOk() && db.ResetTokenTableOk()
    modifies db`users, db`resetTokens
    ensures db.UserTableOk() && db.ResetTokenTableOk()
    ensures db.users == SetPassword(old(db.users), email, hashed)
    ensures db.resetTokens == Filter(old(db.resetTokens), ResetNotOf(userId))
  {
    SameAccountsKeepTable(db.users, SetPassword(db.users, email, hashed), db.nextUserId);
    ResetFilterKeepsIds(db.resetTokens, db.nextResetTokenId, ResetNotOf(userId));
    db.users := SetPassword(db.users, email, hashed);
    db.resetTokens := Filter(db.resetTokens, ResetNotOf(userId));
  }

  /** A successful check opens the reset: the account's newest code is then
      marked as checked. */
  lemma CheckOpensReset(users: seq<UserRow>, ts: seq<ResetTokenRow>, email: string)
    requires ResetLookup(users, ts, email).Some?
    ensures ResetLookup(users, MarkReset(ts, ResetLookup(users, ts, email).value.user.id), email).Some?
    ensures ResetLookup(users, MarkReset(ts, ResetLookup(users, ts, email).value.user.id), email).value.token.isReset
  {
    var u := ResetLookup(users, ts, email).value.user;
    var ts' := MarkReset(ts, u.id);
    var k :| 0 <= k < |ts| && ts[k] == ResetLookup(users, ts, email).value.token;
    assert ts'[k].userId == u.id;
    var t' := LatestResetToken(ts', u.id).value;
    var k' :| 0 <= k' < |ts'| && ts'[k'] == t';
  }

  /** A new code requested after a check closes the reset again: the newest
      code is the new, unchecked one. */
  lemma NewCodeClosesReset(users: seq<UserRow>, ts: seq<ResetTokenRow>, email: string, token: ResetTokenRow)
    requires UserByEmail(users, email).Some? && token.userId == UserByEmail(users, email).value.id
    ensures ResetLookup(users, ts + [token], email) == Some(Joined(UserByEmail(users, email).value, token))
  {
    var s := ts + [token];
    assert s[|s| - 1] == token;
    assert LastIndex(s, ResetOf(token.userId)) == |s| - 1;
  }

  /** A reset consumes the account's codes: right after it, the lookup finds
      no code for that email, so a second reset is refused. */
  lemma ResetConsumesCodes(users: seq<UserRow>, ts: seq<ResetTokenRow>, email: string, hashed: string)
    requires UniqueAccounts(users)
    requires ResetLookup(users, ts, email).Some?
    ensures ResetLookup(SetPassword(users, email, hashed), Filter(ts, ResetNotOf(ResetLookup(users, ts, email).value.user.id)), email).None?
  {
    var u := ResetLookup(users, ts, email).value.user;
    var users' := SetPassword(users, email, hashed);
    var i :| 0 <= i < |users| && users[i] == u;
    SetPasswordKeepsAccounts(users, email, hashed);
    LookupAfterUpdate(users, users', email, i);
    NoResetCodeLeft(ts, u.id);
  }

  /** A password change keeps every id, email and username, and so unique
      accounts. */
  lemma SetPasswordKeepsAccounts(users: seq<UserRow>, email: string, hashed: string)
    requires UniqueAccounts(users)
    ensures var users' := SetPassword(users, email, hashed);
      && |users'| == |users|
      && (forall j :: 0 <= j < |users| ==>
            users'[j].id == users[j].id && users'[j].email == users[j].email && users'[j].username == users[j].username)
      && UniqueAccounts(users')
  {
  }

  /** Deleting a user's reset codes leaves none of them. */
  lemma NoResetCodeLeft(ts: seq<ResetTokenRow>, userId: Id)
    ensures forall k :: 0 <= k < |Filter(ts, ResetNotOf(userId))| ==> Filter(ts, ResetNotOf(userId))[k].userId != userId
  {
    var rest := Filter(ts, ResetNotOf(userId));
    forall k | 0 <= k < |rest| ensures rest[k].userId != userId {
      assert rest[k] in rest;
    }
  }

  /** Resetting twice with one checked code: the second reset is refused. */
  method ResetTwice(db: Database, email: string, first: string, second: string) returns (r1: Result<string>, r2: Result<string>)
    requires db.UserTableOk() && db.ResetTokenTableOk()
    modifies db`users, db`resetTokens
    ensures db.UserTableOk() && db.ResetTokenTableOk()
    ensures r1.Ok? ==> r2 == Err(Rewrap(404, HttpError(404, Text("Invalid Email"))))
  {
    ghost var users, ts := db.users, db.resetTokens;
    r1 := ResetPassword(db, email, first);
    if r1.Ok? {
      ResetConsumesCodes(users, ts, email, first);
    }
    r2 := ResetPassword(db, email, second);
  }
}
