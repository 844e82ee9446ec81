/**
 * The account and OTP state machine of the authentication controller, as
 * pure functions from the state of the user collection (and the request) to
 * the new state and the reply. Each handler is one atomic step: it reads the
 * collection, changes at most one user and saves it.
 *
 * Outside influences are parameters: `now` is the clock in milliseconds,
 * `code` the freshly drawn OTP, `mailSent` whether the mail transport
 * delivered, `secret` the JWT signing secret, and `dbDown` says that the
 * database is unreachable, so that the request's first query throws.
 * Request body fields are strings, an absent field being "".
 */
module AuthSpec {
  import opened Wrappers
  import opened Bcrypt
  import opened Validator
  import opened UserModel
  import opened Jwt
  import opened Otp
  import opened Http

  datatype Outcome = Outcome(db: Db, reply: Reply)

  /** No user is added or removed, and every user other than `id` is as before. */
  predicate OnlyTouches(before: map<UserId, User>, after: map<UserId, User>, id: UserId)
  {
    && after.Keys == before.Keys
    && forall j :: j in before && j != id ==> j in after && after[j] == before[j]
  }

  // ---------------------------------------------------------------------
  // The changes the handlers make to one user document before saving it.

  /** Issuing a verification code: the slot holds the code, expiring 24 hours from now. */
  function IssueVerifyOtp(u: User, code: nat, now: nat): (v: User)
    ensures v.verifyOtp == Digits(code) && v.verifyOtp != ""
    ensures v.verifyOtpExpiryAt == now + Lifetime
    ensures v.name == u.name && v.email == u.email && v.password == u.password
    ensures v.isAccountVerified == u.isAccountVerified
    ensures v.resetOtp == u.resetOtp && v.resetOtpExpireAt == u.resetOtpExpireAt
  {
    u.(verifyOtp := Digits(code), verifyOtpExpiryAt := now + Lifetime)
  }

  /** Consuming the verification code: the account is verified and the slot is emptied. */
  function ConsumeVerifyOtp(u: User): (v: User)
    ensures v.isAccountVerified && VerifySlotEmpty(v)
    ensures v.name == u.name && v.email == u.email && v.password == u.password
    ensures v.resetOtp == u.resetOtp && v.resetOtpExpireAt == u.resetOtpExpireAt
  {
    u.(isAccountVerified := true, verifyOtp := "", verifyOtpExpiryAt := 0)
  }

  /** Issuing a reset code: the reset slot holds the code, expiring 24 hours from now. */
  function IssueResetOtp(u: User, code: nat, now: nat): (v: User)
    ensures v.resetOtp == Digits(code) && v.resetOtp != ""
    ensures v.resetOtpExpireAt == now + Lifetime
    ensures v.name == u.name && v.email == u.email && v.password == u.password
    ensures v.isAccountVerified == u.isAccountVerified
    ensures v.verifyOtp == u.verifyOtp && v.verifyOtpExpiryAt == u.verifyOtpExpiryAt
  {
    u.(resetOtp := Digits(code), resetOtpExpireAt := now + Lifetime)
  }

  /** Applying a reset: the new password's digest is stored and the reset slot is emptied (a null expiry read as 0). */
  function ApplyReset(u: User, newPassword: string): (v: User)
    ensures Compare(newPassword, v.password) && ResetSlotEmpty(v)
    ensures v.name == u.name && v.email == u.email
    ensures v.isAccountVerified == u.isAccountVerified
    ensures v.verifyOtp == u.verifyOtp && v.verifyOtpExpiryAt == u.verifyOtpExpiryAt
  {
    u.(password := Hash(newPassword), resetOtp := "", resetOtpExpireAt := 0)
  }

  // ---------------------------------------------------------------------
  // The handlers.

  /** `register`: create an account and log it in; the welcome mail's fate does not matter. */
  function Register(db: Db, name: string, email: string, password: string, welcomeSent: bool,
                    now: nat, secret: string, dbDown: bool): (o: Outcome)
    ensures o.reply.Json?
    ensures o.reply.status == 201 <==>
      name != "" && email != "" && password != "" && !dbDown && email !in Emails(db.users)
    ensures o.reply.status != 201 ==> o.db == db && o.reply.cookie == Unchanged
    ensures o.reply.status == 201 ==>
      && Succeeded(o.reply)
      && o.db == Db(db.users[db.nextId := NewUser(name, email, Hash(password))], db.nextId + 1)
      && o.reply.cookie == SetToken(CreateToken(db.nextId, secret, now))
    ensures WellFormed(db) && o.reply.status == 201 ==>
      db.nextId !in db.users && |o.db.users| == |db.users| + 1
    ensures WellFormed(db) ==> WellFormed(o.db)
    ensures name == "" || email == "" || password == "" ==>
      o.reply == Json(400, None, MissingFields, Unchanged)
    ensures name != "" && email != "" && password != "" && !dbDown && email in Emails(db.users) ==>
      o.reply == Json(400, None, EmailInUse, Unchanged)
    ensures name != "" && email != "" && password != "" && dbDown ==>
      o.reply == Failure(500, ServerError)
  {
    if name == "" || email == "" || password == "" then
      Outcome(db, Json(400, None, MissingFields, Unchanged))
    else if dbDown then
      Outcome(db, Failure(500, ServerError))
    else if email in Emails(db.users) then
      Outcome(db, Json(400, None, EmailInUse, Unchanged))
    else
      var id := db.nextId;
      var u := NewUser(name, email, Hash(password));
      assert WellFormed(db) ==> id !in db.users && WellFormed(Db(db.users[id := u], id + 1)) by {
        if WellFormed(db) { InsertKeepsWellFormed(db, u); }
      }
      Outcome(Db(db.users[id := u], id + 1),
              Json(201, Some(true), Registered, SetToken(CreateToken(id, secret, now))))
  }

  /** `logIn`: check the credentials and hand out a token; the collection is only read. */
  ghost function LogIn(db: Db, email: string, password: string, now: nat, secret: string,
                       dbDown: bool): (r: Reply)
    ensures r.Json? && r.cookie != Cleared
    ensures r.status == 200 ==>
      && Succeeded(r)
      && exists id :: id in db.users && db.users[id].email == email
           && Compare(password, db.users[id].password)
           && r.cookie == SetToken(CreateToken(id, secret, now))
    ensures r.status != 200 ==> r.cookie == Unchanged
    ensures email == "" || password == "" ==> r == Json(400, None, MissingFields, Unchanged)
    ensures email != "" && password != "" && !IsEmail(email) ==>
      r == Json(400, None, EmailNotValid, Unchanged)
    ensures email != "" && password != "" && IsEmail(email) && dbDown ==>
      r == Failure(500, ServerError)
    ensures email != "" && password != "" && IsEmail(email) && !dbDown ==>
      (r == Failure(400, InvalidEmail) <==> email !in Emails(db.users))
  {
    if email == "" || password == "" then Json(400, None, MissingFields, Unchanged)
    else if !IsEmail(email) then Json(400, None, EmailNotValid, Unchanged)
    else if dbDown then Failure(500, ServerError)
    else match FindByEmail(db.users, email)
      case None => Failure(400, InvalidEmail)
      case Some(id) =>
        if !Compare(password, db.users[id].password) then Failure(400, InvalidPassword)
        else Json(200, Some(true), NoMessage, SetToken(CreateToken(id, secret, now)))
  }

  /** `logOut`: tell the client to drop its cookie; the server keeps no session. */
  function LogOut(): (r: Reply)
    ensures Succeeded(r) && r.status == 200 && r.cookie == Cleared
  {
    Json(200, Some(true), LoggedOut, Cleared)
  }

  /** The verification code is issued: the request names an existing, unverified user. */
  predicate IssuesVerifyOtp(db: Db, userId: Option<UserId>, dbDown: bool)
  {
    userId.Some? && !dbDown && userId.value in db.users
    && !db.users[userId.value].isAccountVerified
  }

  /**
   * `sendVerifyOtp`: store a fresh code with a 24-hour expiry, save, then mail it.
   * The code stays stored when the mail cannot be sent.
   */
  function SendVerifyOtp(db: Db, userId: Option<UserId>, code: nat, mailSent: bool, now: nat,
                         dbDown: bool): (o: Outcome)
    ensures o.reply.Json? && o.reply.cookie == Unchanged && o.db.nextId == db.nextId
    ensures !IssuesVerifyOtp(db, userId, dbDown) ==> o.db == db
    ensures IssuesVerifyOtp(db, userId, dbDown) ==>
      && OnlyTouches(db.users, o.db.users, userId.value)
      && o.db.users[userId.value] == IssueVerifyOtp(db.users[userId.value], code, now)
    ensures Succeeded(o.reply) <==>
      IssuesVerifyOtp(db, userId, dbDown) && mailSent && db.users[userId.value].email != ""
    ensures Succeeded(o.reply) ==> o.reply.status == 200 && o.reply.message == VerifyOtpSent
    ensures IssuesVerifyOtp(db, userId, dbDown) && db.users[userId.value].email != "" && !mailSent ==>
      o.reply == Failure(500, FailedToSendEmail)
    ensures userId.None? ==> o.reply == Failure(400, UserIdMissing)
    ensures userId.Some? && dbDown ==> o.reply == Failure(500, RequestFailed)
    ensures userId.Some? && !dbDown && userId.value !in db.users ==>
      o.reply == Failure(404, UserNotFound)
    ensures userId.Some? && !dbDown && userId.value in db.users
            && db.users[userId.value].isAccountVerified ==>
      o.reply == Failure(400, AlreadyVerified)
    ensures WellFormed(db) ==> WellFormed(o.db)
  {
    if userId.None? then Outcome(db, Failure(400, UserIdMissing))
    else if dbDown then Outcome(db, Failure(500, RequestFailed))
    else
      var id := userId.value;
      if id !in db.users then Outcome(db, Failure(404, UserNotFound))
      else if db.users[id].isAccountVerified then Outcome(db, Failure(400, AlreadyVerified))
      else
        var u := IssueVerifyOtp(db.users[id], code, now);
        var saved := Db(db.users[id := u], db.nextId);
        assert WellFormed(db) ==> WellFormed(saved) by {
          if WellFormed(db) { UpdateKeepsWellFormed(db, id, u); }
        }
        if u.email == "" then Outcome(saved, Failure(400, InvalidEmailAddress))
        else if !mailSent then Outcome(saved, Failure(500, FailedToSendEmail))
        else Outcome(saved, Json(200, Some(true), VerifyOtpSent, Unchanged))
  }

  /** The verification code offered is accepted for the user on the request. */
  predicate VerifyAccepted(db: Db, userId: Option<UserId>, otp: string, now: nat, dbDown: bool)
  {
    && userId.Some? && !dbDown && userId.value in db.users
    && var u := db.users[userId.value];
       Check(u.verifyOtp, u.verifyOtpExpiryAt, otp, now) == Accepted
  }

  /**
   * `verifyEmail`: consume the verification code and mark the account verified.
   * Every reply, failures included, goes out with the default status 200.
   */
  function VerifyEmail(db: Db, userId: Option<UserId>, otp: string, now: nat, dbDown: bool)
    : (o: Outcome)
    ensures o.reply.Json? && o.reply.status == 200 && o.reply.cookie == Unchanged
    ensures Succeeded(o.reply) <==> VerifyAccepted(db, userId, otp, now, dbDown)
    ensures !VerifyAccepted(db, userId, otp, now, dbDown) ==> o.db == db
    ensures VerifyAccepted(db, userId, otp, now, dbDown) ==>
      && o.db.nextId == db.nextId
      && OnlyTouches(db.users, o.db.users, userId.value)
      && o.db.users[userId.value] == ConsumeVerifyOtp(db.users[userId.value])
    ensures userId.None? || otp == "" ==> o.reply == Failure(200, InvalidRequest)
    ensures userId.Some? && otp != "" && dbDown ==> o.reply == Json(200, None, ErrorEcho, Unchanged)
    ensures userId.Some? && otp != "" && !dbDown && userId.value in db.users ==>
      var u := db.users[userId.value];
      && (o.reply == Failure(200, InvalidOtp) <==> u.verifyOtp == "" || u.verifyOtp != otp)
      && (o.reply == Failure(200, OtpExpired) <==>
            u.verifyOtp != "" && u.verifyOtp == otp && u.verifyOtpExpiryAt < now)
    ensures WellFormed(db) ==> WellFormed(o.db)
  {
    if userId.None? || otp == "" then Outcome(db, Failure(200, InvalidRequest))
    else if dbDown then Outcome(db, Json(200, None, ErrorEcho, Unchanged))
    else
      var id := userId.value;
      if id !in db.users then Outcome(db, Failure(200, NoSuchUser))
      else
        var u := db.users[id];
        match Check(u.verifyOtp, u.verifyOtpExpiryAt, otp, now)
        case Mismatch => Outcome(db, Failure(200, InvalidOtp))
        case Expired => Outcome(db, Failure(200, OtpExpired))
        case Accepted =>
          assert WellFormed(db) ==> WellFormed(Db(db.users[id := ConsumeVerifyOtp(u)], db.nextId)) by {
            if WellFormed(db) { UpdateKeepsWellFormed(db, id, ConsumeVerifyOtp(u)); }
          }
          Outcome(Db(db.users[id := ConsumeVerifyOtp(u)], db.nextId),
                  Json(200, Some(true), EmailVerified, Unchanged))
  }

  /**
   * `isUserAuthenticated`: report whether the id on the request names a user.
   * A failing query is only logged, so no reply is sent.
   */
  function IsUserAuthenticated(db: Db, userId: Option<UserId>, dbDown: bool): (r: Reply)
    ensures r.NoReply? <==> userId.Some? && dbDown
    ensures Succeeded(r) <==> userId.Some? && !dbDown && userId.value in db.users
    ensures r.Json? ==> r.status == 200 && r.cookie == Unchanged
  {
    if userId.None? then Failure(200, NotAuthenticated)
    else if dbDown then NoReply
    else if userId.value !in db.users then Failure(200, UserNotFound)
    else Json(200, Some(true), Authenticated, Unchanged)
  }

  /** The reset code is issued: the e-mail on the request belongs to a user. */
  predicate IssuesResetOtp(db: Db, email: string, dbDown: bool)
  {
    email != "" && !dbDown && email in Emails(db.users)
  }

  /**
   * `sendResetOtp`: store a fresh reset code with a 24-hour expiry for the user
   * holding `email`, save, then mail it. The code stays stored when the mail
   * cannot be sent; the password and the verification slot are never touched.
   */
  ghost function SendResetOtp(db: Db, email: string, code: nat, mailSent: bool, now: nat,
                              dbDown: bool): (o: Outcome)
    ensures o.reply.Json? && o.reply.cookie == Unchanged && o.db.nextId == db.nextId
    ensures !IssuesResetOtp(db, email, dbDown) ==> o.db == db
    ensures IssuesResetOtp(db, email, dbDown) ==>
      exists id :: id in db.users && db.users[id].email == email
        && OnlyTouches(db.users, o.db.users, id)
        && o.db.users[id] == IssueResetOtp(db.users[id], code, now)
    ensures Succeeded(o.reply) <==> IssuesResetOtp(db, email, dbDown) && mailSent
    ensures Succeeded(o.reply) ==> o.reply.status == 200 && o.reply.message == ResetOtpSent
    ensures IssuesResetOtp(db, email, dbDown) && !mailSent ==> o.reply == Failure(200, ErrorEcho)
    ensures email == "" ==> o.reply == Failure(200, EmailMissing)
    ensures email != "" && !dbDown && email !in Emails(db.users) ==>
      o.reply == Failure(200, NoSuchUser)
    ensures email != "" && dbDown ==> o.reply == Failure(200, ErrorEcho)
    ensures WellFormed(db) ==> WellFormed(o.db)
  {
    if email == "" then Outcome(db, Failure(200, EmailMissing))
    else if dbDown then Outcome(db, Failure(200, ErrorEcho))
    else match FindByEmail(db.users, email)
      case None => Outcome(db, Failure(200, NoSuchUser))
      case Some(id) =>
        var u := IssueResetOtp(db.users[id], code, now);
        var saved := Db(db.users[id := u], db.nextId);
        assert WellFormed(db) ==> WellFormed(saved) by {
          if WellFormed(db) { UpdateKeepsWellFormed(db, id, u); }
        }
        assert OnlyTouches(db.users, saved.users, id) && saved.users[id] == u;
        if u.email == "" then Outcome(saved, Failure(400, InvalidEmailAddress))
        else if !mailSent then Outcome(saved, Failure(200, ErrorEcho))
        else Outcome(saved, Json(200, Some(true), ResetOtpSent, Unchanged))
  }

  /** The reset code offered is accepted for the user holding `email`. */
  ghost predicate ResetAccepted(db: Db, email: string, otp: string, newPassword: string, now: nat,
                                dbDown: bool)
  {
    && email != "" && newPassword != "" && !dbDown
    && exists id :: id in db.users && db.users[id].email == email
         && Check(db.users[id].resetOtp, db.users[id].resetOtpExpireAt, otp, now) == Accepted
  }

  /**
   * `resetPassword`: consume the reset code and store the hash of the new
   * password. Every reply goes out with the default status 200.
   */
  ghost function ResetPassword(db: Db, email: string, otp: string, newPassword: string, now: nat,
                               dbDown: bool): (o: Outcome)
    ensures o.reply.Json? && o.reply.status == 200 && o.reply.cookie == Unchanged
    ensures !Succeeded(o.reply) ==> o.db == db
    ensures Succeeded(o.reply) ==>
      && o.reply.message == PasswordReset
      && o.db.nextId == db.nextId
      && exists id :: id in db.users && db.users[id].email == email
           && Check(db.users[id].resetOtp, db.users[id].resetOtpExpireAt, otp, now) == Accepted
           && OnlyTouches(db.users, o.db.users, id)
           && o.db.users[id] == ApplyReset(db.users[id], newPassword)
    ensures email == "" || otp == "" || newPassword == "" ==> o.reply == Failure(200, InvalidRequest)
    ensures email != "" && otp != "" && newPassword != "" && !dbDown && email !in Emails(db.users) ==>
      o.reply == Failure(200, NoSuchUser)
    ensures email != "" && otp != "" && newPassword != "" && dbDown ==> o.reply == Failure(200, ErrorEcho)
    ensures WellFormed(db) ==> WellFormed(o.db)
  {
    if email == "" || otp == "" || newPassword == "" then Outcome(db, Failure(200, InvalidRequest))
    else if dbDown then Outcome(db, Failure(200, ErrorEcho))
    else match FindByEmail(db.users, email)
      case None => Outcome(db, Failure(200, NoSuchUser))
      case Some(id) =>
        var u := db.users[id];
        match Check(u.resetOtp, u.resetOtpExpireAt, otp, now)
        case Mismatch => Outcome(db, Failure(200, InvalidOtp))
        case Expired => Outcome(db, Failure(200, OtpExpired))
        case Accepted =>
          assert WellFormed(db) ==> WellFormed(Db(db.users[id := ApplyReset(u, newPassword)], db.nextId)) by {
            if WellFormed(db) { UpdateKeepsWellFormed(db, id, ApplyReset(u, newPassword)); }
          }
          assert OnlyTouches(db.users, db.users[id := ApplyReset(u, newPassword)], id);
          Outcome(Db(db.users[id := ApplyReset(u, newPassword)], db.nextId),
                  Json(200, Some(true), PasswordReset, Unchanged))
  }

  /**
   * With unique e-mails, login succeeds exactly when the fields are present,
   * the address is well formed and the user holding it has a matching digest.
   */
  lemma LogInSucceedsIff(db: Db, email: string, password: string, now: nat, secret: string,
                         dbDown: bool)
    requires EmailsUnique(db.users)
    ensures LogIn(db, email, password, now, secret, dbDown).status == 200 <==>
      && email != "" && password != "" && IsEmail(email) && !dbDown
      && exists id :: id in db.users && db.users[id].email == email
           && Compare(password, db.users[id].password)
  {
    if exists id :: id in db.users && db.users[id].email == email {
      var id :| id in db.users && db.users[id].email == email;
      FindByEmailUnique(db.users, email, id);
    }
  }

  /**
   * For a stored user, a reset with all fields present answers "Invalid OTP"
   * exactly when the reset slot is empty or the code differs, and "OTP
   * expired" exactly when the code matches but its expiry lies before `now`.
   */
  lemma ResetPasswordAnswers(db: Db, id: UserId, otp: string, newPassword: string, now: nat)
    requires WellFormed(db) && id in db.users
    requires otp != "" && newPassword != ""
    ensures var u := db.users[id];
      var r := ResetPassword(db, u.email, otp, newPassword, now, false).reply;
      && (r == Failure(200, InvalidOtp) <==> u.resetOtp == "" || u.resetOtp != otp)
      && (r == Failure(200, OtpExpired) <==>
            u.resetOtp != "" && u.resetOtp == otp && u.resetOtpExpireAt < now)
  {
    FindByEmailUnique(db.users, db.users[id].email, id);
  }

  /** With unique e-mails, a reset succeeds exactly when the code is accepted for the user holding `email`. */
  lemma ResetSucceedsIff(db: Db, email: string, otp: string, newPassword: string, now: nat,
                         dbDown: bool)
    requires EmailsUnique(db.users)
    ensures Succeeded(ResetPassword(db, email, otp, newPassword, now, dbDown).reply) <==>
      ResetAccepted(db, email, otp, newPassword, now, dbDown)
  {
    if exists id :: id in db.users && db.users[id].email == email {
      var id :| id in db.users && db.users[id].email == email;
      FindByEmailUnique(db.users, email, id);
    }
  }
}
