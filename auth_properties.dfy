/**
 * Properties of the authentication state machine that relate several
 * requests: the lifecycle of each OTP slot, registration followed by login,
 * the password reset protocol, and the invariants every sequence of requests
 * keeps.
 */
module AuthProperties {
  import opened Wrappers
  import opened Bcrypt
  import opened Validator
  import opened UserModel
  import opened Jwt
  import opened Otp
  import opened Http
  import opened AuthSpec

  // ---------------------------------------------------------------------
  // Any request, as one step of the state machine.

  datatype Request =
    | RegisterReq(name: string, email: string, password: string, welcomeSent: bool)
    | LogInReq(email: string, password: string)
    | LogOutReq
    | SendVerifyOtpReq(userId: Option<UserId>, code: nat, mailSent: bool)
    | VerifyEmailReq(userId: Option<UserId>, otp: string)
    | IsAuthReq(userId: Option<UserId>)
    | SendResetOtpReq(email: string, code: nat, mailSent: bool)
    | ResetPasswordReq(email: string, otp: string, newPassword: string)

  /** A request arriving at time `now`, with the database reachable or not. */
  datatype Call = Call(req: Request, now: nat, dbDown: bool)

  /**
   * What no request takes away: no user disappears, the required fields and
   * the id counter never go back, and a verified account stays verified.
   */
  ghost predicate KeepsAccounts(before: Db, after: Db)
  {
    && before.nextId <= after.nextId
    && forall id :: id in before.users ==>
         && id in after.users
         && after.users[id].name == before.users[id].name
         && after.users[id].email == before.users[id].email
         && (before.users[id].isAccountVerified ==> after.users[id].isAccountVerified)
  }

  ghost function Step(db: Db, secret: string, c: Call): Outcome
  {
    match c.req
    case RegisterReq(name, email, password, welcomeSent) =>
      Register(db, name, email, password, welcomeSent, c.now, secret, c.dbDown)
    case LogInReq(email, password) =>
      Outcome(db, LogIn(db, email, password, c.now, secret, c.dbDown))
    case LogOutReq =>
      Outcome(db, LogOut())
    case SendVerifyOtpReq(userId, code, mailSent) =>
      SendVerifyOtp(db, userId, code, mailSent, c.now, c.dbDown)
    case VerifyEmailReq(userId, otp) =>
      VerifyEmail(db, userId, otp, c.now, c.dbDown)
    case IsAuthReq(userId) =>
      Outcome(db, IsUserAuthenticated(db, userId, c.dbDown))
    case SendResetOtpReq(email, code, mailSent) =>
      SendResetOtp(db, email, code, mailSent, c.now, c.dbDown)
    case ResetPasswordReq(email, otp, newPassword) =>
      ResetPassword(db, email, otp, newPassword, c.now, c.dbDown)
  }

  /** Every request keeps the collection invariant. */
  lemma StepKeepsWellFormed(db: Db, secret: string, c: Call)
    requires WellFormed(db)
    ensures WellFormed(Step(db, secret, c).db)
  {
    match c.req {
      case RegisterReq(name, email, password, welcomeSent) =>
      case LogInReq(email, password) =>
      case LogOutReq =>
      case SendVerifyOtpReq(userId, code, mailSent) =>
      case VerifyEmailReq(userId, otp) =>
      case IsAuthReq(userId) =>
      case SendResetOtpReq(email, code, mailSent) =>
      case ResetPasswordReq(email, otp, newPassword) =>
    }
  }

  /** A change confined to one user keeps the accounts when that user keeps its own. */
  lemma TouchKeepsAccounts(before: Db, after: Db, id: UserId)
    requires OnlyTouches(before.users, after.users, id) && before.nextId <= after.nextId
    requires id in before.users ==>
      && after.users[id].name == before.users[id].name
      && after.users[id].email == before.users[id].email
      && (before.users[id].isAccountVerified ==> after.users[id].isAccountVerified)
    ensures KeepsAccounts(before, after)
  {
  }

  /** Registration only ever adds a user under a fresh id. */
  lemma RegisterKeepsAccounts(db: Db, name: string, email: string, password: string,
                              welcomeSent: bool, now: nat, secret: string, dbDown: bool)
    requires WellFormed(db)
    ensures KeepsAccounts(db, Register(db, name, email, password, welcomeSent, now, secret, dbDown).db)
  {
  }

  /** Issuing a verification code touches only the addressed user's code slot. */
  lemma SendVerifyOtpKeepsAccounts(db: Db, userId: Option<UserId>, code: nat, mailSent: bool,
                                   now: nat, dbDown: bool)
    ensures KeepsAccounts(db, SendVerifyOtp(db, userId, code, mailSent, now, dbDown).db)
  {
    if IssuesVerifyOtp(db, userId, dbDown) {
      TouchKeepsAccounts(db, SendVerifyOtp(db, userId, code, mailSent, now, dbDown).db, userId.value);
    }
  }

  /** Verification only ever sets the verified flag. */
  lemma VerifyEmailKeepsAccounts(db: Db, userId: Option<UserId>, otp: string, now: nat, dbDown: bool)
    ensures KeepsAccounts(db, VerifyEmail(db, userId, otp, now, dbDown).db)
  {
    if VerifyAccepted(db, userId, otp, now, dbDown) {
      TouchKeepsAccounts(db, VerifyEmail(db, userId, otp, now, dbDown).db, userId.value);
    }
  }

  /** Issuing a reset code touches only the reset slot of the user holding the e-mail. */
  lemma SendResetOtpKeepsAccounts(db: Db, email: string, code: nat, mailSent: bool, now: nat,
                                  dbDown: bool)
    ensures KeepsAccounts(db, SendResetOtp(db, email, code, mailSent, now, dbDown).db)
  {
    if email != "" && !dbDown {
      match FindByEmail(db.users, email)
      case None =>
      case Some(id) =>
        TouchKeepsAccounts(db, SendResetOtp(db, email, code, mailSent, now, dbDown).db, id);
    }
  }

  /** A reset touches only the password and reset slot of the user holding the e-mail. */
  lemma ResetPasswordKeepsAccounts(db: Db, email: string, otp: string, newPassword: string,
                                   now: nat, dbDown: bool)
    ensures KeepsAccounts(db, ResetPassword(db, email, otp, newPassword, now, dbDown).db)
  {
    if email != "" && otp != "" && newPassword != "" && !dbDown {
      match FindByEmail(db.users, email)
      case None =>
      case Some(id) =>
        TouchKeepsAccounts(db, ResetPassword(db, email, otp, newPassword, now, dbDown).db, id);
    }
  }

  /** No request deletes a user, renames anyone or undoes a verification. */
  lemma StepKeepsAccounts(db: Db, secret: string, c: Call)
    requires WellFormed(db)
    ensures KeepsAccounts(db, Step(db, secret, c).db)
  {
    match c.req {
      case RegisterReq(name, email, password, welcomeSent) =>
        RegisterKeepsAccounts(db, name, email, password, welcomeSent, c.now, secret, c.dbDown);
      case LogInReq(email, password) =>
      case LogOutReq =>
      case SendVerifyOtpReq(userId, code, mailSent) =>
        SendVerifyOtpKeepsAccounts(db, userId, code, mailSent, c.now, c.dbDown);
      case VerifyEmailReq(userId, otp) =>
        VerifyEmailKeepsAccounts(db, userId, otp, c.now, c.dbDown);
      case IsAuthReq(userId) =>
      case SendResetOtpReq(email, code, mailSent) =>
        SendResetOtpKeepsAccounts(db, email, code, mailSent, c.now, c.dbDown);
      case ResetPasswordReq(email, otp, newPassword) =>
        ResetPasswordKeepsAccounts(db, email, otp, newPassword, c.now, c.dbDown);
    }
  }

  /** The state after a sequence of requests, handled one after the other. */
  ghost function Run(db: Db, secret: string, calls: seq<Call>): Db
    decreases |calls|
  {
    if calls == [] then db else Run(Step(db, secret, calls[0]).db, secret, calls[1..])
  }

  lemma KeepsAccountsTransitive(a: Db, b: Db, c: Db)
    requires KeepsAccounts(a, b) && KeepsAccounts(b, c)
    ensures KeepsAccounts(a, c)
  {
  }

  /** The collection invariant (required fields, unique e-mails) survives every run. */
  lemma {:induction false} RunKeepsWellFormed(db: Db, secret: string, calls: seq<Call>)
    requires WellFormed(db)
    ensures WellFormed(Run(db, secret, calls))
    decreases |calls|
  {
    if calls != [] {
      StepKeepsWellFormed(db, secret, calls[0]);
      RunKeepsWellFormed(Step(db, secret, calls[0]).db, secret, calls[1..]);
    }
  }

  /** Users are never deleted, never renamed, and verification is never undone. */
  lemma {:induction false} RunKeepsAccounts(db: Db, secret: string, calls: seq<Call>)
    requires WellFormed(db)
    ensures KeepsAccounts(db, Run(db, secret, calls))
    decreases |calls|
  {
    if calls != [] {
      var next := Step(db, secret, calls[0]).db;
      StepKeepsWellFormed(db, secret, calls[0]);
      StepKeepsAccounts(db, secret, calls[0]);
      RunKeepsAccounts(next, secret, calls[1..]);
      KeepsAccountsTransitive(db, next, Run(next, secret, calls[1..]));
    }
  }

  /** An account becomes verified only through a verification code accepted for it. */
  lemma VerifiedOnlyByOtp(db: Db, secret: string, c: Call, id: UserId)
    requires id in db.users && !db.users[id].isAccountVerified
    requires var after := Step(db, secret, c).db;
      id in after.users && after.users[id].isAccountVerified
    ensures c.req.VerifyEmailReq? && c.req.userId == Some(id)
    ensures Check(db.users[id].verifyOtp, db.users[id].verifyOtpExpiryAt, c.req.otp, c.now) == Accepted
  {
    match c.req {
      case RegisterReq(name, email, password, welcomeSent) =>
      case LogInReq(email, password) =>
      case LogOutReq =>
      case SendVerifyOtpReq(userId, code, mailSent) =>
      case VerifyEmailReq(userId, otp) =>
      case IsAuthReq(userId) =>
      case SendResetOtpReq(email, code, mailSent) =>
      case ResetPasswordReq(email, otp, newPassword) =>
    }
  }

  /**
   * A stored password changes only through a reset code accepted for that
   * user, and then it becomes the hash of the new password.
   */
  lemma PasswordChangesOnlyByReset(db: Db, secret: string, c: Call, id: UserId)
    requires WellFormed(db)
    requires id in db.users
    requires var after := Step(db, secret, c).db;
      id in after.users && after.users[id].password != db.users[id].password
    ensures c.req.ResetPasswordReq? && c.req.email == db.users[id].email
    ensures Check(db.users[id].resetOtp, db.users[id].resetOtpExpireAt, c.req.otp, c.now) == Accepted
    ensures Step(db, secret, c).db.users[id].password == Hash(c.req.newPassword)
  {
    var o := Step(db, secret, c);
    match c.req {
      case ResetPasswordReq(email, otp, newPassword) =>
        assert Succeeded(o.reply);
        var j :| j in db.users && db.users[j].email == email
          && Check(db.users[j].resetOtp, db.users[j].resetOtpExpireAt, otp, c.now) == Accepted
          && OnlyTouches(db.users, o.db.users, j)
          && o.db.users[j] == ApplyReset(db.users[j], newPassword);
        assert j == id;
      case _ =>
    }
  }

  // ---------------------------------------------------------------------
  // Registration and login.

  /**
   * After a successful registration the new user can log in with the password
   * given, and receives a token for the new id; any other password is refused.
   */
  lemma RegisterThenLogIn(db: Db, name: string, email: string, password: string, welcomeSent: bool,
                          t0: nat, t1: nat, secret: string, other: string)
    requires WellFormed(db)
    requires Register(db, name, email, password, welcomeSent, t0, secret, false).reply.status == 201
    requires IsEmail(email)
    ensures var db' := Register(db, name, email, password, welcomeSent, t0, secret, false).db;
      && LogIn(db', email, password, t1, secret, false)
           == Json(200, Some(true), NoMessage, SetToken(CreateToken(db.nextId, secret, t1)))
      && (other != "" && other != password ==>
            LogIn(db', email, other, t1, secret, false) == Failure(400, InvalidPassword))
  {
    var db' := Register(db, name, email, password, welcomeSent, t0, secret, false).db;
    FindByEmailUnique(db'.users, email, db.nextId);
  }

  /** Registering an e-mail a second time fails and leaves the one account holding it. */
  lemma RegisterTwice(db: Db, name: string, email: string, password: string, w: bool, t0: nat,
                      name2: string, password2: string, w2: bool, t1: nat, secret: string)
    requires WellFormed(db)
    requires Register(db, name, email, password, w, t0, secret, false).reply.status == 201
    requires name2 != "" && password2 != ""
    ensures var db1 := Register(db, name, email, password, w, t0, secret, false).db;
      var o2 := Register(db1, name2, email, password2, w2, t1, secret, false);
      && o2.reply == Json(400, None, EmailInUse, Unchanged)
      && o2.db == db1
      && (set id | id in o2.db.users && o2.db.users[id].email == email) == {db.nextId}
  {
    var db1 := Register(db, name, email, password, w, t0, secret, false).db;
    assert db1.users[db.nextId].email == email;
    var holders := set id | id in db1.users && db1.users[id].email == email;
    assert db.nextId in holders;
    forall id | id in holders ensures id == db.nextId {
    }
  }

  // ---------------------------------------------------------------------
  // The e-mail verification code.

  /**
   * A verification code just issued is accepted exactly until its expiry
   * (inclusive) and reported expired afterwards; any other code is invalid
   * and changes nothing.
   */
  lemma IssuedVerifyOtpLifetime(db: Db, id: UserId, code: nat, mailSent: bool, now: nat, t: nat,
                                wrong: string)
    requires id in db.users && !db.users[id].isAccountVerified
    requires wrong != "" && wrong != Digits(code)
    ensures var db1 := SendVerifyOtp(db, Some(id), code, mailSent, now, false).db;
      && (Succeeded(VerifyEmail(db1, Some(id), Digits(code), t, false).reply) <==> t <= now + Lifetime)
      && (t > now + Lifetime ==>
            VerifyEmail(db1, Some(id), Digits(code), t, false) == Outcome(db1, Failure(200, OtpExpired)))
      && VerifyEmail(db1, Some(id), wrong, t, false) == Outcome(db1, Failure(200, InvalidOtp))
  {
  }

  /** A verification code works once: offering it again, at any time, is "Invalid OTP". */
  lemma VerifyOtpSingleUse(db: Db, id: UserId, otp: string, now: nat, later: nat)
    requires Succeeded(VerifyEmail(db, Some(id), otp, now, false).reply)
    ensures var db1 := VerifyEmail(db, Some(id), otp, now, false).db;
      && db1.users[id].isAccountVerified
      && VerifyEmail(db1, Some(id), otp, later, false) == Outcome(db1, Failure(200, InvalidOtp))
  {
  }

  /** A new verification code replaces the previous one, which no longer works. */
  lemma ReissueReplacesVerifyOtp(db: Db, id: UserId, c1: nat, c2: nat, m1: bool, m2: bool,
                                 t1: nat, t2: nat, t: nat)
    requires id in db.users && !db.users[id].isAccountVerified
    requires c1 != c2
    ensures var db1 := SendVerifyOtp(db, Some(id), c1, m1, t1, false).db;
      var db2 := SendVerifyOtp(db1, Some(id), c2, m2, t2, false).db;
      VerifyEmail(db2, Some(id), Digits(c1), t, false) == Outcome(db2, Failure(200, InvalidOtp))
  {
    DigitsValue(c1);
    DigitsValue(c2);
  }

  /** Once verified, an account gets no further verification code and nothing changes. */
  lemma NoOtpForVerified(db: Db, id: UserId, code: nat, mailSent: bool, now: nat)
    requires id in db.users && db.users[id].isAccountVerified
    ensures SendVerifyOtp(db, Some(id), code, mailSent, now, false) ==
      Outcome(db, Failure(400, AlreadyVerified))
  {
  }

  // ---------------------------------------------------------------------
  // The password reset protocol.

  /** For a stored user, `sendResetOtp` with its e-mail issues the code to that user. */
  lemma SendResetOtpFor(db: Db, id: UserId, code: nat, mailSent: bool, now: nat)
    requires WellFormed(db) && id in db.users
    ensures SendResetOtp(db, db.users[id].email, code, mailSent, now, false).db
      == Db(db.users[id := IssueResetOtp(db.users[id], code, now)], db.nextId)
  {
    FindByEmailUnique(db.users, db.users[id].email, id);
  }

  /** For a stored user whose reset code is accepted, `resetPassword` applies the reset. */
  lemma ResetPasswordFor(db: Db, id: UserId, otp: string, newPassword: string, now: nat)
    requires WellFormed(db) && id in db.users && newPassword != ""
    requires Check(db.users[id].resetOtp, db.users[id].resetOtpExpireAt, otp, now) == Accepted
    ensures ResetPassword(db, db.users[id].email, otp, newPassword, now, false) ==
      Outcome(Db(db.users[id := ApplyReset(db.users[id], newPassword)], db.nextId),
              Json(200, Some(true), PasswordReset, Unchanged))
  {
    FindByEmailUnique(db.users, db.users[id].email, id);
  }

  /** For a stored user with a well-formed e-mail, login succeeds exactly with a matching password. */
  lemma LogInFor(db: Db, id: UserId, password: string, now: nat, secret: string)
    requires WellFormed(db) && id in db.users && password != ""
    requires IsEmail(db.users[id].email)
    ensures LogIn(db, db.users[id].email, password, now, secret, false) ==
      if Compare(password, db.users[id].password)
      then Json(200, Some(true), NoMessage, SetToken(CreateToken(id, secret, now)))
      else Failure(400, InvalidPassword)
  {
    FindByEmailUnique(db.users, db.users[id].email, id);
  }

  /** A reset code works once: after a successful reset, offering it again is "Invalid OTP". */
  lemma ResetOtpSingleUse(db: Db, id: UserId, otp: string, newPassword: string, now: nat,
                          another: string, later: nat)
    requires WellFormed(db) && id in db.users && newPassword != "" && another != ""
    requires Check(db.users[id].resetOtp, db.users[id].resetOtpExpireAt, otp, now) == Accepted
    ensures var db1 := ResetPassword(db, db.users[id].email, otp, newPassword, now, false).db;
      ResetPassword(db1, db.users[id].email, otp, another, later, false)
        == Outcome(db1, Failure(200, InvalidOtp))
  {
    ResetPasswordFor(db, id, otp, newPassword, now);
    var db1 := Db(db.users[id := ApplyReset(db.users[id], newPassword)], db.nextId);
    UpdateKeepsWellFormed(db, id, ApplyReset(db.users[id], newPassword));
    FindByEmailUnique(db1.users, db.users[id].email, id);
  }

  /**
   * Requesting a reset code and offering it before it expires replaces the
   * user's password hash and empties the reset slot; no other user changes.
   */
  lemma ResetAfterRequest(db: Db, id: UserId, code: nat, mailSent: bool, now: nat, t: nat,
                          newPassword: string)
    requires WellFormed(db) && id in db.users
    requires newPassword != "" && t <= now + Lifetime
    ensures var email := db.users[id].email;
      var db1 := SendResetOtp(db, email, code, mailSent, now, false).db;
      ResetPassword(db1, email, Digits(code), newPassword, t, false) ==
        Outcome(Db(db.users[id := ApplyReset(db.users[id], newPassword)], db.nextId),
                Json(200, Some(true), PasswordReset, Unchanged))
  {
    var u1 := IssueResetOtp(db.users[id], code, now);
    var db1 := Db(db.users[id := u1], db.nextId);
    SendResetOtpFor(db, id, code, mailSent, now);
    UpdateKeepsWellFormed(db, id, u1);
    ResetPasswordFor(db1, id, Digits(code), newPassword, t);
    assert ApplyReset(u1, newPassword) == ApplyReset(db.users[id], newPassword);
    SaveTwice(db.users, id, u1, ApplyReset(db.users[id], newPassword));
  }

  /**
   * After a completed reset the new password logs in and the old one is
   * refused as "Invalid password".
   */
  lemma ResetThenLogIn(db: Db, id: UserId, newPassword: string, oldPassword: string, now: nat,
                       secret: string)
    requires WellFormed(db) && id in db.users && IsEmail(db.users[id].email)
    requires newPassword != "" && oldPassword != "" && oldPassword != newPassword
    ensures var db2 := Db(db.users[id := ApplyReset(db.users[id], newPassword)], db.nextId);
      && LogIn(db2, db.users[id].email, newPassword, now, secret, false)
           == Json(200, Some(true), NoMessage, SetToken(CreateToken(id, secret, now)))
      && LogIn(db2, db.users[id].email, oldPassword, now, secret, false)
           == Failure(400, InvalidPassword)
  {
    var db2 := Db(db.users[id := ApplyReset(db.users[id], newPassword)], db.nextId);
    UpdateKeepsWellFormed(db, id, ApplyReset(db.users[id], newPassword));
    LogInFor(db2, id, newPassword, now, secret);
    LogInFor(db2, id, oldPassword, now, secret);
  }

  /** A wrong or expired reset code leaves the password as it was. */
  lemma FailedResetKeepsPassword(db: Db, email: string, otp: string, newPassword: string, now: nat,
                                 dbDown: bool, id: UserId)
    requires id in db.users && db.users[id].email == email
    requires !Succeeded(ResetPassword(db, email, otp, newPassword, now, dbDown).reply)
    ensures ResetPassword(db, email, otp, newPassword, now, dbDown).db.users[id].password
      == db.users[id].password
  {
  }
}
