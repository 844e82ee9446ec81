/**
 * The authentication controller over a mutable user collection. Each method
 * is one handler: it looks the user up, changes the document's fields one by
 * one and saves it back into `users`, and it is proved to do exactly what the
 * corresponding function of `AuthSpec` says.
 */
module AuthController {
  import opened Wrappers
  import opened Bcrypt
  import opened Validator
  import opened UserModel
  import opened Jwt
  import opened Otp
  import opened Http
  import AuthSpec

  class UserStore {
    /** The user collection, by document id. */
    var users: map<UserId, User>
    /** The id the next inserted document receives. */
    var nextId: nat
    /** The JWT signing secret, read once at start-up. */
    const jwtSecret: string

    ghost predicate Valid()
      reads this
    {
      WellFormed(Db(users, nextId))
    }

    /** The collection as a value. */
    function State(): Db
      reads this
    {
      Db(users, nextId)
    }

    /** The signing secret must be configured: token signing refuses an empty one. */
    constructor (jwtSecret: string)
      requires jwtSecret != ""
      ensures Valid()
      ensures users == map[] && nextId == 0 && this.jwtSecret == jwtSecret
    {
      users := map[];
      nextId := 0;
      this.jwtSecret := jwtSecret;
    }

    /** Look up the user holding an e-mail, as the unique index allows at most one. */
    method FindOne(email: string) returns (found: Option<UserId>)
      requires Valid()
      ensures found == FindByEmail(users, email)
      ensures found.Some? ==> found.value in users && users[found.value].email == email
    {
      if exists id :: id in users && users[id].email == email {
        var id :| id in users && users[id].email == email;
        FindByEmailUnique(users, email, id);
        found := Some(id);
      } else {
        found := None;
      }
    }

    method Register(name: string, email: string, password: string, welcomeSent: bool, now: nat,
                    dbDown: bool) returns (reply: Reply)
      requires Valid()
      modifies this
      ensures Valid()
      ensures AuthSpec.Outcome(State(), reply)
        == AuthSpec.Register(old(State()), name, email, password, welcomeSent, now, jwtSecret, dbDown)
    {
      if name == "" || email == "" || password == "" {
        return Json(400, None, MissingFields, Unchanged);
      }
      if dbDown {
        return Failure(500, ServerError);
      }
      var existing := FindOne(email);
      if existing.Some? {
        return Json(400, None, EmailInUse, Unchanged);
      }
      var hashed := Hash(password);
      var id := nextId;
      var newUser := NewUser(name, email, hashed);
      users := users[id := newUser];
      nextId := nextId + 1;
      var token := CreateToken(id, jwtSecret, now);
      // the welcome mail goes out here; a failure to send it is only logged
      reply := Json(201, Some(true), Registered, SetToken(token));
    }

    method LogIn(email: string, password: string, now: nat, dbDown: bool) returns (reply: Reply)
      requires Valid()
      ensures reply == AuthSpec.LogIn(State(), email, password, now, jwtSecret, dbDown)
    {
      if email == "" || password == "" {
        return Json(400, None, MissingFields, Unchanged);
      }
      if !IsEmail(email) {
        return Json(400, None, EmailNotValid, Unchanged);
      }
      if dbDown {
        return Failure(500, ServerError);
      }
      var found := FindOne(email);
      if found.None? {
        return Failure(400, InvalidEmail);
      }
      var id := found.value;
      var isMatch := Compare(password, users[id].password);
      if !isMatch {
        return Failure(400, InvalidPassword);
      }
      var token := CreateToken(id, jwtSecret, now);
      reply := Json(200, Some(true), NoMessage, SetToken(token));
    }

    method LogOut() returns (reply: Reply)
      ensures reply == AuthSpec.LogOut()
    {
      reply := Json(200, Some(true), LoggedOut, Cleared);
    }

    method SendVerifyOtp(userId: Option<UserId>, code: nat, mailSent: bool, now: nat, dbDown: bool)
      returns (reply: Reply)
      requires Valid()
      modifies this
      ensures Valid()
      ensures AuthSpec.Outcome(State(), reply)
        == AuthSpec.SendVerifyOtp(old(State()), userId, code, mailSent, now, dbDown)
    {
      if userId.None? {
        return Failure(400, UserIdMissing);
      }
      if dbDown {
        return Failure(500, RequestFailed);
      }
      var id := userId.value;
      if id !in users {
        return Failure(404, UserNotFound);
      }
      var user := users[id];
      if user.isAccountVerified {
        return Failure(400, AlreadyVerified);
      }
      var otp := Digits(code);
      user := user.(verifyOtp := otp);
      user := user.(verifyOtpExpiryAt := now + Lifetime);
      users := users[id := user];
      if user.email == "" {
        return Failure(400, InvalidEmailAddress);
      }
      if !mailSent {
        return Failure(500, FailedToSendEmail);
      }
      reply := Json(200, Some(true), VerifyOtpSent, Unchanged);
    }

    method VerifyEmail(userId: Option<UserId>, otp: string, now: nat, dbDown: bool)
      returns (reply: Reply)
      requires Valid()
      modifies this
      ensures Valid()
      ensures AuthSpec.Outcome(State(), reply)
        == AuthSpec.VerifyEmail(old(State()), userId, otp, now, dbDown)
    {
      if userId.None? || otp == "" {
        return Failure(200, InvalidRequest);
      }
      if dbDown {
        return Json(200, None, ErrorEcho, Unchanged);
      }
      var id := userId.value;
      if id !in users {
        return Failure(200, NoSuchUser);
      }
      var user := users[id];
      if user.verifyOtp == "" || user.verifyOtp != otp {
        return Failure(200, InvalidOtp);
      }
      if user.verifyOtpExpiryAt < now {
        return Failure(200, OtpExpired);
      }
      user := user.(isAccountVerified := true);
      user := user.(verifyOtp := "");
      user := user.(verifyOtpExpiryAt := 0);
      users := users[id := user];
      reply := Json(200, Some(true), EmailVerified, Unchanged);
    }

    method IsUserAuthenticated(userId: Option<UserId>, dbDown: bool) returns (reply: Reply)
      requires Valid()
      ensures reply == AuthSpec.IsUserAuthenticated(State(), userId, dbDown)
    {
      if userId.None? {
        return Failure(200, NotAuthenticated);
      }
      if dbDown {
        return NoReply;
      }
      if userId.value !in users {
        return Failure(200, UserNotFound);
      }
      reply := Json(200, Some(true), Authenticated, Unchanged);
    }

    method SendResetOtp(email: string, code: nat, mailSent: bool, now: nat, dbDown: bool)
      returns (reply: Reply)
      requires Valid()
      modifies this
      ensures Valid()
      ensures AuthSpec.Outcome(State(), reply)
        == AuthSpec.SendResetOtp(old(State()), email, code, mailSent, now, dbDown)
    {
      if email == "" {
        return Failure(200, EmailMissing);
      }
      if dbDown {
        return Failure(200, ErrorEcho);
      }
      var found := FindOne(email);
      if found.None? {
        return Failure(200, NoSuchUser);
      }
      var id := found.value;
      var user := users[id];
      var otp := Digits(code);
      user := user.(resetOtp := otp);
      user := user.(resetOtpExpireAt := now + Lifetime);
      users := users[id := user];
      if user.email == "" {
        return Failure(400, InvalidEmailAddress);
      }
      if !mailSent {
        return Failure(200, ErrorEcho);
      }
      reply := Json(200, Some(true), ResetOtpSent, Unchanged);
    }

    method ResetPassword(email: string, otp: string, newPassword: string, now: nat, dbDown: bool)
      returns (reply: Reply)
      requires Valid()
      modifies this
      ensures Valid()
      ensures AuthSpec.Outcome(State(), reply)
        == AuthSpec.ResetPassword(old(State()), email, otp, newPassword, now, dbDown)
    {
      if email == "" || otp == "" || newPassword == "" {
        return Failure(200, InvalidRequest);
      }
      if dbDown {
        return Failure(200, ErrorEcho);
      }
      var found := FindOne(email);
      if found.None? {
        return Failure(200, NoSuchUser);
      }
      var id := found.value;
      var user := users[id];
      if user.resetOtp == "" || user.resetOtp != otp {
        return Failure(200, InvalidOtp);
      }
      if user.resetOtpExpireAt < now {
        return Failure(200, OtpExpired);
      }
      var hashed := Hash(newPassword);
      user := user.(password := hashed);
      user := user.(resetOtp := "");
      user := user.(resetOtpExpireAt := 0);
      users := users[id := user];
      reply := Json(200, Some(true), PasswordReset, Unchanged);
    }
  }
}
