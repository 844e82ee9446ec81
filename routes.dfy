/**
 * The three handlers mounted behind the session middleware, and what the
 * combination guarantees: a request that the middleware turns away changes
 * nothing, and the handlers always see the id the middleware attached.
 * At the end, whole sessions run through registration, login, e-mail
 * verification and the user-details route.
 */
module Routes {
  import opened Wrappers
  import opened Validator
  import opened UserModel
  import opened Jwt
  import opened Otp
  import opened Http
  import opened Middleware
  import opened AuthSpec
  import opened UserController
  import AuthProperties

  /** `POST /send-verify-otp`, `userAuth` then `sendVerifyOtp` */
  function SendVerifyOtpRoute(db: Db, jar: CookieJar, verify: Token -> VerifyOutcome, code: nat,
                              mailSent: bool, now: nat, dbDown: bool): (o: Outcome)
    ensures o.reply.Json? && o.reply.message != UserIdMissing
    ensures UserAuth(jar, verify).Deny? ==> o == Outcome(db, UserAuth(jar, verify).reply)
    ensures o.db != db ==>
      && UserAuth(jar, verify).Next?
      && var id := UserAuth(jar, verify).userId;
         id in db.users && OnlyTouches(db.users, o.db.users, id)
         && o.db.users[id] == IssueVerifyOtp(db.users[id], code, now)
    ensures WellFormed(db) ==> WellFormed(o.db)
  {
    match UserAuth(jar, verify)
    case Deny(reply) => Outcome(db, reply)
    case Next(id) => SendVerifyOtp(db, Some(id), code, mailSent, now, dbDown)
  }

  /** `POST /verify-email`, `userAuth` then `verifyEmail` */
  function VerifyEmailRoute(db: Db, jar: CookieJar, verify: Token -> VerifyOutcome, otp: string,
                            now: nat, dbDown: bool): (o: Outcome)
    ensures o.reply.Json?
    ensures o.reply == Failure(200, InvalidRequest) <==> UserAuth(jar, verify).Next? && otp == ""
    ensures UserAuth(jar, verify).Deny? ==> o == Outcome(db, UserAuth(jar, verify).reply)
    ensures o.db != db ==>
      && UserAuth(jar, verify).Next?
      && var id := UserAuth(jar, verify).userId;
         id in db.users && OnlyTouches(db.users, o.db.users, id)
         && o.db.users[id] == ConsumeVerifyOtp(db.users[id])
    ensures WellFormed(db) ==> WellFormed(o.db)
  {
    match UserAuth(jar, verify)
    case Deny(reply) => Outcome(db, reply)
    case Next(id) => VerifyEmail(db, Some(id), otp, now, dbDown)
  }

  /** `POST /is-auth`, `userAuth` then `isUserAuthenticated` */
  function IsAuthRoute(db: Db, jar: CookieJar, verify: Token -> VerifyOutcome, dbDown: bool)
    : (r: Reply)
    ensures Succeeded(r) <==>
      UserAuth(jar, verify).Next? && !dbDown && UserAuth(jar, verify).userId in db.users
    ensures r.Json? ==> r.message != NotAuthenticated
  {
    match UserAuth(jar, verify)
    case Deny(reply) => reply
    case Next(id) => IsUserAuthenticated(db, Some(id), dbDown)
  }

  datatype UserRouteReply = Denied(reply: Reply) | Answered(data: DataReply)

  /** `GET /api/userDetails/user`, `userAuth` then `getUserData` */
  function GetUserRoute(db: Db, jar: CookieJar, verify: Token -> VerifyOutcome, dbDown: bool)
    : (r: UserRouteReply)
    ensures r.Denied? <==> UserAuth(jar, verify).Deny?
    ensures r.Answered? && r.data.Found? ==>
      var id := UserAuth(jar, verify).userId;
      id in db.users && r.data.details == Project(db.users[id])
  {
    match UserAuth(jar, verify)
    case Deny(reply) => Denied(reply)
    case Next(id) => Answered(GetUserData(db, Some(id), dbDown))
  }

  /**
   * A session: register, log in with the same password, then ask for the
   * user's details with the login cookie while it is still valid. The details
   * are the registered name and e-mail, not yet verified.
   */
  lemma RegisterLogInDetails(db: Db, name: string, email: string, password: string, w: bool,
                             t0: nat, t1: nat, t2: nat, secret: string)
    requires WellFormed(db) && IsEmail(email)
    requires Register(db, name, email, password, w, t0, secret, false).reply.status == 201
    requires t2 / 1000 < t1 / 1000 + ValiditySeconds
    ensures var db1 := Register(db, name, email, password, w, t0, secret, false).db;
      var login := AuthSpec.LogIn(db1, email, password, t1, secret, false);
      && Succeeded(login) && login.cookie.SetToken?
      && GetUserRoute(db1, Cookies(Some(login.cookie.token)), t => Verify(t, secret, t2), false)
           == Answered(Found(UserDetails(name, email, false)))
  {
    var db1 := Register(db, name, email, password, w, t0, secret, false).db;
    AuthProperties.RegisterThenLogIn(db, name, email, password, w, t0, t1, secret, "");
    IssuedTokenPasses(db.nextId, secret, t1, t2);
  }

  /**
   * E-mail verification through the routes: with the cookie from
   * registration, a verification code is requested and then offered back
   * within its lifetime; the account then reports itself verified.
   */
  lemma VerifyThroughRoutes(db: Db, name: string, email: string, password: string, w: bool,
                            t0: nat, code: nat, mailSent: bool, t1: nat, t2: nat, t3: nat,
                            secret: string)
    requires WellFormed(db)
    requires Register(db, name, email, password, w, t0, secret, false).reply.status == 201
    requires t0 <= t1 <= t2 <= t3 && t2 <= t1 + Lifetime
    requires t3 / 1000 < t0 / 1000 + ValiditySeconds
    ensures var o0 := Register(db, name, email, password, w, t0, secret, false);
      var jar := Cookies(Some(o0.reply.cookie.token));
      var db1 := SendVerifyOtpRoute(o0.db, jar, t => Verify(t, secret, t1), code, mailSent, t1, false).db;
      var o2 := VerifyEmailRoute(db1, jar, t => Verify(t, secret, t2), Digits(code), t2, false);
      && Succeeded(o2.reply)
      && GetUserRoute(o2.db, jar, t => Verify(t, secret, t3), false)
           == Answered(Found(UserDetails(name, email, true)))
  {
    var o0 := Register(db, name, email, password, w, t0, secret, false);
    var id := db.nextId;
    var token := CreateToken(id, secret, t0);
    assert o0.reply.cookie.token == token;
    var jar := Cookies(Some(token));
    IssuedTokenPasses(id, secret, t0, t1);
    IssuedTokenPasses(id, secret, t0, t2);
    IssuedTokenPasses(id, secret, t0, t3);
    assert !o0.db.users[id].isAccountVerified;
    var db1 := SendVerifyOtpRoute(o0.db, jar, t => Verify(t, secret, t1), code, mailSent, t1, false).db;
    assert db1.users[id] == IssueVerifyOtp(o0.db.users[id], code, t1);
    var o2 := VerifyEmailRoute(db1, jar, t => Verify(t, secret, t2), Digits(code), t2, false);
    assert o2.db.users[id] == ConsumeVerifyOtp(db1.users[id]);
  }
}
