# Account and OTP state machine of an Express authentication service

This project models the core of a small Node.js/Express authentication
backend in Dafny:

- the user document of the Mongoose schema;
- the eight handlers of the authentication controller: `register`, `logIn`,
  `logOut`, `sendVerifyOtp`, `verifyEmail`, `isUserAuthenticated`,
  `sendResetOtp` and `resetPassword`;
- the session middleware `userAuth`;
- the `getUserData` projection.

The model proves properties of all of these.

The state is the user collection: a map from document id to user record,
plus the id the next insertion receives. Its invariant (`UserModel.WellFormed`)
says name and e-mail are non-empty, e-mails are unique and ids are below the
counter (a password digest is always present, as the type requires one). Each handler is one atomic step on that state and returns a reply:
HTTP status, the `success` field when there is one, a message tag and the
effect on the `token` cookie.

The model comes in two forms:

- `AuthSpec` gives each handler as a pure function.
- `AuthController.UserStore` is a class with the collection as its fields.
  Its methods change a document field by field and then save it, as the
  handlers do, and each method is proved to agree with its `AuthSpec` function.

Properties relating several requests are in `AuthProperties`:

- the OTP lifecycle: issued codes are accepted until their expiry, each code
  is single use, and a re-issued code replaces the old one;
- registering and then logging in;
- the reset protocol;
- invariants that every sequence of requests keeps.

`Routes` composes the middleware with the protected handlers and follows
whole sessions.

Outside influences are parameters:

| Influence | Parameter |
|---|---|
| The clock | `now`, in milliseconds |
| The OTP from `Math.random` | `code` |
| The mail transport's result | `mailSent` / `welcomeSent` |
| The JWT secret | `secret` / `jwtSecret` |
| An unreachable database | `dbDown`: the request's first query throws, and the handler takes its `catch` branch |

Request body fields are strings, and an absent field is `""`, which JavaScript
also treats as falsy.

The model keeps the code's behaviour where it departs from common practice:

- Login answers "Invalid email" and "Invalid password" differently, rather
  than with a single message for a wrong e-mail or password.
- An empty OTP slot gives "Invalid OTP", rather than an answer of its own.
- `verifyEmail`, `sendResetOtp` and `resetPassword` report their failures with
  status 200, rather than with a 4xx or 5xx status (apart from the unreachable
  invalid-recipient branch of `sendResetOtp`, which answers 400).
- `sendVerifyOtp` answers with 500 when the mail cannot be sent.
- `sendResetOtp` answers with 200 and `success: false` when the mail cannot be
  sent.

Strict `<` in the expiry check means a code is still accepted at the exact
millisecond of its expiry.

## Model

| member | source | states |
|---|---|---|
| `UserModel.NewUser` | models/user.models.js:3-27 | a new document carries the given name, e-mail and digest, both OTP slots empty (`''`/0) and is not verified |
| `UserModel.FindByEmail` | controller/auth.controller.js:20 | `findOne({email})` finds a user exactly when some stored user has that e-mail, and the user found has it |
| `UserModel.FindByEmailUnique` | models/user.models.js:7-11 | with the unique index, the lookup by e-mail returns the one user holding it |
| `UserModel.InsertKeepsWellFormed` | models/user.models.js:4-15 | inserting a user with non-empty required fields and an unused e-mail under a fresh id keeps required fields present and e-mails unique |
| `UserModel.UpdateKeepsWellFormed` | models/user.models.js:4-15 | saving a changed document that keeps its name and e-mail keeps the collection invariant |
| `Bcrypt.Hash` | controller/auth.controller.js:26 | the digest of a password is accepted by `Compare` for that password |
| `Bcrypt.CompareHash` | controller/auth.controller.js:89 | a digest accepts exactly the password it was made from |
| `Otp.Digits` | controller/auth.controller.js:143 | the stored code is a non-empty string of decimal digits |
| `Otp.DigitsValue` | controller/auth.controller.js:143 | the stored string denotes the code it was made from |
| `Otp.DigitsInjective` | controller/auth.controller.js:143 | different codes are stored as different strings |
| `Otp.DigitsLength` | controller/auth.controller.js:143 | a number with k decimal digits is written with exactly k characters |
| `Otp.SixDigits` | controller/auth.controller.js:143 | every code drawn from 100000..999999 is stored as a six-character string |
| `Otp.Check` | controller/auth.controller.js:189-194 | a candidate is accepted iff the slot is non-empty, the codes are equal and `now <= expiry`; it is "Invalid OTP" iff the slot is empty or the codes differ |
| `Jwt.Verify` | middleware/user.auth.js:15 | verification decodes exactly when the signing secret matches and the expiry second has not been reached, and then yields the payload id |
| `Jwt.CreateToken` | controller/auth.controller.js:7-9 | the token carries the id, the signing secret and an expiry two days after its issue second |
| `Jwt.CreatedTokenVerifies` | controller/auth.controller.js:7-9 | a created token decodes to its id under the same secret before two days are up, and throws under another secret or afterwards |
| `AuthSpec.IssueVerifyOtp` | controller/auth.controller.js:143-145 | the verify slot holds the code's digits with expiry `now + 86400000`; name, e-mail, password, verified flag and reset slot are unchanged |
| `AuthSpec.ConsumeVerifyOtp` | controller/auth.controller.js:195-197 | the account is verified and the verify slot is empty; name, e-mail, password and reset slot are unchanged |
| `AuthSpec.IssueResetOtp` | controller/auth.controller.js:238-240 | the reset slot holds the code's digits with expiry `now + 86400000`; password, verified flag and verify slot are unchanged |
| `AuthSpec.ApplyReset` | controller/auth.controller.js:287-290 | the new password is accepted by the stored digest and the reset slot is empty; name, e-mail, verified flag and verify slot are unchanged |
| `AuthSpec.Register` | controller/auth.controller.js:11-71 | 201 iff all fields are present, the database answers and the e-mail is unused; then exactly one user is added under the fresh id with the hashed password and defaults, and a token for that id is set; a missing field gives 400 "Missing fields", a taken e-mail gives 400 "Email is already in use", and a failing database gives 500; on every failure the store is unchanged; the welcome mail plays no part; the invariant is kept |
| `AuthSpec.LogIn` | controller/auth.controller.js:73-108 | 400 for a missing field or a malformed e-mail; 500 when the database fails; "Invalid email" exactly when no user holds the e-mail; success only with a stored user of that e-mail whose digest accepts the password, and then a token for that user is set; the store is never changed |
| `AuthSpec.LogInSucceedsIff` | controller/auth.controller.js:76-103 | with unique e-mails, login succeeds iff the fields are present, the e-mail is well formed, the database answers and the user holding the e-mail has a matching digest |
| `AuthSpec.LogOut` | controller/auth.controller.js:110-122 | always 200 with the cookie cleared |
| `AuthSpec.SendVerifyOtp` | controller/auth.controller.js:125-173 | the code is stored (and nothing else changes) iff an existing unverified user is named; the store is unchanged otherwise; it succeeds iff the code is stored and the mail was sent; a failed send gives 500 with the code still stored; already verified gives 400; an unknown id gives 404; a missing id gives 400 |
| `AuthSpec.VerifyEmail` | controller/auth.controller.js:177-206 | always status 200; success iff the code is accepted for the named user, and then only that user becomes verified with an empty slot; any failure leaves the store unchanged; "Invalid OTP" iff the slot is empty or the codes differ; "OTP expired" iff they match and the expiry is strictly before `now` |
| `AuthSpec.IsUserAuthenticated` | controller/auth.controller.js:209-224 | success iff an id is given, the database answers and the user exists; no reply at all when the query throws |
| `AuthSpec.SendResetOtp` | controller/auth.controller.js:227-268 | the reset code is stored for the user holding the e-mail, and nothing else changes, iff the e-mail is given, the database answers and some user holds it; the store is unchanged otherwise; it succeeds iff the code is stored and the mail was sent; a failed send gives `success: false` with the code still stored; a missing e-mail, an unknown e-mail and a failing database each get their own `success: false` answer |
| `AuthSpec.ResetPassword` | controller/auth.controller.js:271-296 | always status 200; any failure leaves the store unchanged; on success the user holding the e-mail had an accepted reset code, and only that user changes, to `ApplyReset`; missing fields, an unknown e-mail and a failing database each get their own `success: false` answer |
| `AuthSpec.ResetPasswordAnswers` | controller/auth.controller.js:281-286 | for a stored user, with all fields present and the database up: "Invalid OTP" iff the reset slot is empty or the code differs; "OTP expired" iff the code matches and its expiry is strictly before `now` |
| `AuthSpec.ResetSucceedsIff` | controller/auth.controller.js:276-292 | with unique e-mails, a reset succeeds iff all fields are present, the database answers and the reset code is accepted for the user holding the e-mail |
| `AuthController.UserStore.FindOne` | controller/auth.controller.js:233 | the imperative lookup by e-mail returns what `FindByEmail` returns |
| `AuthController.UserStore.constructor` | models/user.models.js:29 | a new store, given a non-empty signing secret, is empty and valid |
| `AuthController.UserStore.Register` | controller/auth.controller.js:11-71 | the new fields and the reply are those of `AuthSpec.Register` on the old state; the invariant is kept |
| `AuthController.UserStore.LogIn` | controller/auth.controller.js:73-108 | the reply is that of `AuthSpec.LogIn`; the store is not modified |
| `AuthController.UserStore.LogOut` | controller/auth.controller.js:110-122 | the reply is that of `AuthSpec.LogOut`; the store is not modified |
| `AuthController.UserStore.SendVerifyOtp` | controller/auth.controller.js:125-173 | the new fields and the reply are those of `AuthSpec.SendVerifyOtp`; the invariant is kept |
| `AuthController.UserStore.VerifyEmail` | controller/auth.controller.js:177-206 | the new fields and the reply are those of `AuthSpec.VerifyEmail`; the invariant is kept |
| `AuthController.UserStore.IsUserAuthenticated` | controller/auth.controller.js:209-224 | the reply is that of `AuthSpec.IsUserAuthenticated`; the store is not modified |
| `AuthController.UserStore.SendResetOtp` | controller/auth.controller.js:227-268 | the new fields and the reply are those of `AuthSpec.SendResetOtp`; the invariant is kept |
| `AuthController.UserStore.ResetPassword` | controller/auth.controller.js:271-296 | the new fields and the reply are those of `AuthSpec.ResetPassword`; the invariant is kept |
| `AuthProperties.StepKeepsWellFormed` | models/user.models.js:4-15 | every request, whatever its outcome, keeps required fields present and e-mails unique |
| `AuthProperties.RegisterKeepsAccounts` | controller/auth.controller.js:29-34 | registration removes no user, renames no one and un-verifies no one |
| `AuthProperties.SendVerifyOtpKeepsAccounts` | controller/auth.controller.js:143-146 | issuing a verification code keeps every user's name, e-mail and verified flag |
| `AuthProperties.VerifyEmailKeepsAccounts` | controller/auth.controller.js:195-198 | verification keeps every user's name and e-mail and never clears a verified flag |
| `AuthProperties.SendResetOtpKeepsAccounts` | controller/auth.controller.js:238-241 | issuing a reset code keeps every user's name, e-mail and verified flag |
| `AuthProperties.ResetPasswordKeepsAccounts` | controller/auth.controller.js:287-291 | a reset keeps every user's name, e-mail and verified flag |
| `AuthProperties.StepKeepsAccounts` | routes/auth.route.js:7-14 | no request on any route removes a user, changes a name or e-mail, or un-verifies an account |
| `AuthProperties.RunKeepsWellFormed` | models/user.models.js:4-15 | after any sequence of requests required fields are present and e-mails are unique |
| `AuthProperties.RunKeepsAccounts` | controller/auth.controller.js:195 | after any sequence of requests every user is still there with the same name and e-mail, and a verified account is still verified |
| `AuthProperties.VerifiedOnlyByOtp` | controller/auth.controller.js:189-195 | an account becomes verified only through `verifyEmail` with its id and a code the check accepts |
| `AuthProperties.PasswordChangesOnlyByReset` | controller/auth.controller.js:281-289 | a stored password changes only through `resetPassword` for that user's e-mail with an accepted reset code, and becomes the hash of the new password |
| `AuthProperties.RegisterThenLogIn` | controller/auth.controller.js:84-94 | after registering, login with the same password succeeds with a token for the new id, and any other password is "Invalid password" |
| `AuthProperties.RegisterTwice` | controller/auth.controller.js:20-23 | a second registration with the same e-mail is 400 "Email is already in use", changes nothing, and exactly one user holds the e-mail |
| `AuthProperties.IssuedVerifyOtpLifetime` | controller/auth.controller.js:144-194 | a just-issued code is accepted iff `t <= now + 86400000`; after that it is "OTP expired"; any other code is "Invalid OTP"; both failures leave the store unchanged |
| `AuthProperties.VerifyOtpSingleUse` | controller/auth.controller.js:195-198 | after a successful verification the account is verified and the same code, offered again at any time, is "Invalid OTP" |
| `AuthProperties.ReissueReplacesVerifyOtp` | controller/auth.controller.js:144-145 | after a second, different code is issued, the first one is "Invalid OTP" |
| `AuthProperties.NoOtpForVerified` | controller/auth.controller.js:139-141 | a verified account gets 400 "Account already verified" and nothing changes |
| `AuthProperties.SendResetOtpFor` | controller/auth.controller.js:233-241 | for a stored user, `sendResetOtp` with that user's e-mail stores the reset code for that user only |
| `AuthProperties.ResetPasswordFor` | controller/auth.controller.js:277-292 | for a stored user whose reset code is accepted, `resetPassword` succeeds and applies the reset to that user only |
| `AuthProperties.LogInFor` | controller/auth.controller.js:84-103 | for a stored user with a well-formed e-mail, login succeeds exactly when the password matches, and otherwise gives "Invalid password" |
| `AuthProperties.ResetOtpSingleUse` | controller/auth.controller.js:281-290 | after a successful reset the same code is "Invalid OTP" |
| `AuthProperties.ResetAfterRequest` | controller/auth.controller.js:238-291 | requesting a reset code and offering it within 24 hours replaces that user's password hash and empties the slot, and changes no one else |
| `AuthProperties.ResetThenLogIn` | controller/auth.controller.js:287-289 | after a reset the new password logs in and the old one is "Invalid password" |
| `AuthProperties.FailedResetKeepsPassword` | controller/auth.controller.js:281-286 | a failed reset leaves the password as it was |
| `Middleware.UserAuth` | middleware/user.auth.js:3-27 | the request passes with `req.user = {id}` iff there are cookies, a token, and verification decodes a payload with an id; otherwise no cookies or no token gives 401, a payload without an id gives 403, and a verify that throws gives 403 |
| `Middleware.IssuedTokenPasses` | middleware/user.auth.js:15-19 | a token the server issued passes as its user until its two days are up and gets 403 afterwards |
| `Middleware.ForeignTokenRefused` | middleware/user.auth.js:23-26 | a token signed with another secret gets 403 |
| `UserController.GetUserData` | controller/user.controller.js:3-22 | `success: false` iff the query throws; 404 iff the query answers and the id is missing or unknown; otherwise exactly the stored name, e-mail and verified flag |
| `UserController.ProjectionHidesSecrets` | controller/user.controller.js:13-17 | the details are the user's name, e-mail and verified flag, and two users agreeing on those give equal details, whatever their password or OTP fields |
| `Routes.SendVerifyOtpRoute` | routes/auth.route.js:10 | a request the middleware denies changes nothing and gets the middleware's reply; the handler never sees a missing id; any change stores a code for the authenticated user only |
| `Routes.VerifyEmailRoute` | routes/auth.route.js:11 | a denied request changes nothing; "Invalid request" arises only for an authenticated request without an OTP; any change verifies the authenticated user only |
| `Routes.IsAuthRoute` | routes/auth.route.js:12 | succeeds iff the middleware passes and the user exists and the database answers; "not authenticated" never arises |
| `Routes.GetUserRoute` | routes/user.route.js:7 | denied exactly when the middleware denies; the details shown are those of the authenticated user |
| `Routes.RegisterLogInDetails` | controller/user.controller.js:11-18 | register, then log in, then request the details with the login cookie within its validity: the reply is the registered name and e-mail, not verified |
| `Routes.VerifyThroughRoutes` | routes/auth.route.js:10-11 | with the registration cookie, requesting a verification code and offering it within 24 hours verifies the account, and the details then show it verified |

## Left out

- Express wiring, CORS, body and cookie parsing, and server start-up are not modelled.
- Request fields are modelled as strings. A JSON number or other non-string field is not, nor is the bcrypt error it would cause.
- The `token` cookie is a structured token. An empty cookie string is treated as no token.
- Cookie attributes are left out: `httpOnly`, `secure`, `sameSite`, the seven-day `maxAge` and the options of `clearCookie`. Only "set to this token" and "cleared" are kept.
- Mongoose persistence and `async`/`await` are not modelled. Each handler is one atomic step on the in-memory collection, and races between concurrent requests are out of scope.
- Database failures are one case: the request's first query throws (`dbDown`). A save that fails after a successful query is not modelled. Neither are a malformed id's cast error or a failing response write, whose outer `catch` only logs.
- The error objects echoed in `catch` branches are one message tag, `ErrorEcho`. Console logging is left out.
- ObjectId generation is a counter, `nextId`. It gives fresh ids, as ObjectIds are unique.
- Ids are present or absent (`Option`). Ids are ObjectIds, never falsy strings, so JavaScript truthiness of ids plays no part.
- `Math.random` is the `code` parameter. The range 100000..999999 is used only to prove that the stored code has six digits.
- Bcrypt.Hash: salt and cost factor are not modelled; the digest is deterministic.
- Bcrypt.CompareHash: the ideal digest accepts only the exact password it was made from. bcryptjs reads only the first 72 UTF-8 bytes of a password, so in the program two passwords that agree on those bytes match the same hash. The "any other password is refused" parts of `AuthProperties.RegisterThenLogIn`, `AuthProperties.LogInFor` and `AuthProperties.ResetThenLogIn` therefore hold in the program only for passwords that differ within their first 72 bytes.
- Validator.IsEmail: only a stand-in for the predicate `validator.isEmail` (an `@` with characters on both sides). No property depends on its grammar.
- Jwt.Verify: an idealised `jwt.verify`. HMAC signing and token parsing are a record with the signing secret. Only the expiry check in whole seconds is kept. The middleware itself takes the verifier as a parameter.
- Jwt.CreateToken: the signing secret is assumed non-empty (the `UserStore` constructor requires it). With an empty or unset secret, `jwt.sign` throws. `register` then answers 500 "Server error" with the new user already saved, and `logIn` answers 500. The `secret` parameters of `AuthSpec.Register` and `AuthSpec.LogIn` still accept `""`, so for that configuration their contracts do not describe the program.
- Jwt.Verify: with an empty secret, `jwt.verify` throws for every token, so every protected route answers 403. The model instead decodes tokens signed with `""`, so what it proves about an empty secret does not hold in the program.
- Mail contents, sender and subject are left out. Only whether the message was delivered is kept.
- The welcome mail's outcome (`welcomeSent`) is a parameter that no result depends on, since `register` only logs a failed send.
- `resetOtpExpireAt = null` after a reset is modelled as 0. A null expiry is only ever read after the empty `resetOtp` check, which rejects first.
- The invalid-recipient branches of `sendVerifyOtp` and `sendResetOtp` are modelled. They cannot be reached, because a stored e-mail is never empty.
