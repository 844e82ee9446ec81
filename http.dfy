/**
 * The replies the handlers send: an HTTP status, the `success` field when the
 * body has one, which message the body carries, and what happens to the
 * `token` cookie.
 */
module Http {
  import opened Wrappers
  import opened Jwt

  /** The message texts of the handlers, one constructor per distinct text. */
  datatype Message =
    | NoMessage             // a body with only `success`
    | MissingFields         // register, logIn: a field is missing
    | EmailInUse            // register: the e-mail is taken
    | Registered            // register succeeded
    | ServerError           // register, logIn: an exception was caught
    | EmailNotValid         // logIn: the e-mail is malformed
    | InvalidEmail          // logIn: no user holds the e-mail
    | InvalidPassword       // logIn: the password does not match
    | LoggedOut             // logOut
    | UserIdMissing         // sendVerifyOtp: no id on the request
    | UserNotFound          // sendVerifyOtp, isUserAuthenticated: no user with the id
    | AlreadyVerified       // sendVerifyOtp: nothing to verify
    | InvalidEmailAddress   // sendVerifyOtp, sendResetOtp: the stored address is unusable
    | VerifyOtpSent         // sendVerifyOtp succeeded
    | FailedToSendEmail     // sendVerifyOtp: the mail transport failed
    | RequestFailed         // sendVerifyOtp: an exception was caught
    | InvalidRequest        // verifyEmail, resetPassword: a field is missing
    | NoSuchUser            // verifyEmail, sendResetOtp, resetPassword: no matching user
    | InvalidOtp            // verifyEmail, resetPassword: empty slot or wrong code
    | OtpExpired            // verifyEmail, resetPassword: the code has expired
    | EmailVerified         // verifyEmail succeeded
    | NotAuthenticated      // isUserAuthenticated: no id on the request
    | Authenticated         // isUserAuthenticated succeeded
    | EmailMissing          // sendResetOtp: no e-mail in the body
    | ResetOtpSent          // sendResetOtp succeeded
    | PasswordReset         // resetPassword succeeded
    | ErrorEcho             // a caught error's own text is sent back
    | CookiesMissing        // userAuth: the request has no cookies
    | NoToken               // userAuth: there is no `token` cookie
    | BadPayload            // userAuth: the payload has no id
    | BadToken              // userAuth: verification threw

  datatype Cookie = Unchanged | SetToken(token: Token) | Cleared

  /** A JSON reply, or no reply at all (an exception that is only logged). */
  datatype Reply =
    | Json(status: int, success: Option<bool>, message: Message, cookie: Cookie)
    | NoReply

  /** The usual failure body `{success: false, message}`. */
  function Failure(status: int, m: Message): Reply
  {
    Json(status, Some(false), m, Unchanged)
  }

  /** A successful reply is one whose body says `success: true`. */
  predicate Succeeded(r: Reply)
  {
    r.Json? && r.success == Some(true)
  }
}
