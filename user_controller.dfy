/**
 * `getUserData`: look the user on the request up and send back its public
 * details only.
 */
module UserController {
  import opened Wrappers
  import opened UserModel

  /** The `userDetails` object of the reply. */
  datatype UserDetails = UserDetails(name: string, email: string, isAccountVerified: bool)

  datatype DataReply =
    | NotFound                       // 404 `{message}`
    | Found(details: UserDetails)    // 200 `{success: true, userDetails}`
    | LookupFailed                   // 200 `{success: false, error}`
  {
    function Status(): int
    {
      if NotFound? then 404 else 200
    }

    /** The `success` field; the 404 body has none. */
    function Success(): Option<bool>
    {
      match this
      case NotFound => None
      case Found(_) => Some(true)
      case LookupFailed => Some(false)
    }
  }

  /** What of a user the reply may show. */
  function Project(u: User): (d: UserDetails)
  {
    UserDetails(u.name, u.email, u.isAccountVerified)
  }

  /**
   * The projection shows the name, e-mail and verified flag, and nothing that
   * depends on the password digest or either OTP slot: two users that agree
   * on the three shown fields have the same details.
   */
  lemma ProjectionHidesSecrets(u: User, v: User)
    ensures Project(u).name == u.name && Project(u).email == u.email
    ensures Project(u).isAccountVerified == u.isAccountVerified
    ensures u.name == v.name && u.email == v.email && u.isAccountVerified == v.isAccountVerified
      ==> Project(u) == Project(v)
  {
  }

  /**
   * `getUserData` for the id the middleware attached (`None` when there is
   * none, which the lookup does not find). A failing query is caught and
   * answered with `success: false`. The collection is only read.
   */
  function GetUserData(db: Db, userId: Option<UserId>, dbDown: bool): (r: DataReply)
    ensures r.LookupFailed? <==> dbDown
    ensures r.NotFound? <==> !dbDown && (userId.None? || userId.value !in db.users)
    ensures r.Found? <==> !dbDown && userId.Some? && userId.value in db.users
    ensures r.Found? ==>
      var u := db.users[userId.value];
      r.details == UserDetails(u.name, u.email, u.isAccountVerified)
    ensures r.Status() == 404 <==> r.NotFound?
    ensures r.Success() == Some(false) <==> dbDown
  {
    if dbDown then LookupFailed
    else if userId.None? || userId.value !in db.users then NotFound
    else Found(Project(db.users[userId.value]))
  }
}
