/**
 * The user document of the schema and the collection that holds them.
 * `name`, `email` and `password` are required (a required string may not be
 * empty), `email` carries a unique index, and the four OTP fields and the
 * verified flag have defaults.
 */
module UserModel {
  import opened Wrappers
  import opened Bcrypt

  /** A document id; the database hands out a fresh one for each insertion. */
  type UserId = nat

  datatype User = User(
    name: string,
    email: string,
    password: Digest,
    verifyOtp: string,
    verifyOtpExpiryAt: nat,
    isAccountVerified: bool,
    resetOtp: string,
    resetOtpExpireAt: nat)

  /** The e-mail verification slot holds no code. */
  predicate VerifySlotEmpty(u: User)
  {
    u.verifyOtp == "" && u.verifyOtpExpiryAt == 0
  }

  /** The password reset slot holds no code. */
  predicate ResetSlotEmpty(u: User)
  {
    u.resetOtp == "" && u.resetOtpExpireAt == 0
  }

  /** `new User({name, email, password})`: every other field takes its default. */
  function NewUser(name: string, email: string, password: Digest): (u: User)
    ensures u.name == name && u.email == email && u.password == password
    ensures VerifySlotEmpty(u) && ResetSlotEmpty(u) && !u.isAccountVerified
  {
    User(name, email, password, "", 0, false, "", 0)
  }

  /** The required fields are present. */
  predicate Required(u: User)
  {
    u.name != "" && u.email != ""
  }

  /** The collection, and the id the next insertion receives. */
  datatype Db = Db(users: map<UserId, User>, nextId: nat)

  function Emails(users: map<UserId, User>): (es: set<string>)
    ensures forall id :: id in users ==> users[id].email in es
    ensures forall e :: e in es ==> exists id :: id in users && users[id].email == e
  {
    set id | id in users :: users[id].email
  }

  /** The unique index on `email`. */
  predicate EmailsUnique(users: map<UserId, User>)
  {
    forall i, j :: i in users && j in users && users[i].email == users[j].email ==> i == j
  }

  /** The invariant every state of the collection keeps. */
  predicate WellFormed(db: Db)
  {
    && (forall id :: id in db.users ==> id < db.nextId && Required(db.users[id]))
    && EmailsUnique(db.users)
  }

  /** `User.findOne({email})` */
  ghost function FindByEmail(users: map<UserId, User>, email: string): (r: Option<UserId>)
    ensures r.Some? <==> email in Emails(users)
    ensures r.Some? ==> r.value in users && users[r.value].email == email
  {
    if email in Emails(users) then
      Some(var id :| id in users && users[id].email == email; id)
    else
      None
  }

  /** With the unique index in place the lookup by e-mail finds the one user holding it. */
  lemma FindByEmailUnique(users: map<UserId, User>, email: string, id: UserId)
    requires EmailsUnique(users)
    requires id in users && users[id].email == email
    ensures FindByEmail(users, email) == Some(id)
  {
  }

  /** Inserting a complete user under the next id with an unused e-mail keeps the invariant. */
  lemma InsertKeepsWellFormed(db: Db, u: User)
    requires WellFormed(db)
    requires Required(u) && u.email !in Emails(db.users)
    ensures db.nextId !in db.users
    ensures WellFormed(Db(db.users[db.nextId := u], db.nextId + 1))
  {
  }

  /** Rewriting a stored user without touching its required fields keeps the invariant. */
  lemma UpdateKeepsWellFormed(db: Db, id: UserId, u: User)
    requires WellFormed(db)
    requires id in db.users
    requires u.name == db.users[id].name && u.email == db.users[id].email
    ensures WellFormed(Db(db.users[id := u], db.nextId))
  {
  }

  /** Saving a user twice leaves only the second version (a proof step for the reset protocol). */
  lemma SaveTwice(users: map<UserId, User>, id: UserId, a: User, b: User)
    ensures users[id := a][id := b] == users[id := b]
  {
  }
}
