/** Registration and login over the user directory, after
    backend/controllers/authController.js. Password hashing and checking are
    opaque: the stored credential is compared by a matcher the caller
    supplies. A token is represented by the claims it carries, without its
    signature, and the clock that stamps it is a parameter. */
module AuthController {
  import opened Common

  /** An account. `password` is the stored credential; how the user model
      hashes it before saving is not part of this model. */
  datatype UserRecord = UserRecord(name: string, email: string, password: string, role: Role)

  /** A signed token, represented by the claims it carries: the user id and
      role it was issued for, and its issued-at and expiry times in seconds. */
  datatype Token = Token(userId: UserId, role: Role, issuedAt: nat, expiresAt: nat)

  /** The `expiresIn: '7d'` of every token, in seconds. */
  const TokenLifetime: nat := 7 * 24 * 60 * 60

  /** `generateToken`: a token for `id` and `role` issued at time `now`. */
  function GenerateToken(id: UserId, role: Role, now: nat): Token
  {
    Token(id, role, now, now + TokenLifetime)
  }

  /** The body of a successful register or login reply. */
  datatype Session = Session(id: UserId, name: string, email: string, role: Role, token: Token)

  /** The stored spelling of each role. */
  function RoleName(r: Role): string
  {
    match r
    case Admin => "admin"
    case Manager => "manager"
    case User => "user"
  }

  /** The whitelist `['admin', 'manager', 'user']`. */
  predicate IsRoleName(s: string)
  {
    s == "admin" || s == "manager" || s == "user"
  }

  /** The role a registration stores: the requested one when the whitelist
      admits it, otherwise `user`. `None` is a role that was not sent, or was
      not a string. */
  function RequestedRole(requested: Option<string>): (r: Role)
    ensures requested.Some? && IsRoleName(requested.value) ==> RoleName(r) == requested.value
    ensures !(requested.Some? && IsRoleName(requested.value)) ==> r == User
  {
    if requested == Some("admin") then Admin
    else if requested == Some("manager") then Manager
    else User
  }

  /** The reply of a successful register or login for the stored account
      `id`, at time `now`. */
  function SessionFor(id: UserId, u: UserRecord, now: nat): Session
  {
    Session(id, u.name, u.email, u.role, GenerateToken(id, u.role, now))
  }

  /** `User.findOne({ email })` finds an account. */
  predicate EmailTaken(users: map<UserId, UserRecord>, email: string)
  {
    exists id :: id in users && users[id].email == email
  }

  /** The user directory. Registration keeps e-mail addresses unique. */
  class UserDirectory {
    var users: map<UserId, UserRecord>

    ghost predicate Valid()
      reads this
    {
      forall a, b :: a in users && b in users && users[a].email == users[b].email ==> a == b
    }

    constructor ()
      ensures Valid() && users == map[]
    {
      users := map[];
    }

    /** `register`: 400 when the e-mail is already in the directory; otherwise
        the account is stored under the fresh id the store generated, with its
        role passed through the whitelist. An id already taken (a
        duplicate-key error) is answered with a 500. The token is issued at `now`. */
    method Register(name: string, email: string, password: string, role: Option<string>, id: UserId, now: nat)
      returns (r: Reply<Session>)
      requires Valid()
      modifies this
      ensures Valid()
      ensures EmailTaken(old(users), email) ==> r == BadRequest && users == old(users)
      ensures !EmailTaken(old(users), email) && id in old(users) ==> r == Error && users == old(users)
      ensures !EmailTaken(old(users), email) && id !in old(users) ==>
        && users == old(users)[id := UserRecord(name, email, password, RequestedRole(role))]
        && r == Ok(SessionFor(id, users[id], now))
        && r.value.id == id && r.value.name == name && r.value.email == email
        && r.value.role == RequestedRole(role)
        && r.value.token == Token(id, RequestedRole(role), now, now + TokenLifetime)
    {
      if EmailTaken(users, email) {
        return BadRequest;
      }
      if id in users {
        return Error;
      }
      var user := UserRecord(name, email, password, RequestedRole(role));
      users := users[id := user];
      r := Ok(SessionFor(id, user, now));
    }

    /** `login`: 401 when no account has the e-mail or its credential does
        not match; otherwise the account's session, with a token issued at `now`. */
    method Login(email: string, password: string, passwordMatches: (string, string) -> bool, now: nat)
      returns (r: Reply<Session>)
      requires Valid()
      ensures r.Ok? <==> exists id :: id in users && users[id].email == email && passwordMatches(users[id].password, password)
      ensures r.Ok? ==>
        && r.value.id in users && users[r.value.id].email == email
        && r.value.name == users[r.value.id].name && r.value.email == email
        && r.value.role == users[r.value.id].role
        && r.value.token == Token(r.value.id, r.value.role, now, now + TokenLifetime)
      ensures !r.Ok? ==> r == Unauthorized
    {
      if !EmailTaken(users, email) {
        return Unauthorized;
      }
      var id :| id in users && users[id].email == email;
      if !passwordMatches(users[id].password, password) {
        return Unauthorized;
      }
      r := Ok(SessionFor(id, users[id], now));
    }
  }

  /** Logging in right after a registration, with a credential that matches,
      gives back the registration's account: the same id, name, e-mail and
      role, and a token over the same id and role. Only the token's times
      differ, so the two replies are equal exactly when both tokens are
      issued in the same second. */
  method RegisterThenLogin(d: UserDirectory, name: string, email: string, password: string, role: Option<string>, id: UserId,
                           passwordMatches: (string, string) -> bool, registeredAt: nat, loggedInAt: nat)
      returns (registered: Reply<Session>, loggedIn: Reply<Session>)
    requires d.Valid()
    requires passwordMatches(password, password)
    modifies d
    ensures registered.Ok? ==> loggedIn.Ok? && loggedIn.value == registered.value.(token := loggedIn.value.token)
    ensures registered.Ok? ==>
      && loggedIn.value.token.userId == registered.value.token.userId
      && loggedIn.value.token.role == registered.value.token.role
      && loggedIn.value.token.issuedAt == loggedInAt
    ensures registered.Ok? ==> (loggedIn == registered <==> registeredAt == loggedInAt)
    ensures !EmailTaken(old(d.users), email) && id !in old(d.users) ==> registered.Ok?
  {
    registered := d.Register(name, email, password, role, id, registeredAt);
    loggedIn := d.Login(email, password, passwordMatches, loggedInAt);
  }
}
