/** The credentials sign-in: `authorize` checks a username and password
    against the user table, the `jwt` callback copies the signed-in
    user's id and role into the token, and the `session` callback copies
    them from the token into the session. `compare` stands for bcrypt's
    password check. */
module AuthConfig {
  import opened Common
  import opened Schemas
  import opened Storage
  import Trpc
  import UserRouter

  const EmailDomain := "@example.com"

  /** The submitted credentials; either field may be missing. */
  datatype Credentials = Credentials(username: Option<string>, password: Option<string>)

  /** The identity `authorize` returns. */
  datatype AuthUser = AuthUser(id: string, name: string, email: string, role: string)

  /** `authorize`: null (None) without both fields, for an unknown username
      or for a password that does not match the stored hash; otherwise the
      stored user's identity. Only reads the table. */
  function Authorize(credentials: Option<Credentials>, users: map<string, User>, compare: (string, string) -> bool): (r: Option<AuthUser>)
    ensures r.Some? <==>
      && credentials.Some?
      && Truthy(credentials.value.username) && Truthy(credentials.value.password)
      && credentials.value.username.value in users
      && compare(credentials.value.password.value, users[credentials.value.username.value].password)
    ensures r.Some? ==>
      var u := users[credentials.value.username.value];
      r.value == AuthUser(u.id, u.username, u.username + EmailDomain, u.role)
  {
    if credentials.None? || !Truthy(credentials.value.username) || !Truthy(credentials.value.password) then None
    else
      var username := credentials.value.username.value;
      if username !in users then None
      else
        var user := users[username];
        var passwordMatch := compare(credentials.value.password.value, user.password);
        if !passwordMatch then None
        else Some(AuthUser(user.id, user.username, user.username + EmailDomain, user.role))
  }

  /** Credentials that `authorize` accepts also pass the login schema, and
      the identity's email is built from its name. */
  lemma AuthorizedCredentialsPassLogin(credentials: Option<Credentials>, users: map<string, User>, compare: (string, string) -> bool)
    requires Authorize(credentials, users, compare).Some?
    ensures LoginUserSchema(credentials.value.username.value, credentials.value.password.value)
    ensures var a := Authorize(credentials, users, compare).value;
      a.email == a.name + EmailDomain
  {
  }

  /** The claims the middleware reads from a decoded token. */
  datatype JwtClaims = JwtClaims(id: Option<string>, role: Option<string>)

  /** A JWT under construction; `others` holds the claims next-auth sets
      itself (name, email, subject, expiry), which the callbacks keep. */
  class Token {
    var id: Option<string>
    var role: Option<string>
    var others: map<string, string>

    constructor (others: map<string, string>)
      ensures id == None && role == None && this.others == others
    {
      id := None;
      role := None;
      this.others := others;
    }

    function Claims(): (c: JwtClaims)
      reads this
      ensures c.id == id && c.role == role
    {
      JwtClaims(id, role)
    }
  }

  /** The `jwt` callback: with a user (at sign-in), sets the token's id and
      role from it; without one (later requests), leaves the token as it is.
      Returns the same token object. */
  method Jwt(token: Token, user: Option<AuthUser>) returns (t: Token)
    modifies token
    ensures t == token
    ensures user.Some? ==> token.id == Some(user.value.id) && token.role == Some(user.value.role)
    ensures user.None? ==> token.id == old(token.id) && token.role == old(token.role)
    ensures token.others == old(token.others)
  {
    if user.Some? {
      token.id := Some(user.value.id);
      token.role := Some(user.value.role);
    }
    return token;
  }

  /** The session's user as next-auth shapes it: the default fields plus
      the id and role this configuration adds. */
  datatype AuthSessionUser = AuthSessionUser(name: Option<string>, email: Option<string>, image: Option<string>, id: Option<string>, role: Option<string>)

  datatype Session = Session(user: Option<AuthSessionUser>, expires: string)

  const NoUser := AuthSessionUser(None, None, None, None, None)

  /** The `session` callback: the same session with `user.id` and
      `user.role` taken from the token; every other field is kept, and a
      missing user becomes one with only those two fields. */
  function SessionCallback(session: Session, token: Token): (s: Session)
    reads token
    ensures s.expires == session.expires && s.user.Some?
    ensures s.user.value.id == token.id && s.user.value.role == token.role
    ensures session.user.Some? ==>
      s.user.value.(id := session.user.value.id, role := session.user.value.role) == session.user.value
    ensures session.user.None? ==> s.user.value.(id := None, role := None) == NoUser
  {
    var base := if session.user.Some? then session.user.value else NoUser;
    session.(user := Some(base.(id := token.id, role := token.role)))
  }

  /** The request context's view of a session: a user with both an id and
      a role, or no session. */
  function ContextSession(s: Session): (r: Trpc.Session)
    ensures r.Some? <==> s.user.Some? && s.user.value.id.Some? && s.user.value.role.Some?
    ensures r.Some? ==> r.value.id == s.user.value.id.value && r.value.role == s.user.value.role.value
  {
    if s.user.Some? && s.user.value.id.Some? && s.user.value.role.Some? then
      Some(Trpc.SessionUser(s.user.value.id.value, s.user.value.role.value))
    else None
  }

  /** A whole sign-in: authorize, issue a fresh token through `jwt`, then
      build the session through `session`. The session carries the stored
      user's id and role. */
  method SignIn(credentials: Option<Credentials>, users: map<string, User>, compare: (string, string) -> bool, session: Session, others: map<string, string>)
    returns (s: Option<Session>, token: Option<Token>)
    ensures s.Some? <==> Authorize(credentials, users, compare).Some?
    ensures token.Some? <==> s.Some?
    ensures s.Some? ==>
      var u := users[credentials.value.username.value];
      && ContextSession(s.value) == Some(Trpc.SessionUser(u.id, u.role))
      && token.value.Claims() == JwtClaims(Some(u.id), Some(u.role))
      && fresh(token.value)
  {
    var user := Authorize(credentials, users, compare);
    if user.None? {
      return None, None;
    }
    var t := new Token(others);
    t := Jwt(t, user);
    s := Some(SessionCallback(session, t));
    token := Some(t);
  }

  /** A user stored by either signup path signs in with the USER role, so
      the admin gate refuses them with FORBIDDEN. Both paths store only
      non-empty usernames and passwords, and both store `UserRouter.NewUser`:
      the HTTP endpoint for the role-less input, the procedure for the
      input as sent, which is the same record. Sign-in
      succeeds exactly when `compare` accepts the password against its own
      hash. */
  method SignedUpUserIsNotAdmin(users: map<string, User>, input: SignupInput, hash: (string, nat) -> string, newId: string,
                                compare: (string, string) -> bool, session: Session, others: map<string, string>)
    returns (s: Option<Session>)
    requires input.username != "" && input.password != ""
    ensures UserRouter.NewUser(input.(role := None), hash, newId) == UserRouter.NewUser(input, hash, newId)
    ensures compare(input.password, hash(input.password, SaltRounds)) <==> s.Some?
    ensures s.Some? ==>
      && ContextSession(s.value) == Some(Trpc.SessionUser(newId, RoleName(USER)))
      && Trpc.AdminGate(ContextSession(s.value)) == Some(Trpc.AdminRequired)
  {
    var users' := users[input.username := UserRouter.NewUser(input, hash, newId)];
    var credentials := Some(Credentials(Some(input.username), Some(input.password)));
    var token;
    s, token := SignIn(credentials, users', compare, session, others);
  }

  /** Signup followed by sign-in: if bcrypt's `compare` accepts the password
      against its own hash, the new user can sign in with the same
      credentials, and their identity has the USER role. */
  lemma SignupThenAuthorize(users: map<string, User>, username: string, password: string, id: string,
                            hash: (string, nat) -> string, compare: (string, string) -> bool)
    requires username != "" && password != ""
    requires compare(password, hash(password, 10))
    ensures var users' := users[username := User(id, username, hash(password, 10), RoleName(USER))];
      Authorize(Some(Credentials(Some(username), Some(password))), users', compare)
        == Some(AuthUser(id, username, username + EmailDomain, RoleName(USER)))
  {
  }
}
