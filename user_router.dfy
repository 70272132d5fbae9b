/** The user router's `signup`: a uniqueness check against the user table,
    then a create with the hashed password and the USER role. The result
    carries no password. `hash` stands for bcrypt's hash and `newId` for
    the id the storage generates. */
module UserRouter {
  import opened Common
  import opened Schemas
  import opened Trpc
  import opened Storage

  const UsernameTaken := TrpcError(CONFLICT, "Username already exists")

  /** What signup returns: the stored user without the password. */
  datatype PublicUser = PublicUser(id: string, username: string, role: string)

  function PublicView(u: User): (p: PublicUser)
    ensures p.id == u.id && p.username == u.username && p.role == u.role
  {
    PublicUser(u.id, u.username, u.role)
  }

  /** The record signup stores for a fresh username. */
  function NewUser(input: SignupInput, hash: (string, nat) -> string, newId: string): (u: User)
    ensures u.username == input.username && u.id == newId
    ensures u.password == hash(input.password, SaltRounds)
    ensures u.role == RoleName(USER)
  {
    User(newId, input.username, hash(input.password, SaltRounds), RoleName(USER))
  }

  /** The stored role does not depend on the role the caller sent. */
  lemma SignupRoleIgnoresInput(input: SignupInput, role: Option<string>, hash: (string, nat) -> string, newId: string)
    ensures NewUser(input.(role := role), hash, newId) == NewUser(input, hash, newId)
    ensures ParseRole(NewUser(input, hash, newId).role) == Some(USER)
  {
  }

  /** The public view of a new user does not depend on the password. */
  lemma SignupResultIgnoresPassword(input: SignupInput, other: string, hash: (string, nat) -> string, newId: string)
    ensures PublicView(NewUser(input, hash, newId)) == PublicView(NewUser(input.(password := other), hash, newId))
  {
  }

  /** `signup`, validated by the schema that does not require a role
      (`CreateUserSchema`), not by the schema as written
      (`CreateUserSchemaAsWritten`). */
  method Signup(db: UserTable, input: SignupInput, hash: (string, nat) -> string, newId: string)
    returns (r: Result<PublicUser>)
    requires db.Valid() && db.IdFresh(newId)
    modifies db
    ensures db.Valid()
    ensures !CreateUserSchema(input) ==>
      r == Err(InvalidInput) && db.users == old(db.users) && db.calls == old(db.calls)
    ensures CreateUserSchema(input) && input.username in old(db.users) ==>
      r == Err(UsernameTaken) && db.users == old(db.users)
      && db.calls == old(db.calls) + [UserLookup(input.username)]
    ensures r.Ok? <==> CreateUserSchema(input) && input.username !in old(db.users)
    ensures r.Ok? ==>
      && db.users == old(db.users)[input.username := NewUser(input, hash, newId)]
      && |db.users| == |old(db.users)| + 1
      && r.value == PublicView(NewUser(input, hash, newId))
      && db.calls == old(db.calls) + [UserLookup(input.username), UserInsert(input.username)]
  {
    if !CreateUserSchema(input) {
      return Err(InvalidInput);
    }
    var username, password := input.username, input.password;
    var existingUser := db.FindUnique(username);
    if existingUser.Some? {
      return Err(UsernameTaken);
    }
    var hashedPassword := hash(password, SaltRounds);
    var user := db.Create(username, hashedPassword, RoleName(USER), newId);
    return Ok(PublicUser(user.id, user.username, user.role));
  }

  /** Signing up twice with the same username: the second call is a
      CONFLICT and leaves the table as the first call left it. */
  method SignupTwice(db: UserTable, input: SignupInput, hash: (string, nat) -> string, first: string, second: string)
    returns (r1: Result<PublicUser>, r2: Result<PublicUser>)
    requires db.Valid() && db.IdFresh(first) && db.IdFresh(second) && first != second
    requires CreateUserSchema(input) && input.username !in db.users
    modifies db
    ensures r1.Ok? && r2 == Err(UsernameTaken)
    ensures db.users == old(db.users)[input.username := NewUser(input, hash, first)]
  {
    r1 := Signup(db, input, hash, first);
    r2 := Signup(db, input, hash, second);
  }
}
