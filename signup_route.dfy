/** The HTTP signup endpoint (`POST /api/auth/signup`): a truthiness check
    on the body's fields, a uniqueness check, then a create. Every failure
    of the body parse, the lookup, the hash or the create ends in 500.
    Which step fails, if any, is the `fault` parameter. */
module SignupRoute {
  import opened Common
  import opened Schemas
  import opened Storage
  import UserRouter

  /** The JSON body's two optional fields; `None` as the whole body means
      the body was not valid JSON or was `null`, which the destructuring
      rejects the same way. */
  datatype SignupBody = SignupBody(username: Option<string>, password: Option<string>)

  datatype Fault = NoFault | LookupFails | HashFails | CreateFails

  datatype ResponseBody =
    | ErrorBody(error: string)
    | CreatedBody(id: string, username: string, role: string)

  datatype Response = Response(status: nat, body: ResponseBody)

  const MissingFields := Response(400, ErrorBody("Username and password are required"))
  const UsernameExists := Response(409, ErrorBody("Username already exists"))
  const CreateFailed := Response(500, ErrorBody("Failed to create user"))

  /** Both fields are present and non-empty. */
  predicate BodyComplete(body: Option<SignupBody>)
  {
    body.Some? && Truthy(body.value.username) && Truthy(body.value.password)
  }

  method Post(db: UserTable, body: Option<SignupBody>, fault: Fault, hash: (string, nat) -> string, newId: string)
    returns (resp: Response)
    requires db.Valid() && db.IdFresh(newId)
    modifies db
    ensures db.Valid()
    ensures body.None? ==> resp == CreateFailed && db.users == old(db.users) && db.calls == old(db.calls)
    ensures body.Some? && !BodyComplete(body) ==>
      resp == MissingFields && db.users == old(db.users) && db.calls == old(db.calls)
    ensures BodyComplete(body) && fault == LookupFails ==>
      resp == CreateFailed && db.users == old(db.users)
    ensures BodyComplete(body) && fault != LookupFails && body.value.username.value in old(db.users) ==>
      resp == UsernameExists && db.users == old(db.users)
      && db.calls == old(db.calls) + [UserLookup(body.value.username.value)]
    ensures BodyComplete(body) && body.value.username.value !in old(db.users) && fault in {HashFails, CreateFails} ==>
      resp == CreateFailed && db.users == old(db.users)
    ensures resp.status == 201 <==> BodyComplete(body) && fault == NoFault && body.value.username.value !in old(db.users)
    ensures resp.status == 201 ==>
      var username, password := body.value.username.value, body.value.password.value;
      && db.users == old(db.users)[username := UserRouter.NewUser(SignupInput(username, password, None), hash, newId)]
      && |db.users| == |old(db.users)| + 1
      && resp.body == CreatedBody(newId, username, "USER")
      && db.calls == old(db.calls) + [UserLookup(username), UserInsert(username)]
    ensures resp.status != 201 ==> db.users == old(db.users)
    ensures resp.status in {201, 400, 409, 500}
  {
    if body.None? {
      return CreateFailed;
    }
    var username, password := body.value.username, body.value.password;

    if !Truthy(username) || !Truthy(password) {
      return MissingFields;
    }

    if fault == LookupFails {
      return CreateFailed;
    }
    var existingUser := db.FindUnique(username.value);
    if existingUser.Some? {
      return UsernameExists;
    }

    if fault == HashFails {
      return CreateFailed;
    }
    var hashedPassword := hash(password.value, SaltRounds);

    if fault == CreateFails {
      return CreateFailed;
    }
    var user := db.Create(username.value, hashedPassword, "USER", newId);

    return Response(201, CreatedBody(user.id, user.username, user.role));
  }

  /** The endpoint's check is weaker than the router's schema: every input
      the schema accepts passes it, but a two-character username or a
      one-character password passes it too. */
  lemma RouteCheckWeakerThanSchema(input: SignupInput)
    ensures CreateUserSchema(input) ==>
      BodyComplete(Some(SignupBody(Some(input.username), Some(input.password))))
    ensures BodyComplete(Some(SignupBody(Some("ab"), Some("x"))))
    ensures !CreateUserSchema(SignupInput("ab", "x", None))
  {
  }
}
