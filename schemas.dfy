/** The input validation schemas: roles, users, login, musicals, patches
    and list queries, as validity predicates and default-filling parsers.
    URL and CUID syntax are left abstract: they are the `isUrl` and
    `isCuid` predicates of a `Validators` value. */
module Schemas {
  import opened Common

  /** The roles of `UserRoleEnum`. */
  datatype Role = USER | ADMIN | EDITOR

  function RoleName(r: Role): string
  {
    match r
    case USER => "USER"
    case ADMIN => "ADMIN"
    case EDITOR => "EDITOR"
  }

  /** Parsing a role name is the inverse of `RoleName`: exactly the three
      names are accepted, each as its own role. */
  function ParseRole(s: string): (r: Option<Role>)
    ensures forall q: Role :: r == Some(q) <==> RoleName(q) == s
  {
    if s == "USER" then Some(USER)
    else if s == "ADMIN" then Some(ADMIN)
    else if s == "EDITOR" then Some(EDITOR)
    else None
  }

  /** The URL and CUID checks, whose syntax is not modelled. */
  datatype Validators = Validators(isUrl: string -> bool, isCuid: string -> bool)

  // ---------------------------------------------------------------- users

  const UsernameMinLength := 3
  const UsernameMaxLength := 50
  const PasswordMinLength := 8

  predicate UsernameValid(username: string)
  {
    UsernameMinLength <= |username| <= UsernameMaxLength
  }

  predicate PasswordValid(password: string)
  {
    |password| >= PasswordMinLength
  }

  /** A complete user record as `UserSchema` sees it. */
  datatype UserRecord = UserRecord(id: string, username: string, password: string, role: string)

  predicate UserSchema(v: Validators, u: UserRecord)
  {
    && v.isCuid(u.id)
    && UsernameValid(u.username)
    && PasswordValid(u.password)
    && ParseRole(u.role).Some?
  }

  /** Signup input; `role` may be absent. */
  datatype SignupInput = SignupInput(username: string, password: string, role: Option<string>)

  /** `CreateUserSchema` as written: `UserSchema` without `id`, so a valid
      role is still required. */
  predicate CreateUserSchemaAsWritten(input: SignupInput)
  {
    && UsernameValid(input.username)
    && PasswordValid(input.password)
    && input.role.Some? && ParseRole(input.role.value).Some?
  }

  /** `CreateUserSchema` as signup uses it: the role is not part of the
      input, since signup always stores USER. */
  predicate CreateUserSchema(input: SignupInput)
  {
    UsernameValid(input.username) && PasswordValid(input.password)
  }

  /** The schema as written is `UserSchema` with the `id` key removed: for
      any valid id, an input passes exactly when it carries a role and the
      record it completes passes `UserSchema`. */
  lemma CreateUserSchemaOmitsId(v: Validators, input: SignupInput, id: string)
    requires v.isCuid(id)
    ensures CreateUserSchemaAsWritten(input) <==>
      input.role.Some? && UserSchema(v, UserRecord(id, input.username, input.password, input.role.value))
  {
  }

  /** The signup call made by the user router's tests (username and
      password only) is rejected by the schema as written. */
  lemma RoleRequiredAsWritten()
    ensures !CreateUserSchemaAsWritten(SignupInput("newuser", "password123", None))
  {
  }

  /** The corrected schema accepts that call and never depends on the role;
      a too-short username or password is still rejected. */
  lemma SignupSchemaIgnoresRole(input: SignupInput, role: Option<string>)
    ensures CreateUserSchema(input) <==> CreateUserSchema(input.(role := role))
    ensures CreateUserSchema(SignupInput("newuser", "password123", None))
    ensures !CreateUserSchema(SignupInput("ab", "password123", None))
    ensures !CreateUserSchema(SignupInput("newuser", "short", None))
  {
  }

  /** Every input the schema as written accepts, the corrected one accepts. */
  lemma AsWrittenImpliesCorrected(input: SignupInput)
    requires CreateUserSchemaAsWritten(input)
    ensures CreateUserSchema(input)
  {
  }

  /** `LoginUserSchema`: both fields non-empty. */
  predicate LoginUserSchema(username: string, password: string)
  {
    |username| >= 1 && |password| >= 1
  }

  /** Whatever signup accepts, login accepts. */
  lemma SignupCredentialsPassLogin(input: SignupInput)
    requires CreateUserSchema(input)
    ensures LoginUserSchema(input.username, input.password)
  {
  }

  // ------------------------------------------------------------- musicals

  const TitleMaxLength := 100
  const DescriptionMinLength := 10

  /** Create-musical input; dates are integers (instants). */
  datatype MusicalInput = MusicalInput(title: string, description: string, posterUrl: string, releaseDate: int)

  predicate TitleValid(title: string)
  {
    1 <= |title| <= TitleMaxLength
  }

  predicate DescriptionValid(description: string)
  {
    |description| >= DescriptionMinLength
  }

  predicate PosterUrlValid(v: Validators, url: string)
  {
    v.isUrl(url)
  }

  predicate CreateMusicalSchema(v: Validators, m: MusicalInput)
  {
    TitleValid(m.title) && DescriptionValid(m.description) && PosterUrlValid(v, m.posterUrl)
  }

  /** `UpdateMusicalSchema`: every field of the create schema, optional. */
  datatype MusicalPatch = MusicalPatch(
    title: Option<string>,
    description: Option<string>,
    posterUrl: Option<string>,
    releaseDate: Option<int>)

  const EmptyPatch := MusicalPatch(None, None, None, None)

  predicate UpdateMusicalSchema(v: Validators, p: MusicalPatch)
  {
    && (p.title.None? || TitleValid(p.title.value))
    && (p.description.None? || DescriptionValid(p.description.value))
    && (p.posterUrl.None? || PosterUrlValid(v, p.posterUrl.value))
  }

  /** The patch that sets every field of `m`. */
  function FullPatch(m: MusicalInput): (p: MusicalPatch)
    ensures p.title.Some? && p.description.Some? && p.posterUrl.Some? && p.releaseDate.Some?
  {
    MusicalPatch(Some(m.title), Some(m.description), Some(m.posterUrl), Some(m.releaseDate))
  }

  /** A patch is valid iff each present field meets its create constraint:
      the full patch of an input is valid exactly when the input is, and
      the empty patch is valid. */
  lemma PatchSchemaIsPartialCreateSchema(v: Validators, m: MusicalInput)
    ensures UpdateMusicalSchema(v, FullPatch(m)) <==> CreateMusicalSchema(v, m)
    ensures UpdateMusicalSchema(v, EmptyPatch)
  {
  }

  /** `MusicalIdSchema`. */
  predicate MusicalIdSchema(v: Validators, id: Id)
  {
    v.isCuid(id)
  }

  // ---------------------------------------------------------- list query

  const DefaultLimit := 50
  const MinLimit := 1
  const MaxLimit := 100

  /** The list-query object a caller sends; every field is optional.
      `cursor` None stands for both absent and null. */
  datatype RawListQuery = RawListQuery(
    releaseDateFrom: Option<int>,
    releaseDateTo: Option<int>,
    limit: Option<int>,
    cursor: Option<string>,
    includeUnreleased: Option<bool>,
    searchText: Option<string>)

  /** The parsed list query, defaults filled in. */
  datatype ListQuery = ListQuery(limit: int, cursor: Option<string>, includeUnreleased: bool, searchText: Option<string>)

  predicate ListQueryValid(q: ListQuery)
  {
    MinLimit <= q.limit <= MaxLimit
  }

  datatype Parsed<T> = Accepted(value: T) | Rejected

  predicate LimitOk(limit: Option<int>)
  {
    limit.None? || MinLimit <= limit.value <= MaxLimit
  }

  function GetOr<T>(o: Option<T>, default: T): T
  {
    if o.Some? then o.value else default
  }

  /** `GetMusicalsSchema` as written: the object has no `searchText` key,
      and an object schema drops keys it does not declare, so the parsed
      query never carries a search text. An omitted input parses to None. */
  function ParseListQueryAsWritten(input: Option<RawListQuery>): (r: Parsed<Option<ListQuery>>)
    ensures input.None? ==> r == Accepted(None)
    ensures input.Some? ==> (r.Accepted? <==> LimitOk(input.value.limit))
    ensures r.Accepted? && r.value.Some? ==> r.value.value.searchText.None?
  {
    match input
    case None => Accepted(None)
    case Some(raw) =>
      if LimitOk(raw.limit) then
        Accepted(Some(ListQuery(GetOr(raw.limit, DefaultLimit), raw.cursor, GetOr(raw.includeUnreleased, false), None)))
      else Rejected
  }

  /** `GetMusicalsSchema` with the `searchText` key the list endpoint reads:
      limit is 1..100 and defaults to 50, includeUnreleased defaults to
      false, cursor and searchText pass through. */
  function ParseListQuery(input: Option<RawListQuery>): (r: Parsed<Option<ListQuery>>)
    ensures input.None? ==> r == Accepted(None)
    ensures input.Some? ==> (r.Accepted? <==> LimitOk(input.value.limit))
    ensures r.Accepted? && r.value.Some? ==>
      var raw, q := input.value, r.value.value;
      && ListQueryValid(q)
      && (raw.limit.None? ==> q.limit == DefaultLimit)
      && (raw.limit.Some? ==> q.limit == raw.limit.value)
      && q.includeUnreleased == (raw.includeUnreleased == Some(true))
      && q.cursor == raw.cursor
      && q.searchText == raw.searchText
  {
    match input
    case None => Accepted(None)
    case Some(raw) =>
      if LimitOk(raw.limit) then
        Accepted(Some(ListQuery(GetOr(raw.limit, DefaultLimit), raw.cursor, GetOr(raw.includeUnreleased, false), raw.searchText)))
      else Rejected
  }

  /** The list endpoint's own defaults (`?? 50`, `?? false`) for an omitted input. */
  function EffectiveQuery(parsed: Option<ListQuery>): (q: ListQuery)
    ensures parsed.Some? ==> q == parsed.value
    ensures parsed.None? ==> q.limit == DefaultLimit && !q.includeUnreleased && q.cursor.None? && q.searchText.None?
  {
    if parsed.Some? then parsed.value else ListQuery(DefaultLimit, None, false, None)
  }

  /** An omitted input and an empty object mean the same query. */
  lemma OmittedEqualsEmpty()
    ensures ParseListQuery(Some(RawListQuery(None, None, None, None, None, None))).Accepted?
    ensures EffectiveQuery(ParseListQuery(None).value)
         == EffectiveQuery(ParseListQuery(Some(RawListQuery(None, None, None, None, None, None))).value)
  {
  }

  /** Whatever the caller sends, the schema as written loses the search text. */
  lemma SearchTextDroppedAsWritten(raw: RawListQuery)
    requires LimitOk(raw.limit)
    ensures ParseListQueryAsWritten(Some(raw)).Accepted?
    ensures EffectiveQuery(ParseListQueryAsWritten(Some(raw)).value).searchText == None
  {
  }

  /** The corrected schema keeps it. */
  lemma SearchTextKept(raw: RawListQuery)
    requires LimitOk(raw.limit)
    ensures ParseListQuery(Some(raw)).Accepted?
    ensures EffectiveQuery(ParseListQuery(Some(raw)).value).searchText == raw.searchText
  {
  }
}
