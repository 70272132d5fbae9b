# Musicals catalogue: a Dafny model

This project models the server core of a small musicals catalogue (the
Internet Musical Database). It covers:

- the musical router:
  - admin-only create, update and delete;
  - a single read that hides unreleased entries from anonymous callers;
  - a paged list that fetches `limit + 1` rows, drops the last one and
    returns its id as the next cursor;
- the validation schemas;
- signup, both the RPC procedure and the HTTP endpoint;
- the middleware that guards the create and edit pages;
- the credentials sign-in with its `jwt` and `session` callbacks.

Modules, one per part of the program:

- `Common`: `Option`, the `Id` type, JavaScript truthiness of an optional
  string, and the substring test behind text search.
- `Schemas`: the zod schemas as predicates, and the list-query parser,
  which fills in defaults.
- `Trpc`: RPC errors, the request session and the admin gate.
- `Storage`: the musical and user tables. Each is a class with a `map`
  field and a ghost log of the calls made to it. The module also holds
  `findMany`, which filters, keeps release-date-descending order, starts
  *at* the cursor row and takes `n` rows.
- `Catalogue`: read access, the list filter, the over-fetch-by-one page
  step, and lemmas about paging through the whole list.
- `MusicalRouter`: the five procedures of the musical router.
- `UserRouter`: `signup`.
- `SignupRoute`: `POST /api/auth/signup`.
- `Middleware`: path classification and the redirect decision.
- `AuthConfig`: `authorize`, the token with the `jwt` callback, the
  `session` callback and a whole sign-in.

Collaborators the model cannot see are parameters:

- the clock is `now`, an integer;
- the table's storage order is `order`; `Storage.OrderedView` says it is
  sorted by release date, newest first, has distinct ids, and holds
  exactly the table's rows;
- bcrypt's `hash` and `compare`;
- JavaScript's `encodeURI`;
- zod's URL and CUID checks, bundled as `Validators`;
- the ids and timestamps the storage generates;
- which step of the HTTP signup fails, if any (`Fault`).

A procedure's checks run in this order: the admin gate, then input
validation, then the handler. `Trpc.InvalidInput` stands for any zod
rejection.

Behaviour worth noting:

- The list cursor is *inclusive*. `findMany` is given
  `cursor: { id }` without `skip: 1`, so a page starts at the cursor row.
  That row is the one the previous page dropped. So while the storage
  keeps one order, pages are contiguous with no duplicate
  (`Catalogue.NextPageContinues`).
- The order has no tie-breaker on equal release dates. The model allows
  any order the storage picks among equal dates, as long as it is the same
  on every call.
- The paging lemmas take every id to be non-empty (`Catalogue.NonEmptyIds`);
  stored ids are generated CUIDs. A row with id "" would give a falsy next
  cursor, and the following call would start again from the first page.
- `getMusical` answers NOT_FOUND for a missing id and FORBIDDEN for an
  unreleased one. The two answers reveal whether an unreleased entry
  exists.
- Any signed-in user sees unreleased entries, whatever the role.
- The roles are USER, ADMIN and EDITOR.
- The request session is present only when the session user carries both
  an id and a role (`AuthConfig.ContextSession`). The session callback
  always sets both from the token, and the routers only test whether a
  user is present, so this choice is stated rather than taken from code.
- The paging lemmas (`Catalogue.NextPageContinues`, `Catalogue.WalkIsRest`,
  `Catalogue.FullListing`) use one clock value, one table and one storage
  order for every page. Each real call reads the clock and the table
  again, so the lemmas assume no write between calls and the same order of
  rows with equal release dates on every call. An entry released or stored
  in between is not covered. If the order among equal dates changes
  between calls, a page boundary inside such a run can repeat or skip a
  row.
- The admin procedure's definition is not part of this model. Its
  behaviour is taken from its tests: no session is UNAUTHORIZED; a
  non-admin is FORBIDDEN with "Admin access required".

## Model

| member | source | states |
|---|---|---|
| Schemas.ParseRole | src/types/schemas.ts:4 | exactly "USER", "ADMIN" and "EDITOR" parse, each to its own role; the inverse of `RoleName` |
| Schemas.UserSchema | src/types/schemas.ts:8-16 | a user record is valid iff its id is a CUID, the username has 3 to 50 characters, the password at least 8, and the role is one of the three names |
| Schemas.CreateUserSchemaAsWritten | src/types/schemas.ts:21 | the user schema without `id`: username 3 to 50 characters, password at least 8, and a role that is one of the three names |
| Schemas.CreateUserSchema | src/types/schemas.ts:10-14 | the corrected signup schema: username 3 to 50 characters and password at least 8, with no role |
| Schemas.CreateUserSchemaOmitsId | src/types/schemas.ts:21 | for any valid id, an input passes the schema as written iff it has a role and the record it completes passes the user schema |
| Schemas.LoginUserSchema | src/types/schemas.ts:25-28 | both login fields have at least one character |
| Schemas.CreateMusicalSchema | src/types/schemas.ts:50-58 | a title of 1 to 100 characters, a description of at least 10 and a valid URL; any release date |
| Schemas.UpdateMusicalSchema | src/types/schemas.ts:63 | every present field meets its create constraint; absent fields are allowed |
| Schemas.MusicalIdSchema | src/types/schemas.ts:67-69 | the id is a CUID |
| Schemas.RoleRequiredAsWritten | src/types/schemas.ts:21 | the schema as written rejects the signup the user tests send (username and password, no role) |
| Schemas.SignupSchemaIgnoresRole | src/types/schemas.ts:10-14 | signup validity does not depend on the role; the test input passes; a 2-character username or a 5-character password fails |
| Schemas.AsWrittenImpliesCorrected | src/types/schemas.ts:21 | every input the schema as written accepts, the corrected schema accepts |
| Schemas.SignupCredentialsPassLogin | src/types/schemas.ts:25-28 | any credentials signup accepts also pass the login schema |
| Schemas.PatchSchemaIsPartialCreateSchema | src/types/schemas.ts:63 | a full patch is valid iff the create input is; the empty patch is valid |
| Schemas.ParseListQueryAsWritten | src/types/schemas.ts:74-82 | an omitted input is accepted as None; otherwise accepted iff the limit is absent or in 1..100; never carries a search text |
| Schemas.ParseListQuery | src/types/schemas.ts:74-82 | as above, and the parsed query keeps cursor and searchText, has limit 50 when omitted, and includeUnreleased false unless sent true |
| Schemas.EffectiveQuery | src/server/api/routers/musical.ts:121-124 | an omitted input means limit 50, no cursor, released only, no search text; a parsed input is used as is |
| Schemas.OmittedEqualsEmpty | src/types/schemas.ts:74-82 | an omitted input and an empty object give the same query |
| Schemas.SearchTextDroppedAsWritten | src/types/schemas.ts:74-82 | with the schema as written, a search text sent by the caller never reaches the handler |
| Schemas.SearchTextKept | src/server/api/routers/musical.ts:124 | with the corrected schema, the handler sees the search text the caller sent |
| Trpc.AdminGate | tests/unit/trpc/procedures.test.ts:96-123 | passes iff the session user is ADMIN; no session is UNAUTHORIZED; any other role is FORBIDDEN "Admin access required" |
| Trpc.GateRefusalsDiffer | tests/unit/trpc/procedures.test.ts:97-112 | a missing session and a non-admin session are refused with different codes |
| Storage.ApplyPatch | src/server/api/routers/musical.ts:57-60 | the entry that an update with a partial `data` produces |
| Storage.PatchChangesOnlyPresentFields | src/server/api/routers/musical.ts:57-60 | an update changes exactly the fields the patch carries; id, author and timestamps stay |
| Storage.PatchIdentityAndIdempotence | src/server/api/routers/musical.ts:57-60 | the empty patch changes nothing; applying a patch twice equals applying it once |
| Storage.PatchPreservesSchema | src/types/schemas.ts:63 | a valid patch keeps a valid entry valid |
| Storage.Filter | src/server/api/routers/musical.ts:135-147 | keeps exactly the matching rows |
| Storage.FilterKeepsOrder | src/server/api/routers/musical.ts:151 | filtering keeps the release-date order and the distinctness of ids |
| Storage.FindManyRows | src/server/api/routers/musical.ts:147-152 | at most `take` rows, each stored and matching; with a cursor, the first row is the cursor row |
| Storage.MusicalTable.FindUnique | src/server/api/routers/musical.ts:43-45 | returns the row with that id if there is one; logs one lookup |
| Storage.MusicalTable.FindMany | src/server/api/routers/musical.ts:147-152 | returns `FindManyRows` over the storage order; logs one query; changes no row |
| Storage.MusicalTable.Create | src/server/api/routers/musical.ts:24-29 | adds exactly the new row under the new id |
| Storage.MusicalTable.Update | src/server/api/routers/musical.ts:57-60 | replaces exactly that row by the patched row with a new update time |
| Storage.MusicalTable.Delete | src/server/api/routers/musical.ts:83-85 | removes exactly that row and returns it |
| Storage.UserTable.FindUnique | src/server/api/routers/user.ts:13-15 | returns the user with that username if there is one; logs one lookup |
| Storage.UserTable.Create | src/server/api/routers/user.ts:27-33 | adds exactly one user under a fresh username and id; keeps usernames and ids unique |
| Catalogue.CanReadEntry | src/server/api/routers/musical.ts:105-107 | an entry may be read when it is released or the caller is signed in |
| Catalogue.BuildWhere | src/server/api/routers/musical.ts:135-145 | the `where` object: a release-date bound unless unreleased entries were asked for, and a text condition when the search text is non-empty |
| Catalogue.ListSpec | src/server/api/routers/musical.ts:147-158 | the page the list endpoint returns: the fetch of `limit + 1` rows, then the pop |
| Catalogue.CursorArg | src/server/api/routers/musical.ts:150 | a cursor is passed on iff present and non-empty |
| Catalogue.WhereMeaning | src/server/api/routers/musical.ts:135-145 | a row passes the filter iff it is released (unless unreleased entries were asked for) and its title or description contains the search text; an empty search text admits all |
| Catalogue.PageOf | src/server/api/routers/musical.ts:154-158 | at most `limit` entries; a next cursor iff `limit + 1` rows came back, and then it is the id of the dropped last row |
| Catalogue.FetchIsFrontOfRest | src/server/api/routers/musical.ts:147-152 | the fetched rows are the first `limit + 1` rows of the filtered order from the starting row |
| Catalogue.PageIsRunOfFilter | src/server/api/routers/musical.ts:147-158 | a page is a run of consecutive filtered rows from the starting row; an unknown cursor gives an empty page |
| Catalogue.PageWithCursorShape | src/server/api/routers/musical.ts:147-158 | a page with a next cursor is `limit` rows from the start, and the cursor is the id of the row right after them |
| Catalogue.NextPageContinues | src/server/api/routers/musical.ts:147-163 | a page with a next cursor is full, and the page fetched with that cursor continues right after it: no gap, no duplicate |
| Catalogue.WalkIsRest | src/server/api/routers/musical.ts:147-163 | following next cursors until there is none yields exactly the filtered order from the starting row |
| Catalogue.FullListing | src/server/api/routers/musical.ts:135-163 | paging from no cursor returns every matching row of the table exactly once, newest first, and nothing else |
| Catalogue.PageProperties | src/server/api/routers/musical.ts:135-158 | every page has at most `limit` stored rows, newest first, each released unless asked otherwise, each containing the search text |
| Catalogue.PageSorted | src/server/api/routers/musical.ts:151 | every page is sorted by release date, newest first |
| MusicalRouter.CreateMusical | src/server/api/routers/musical.ts:18-30 | succeeds iff the caller is admin and the input is valid; stores exactly the input plus author and id; on error nothing is stored or called; keeps every stored entry valid |
| MusicalRouter.UpdateMusical | src/server/api/routers/musical.ts:33-61 | gate, then validation, then NOT_FOUND with only a lookup; on success only that entry changes, to the patched entry, which keeps its id; keeps every stored entry valid |
| MusicalRouter.DeleteMusical | src/server/api/routers/musical.ts:64-86 | gate, then validation, then NOT_FOUND with only a lookup; on success exactly that entry is removed and returned, with its id |
| MusicalRouter.GetMusical | src/server/api/routers/musical.ts:89-115 | Ok iff the id is a valid CUID, exists and may be read; the error is BAD_REQUEST, NOT_FOUND or FORBIDDEN in that order |
| MusicalRouter.ReadGateByRelease | src/server/api/routers/musical.ts:105-112 | a released entry reads the same for everyone; an unreleased one is refused to anonymous callers only |
| MusicalRouter.GetMusicals | src/server/api/routers/musical.ts:118-164 | validated by the corrected list schema of "## Findings": BAD_REQUEST for a rejected query; FORBIDDEN with no fetch for anonymous unreleased requests; otherwise exactly the specified page from one query: at most `limit` stored, matching rows, newest first |
| MusicalRouter.FetchPage | src/server/api/routers/musical.ts:133-163 | one query for `limit + 1` rows, then the pop, gives exactly the specified page, which keeps every page promise |
| MusicalRouter.PopIsPageOf | src/server/api/routers/musical.ts:154-158 | popping the last of `limit + 1` rows and taking its id as the cursor is the over-fetch step |
| UserRouter.PublicView | src/server/api/routers/user.ts:35-39 | the result is the stored id, username and role, with no password |
| UserRouter.NewUser | src/server/api/routers/user.ts:24-33 | the stored user has the given username, the new id, password `hash(password, 10)` and role USER |
| UserRouter.SignupResultIgnoresPassword | src/server/api/routers/user.ts:35-39 | the result of a signup does not depend on the password |
| UserRouter.SignupRoleIgnoresInput | src/server/api/routers/user.ts:31 | the stored role is USER whatever role the caller sent |
| UserRouter.Signup | src/server/api/routers/user.ts:8-40 | validated by the corrected signup schema of "## Findings": BAD_REQUEST with no call; CONFLICT with only a lookup and the table unchanged; otherwise exactly one more user, and the result is that user without the password |
| UserRouter.SignupTwice | tests/unit/routers/user.test.ts:70-84 | a second signup with the same username is a CONFLICT and leaves the first user in place |
| SignupRoute.Post | src/app/api/auth/signup/route.ts:5-59 | unparsable body 500; missing or empty field 400 with no call; existing username 409; any failure of lookup, hash or create 500; otherwise 201 with id, username and role USER, and exactly one more user, the same record `UserRouter.NewUser` builds for signup; only 201 changes the table |
| SignupRoute.RouteCheckWeakerThanSchema | src/app/api/auth/signup/route.ts:11-16 | the endpoint's check admits everything the signup schema admits, and also inputs it rejects |
| Middleware.IsEditRoute | src/middleware.ts:11 | after "/musicals/", a non-empty segment without '/' and then "/edit" |
| Middleware.EditRouteMatchesPattern | src/middleware.ts:11 | the scan accepts a path iff `^/musicals/[^/]+/edit` matches it |
| Middleware.GatedPaths | src/middleware.ts:10-11 | the create page, an edit page, and a path continuing after "/edit" are gated |
| Middleware.CreateSegmentEditIsGated | src/middleware.ts:11 | "/musicals/create/edit" is gated: "create" is read as an id |
| Middleware.UngatedPaths | src/middleware.ts:10-11 | an empty id segment, a deeper path, the create page with a trailing slash, and the list pages are not gated |
| Middleware.Decide | src/middleware.ts:7-31 | proceeds iff the path is not gated or the token's role is ADMIN; no token goes to /signin with callbackUrl `encodeURI(url)`; any other token goes to / |
| Middleware.UngatedIgnoresToken | src/middleware.ts:13-30 | on an ungated path the decision is `next` whatever the token |
| Middleware.IssuedTokenDecides | src/middleware.ts:19-26 | a token issued for an admin passes the gate; one issued for any other role is sent home |
| AuthConfig.Authorize | src/server/auth/config.ts:44-72 | an identity iff both credentials are non-empty, the username exists and `compare` accepts the password against the stored hash; it is the stored id, name, role, and `name@example.com` |
| AuthConfig.AuthorizedCredentialsPassLogin | src/server/auth/config.ts:45-47 | accepted credentials pass the login schema; the email is the name plus "@example.com" |
| AuthConfig.Jwt | src/server/auth/config.ts:76-82 | with a user, the token's id and role become the user's; without one they stay unchanged; other claims always stay |
| AuthConfig.SessionCallback | src/server/auth/config.ts:83-90 | the session's user id and role come from the token; all other fields are kept |
| AuthConfig.ContextSession | src/server/auth/config.ts:13-19 | a request session exists iff the session user has an id and a role, and it carries them |
| AuthConfig.SignIn | src/server/auth/config.ts:44-90 | a session iff authorize accepts; the resulting request session and fresh token carry the stored user's id and role |
| AuthConfig.SignedUpUserIsNotAdmin | src/server/api/routers/user.ts:27-33 | a user stored by either signup path signs in iff `compare` accepts the password against its own hash, and then has the USER role and is refused by the admin gate with FORBIDDEN; both paths store `UserRouter.NewUser`, the HTTP endpoint for the role-less input |
| AuthConfig.SignupThenAuthorize | src/server/auth/config.ts:49-71 | if `compare` accepts a password against its own hash, a user just created by signup can sign in, as a USER |

## Left out

- Input and output: the HTTP, RPC and JWT plumbing, `console.log` and
  `console.error`, and bcrypt's `hash` and `compare` are not modelled.
  Hashing, comparing and `encodeURI` are abstract function parameters.
- Storage:
  - the database is two in-memory maps;
  - ids and timestamps are parameters;
  - `createdAt` and `updatedAt` equal the write's time on create;
  - `updatedAt` is set to the write's time on update;
  - text search is a plain, case-sensitive substring test, whatever the
    database's collation.
- MusicalRouter.GetMusicals: `limit` is modelled as an integer. The
  schema's `z.number()` also admits fractions such as 2.5, which the model
  cannot express.
- MusicalRouter.GetMusicals: a cursor naming a row that is missing or
  filtered out yields an empty page. The database's own behaviour in that
  case is not modelled.
- MusicalRouter.GetMusicals: `releaseDateFrom` and `releaseDateTo` are
  accepted by the schema and ignored by the handler, and the model does
  the same.
- MusicalRouter.GetMusicals: validates with the corrected list schema
  (`Schemas.ParseListQuery`), which keeps `searchText`, not with the schema
  as written. As written, a search text never filters anything; see
  "## Findings".
- UserRouter.Signup: validates with the corrected signup schema
  (`Schemas.CreateUserSchema`), which does not require a role, not with the
  schema as written. As written, the role-less signup is BAD_REQUEST; see
  "## Findings".
- MusicalRouter.CreateMusical: requires that the new id is not already
  stored. That is what the storage's id generator guarantees, not a check
  the router makes.
- UserRouter.Signup and SignupRoute.Post: require that the new user id is
  not already stored (`Storage.UserTable.IdFresh`), for the same reason.
- Schemas: string lengths count characters, not UTF-16 code units.
  Validation messages are not modelled; every schema rejection is
  BAD_REQUEST "Invalid input".
- Concurrency: the check-then-act sequences assume that no other request
  runs between the lookup and the write. One example is signup's lookup,
  then create. A race that ends in a storage constraint error is not
  modelled for the RPC procedures; the HTTP endpoint's `CreateFails` fault
  covers its 500.
- UserRouter.Signup: failures of the hash or the storage propagate as
  internal errors and are not modelled. The HTTP endpoint models them
  (`Fault`).
- SignupRoute.Post and AuthConfig.Authorize: body and credential fields
  of non-string JSON types are not modelled. The source casts them to
  strings. A JSON `null` body is modelled like an unparsable one: both end in
  500.
- Middleware: the framework's `matcher` configuration is not modelled, so
  the decision is defined for every path. A redirect is modelled as a path
  and a `callbackUrl`, with the request's origin left implicit. How
  `getToken` decodes and checks the token is not modelled.
- The admin and public procedure definitions are not part of this model.
  Their behaviour comes from their tests.

## Findings

| source | as written | input that shows it | evidently intended | confidence | as-written member | corrected member |
|---|---|---|---|---|---|---|
| src/types/schemas.ts:74-82 | the list schema declares no `searchText`, and zod object schemas strip undeclared keys, so the handler's `input?.searchText` is always undefined and the text filter never applies | `getMusicals({ searchText: "Test" })` reaches the handler with no search text | the schema declares `searchText: z.string().optional()` | not executed | Schemas.SearchTextDroppedAsWritten | Schemas.SearchTextKept |
| src/types/schemas.ts:21 | `CreateUserSchema` omits only `id`, so `role` is still required, while signup ignores it and always stores USER | `signup({ username: "newuser", password: "password123" })`, the user tests' own input, is rejected with BAD_REQUEST | the schema omits `role` as well | not executed | Schemas.RoleRequiredAsWritten | Schemas.SignupSchemaIgnoresRole |
