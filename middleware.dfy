/** The request middleware that guards the admin pages: the create page
    and any edit page. A gated request without a token is sent to the
    sign-in page with the original URL as `callbackUrl`; one whose token
    is not an admin's is sent home; everything else proceeds. `encodeUri`
    stands for JavaScript's `encodeURI`. */
module Middleware {
  import opened Common
  import opened Schemas
  import opened AuthConfig

  const CreateRoute := "/musicals/create"
  const MusicalsPrefix := "/musicals/"
  const EditSuffix := "/edit"
  const SigninPage := "/signin"
  const HomePage := "/"

  predicate StartsWith(s: string, prefix: string)
  {
    |prefix| <= |s| && s[..|prefix|] == prefix
  }

  /** The first index at or after `i` holding '/', or `|s|` if none. */
  function SegmentEnd(s: string, i: nat): (j: nat)
    requires i <= |s|
    ensures i <= j <= |s|
    ensures forall k :: i <= k < j ==> s[k] != '/'
    ensures j < |s| ==> s[j] == '/'
    decreases |s| - i
  {
    if i == |s| || s[i] == '/' then i else SegmentEnd(s, i + 1)
  }

  predicate IsCreateRoute(path: string)
  {
    path == CreateRoute
  }

  /** The edit-route test, read as the scan the regular expression performs:
      after "/musicals/", a non-empty run of non-'/' characters up to the
      next '/', and "/edit" starting there. */
  predicate IsEditRoute(path: string)
  {
    && StartsWith(path, MusicalsPrefix)
    && var e := SegmentEnd(path, |MusicalsPrefix|);
       e > |MusicalsPrefix| && StartsWith(path[e..], EditSuffix)
  }

  /** `^/musicals/[^/]+/edit` matches with the `[^/]+` part ending at `k`. */
  ghost predicate EditMatchAt(path: string, k: int)
  {
    && StartsWith(path, MusicalsPrefix)
    && |MusicalsPrefix| < k <= |path|
    && (forall j :: |MusicalsPrefix| <= j < k ==> path[j] != '/')
    && StartsWith(path[k..], EditSuffix)
  }

  /** The regular expression matches somewhere at the start of `path`; no
      end anchor, so anything may follow "/edit". */
  ghost predicate MatchesEditPattern(path: string)
  {
    exists k :: EditMatchAt(path, k)
  }

  /** The scan and the regular expression accept the same paths. */
  lemma EditRouteMatchesPattern(path: string)
    ensures IsEditRoute(path) <==> MatchesEditPattern(path)
  {
    if IsEditRoute(path) {
      assert EditMatchAt(path, SegmentEnd(path, |MusicalsPrefix|));
    }
    if MatchesEditPattern(path) {
      var k :| EditMatchAt(path, k);
      var e := SegmentEnd(path, |MusicalsPrefix|);
      assert !(e < k) by {
        assert e < |path| ==> path[e] == '/';
      }
      assert path[k..][0] == '/';
      assert !(k < e);
      assert e == k;
    }
  }

  predicate IsGated(path: string)
  {
    IsCreateRoute(path) || IsEditRoute(path)
  }

  /** Only a token whose role is present, non-empty and ADMIN opens an
      admin page. */
  predicate IsAdminToken(token: Option<JwtClaims>)
  {
    token.Some? && Truthy(token.value.role) && token.value.role.value == RoleName(ADMIN)
  }

  datatype Decision =
    | Next
    /** A redirect to `path` on the request's own origin, with an optional
        `callbackUrl` search parameter. */
    | Redirect(path: string, callbackUrl: Option<string>)

  function Decide(path: string, requestUrl: string, token: Option<JwtClaims>, encodeUri: string -> string): (d: Decision)
    ensures d == Next <==> !IsGated(path) || IsAdminToken(token)
    ensures IsGated(path) && token.None? ==> d == Redirect(SigninPage, Some(encodeUri(requestUrl)))
    ensures IsGated(path) && token.Some? && !IsAdminToken(token) ==> d == Redirect(HomePage, None)
  {
    var isCreateRoute := path == CreateRoute;
    var isEditRoute := IsEditRoute(path);
    if isCreateRoute || isEditRoute then
      if !Truthy(if token.Some? then token.value.role else None) || token.value.role.value != RoleName(ADMIN) then
        if token.None? then Redirect(SigninPage, Some(encodeUri(requestUrl)))
        else Redirect(HomePage, None)
      else Next
    else Next
  }

  /** An ungated path proceeds whatever the token, so its token need not be
      read at all. */
  lemma UngatedIgnoresToken(path: string, requestUrl: string, t1: Option<JwtClaims>, t2: Option<JwtClaims>, encodeUri: string -> string)
    requires !IsGated(path)
    ensures Decide(path, requestUrl, t1, encodeUri) == Decide(path, requestUrl, t2, encodeUri) == Next
  {
  }

  /** Gated paths: the create page exactly, any edit page, and (no end
      anchor) anything continuing after "/edit". */
  lemma GatedPaths()
    ensures IsGated("/musicals/create")
    ensures IsGated("/musicals/abc/edit")
    ensures IsGated("/musicals/abc/editor")
  {
    assert SegmentEnd("/musicals/abc/edit", 10) == 13;
    assert SegmentEnd("/musicals/abc/editor", 10) == 13;
  }

  /** An id segment that happens to read "create" is still an id. */
  lemma CreateSegmentEditIsGated()
    ensures IsGated("/musicals/create/edit")
  {
    assert SegmentEnd("/musicals/create/edit", 10) == 16;
  }

  /** Paths that are not gated: an empty id segment, a deeper path, a
      trailing slash after the create page, and the list pages. */
  lemma UngatedPaths()
    ensures !IsGated("/musicals//edit")
    ensures !IsGated("/musicals/a/b/edit")
    ensures !IsGated("/musicals/abc")
    ensures !IsGated("/musicals")
    ensures !IsGated("/musicals/create/")
  {
    assert SegmentEnd("/musicals//edit", 10) == 10;
    assert SegmentEnd("/musicals/a/b/edit", 10) == 11;
    assert "/musicals/a/b/edit"[11..][1] == 'b';
    assert SegmentEnd("/musicals/abc", 10) == 13;
    assert SegmentEnd("/musicals/create/", 10) == 16;
  }

  /** A token the `jwt` callback issued for an admin opens the admin
      pages; one issued for any other role is sent home. */
  lemma IssuedTokenDecides(path: string, requestUrl: string, user: AuthUser, encodeUri: string -> string)
    requires IsGated(path)
    ensures user.role == RoleName(ADMIN) ==>
      Decide(path, requestUrl, Some(JwtClaims(Some(user.id), Some(user.role))), encodeUri) == Next
    ensures user.role != RoleName(ADMIN) ==>
      Decide(path, requestUrl, Some(JwtClaims(Some(user.id), Some(user.role))), encodeUri) == Redirect(HomePage, None)
  {
  }
}
