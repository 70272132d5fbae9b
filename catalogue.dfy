/** The pure half of the musical router: who may see an unreleased entry,
    the filter the list endpoint builds, the over-fetch-by-one page step,
    and what paging with the returned cursor adds up to. */
module Catalogue {
  import opened Common
  import opened Schemas
  import opened Trpc
  import opened Storage

  // ------------------------------------------------------ read access

  /** An entry is unreleased while its release date is in the future. */
  predicate IsUnreleased(m: Musical, now: int)
  {
    m.releaseDate > now
  }

  /** Unreleased entries are for signed-in users, whatever their role. */
  predicate CanSeeUnreleased(session: Session)
  {
    session.Some?
  }

  predicate CanReadEntry(session: Session, m: Musical, now: int)
  {
    !IsUnreleased(m, now) || CanSeeUnreleased(session)
  }

  // ------------------------------------------------------- the filter

  /** `cursor ? { id: cursor } : undefined`: an empty cursor is no cursor. */
  function CursorArg(cursor: Option<string>): (c: Option<Id>)
    ensures c.Some? <==> Truthy(cursor)
    ensures c.Some? ==> c == cursor
  {
    if Truthy(cursor) then cursor else None
  }

  /** The `where` object: released-only unless unreleased entries were asked
      for, and the search text (when non-empty) in title OR description. */
  function BuildWhere(includeUnreleased: bool, searchText: Option<string>, now: int): Where
  {
    Where(if includeUnreleased then None else Some(now),
          if Truthy(searchText) then searchText else None)
  }

  /** What the filter admits, stated without the `where` encoding; an empty
      search text admits everything, as no search text does. */
  lemma WhereMeaning(includeUnreleased: bool, searchText: Option<string>, now: int, m: Musical)
    ensures Matches(BuildWhere(includeUnreleased, searchText, now), m) <==>
      && (includeUnreleased || !IsUnreleased(m, now))
      && (searchText.None? || Contains(m.title, searchText.value) || Contains(m.description, searchText.value))
  {
    if searchText == Some("") {
      EmptyTextOccurs(m.title);
    }
  }

  function WhereOf(q: ListQuery, now: int): Where
  {
    BuildWhere(q.includeUnreleased, q.searchText, now)
  }

  // ------------------------------------------------------------- pages

  datatype Page = Page(musicals: seq<Musical>, nextCursor: Option<Id>)

  /** The rows the list endpoint asks for: one more than the limit. */
  function Fetch(order: seq<Musical>, q: ListQuery, now: int): seq<Musical>
    requires ListQueryValid(q)
  {
    FindManyRows(order, WhereOf(q, now), CursorArg(q.cursor), q.limit + 1)
  }

  /** The over-fetch-by-one step: when the storage returned `limit + 1`
      rows, the last is dropped and its id is the next cursor. */
  function PageOf(fetched: seq<Musical>, limit: nat): (p: Page)
    requires |fetched| <= limit + 1
    ensures |p.musicals| <= limit
    ensures p.nextCursor.Some? <==> |fetched| == limit + 1
    ensures p.nextCursor.Some? ==> fetched == p.musicals + [fetched[limit]] && p.nextCursor.value == fetched[limit].id
    ensures p.nextCursor.None? ==> p.musicals == fetched
  {
    if |fetched| > limit then Page(fetched[..limit], Some(fetched[limit].id)) else Page(fetched, None)
  }

  /** The page the list endpoint returns for a valid query. */
  function ListSpec(order: seq<Musical>, q: ListQuery, now: int): Page
    requires ListQueryValid(q)
  {
    PageOf(Fetch(order, q, now), q.limit)
  }

  /** Everything from the query's starting row to the end of the filtered
      order: what this page and all the pages after it should cover. */
  function Rest(order: seq<Musical>, q: ListQuery, now: int): seq<Musical>
  {
    var s := Filter(order, WhereOf(q, now));
    match CursorStart(s, CursorArg(q.cursor))
    case None => []
    case Some(i) => s[i..]
  }

  /** The fetch is the front of the rest. */
  lemma FetchIsFrontOfRest(order: seq<Musical>, q: ListQuery, now: int)
    requires ListQueryValid(q)
    ensures Fetch(order, q, now) == Rest(order, q, now)[..Min(q.limit + 1, |Rest(order, q, now)|)]
  {
  }

  ghost predicate NonEmptyIds(order: seq<Musical>)
  {
    forall m :: m in order ==> m.id != ""
  }

  /** In a sequence with distinct ids, a row's id finds that row. */
  lemma IndexOfDistinct(s: seq<Musical>, k: nat)
    requires DistinctIds(s) && k < |s|
    ensures IndexOf(s, IdAt(s, k)) == Some(k)
  {
    var r := IndexOf(s, IdAt(s, k));
    assert r.Some? && r.value <= k;
    assert IdAt(s, r.value) == IdAt(s, k);
  }

  /** The rest of the filtered order from cursor `c`, whatever else the query says. */
  lemma RestFromCursor(order: seq<Musical>, q: ListQuery, now: int, c: Id)
    requires c != ""
    ensures var s := Filter(order, WhereOf(q, now));
      IndexOf(s, c).Some? ==> Rest(order, q.(cursor := Some(c)), now) == s[IndexOf(s, c).value..]
  {
    assert WhereOf(q.(cursor := Some(c)), now) == WhereOf(q, now);
  }

  /** A page that has a next cursor, in terms of the filtered order: the
      `limit` rows from the starting row, and the id of the row after them. */
  lemma PageWithCursorShape(order: seq<Musical>, q: ListQuery, now: int) returns (s: seq<Musical>, i: nat)
    requires ListQueryValid(q) && ListSpec(order, q, now).nextCursor.Some?
    ensures s == Filter(order, WhereOf(q, now))
    ensures CursorStart(s, CursorArg(q.cursor)) == Some(i)
    ensures i + q.limit < |s|
    ensures ListSpec(order, q, now) == Page(s[i..i + q.limit], Some(s[i + q.limit].id))
    ensures Rest(order, q, now) == s[i..]
  {
    s := Filter(order, WhereOf(q, now));
    var start := CursorStart(s, CursorArg(q.cursor));
    var r := Rest(order, q, now);
    FetchIsFrontOfRest(order, q, now);
    PageOfFront(r, q.limit, Fetch(order, q, now), ListSpec(order, q, now));
    assert start.Some? && r == s[start.value..];
    i := start.value;
    ShapeFromFront(s, i, q.limit, r, ListSpec(order, q, now));
  }

  lemma ShapeFromFront(s: seq<Musical>, i: nat, n: nat, r: seq<Musical>, p: Page)
    requires i <= |s| && r == s[i..] && n < |r| && p == Page(r[..n], Some(r[n].id))
    ensures i + n < |s| && p == Page(s[i..i + n], Some(s[i + n].id))
  {
    SuffixIndexing(s, i, n);
  }

  /** The over-fetch step on the front of a run `r`: the page is a prefix
      of `r`; with a next cursor it is the first `n` rows and the cursor is
      the id of the row after them. */
  lemma PageOfFront(r: seq<Musical>, n: nat, f: seq<Musical>, p: Page)
    requires f == r[..Min(n + 1, |r|)] && p == PageOf(f, n)
    ensures |p.musicals| <= |r| && p.musicals == r[..|p.musicals|]
    ensures p.nextCursor.Some? ==> n < |r| && p == Page(r[..n], Some(r[n].id))
    ensures r == [] ==> p.nextCursor.None?
  {
    if p.nextCursor.Some? {
      assert f[..n] == r[..n];
    }
  }

  lemma SuffixIndexing(s: seq<Musical>, i: nat, n: nat)
    requires i + n < |s|
    ensures s[i..][..n] == s[i..i + n] && s[i..][n] == s[i + n]
  {
  }

  lemma SuffixPrefix(s: seq<Musical>, i: nat, k: nat)
    requires i + k <= |s|
    ensures s[i..][..k] == s[i..i + k]
  {
  }

  /** A page with a next cursor holds exactly `limit` entries, and the call
      with that cursor starts at the dropped row: the two pages are
      contiguous, with no skip and no duplicate. */
  lemma {:induction false} NextPageContinues(order: seq<Musical>, q: ListQuery, now: int)
    requires ListQueryValid(q) && DistinctIds(order) && NonEmptyIds(order)
    requires ListSpec(order, q, now).nextCursor.Some?
    ensures var p := ListSpec(order, q, now);
      && |p.musicals| == q.limit
      && Rest(order, q, now) == p.musicals + Rest(order, q.(cursor := p.nextCursor), now)
  {
    var s, i := PageWithCursorShape(order, q, now);
    var n := q.limit;
    var c := s[i + n].id;
    FilteredIdNonEmpty(order, WhereOf(q, now), i + n);
    FilterKeepsOrder(order, WhereOf(q, now));
    IndexOfDistinct(s, i + n);
    RestFromCursor(order, q, now, c);
    ContinueRun(s, i, n, ListSpec(order, q, now), Rest(order, q, now), Rest(order, q.(cursor := Some(c)), now));
  }

  lemma FilteredIdNonEmpty(order: seq<Musical>, w: Where, k: nat)
    requires NonEmptyIds(order) && k < |Filter(order, w)|
    ensures IdAt(Filter(order, w), k) != ""
  {
    assert Filter(order, w)[k] in order;
  }

  /** A run from `i` is its first `n` rows followed by the rest. */
  lemma ContinueRun(s: seq<Musical>, i: nat, n: nat, page: Page, rest: seq<Musical>, after: seq<Musical>)
    requires i + n < |s| && page == Page(s[i..i + n], Some(s[i + n].id))
    requires rest == s[i..] && after == s[i + n..]
    ensures |page.musicals| == n && rest == page.musicals + after
  {
  }

  /** All the pages from a query on, following each next cursor until there
      is none, concatenated. */
  function Walk(order: seq<Musical>, q: ListQuery, now: int): seq<Musical>
    requires ListQueryValid(q) && DistinctIds(order) && NonEmptyIds(order)
    decreases |Rest(order, q, now)|
  {
    var p := ListSpec(order, q, now);
    if p.nextCursor.None? then p.musicals
    else
      NextPageContinues(order, q, now);
      p.musicals + Walk(order, q.(cursor := p.nextCursor), now)
  }

  /** Following the cursors covers exactly the rest of the filtered order. */
  lemma {:induction false} WalkIsRest(order: seq<Musical>, q: ListQuery, now: int)
    requires ListQueryValid(q) && DistinctIds(order) && NonEmptyIds(order)
    ensures Walk(order, q, now) == Rest(order, q, now)
    decreases |Rest(order, q, now)|
  {
    var p := ListSpec(order, q, now);
    FetchIsFrontOfRest(order, q, now);
    if p.nextCursor.Some? {
      NextPageContinues(order, q, now);
      WalkIsRest(order, q.(cursor := p.nextCursor), now);
    }
  }

  /** Paging from the first page (no cursor) to the last returns every
      entry of the table that passes the filter, each exactly once, in
      release-date order, newest first. */
  lemma FullListing(table: map<Id, Musical>, order: seq<Musical>, q: ListQuery, now: int)
    requires OrderedView(table, order) && NonEmptyIds(order)
    requires ListQueryValid(q) && q.cursor.None?
    ensures var all := Walk(order, q, now);
      && DistinctIds(all)
      && SortedByReleaseDesc(all)
      && (forall id :: id in table && Matches(WhereOf(q, now), table[id]) ==> table[id] in all)
      && (forall m :: m in all ==> m.id in table && table[m.id] == m && Matches(WhereOf(q, now), m))
  {
    WalkIsRest(order, q, now);
    FilterKeepsOrder(order, WhereOf(q, now));
    assert Walk(order, q, now) == Filter(order, WhereOf(q, now));
  }

  /** A page is a run of consecutive rows of the filtered order, from the
      starting row on. */
  lemma PageIsRunOfFilter(order: seq<Musical>, q: ListQuery, now: int)
    requires ListQueryValid(q)
    ensures var s := Filter(order, WhereOf(q, now));
      var start := CursorStart(s, CursorArg(q.cursor));
      var p := ListSpec(order, q, now);
      && (start.None? ==> p.musicals == [])
      && (start.Some? ==> start.value + |p.musicals| <= |s| && p.musicals == s[start.value..start.value + |p.musicals|])
  {
    var s := Filter(order, WhereOf(q, now));
    var start := CursorStart(s, CursorArg(q.cursor));
    var r := Rest(order, q, now);
    var p := ListSpec(order, q, now);
    FetchIsFrontOfRest(order, q, now);
    PageOfFront(r, q.limit, Fetch(order, q, now), p);
    if start.Some? {
      SuffixPrefix(s, start.value, |p.musicals|);
    }
  }

  lemma SliceKeepsOrder(s: seq<Musical>, a: nat, b: nat)
    requires a <= b <= |s| && SortedByReleaseDesc(s)
    ensures SortedByReleaseDesc(s[a..b])
  {
    forall x: nat, y: nat | x < y < b - a
      ensures DateAt(s[a..b], x) == DateAt(s, a + x) && DateAt(s[a..b], y) == DateAt(s, a + y)
    {
    }
  }

  /** What every page promises: at most `limit` entries of the table,
      newest first, each released unless unreleased entries were asked
      for, each containing the search text in its title or description. */
  ghost predicate PageMeets(table: map<Id, Musical>, q: ListQuery, now: int, p: Page)
  {
    && |p.musicals| <= q.limit
    && SortedByReleaseDesc(p.musicals)
    && (forall m :: m in p.musicals ==>
          && m.id in table && table[m.id] == m
          && (q.includeUnreleased || !IsUnreleased(m, now))
          && (q.searchText.None? || Contains(m.title, q.searchText.value) || Contains(m.description, q.searchText.value)))
  }

  /** Every page is a run of the filtered order, so it keeps those promises. */
  lemma PageProperties(table: map<Id, Musical>, order: seq<Musical>, q: ListQuery, now: int)
    requires OrderedView(table, order) && ListQueryValid(q)
    ensures PageMeets(table, q, now, ListSpec(order, q, now))
  {
    var p := ListSpec(order, q, now);
    var f := Fetch(order, q, now);
    assert forall m :: m in p.musicals ==> m in f;
    forall m | m in p.musicals
      ensures m.id in table && table[m.id] == m
      ensures q.includeUnreleased || !IsUnreleased(m, now)
      ensures q.searchText.None? || Contains(m.title, q.searchText.value) || Contains(m.description, q.searchText.value)
    {
      assert m in order && Matches(WhereOf(q, now), m);
      RowOfView(table, order, m);
      WhereMeaning(q.includeUnreleased, q.searchText, now, m);
    }
    PageSorted(order, q, now);
  }

  lemma PageSorted(order: seq<Musical>, q: ListQuery, now: int)
    requires SortedByReleaseDesc(order) && ListQueryValid(q)
    ensures SortedByReleaseDesc(ListSpec(order, q, now).musicals)
  {
    var s := Filter(order, WhereOf(q, now));
    var r := Rest(order, q, now);
    var run := ListSpec(order, q, now).musicals;
    FetchIsFrontOfRest(order, q, now);
    PageOfFront(r, q.limit, Fetch(order, q, now), ListSpec(order, q, now));
    FilterKeepsOrder(order, WhereOf(q, now));
    RestKeepsOrder(s, CursorStart(s, CursorArg(q.cursor)), r);
    SliceKeepsOrder(r, 0, |run|);
    assert r[0..|run|] == run;
  }

  lemma RestKeepsOrder(s: seq<Musical>, start: Option<nat>, r: seq<Musical>)
    requires SortedByReleaseDesc(s)
    requires start.None? ==> r == []
    requires start.Some? ==> start.value <= |s| && r == s[start.value..]
    ensures SortedByReleaseDesc(r)
  {
    if start.Some? {
      SliceKeepsOrder(s, start.value, |s|);
      assert s[start.value..|s|] == r;
    }
  }
}
