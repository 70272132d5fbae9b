/** The storage collaborator, reduced to what the routers rely on: a
    musical table and a user table held in memory, each with a log of the
    calls made to it, and the `findMany` query over musicals (filter, order
    by release date descending, start at the cursor row, take n). */
module Storage {
  import opened Common
  import opened Schemas

  /** A catalogue entry. Dates and timestamps are integers. */
  datatype Musical = Musical(
    id: Id,
    title: string,
    description: string,
    posterUrl: string,
    releaseDate: int,
    createdBy: string,
    createdAt: int,
    updatedAt: int)

  /** The row the storage creates from create-musical data; `stamp` is the
      storage's clock at the write. */
  function FromInput(data: MusicalInput, createdBy: string, id: Id, stamp: int): Musical
  {
    Musical(id, data.title, data.description, data.posterUrl, data.releaseDate, createdBy, stamp, stamp)
  }

  /** The fields of an entry that the create schema constrains. */
  function InputOf(m: Musical): MusicalInput
  {
    MusicalInput(m.title, m.description, m.posterUrl, m.releaseDate)
  }

  /** An update with a partial patch: absent fields are left as they are. */
  function ApplyPatch(m: Musical, p: MusicalPatch): Musical
  {
    m.(title := GetOr(p.title, m.title),
       description := GetOr(p.description, m.description),
       posterUrl := GetOr(p.posterUrl, m.posterUrl),
       releaseDate := GetOr(p.releaseDate, m.releaseDate))
  }

  /** A patch changes exactly the fields it carries; identity, author and
      timestamps are never among them. */
  lemma PatchChangesOnlyPresentFields(m: Musical, p: MusicalPatch)
    ensures var r := ApplyPatch(m, p);
      && r.id == m.id && r.createdBy == m.createdBy
      && r.createdAt == m.createdAt && r.updatedAt == m.updatedAt
      && (p.title.Some? ==> r.title == p.title.value) && (p.title.None? ==> r.title == m.title)
      && (p.description.Some? ==> r.description == p.description.value)
      && (p.description.None? ==> r.description == m.description)
      && (p.posterUrl.Some? ==> r.posterUrl == p.posterUrl.value) && (p.posterUrl.None? ==> r.posterUrl == m.posterUrl)
      && (p.releaseDate.Some? ==> r.releaseDate == p.releaseDate.value)
      && (p.releaseDate.None? ==> r.releaseDate == m.releaseDate)
  {
  }

  /** The empty patch changes nothing, and applying a patch twice is the
      same as applying it once. */
  lemma PatchIdentityAndIdempotence(m: Musical, p: MusicalPatch)
    ensures ApplyPatch(m, EmptyPatch) == m
    ensures ApplyPatch(ApplyPatch(m, p), p) == ApplyPatch(m, p)
  {
  }

  /** A valid patch keeps a valid entry valid. */
  lemma PatchPreservesSchema(v: Validators, m: Musical, p: MusicalPatch)
    requires CreateMusicalSchema(v, InputOf(m)) && UpdateMusicalSchema(v, p)
    ensures CreateMusicalSchema(v, InputOf(ApplyPatch(m, p)))
  {
  }

  // ------------------------------------------------------------ findMany

  /** The filter `findMany` accepts: an optional upper bound on the release
      date and an optional text that title or description must contain. */
  datatype Where = Where(releaseDateLte: Option<int>, text: Option<string>)

  predicate Matches(w: Where, m: Musical)
  {
    && (w.releaseDateLte.None? || m.releaseDate <= w.releaseDateLte.value)
    && (w.text.None? || Contains(m.title, w.text.value) || Contains(m.description, w.text.value))
  }

  /** The id and the release date of the row at `i`. They name the terms the
      quantifiers below are triggered on, so that those quantifiers do not
      fire on every row a proof mentions. */
  function IdAt(rows: seq<Musical>, i: nat): Id
    requires i < |rows|
  {
    rows[i].id
  }

  function DateAt(rows: seq<Musical>, i: nat): int
    requires i < |rows|
  {
    rows[i].releaseDate
  }

  ghost predicate DistinctIds(rows: seq<Musical>)
  {
    forall i: nat, j: nat :: i < j < |rows| ==> IdAt(rows, i) != IdAt(rows, j)
  }

  ghost predicate SortedByReleaseDesc(rows: seq<Musical>)
  {
    forall i: nat, j: nat :: i < j < |rows| ==> DateAt(rows, i) >= DateAt(rows, j)
  }

  /** `order` lists the rows of `table`, each once, newest release first.
      The order among equal release dates is the storage's choice. */
  ghost predicate OrderedView(table: map<Id, Musical>, order: seq<Musical>)
  {
    && DistinctIds(order)
    && SortedByReleaseDesc(order)
    && (forall i: nat :: i < |order| ==> IdAt(order, i) in table && table[IdAt(order, i)] == order[i])
    && (forall id :: id in table ==> table[id] in order)
  }

  /** A row of the ordered view is the table's row under its id. */
  lemma RowOfView(table: map<Id, Musical>, order: seq<Musical>, m: Musical)
    requires OrderedView(table, order) && m in order
    ensures m.id in table && table[m.id] == m
  {
    var i :| 0 <= i < |order| && order[i] == m;
    assert IdAt(order, i) == m.id;
  }

  /** The rows that match, in their original order. */
  function Filter(rows: seq<Musical>, w: Where): (r: seq<Musical>)
    ensures forall m :: m in r <==> m in rows && Matches(w, m)
  {
    if rows == [] then []
    else
      var tail := Filter(rows[1..], w);
      if Matches(w, rows[0]) then [rows[0]] + tail else tail
  }

  /** Filtering keeps the release-date order and the distinctness of ids. */
  lemma {:induction false} FilterKeepsOrder(rows: seq<Musical>, w: Where)
    ensures SortedByReleaseDesc(rows) ==> SortedByReleaseDesc(Filter(rows, w))
    ensures DistinctIds(rows) ==> DistinctIds(Filter(rows, w))
    decreases |rows|
  {
    if rows != [] {
      TailKeepsOrder(rows);
      FilterKeepsOrder(rows[1..], w);
      if Matches(w, rows[0]) {
        ConsKeepsOrder(rows, Filter(rows[1..], w));
      }
    }
  }

  /** Dropping the first row keeps the order and the distinctness of ids. */
  lemma TailKeepsOrder(rows: seq<Musical>)
    requires |rows| > 0
    ensures SortedByReleaseDesc(rows) ==> SortedByReleaseDesc(rows[1..])
    ensures DistinctIds(rows) ==> DistinctIds(rows[1..])
  {
    forall a: nat, b: nat | a < b < |rows| - 1
      ensures IdAt(rows[1..], a) == IdAt(rows, a + 1) && IdAt(rows[1..], b) == IdAt(rows, b + 1)
      ensures DateAt(rows[1..], a) == DateAt(rows, a + 1) && DateAt(rows[1..], b) == DateAt(rows, b + 1)
    {
    }
  }

  /** Putting the first row in front of rows drawn from the rest keeps the
      order and the distinctness of ids. */
  lemma ConsKeepsOrder(rows: seq<Musical>, tail: seq<Musical>)
    requires |rows| > 0
    requires forall m :: m in tail ==> m in rows[1..]
    ensures SortedByReleaseDesc(rows) && SortedByReleaseDesc(tail) ==> SortedByReleaseDesc([rows[0]] + tail)
    ensures DistinctIds(rows) && DistinctIds(tail) ==> DistinctIds([rows[0]] + tail)
  {
    var r := [rows[0]] + tail;
    forall k: nat | 0 < k < |r|
      ensures DistinctIds(rows) ==> IdAt(r, 0) != IdAt(r, k)
      ensures SortedByReleaseDesc(rows) ==> DateAt(r, 0) >= DateAt(r, k)
    {
      assert r[k] == tail[k - 1];
      assert tail[k - 1] in rows[1..];
      var j :| 0 <= j < |rows| - 1 && rows[1..][j] == tail[k - 1];
      assert IdAt(rows, j + 1) == IdAt(r, k) && IdAt(rows, 0) == IdAt(r, 0);
      assert DateAt(rows, j + 1) == DateAt(r, k) && DateAt(rows, 0) == DateAt(r, 0);
    }
    forall a: nat, b: nat | 0 < a < b < |r|
      ensures IdAt(r, a) == IdAt(tail, a - 1) && IdAt(r, b) == IdAt(tail, b - 1)
      ensures DateAt(r, a) == DateAt(tail, a - 1) && DateAt(r, b) == DateAt(tail, b - 1)
    {
    }
  }

  /** The first position of the row with that id, if any. */
  function IndexOf(s: seq<Musical>, id: Id): (r: Option<nat>)
    ensures r.Some? ==> r.value < |s| && s[r.value].id == id
    ensures r.Some? ==> forall j: nat :: j < r.value ==> IdAt(s, j) != id
    ensures r.None? ==> forall j: nat :: j < |s| ==> IdAt(s, j) != id
  {
    if s == [] then None
    else if s[0].id == id then Some(0)
    else
      IdAtTail(s);
      match IndexOf(s[1..], id)
      case None => None
      case Some(k) => Some(k + 1)
  }

  lemma IdAtTail(s: seq<Musical>)
    requires |s| > 0
    ensures forall j: nat :: 0 < j < |s| ==> IdAt(s, j) == IdAt(s[1..], j - 1)
  {
  }

  /** Where a page starts: the beginning, or the cursor row itself. */
  function CursorStart(s: seq<Musical>, cursor: Option<Id>): (r: Option<nat>)
    ensures cursor.None? ==> r == Some(0)
    ensures cursor.Some? && r.Some? ==> r.value < |s| && s[r.value].id == cursor.value
    ensures cursor.Some? && r.None? ==> forall j: nat :: j < |s| ==> IdAt(s, j) != cursor.value
  {
    if cursor.None? then Some(0) else IndexOf(s, cursor.value)
  }

  /** `findMany({where, take, cursor, orderBy: releaseDate desc})`: the
      matching rows in storage order, starting AT the cursor row (no skip),
      at most `take` of them. A cursor that names no matching row yields
      no rows. */
  function FindManyRows(order: seq<Musical>, w: Where, cursor: Option<Id>, take: nat): (r: seq<Musical>)
    ensures |r| <= take
    ensures forall m :: m in r ==> m in order && Matches(w, m)
    ensures cursor.Some? && r != [] ==> r[0].id == cursor.value
  {
    var s := Filter(order, w);
    match CursorStart(s, cursor)
    case None => []
    case Some(i) => s[i..i + Min(take, |s| - i)]
  }

  datatype MusicalCall =
    | Lookup(id: Id)
    | Query
    | Insert(id: Id)
    | Change(id: Id)
    | Remove(id: Id)

  /** The musical table: rows keyed by id, and the calls made so far. */
  class MusicalTable {
    var musicals: map<Id, Musical>
    ghost var calls: seq<MusicalCall>

    ghost predicate Valid()
      reads this
    {
      forall id :: id in musicals ==> musicals[id].id == id
    }

    constructor ()
      ensures Valid() && musicals == map[] && calls == []
    {
      musicals := map[];
      calls := [];
    }

    method FindUnique(id: Id) returns (m: Option<Musical>)
      modifies this`calls
      ensures m == (if id in musicals then Some(musicals[id]) else None)
      ensures calls == old(calls) + [Lookup(id)]
    {
      m := if id in musicals then Some(musicals[id]) else None;
      calls := calls + [Lookup(id)];
    }

    method FindMany(order: seq<Musical>, w: Where, cursor: Option<Id>, take: nat) returns (rows: seq<Musical>)
      requires OrderedView(musicals, order)
      modifies this`calls
      ensures rows == FindManyRows(order, w, cursor, take)
      ensures calls == old(calls) + [Query]
    {
      rows := FindManyRows(order, w, cursor, take);
      calls := calls + [Query];
    }

    /** `id` comes from the storage's id generator, which never repeats. */
    method Create(data: MusicalInput, createdBy: string, id: Id, stamp: int) returns (m: Musical)
      requires Valid() && id !in musicals
      modifies this
      ensures Valid()
      ensures m == FromInput(data, createdBy, id, stamp)
      ensures musicals == old(musicals)[id := m]
      ensures calls == old(calls) + [Insert(id)]
    {
      m := FromInput(data, createdBy, id, stamp);
      musicals := musicals[id := m];
      calls := calls + [Insert(id)];
    }

    method Update(id: Id, patch: MusicalPatch, stamp: int) returns (m: Musical)
      requires Valid() && id in musicals
      modifies this
      ensures Valid()
      ensures m == ApplyPatch(old(musicals)[id], patch).(updatedAt := stamp)
      ensures musicals == old(musicals)[id := m]
      ensures calls == old(calls) + [Change(id)]
    {
      m := ApplyPatch(musicals[id], patch).(updatedAt := stamp);
      musicals := musicals[id := m];
      calls := calls + [Change(id)];
    }

    method Delete(id: Id) returns (m: Musical)
      requires Valid() && id in musicals
      modifies this
      ensures Valid()
      ensures m == old(musicals)[id]
      ensures musicals == old(musicals) - {id}
      ensures calls == old(calls) + [Remove(id)]
    {
      m := musicals[id];
      musicals := musicals - {id};
      calls := calls + [Remove(id)];
    }
  }

  // --------------------------------------------------------------- users

  /** The bcrypt cost factor both signup paths hash passwords with. */
  const SaltRounds := 10

  /** A stored user; `password` holds the password hash. */
  datatype User = User(id: string, username: string, password: string, role: string)

  datatype UserCall = UserLookup(username: string) | UserInsert(username: string)

  /** The user table, keyed by the unique username. */
  class UserTable {
    var users: map<string, User>
    ghost var calls: seq<UserCall>

    ghost predicate Valid()
      reads this
    {
      && (forall u :: u in users ==> users[u].username == u)
      && (forall a, b :: a in users && b in users && a != b ==> users[a].id != users[b].id)
    }

    /** `id` is not the id of any stored user. */
    predicate IdFresh(id: string)
      reads this
    {
      forall u :: u in users ==> users[u].id != id
    }

    constructor ()
      ensures Valid() && users == map[] && calls == []
    {
      users := map[];
      calls := [];
    }

    method FindUnique(username: string) returns (u: Option<User>)
      modifies this`calls
      ensures u == (if username in users then Some(users[username]) else None)
      ensures calls == old(calls) + [UserLookup(username)]
    {
      u := if username in users then Some(users[username]) else None;
      calls := calls + [UserLookup(username)];
    }

    method Create(username: string, password: string, role: string, id: string) returns (u: User)
      requires Valid() && username !in users && IdFresh(id)
      modifies this
      ensures Valid()
      ensures u == User(id, username, password, role)
      ensures users == old(users)[username := u]
      ensures |users| == |old(users)| + 1
      ensures calls == old(calls) + [UserInsert(username)]
    {
      u := User(id, username, password, role);
      users := users[username := u];
      calls := calls + [UserInsert(username)];
    }
  }
}
