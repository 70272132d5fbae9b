/** The musical router's procedures: admin-only create, update and delete
    with their existence checks, the release-date gate on single reads,
    and the paged list. Each receives the storage handle `db`, the
    caller's session and, where it matters, the current time `now`. */
module MusicalRouter {
  import opened Common
  import opened Schemas
  import opened Trpc
  import opened Storage
  import opened Catalogue

  const MusicalNotFound := TrpcError(NOT_FOUND, "Musical not found")
  const NotReleasedYet := TrpcError(FORBIDDEN, "This musical has not been released yet")
  const UnreleasedListForbidden := TrpcError(FORBIDDEN, "Only authenticated users can view unreleased musicals")

  /** Every stored entry passes the create schema. */
  ghost predicate AllEntriesValid(v: Validators, table: map<Id, Musical>)
  {
    forall id :: id in table ==> CreateMusicalSchema(v, InputOf(table[id]))
  }

  /** `createMusical`: admins only; stores the input's fields with the
      caller as author. `newId` and `stamp` are the id and the time the
      storage assigns. */
  method CreateMusical(db: MusicalTable, session: Session, input: MusicalInput, v: Validators, newId: Id, stamp: int)
    returns (r: Result<Musical>)
    requires db.Valid() && newId !in db.musicals
    modifies db
    ensures db.Valid()
    ensures r.Ok? <==> CanWrite(session) && CreateMusicalSchema(v, input)
    ensures !CanWrite(session) ==> r == Err(AdminGate(session).value)
    ensures CanWrite(session) && !CreateMusicalSchema(v, input) ==> r == Err(InvalidInput)
    ensures r.Err? ==> db.musicals == old(db.musicals) && db.calls == old(db.calls)
    ensures r.Ok? ==>
      && r.value.id == newId
      && r.value.title == input.title && r.value.description == input.description
      && r.value.posterUrl == input.posterUrl && r.value.releaseDate == input.releaseDate
      && r.value.createdBy == session.value.id
      && db.musicals == old(db.musicals)[newId := r.value]
      && db.calls == old(db.calls) + [Insert(newId)]
    ensures AllEntriesValid(v, old(db.musicals)) ==> AllEntriesValid(v, db.musicals)
  {
    var gate := AdminGate(session);
    if gate.Some? {
      return Err(gate.value);
    }
    if !CreateMusicalSchema(v, input) {
      return Err(InvalidInput);
    }
    var m := db.Create(input, session.value.id, newId, stamp);
    return Ok(m);
  }

  /** `updateMusical`: admins only; a missing id is NOT_FOUND and nothing is
      written; otherwise only the fields present in the patch change (and
      the storage's update time), and no other entry changes. */
  method UpdateMusical(db: MusicalTable, session: Session, id: Id, patch: MusicalPatch, v: Validators, stamp: int)
    returns (r: Result<Musical>)
    requires db.Valid()
    modifies db
    ensures db.Valid()
    ensures !CanWrite(session) ==> r == Err(AdminGate(session).value) && db.calls == old(db.calls)
    ensures CanWrite(session) && !(MusicalIdSchema(v, id) && UpdateMusicalSchema(v, patch)) ==>
      r == Err(InvalidInput) && db.calls == old(db.calls)
    ensures CanWrite(session) && MusicalIdSchema(v, id) && UpdateMusicalSchema(v, patch) && id !in old(db.musicals) ==>
      r == Err(MusicalNotFound) && db.calls == old(db.calls) + [Lookup(id)]
    ensures r.Err? ==> db.musicals == old(db.musicals)
    ensures r.Ok? <==> CanWrite(session) && MusicalIdSchema(v, id) && UpdateMusicalSchema(v, patch) && id in old(db.musicals)
    ensures r.Ok? ==>
      && r.value == ApplyPatch(old(db.musicals)[id], patch).(updatedAt := stamp)
      && r.value.id == id
      && db.musicals == old(db.musicals)[id := r.value]
      && db.calls == old(db.calls) + [Lookup(id), Change(id)]
    ensures AllEntriesValid(v, old(db.musicals)) ==> AllEntriesValid(v, db.musicals)
  {
    var gate := AdminGate(session);
    if gate.Some? {
      return Err(gate.value);
    }
    if !(MusicalIdSchema(v, id) && UpdateMusicalSchema(v, patch)) {
      return Err(InvalidInput);
    }
    var musical := db.FindUnique(id);
    if musical.None? {
      return Err(MusicalNotFound);
    }
    ghost var before := db.musicals;
    var updated := db.Update(id, patch, stamp);
    PatchPreservesSchemaIn(v, before, id, patch, stamp);
    return Ok(updated);
  }

  lemma PatchPreservesSchemaIn(v: Validators, table: map<Id, Musical>, id: Id, patch: MusicalPatch, stamp: int)
    requires id in table && UpdateMusicalSchema(v, patch)
    ensures AllEntriesValid(v, table) ==>
      AllEntriesValid(v, table[id := ApplyPatch(table[id], patch).(updatedAt := stamp)])
  {
    if AllEntriesValid(v, table) {
      PatchPreservesSchema(v, table[id], patch);
    }
  }

  /** `deleteMusical`: admins only; a missing id is NOT_FOUND and nothing is
      deleted; otherwise exactly that entry is removed and returned. */
  method DeleteMusical(db: MusicalTable, session: Session, id: Id, v: Validators)
    returns (r: Result<Musical>)
    requires db.Valid()
    modifies db
    ensures db.Valid()
    ensures !CanWrite(session) ==> r == Err(AdminGate(session).value) && db.calls == old(db.calls)
    ensures CanWrite(session) && !MusicalIdSchema(v, id) ==> r == Err(InvalidInput) && db.calls == old(db.calls)
    ensures CanWrite(session) && MusicalIdSchema(v, id) && id !in old(db.musicals) ==>
      r == Err(MusicalNotFound) && db.calls == old(db.calls) + [Lookup(id)]
    ensures r.Err? ==> db.musicals == old(db.musicals)
    ensures r.Ok? <==> CanWrite(session) && MusicalIdSchema(v, id) && id in old(db.musicals)
    ensures r.Ok? ==>
      && r.value == old(db.musicals)[id]
      && r.value.id == id
      && db.musicals == old(db.musicals) - {id}
      && db.calls == old(db.calls) + [Lookup(id), Remove(id)]
    ensures AllEntriesValid(v, old(db.musicals)) ==> AllEntriesValid(v, db.musicals)
  {
    var gate := AdminGate(session);
    if gate.Some? {
      return Err(gate.value);
    }
    if !MusicalIdSchema(v, id) {
      return Err(InvalidInput);
    }
    var musical := db.FindUnique(id);
    if musical.None? {
      return Err(MusicalNotFound);
    }
    var deleted := db.Delete(id);
    return Ok(deleted);
  }

  /** `getMusical`: a missing id is NOT_FOUND; a released entry is returned
      to anyone; an unreleased one only to a signed-in caller, whatever the
      role, and is FORBIDDEN otherwise. */
  function GetMusical(table: map<Id, Musical>, session: Session, id: Id, v: Validators, now: int): (r: Result<Musical>)
    ensures r.Ok? <==> MusicalIdSchema(v, id) && id in table && CanReadEntry(session, table[id], now)
    ensures r.Ok? ==> r.value == table[id]
    ensures !MusicalIdSchema(v, id) ==> r == Err(InvalidInput)
    ensures MusicalIdSchema(v, id) && id !in table ==> r == Err(MusicalNotFound)
    ensures MusicalIdSchema(v, id) && id in table && !CanReadEntry(session, table[id], now) ==> r == Err(NotReleasedYet)
  {
    if !MusicalIdSchema(v, id) then Err(InvalidInput)
    else if id !in table then Err(MusicalNotFound)
    else
      var musical := table[id];
      var isUnreleased := musical.releaseDate > now;
      if isUnreleased && session.None? then Err(NotReleasedYet)
      else Ok(musical)
  }

  /** Single reads: a released entry looks the same to every caller, and an
      unreleased one is refused to an anonymous caller only. */
  lemma ReadGateByRelease(table: map<Id, Musical>, id: Id, v: Validators, now: int, user: SessionUser)
    requires MusicalIdSchema(v, id) && id in table
    ensures !IsUnreleased(table[id], now) ==>
      GetMusical(table, None, id, v, now) == GetMusical(table, Some(user), id, v, now) == Ok(table[id])
    ensures IsUnreleased(table[id], now) ==>
      GetMusical(table, None, id, v, now) == Err(NotReleasedYet)
      && GetMusical(table, Some(user), id, v, now) == Ok(table[id])
  {
  }

  /** `getMusicals`: asking for unreleased entries without a session is
      FORBIDDEN before any fetch; otherwise it fetches `limit + 1` rows,
      pops the last if there are that many, and returns its id as the next
      cursor. `order` is the storage's order of the table's rows. The input
      is parsed by the list schema that declares `searchText`
      (`ParseListQuery`), not by the schema as written
      (`ParseListQueryAsWritten`). */
  method GetMusicals(db: MusicalTable, order: seq<Musical>, session: Session, input: Option<RawListQuery>, now: int)
    returns (r: Result<Page>)
    requires OrderedView(db.musicals, order)
    modifies db`calls
    ensures ParseListQuery(input).Rejected? ==> r == Err(InvalidInput) && db.calls == old(db.calls)
    ensures ParseListQuery(input).Accepted? ==>
      var q := EffectiveQuery(ParseListQuery(input).value);
      && (q.includeUnreleased && !CanSeeUnreleased(session) ==>
            r == Err(UnreleasedListForbidden) && db.calls == old(db.calls))
      && (!(q.includeUnreleased && !CanSeeUnreleased(session)) ==>
            && r == Ok(ListSpec(order, q, now))
            && db.calls == old(db.calls) + [Query]
            && PageMeets(db.musicals, q, now, r.value))
  {
    var parsed := ParseListQuery(input);
    if parsed.Rejected? {
      return Err(InvalidInput);
    }
    var q := EffectiveQuery(parsed.value);
    if q.includeUnreleased && session.None? {
      return Err(UnreleasedListForbidden);
    }

    var page := FetchPage(db, order, q, now);
    return Ok(page);
  }

  /** The body of `getMusicals` past the gate: one `findMany` for
      `limit + 1` rows, then the pop. */
  method FetchPage(db: MusicalTable, order: seq<Musical>, q: ListQuery, now: int) returns (page: Page)
    requires OrderedView(db.musicals, order) && ListQueryValid(q)
    modifies db`calls
    ensures page == ListSpec(order, q, now)
    ensures PageMeets(db.musicals, q, now, page)
    ensures db.calls == old(db.calls) + [Query]
  {
    var where := BuildWhere(q.includeUnreleased, q.searchText, now);
    var musicals := db.FindMany(order, where, CursorArg(q.cursor), q.limit + 1);
    ghost var fetched := musicals;
    assert fetched == Fetch(order, q, now);

    var nextCursor: Option<Id> := None;
    if |musicals| > q.limit {
      var nextItem := musicals[|musicals| - 1];
      musicals := musicals[..|musicals| - 1];
      nextCursor := Some(nextItem.id);
    }
    PopIsPageOf(fetched, q.limit, musicals, nextCursor);
    PageProperties(db.musicals, order, q, now);
    return Page(musicals, nextCursor);
  }

  /** The in-place pop computes the over-fetch step. */
  lemma PopIsPageOf(fetched: seq<Musical>, limit: nat, musicals: seq<Musical>, nextCursor: Option<Id>)
    requires |fetched| <= limit + 1
    requires |fetched| > limit ==> musicals == fetched[..|fetched| - 1] && nextCursor == Some(fetched[|fetched| - 1].id)
    requires |fetched| <= limit ==> musicals == fetched && nextCursor == None
    ensures Page(musicals, nextCursor) == PageOf(fetched, limit)
  {
  }
}
