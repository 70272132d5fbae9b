/** Shared vocabulary: optional values, record identifiers and the
    substring test used by the catalogue's text search. */
module Common {

  datatype Option<T> = None | Some(value: T)

  /** Record identifiers; the storage layer generates them as CUIDs. */
  type Id = string

  function Min(a: int, b: int): int
  {
    if a <= b then a else b
  }

  /** JavaScript truthiness of an optional string: present and not "". */
  predicate Truthy(s: Option<string>)
  {
    s.Some? && s.value != ""
  }

  /** `sub` occurs in `s` starting at index `i`. */
  predicate OccursAt(s: string, sub: string, i: int)
  {
    0 <= i && i + |sub| <= |s| && s[i..i + |sub|] == sub
  }

  /** String `contains`: `sub` occurs somewhere in `s`. */
  predicate Contains(s: string, sub: string)
  {
    exists i :: 0 <= i <= |s| - |sub| && OccursAt(s, sub, i)
  }

  /** Every string contains the empty string, so an empty search text
      filters nothing. */
  lemma EmptyTextOccurs(s: string)
    ensures Contains(s, "")
  {
    assert OccursAt(s, "", 0);
  }
}
