/** Properties of the Langue contract that relate several requests. */
module LangueProperties {
  import opened Wrappers
  import opened Decimal
  import opened LangueApi

  /** The Location header of a created row names that row's id and nothing else. */
  lemma LocationRoundTrip(id: int)
    ensures LocationId(Location(id)) == Some(id)
  {
    var s := Location(id);
    assert s[|LanguesPath|..] == IntToString(id);
    IntToStringRoundTrip(id);
  }

  /** Create, then read back under the id of the created row. */
  lemma CreateThenGet(t: Table, body: Langue, newId: int)
    requires newId !in t && body.id.None?
    ensures var s := Create(t, body, newId);
      && LocationId(s.response.location) == Some(newId)
      && GetLangue(s.table, newId) == Ok(s.response.entity)
      && s.response.entity in GetAllLangues(s.table)
  {
    LocationRoundTrip(newId);
  }

  /** A successful PUT is what a later GET returns. */
  lemma UpdateThenGet(t: Table, pathId: Option<int>, body: Langue)
    requires CheckExisting(t, pathId, body).None?
    ensures GetLangue(Update(t, pathId, body).table, body.id.value) == Ok(body)
  {
  }

  /** After DELETE the row is gone, whatever the table held. */
  lemma DeleteThenGet(t: Table, id: int)
    ensures GetLangue(Delete(t, id).table, id) == NotFound
  {
  }

  /** Merging the same patch twice is merging it once. */
  lemma MergeIdempotent(stored: Langue, patch: Langue)
    ensures Merge(Merge(stored, patch), patch) == Merge(stored, patch)
  {
  }

  /** Repeating a PATCH gives the same response and the same table. */
  lemma PartialUpdateIdempotent(t: Table, pathId: Option<int>, body: Langue)
    requires WellKeyed(t)
    ensures var s := PartialUpdate(t, pathId, body);
      PartialUpdate(s.table, pathId, body) == s
  {
  }

  /** A PATCH whose fields are all set does exactly what PUT does. */
  lemma FullPatchIsUpdate(t: Table, pathId: Option<int>, body: Langue)
    requires WellKeyed(t) && body.langue.Some?
    ensures PartialUpdate(t, pathId, body) == Update(t, pathId, body)
  {
  }

  /** Deleting the row a create just added gives back the table as it was before the create. */
  lemma CreateThenDelete(t: Table, body: Langue, newId: int)
    requires newId !in t && body.id.None?
    ensures Delete(Create(t, body, newId).table, newId).table == t
  {
  }
}
