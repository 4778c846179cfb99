/**
 * The Langue REST controller as the code runs it: early-exit guards, then
 * calls on the repository, whose rows are the `table` field. Each endpoint
 * method is tied to the endpoint function of `LangueApi` that states its
 * contract.
 */
module LangueRest {
  import opened Wrappers
  import opened LangueApi

  /** An id beyond every key: the table never runs out of fresh ids. */
  function UpperBound(keys: set<int>): (b: int)
    ensures forall k :: k in keys ==> k < b
    decreases |keys|
  {
    if keys == {} then 0
    else
      var m := LeastKey(keys);
      var rest := UpperBound(keys - {m});
      assert forall k :: k in keys ==> k == m || k in keys - {m};
      if rest > m then rest else m + 1
  }

  class LangueResource {
    /** The rows of the Langue repository. */
    var table: Table

    ghost predicate Valid()
      reads this
    {
      WellKeyed(table)
    }

    constructor (rows: Table)
      requires WellKeyed(rows)
      ensures Valid() && table == rows
    {
      table := rows;
    }

    /** `save`: upsert by id; a row without an id gets one the table does not use yet. */
    method Save(entity: Langue) returns (saved: Langue)
      modifies this
      ensures entity.id.Some? ==> saved == entity
      ensures entity.id.None? ==>
        saved.id.Some? && saved.id.value !in old(table) && saved == entity.(id := saved.id)
      ensures table == old(table)[saved.id.value := saved]
      ensures old(WellKeyed(table)) ==> Valid()
    {
      if entity.id.Some? {
        saved := entity;
      } else {
        assert UpperBound(table.Keys) !in table;
        var id :| id !in table;
        saved := entity.(id := Some(id));
      }
      table := table[saved.id.value := saved];
    }

    /** `deleteById`. */
    method DeleteById(id: int)
      modifies this
      ensures table == old(table) - {id}
    {
      table := table - {id};
    }

    /** `createLangue`. */
    method CreateLangue(body: Langue) returns (r: Response)
      requires Valid()
      modifies this
      ensures Valid()
      ensures body.id.Some? ==> r == BadRequest(IdExists) && table == old(table)
      ensures body.id.None? ==>
        && r.Created? && r.entity.id.Some? && r.entity.id.value !in old(table)
        && Step(r, table) == Create(old(table), body, r.entity.id.value)
    {
      if body.id.Some? {
        return BadRequest(IdExists);
      }
      var result := Save(body);
      r := Created(Location(result.id.value), result);
    }

    /** `updateLangue`. */
    method UpdateLangue(id: Option<int>, body: Langue) returns (r: Response)
      requires Valid()
      modifies this
      ensures Valid()
      ensures Step(r, table) == Update(old(table), id, body)
    {
      if body.id.None? {
        return BadRequest(IdNull);
      }
      if id != body.id {
        return BadRequest(IdInvalid);
      }
      if id.value !in table {
        return BadRequest(IdNotFound);
      }
      var result := Save(body);
      r := Ok(result);
    }

    /** `partialUpdateLangue`: the fetched row is patched field by field, then saved. */
    method PartialUpdateLangue(id: Option<int>, body: Langue) returns (r: Response)
      requires Valid()
      modifies this
      ensures Valid()
      ensures Step(r, table) == PartialUpdate(old(table), id, body)
    {
      if body.id.None? {
        return BadRequest(IdNull);
      }
      if id != body.id {
        return BadRequest(IdInvalid);
      }
      if id.value !in table {
        return BadRequest(IdNotFound);
      }
      var found := FindById(table, body.id.value);
      var result: Option<Langue> := None;
      if found.Some? {
        var existing := found.value;
        if body.langue.Some? {
          existing := existing.(langue := body.langue);
        }
        var saved := Save(existing);
        result := Some(saved);
      }
      r := WrapOrNotFound(result);
    }

    /** `deleteLangue`. */
    method DeleteLangue(id: int) returns (r: Response)
      requires Valid()
      modifies this
      ensures Valid()
      ensures Step(r, table) == Delete(old(table), id)
    {
      DeleteById(id);
      r := NoContent;
    }
  }
}
