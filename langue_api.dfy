/**
 * The REST contract of the Langue controller, stated on values: the
 * repository's content is a table from id to stored record, and each
 * endpoint maps a request and a table to a response and the next table.
 */
module LangueApi {
  import opened Wrappers
  import opened Decimal

  /** The `Langue` entity: a database id (null before the first save) and an optional label. */
  datatype Langue = Langue(id: Option<int>, langue: Option<string>)

  /** The rows of the `langue` table, by primary key. */
  type Table = map<int, Langue>

  /** Every stored row carries its own key as its id, as a JPA repository's rows do. */
  predicate WellKeyed(t: Table) {
    forall k :: k in t ==> t[k].id == Some(k)
  }

  /** The error keys of the controller's `BadRequestAlertException`s. */
  datatype ErrorKey = IdExists | IdNull | IdInvalid | IdNotFound

  /** What an endpoint answers: the `ResponseEntity` without its alert headers. */
  datatype Response =
    | Created(location: string, entity: Langue)
    | Ok(entity: Langue)
    | NoContent
    | BadRequest(errorKey: ErrorKey)
    | NotFound

  /** The HTTP status of a response (section 15 of RFC 9110). */
  function StatusCode(r: Response): (code: int)
    ensures code == 400 <==> r.BadRequest?
    ensures code == 404 <==> r.NotFound?
    ensures code == 201 <==> r.Created?
    ensures code == 200 <==> r.Ok?
    ensures code == 204 <==> r.NoContent?
  {
    match r
    case Created(_, _) => 201 // 15.3.2 Created
    case Ok(_) => 200         // 15.3.1 OK
    case NoContent => 204     // 15.3.5 No Content
    case BadRequest(_) => 400 // 15.5.1 Bad Request
    case NotFound => 404      // 15.5.5 Not Found
  }

  /** A response together with the table it leaves behind. */
  datatype Step = Step(response: Response, table: Table)

  const LanguesPath: string := "/api/langues/"

  /** The `Location` header of a created row: the collection path followed by the id. */
  function Location(id: int): (s: string)
    ensures |s| > |LanguesPath| && s[..|LanguesPath|] == LanguesPath
  {
    LanguesPath + IntToString(id)
  }

  /** The id named by a `Location` header, if it names one. */
  function LocationId(location: string): Option<int> {
    if |location| >= |LanguesPath| && location[..|LanguesPath|] == LanguesPath
    then ParseInt(location[|LanguesPath|..])
    else None
  }

  /** `findById`: the stored row, or nothing. */
  function FindById(t: Table, id: int): (r: Option<Langue>)
    ensures r.Some? <==> id in t
    ensures r.Some? ==> r.value == t[id]
  {
    if id in t then Some(t[id]) else None
  }

  /** `ResponseUtil.wrapOrNotFound`: 200 with the value, or 404 when there is none. */
  function WrapOrNotFound(o: Option<Langue>): (r: Response)
    ensures r.NotFound? <==> o.None?
    ensures o.Some? ==> r == Ok(o.value)
  {
    match o
    case Some(v) => Ok(v)
    case None => NotFound
  }

  /** POST /api/langues. `newId` is the id the repository generates on save. */
  function Create(t: Table, body: Langue, newId: int): (s: Step)
    requires newId !in t
    ensures body.id.Some? ==> s == Step(BadRequest(IdExists), t)
    ensures body.id.None? ==>
      var saved := body.(id := Some(newId));
      && s.response == Created(Location(newId), saved)
      && s.table.Keys == t.Keys + {newId}
      && |s.table| == |t| + 1
      && s.table[newId] == saved
      && (forall k :: k in t ==> s.table[k] == t[k])
    ensures WellKeyed(t) ==> WellKeyed(s.table)
  {
    if body.id.Some? then Step(BadRequest(IdExists), t)
    else
      var saved := body.(id := Some(newId));
      Step(Created(Location(newId), saved), t[newId := saved])
  }

  /**
   * The guards PUT and PATCH run before touching the table, in the
   * controller's order: body id null, then path id unequal to the body id
   * (a missing path id included), then body id absent from the table.
   */
  function CheckExisting(t: Table, pathId: Option<int>, body: Langue): (e: Option<ErrorKey>)
    ensures e == Some(IdNull) <==> body.id.None?
    ensures e == Some(IdInvalid) <==> body.id.Some? && pathId != body.id
    ensures e == Some(IdNotFound) <==> body.id.Some? && pathId == body.id && body.id.value !in t
    ensures e.None? <==> body.id.Some? && pathId == body.id && body.id.value in t
  {
    if body.id.None? then Some(IdNull)
    else if pathId != body.id then Some(IdInvalid)
    else if body.id.value !in t then Some(IdNotFound)
    else None
  }

  /** PUT /api/langues/{id}: the body replaces the stored row. */
  function Update(t: Table, pathId: Option<int>, body: Langue): (s: Step)
    ensures CheckExisting(t, pathId, body).Some? ==>
      s == Step(BadRequest(CheckExisting(t, pathId, body).value), t)
    ensures s.response.Ok? <==> CheckExisting(t, pathId, body).None?
    ensures s.response.Ok? || s.response.BadRequest?
    ensures s.response.Ok? ==>
      var id := body.id.value;
      && s.response.entity == body
      && s.table.Keys == t.Keys
      && |s.table| == |t|
      && s.table[id] == body
      && (forall k :: k in t && k != id ==> s.table[k] == t[k])
    ensures WellKeyed(t) ==> WellKeyed(s.table)
  {
    match CheckExisting(t, pathId, body)
    case Some(e) => Step(BadRequest(e), t)
    case None => Step(Ok(body), t[body.id.value := body])
  }

  /**
   * The field-by-field merge of PATCH: a non-null field of the patch
   * overwrites the stored one, a null field keeps it. A null therefore
   * never clears a field, unlike the removal section 2 of RFC 7396 gives it.
   */
  function Merge(stored: Langue, patch: Langue): (r: Langue)
    ensures r.id == stored.id
    ensures patch.langue.Some? ==> r.langue == patch.langue
    ensures patch.langue.None? ==> r == stored
  {
    if patch.langue.Some? then stored.(langue := patch.langue) else stored
  }

  /** PATCH /api/langues/{id}: the same guards as PUT, then the merge of the body into the stored row. */
  function PartialUpdate(t: Table, pathId: Option<int>, body: Langue): (s: Step)
    requires WellKeyed(t)
    ensures CheckExisting(t, pathId, body).Some? ==>
      s == Step(BadRequest(CheckExisting(t, pathId, body).value), t)
    ensures s.response.Ok? <==> CheckExisting(t, pathId, body).None?
    ensures !s.response.NotFound?
    ensures s.response.Ok? ==>
      var id := body.id.value;
      && id in t && id in s.table
      && s.response.entity == s.table[id]
      && s.table.Keys == t.Keys
      && |s.table| == |t|
      && s.table[id].id == Some(id)
      && s.table[id].langue == (if body.langue.Some? then body.langue else t[id].langue)
      && (forall k :: k in t && k != id ==> s.table[k] == t[k])
    ensures body.langue.None? ==> s.table == t
    ensures WellKeyed(s.table)
  {
    match CheckExisting(t, pathId, body)
    case Some(e) => Step(BadRequest(e), t)
    case None =>
      match FindById(t, body.id.value)
      case None => Step(WrapOrNotFound(None), t)
      case Some(existing) =>
        var merged := Merge(existing, body);
        Step(WrapOrNotFound(Some(merged)), t[body.id.value := merged])
  }

  /** GET /api/langues/{id}. */
  function GetLangue(t: Table, id: int): (r: Response)
    ensures id in t ==> r == Ok(t[id])
    ensures id !in t ==> r == NotFound
  {
    WrapOrNotFound(FindById(t, id))
  }

  /** The least key of a non-empty key set. */
  lemma {:induction false} LeastKeyExists(keys: set<int>)
    requires keys != {}
    ensures exists m :: m in keys && forall k :: k in keys ==> m <= k
    decreases |keys|
  {
    if forall k :: k !in keys {
      assert false;
    }
    var x :| x in keys;
    var rest := keys - {x};
    if rest != {} {
      LeastKeyExists(rest);
      var m :| m in rest && forall k :: k in rest ==> m <= k;
      var least := if x < m then x else m;
      forall k | k in keys ensures least <= k {
        if k != x {
          assert k in rest;
        }
      }
      assert least in keys;
    } else {
      assert keys == {x};
    }
  }

  function LeastKey(keys: set<int>): (m: int)
    requires keys != {}
    ensures m in keys && forall k :: k in keys ==> m <= k
  {
    LeastKeyExists(keys);
    var m :| m in keys && forall k :: k in keys ==> m <= k;
    m
  }

  /** The keys in ascending order. */
  function SortedKeys(keys: set<int>): (r: seq<int>)
    ensures |r| == |keys|
    ensures forall k :: k in keys <==> k in r
    ensures forall i, j :: 0 <= i < j < |r| ==> r[i] < r[j]
    decreases |keys|
  {
    if keys == {} then []
    else
      var m := LeastKey(keys);
      [m] + SortedKeys(keys - {m})
  }

  /**
   * GET /api/langues: `findAll`, every stored row once. The order of
   * `findAll` is the store's; this model lists the rows by ascending id.
   */
  function GetAllLangues(t: Table): (r: seq<Langue>)
    ensures |r| == |t|
    ensures forall k :: k in t ==> t[k] in r
    ensures forall i :: 0 <= i < |r| ==> r[i] in t.Values
    ensures WellKeyed(t) ==> forall i, j :: 0 <= i < j < |r| ==> r[i] != r[j]
  {
    var keys := SortedKeys(t.Keys);
    assert |t.Keys| == |t|;
    var rows := seq(|keys|, i requires 0 <= i < |keys| => t[keys[i]]);
    assert forall k :: k in t ==> t[k] in rows by {
      forall k | k in t ensures t[k] in rows {
        var i :| 0 <= i < |keys| && keys[i] == k;
        assert rows[i] == t[k];
      }
    }
    assert forall i :: 0 <= i < |rows| ==> rows[i] in t.Values by {
      forall i | 0 <= i < |rows| ensures rows[i] in t.Values {
        assert keys[i] in t;
      }
    }
    assert WellKeyed(t) ==> forall i, j :: 0 <= i < j < |rows| ==> rows[i] != rows[j] by {
      if WellKeyed(t) {
        forall i, j | 0 <= i < j < |rows| ensures rows[i] != rows[j] {
          assert rows[i].id == Some(keys[i]) && rows[j].id == Some(keys[j]);
        }
      }
    }
    rows
  }

  /** DELETE /api/langues/{id}: `deleteById`, then 204. An absent id leaves the table as it is. */
  function Delete(t: Table, id: int): (s: Step)
    ensures s.response == NoContent
    ensures s.table.Keys == t.Keys - {id}
    ensures forall k :: k in s.table ==> s.table[k] == t[k]
    ensures id in t ==> |s.table| == |t| - 1
    ensures id !in t ==> s.table == t
    ensures WellKeyed(t) ==> WellKeyed(s.table)
  {
    Step(NoContent, t - {id})
  }
}
