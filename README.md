# Langue REST contract and Adresse client slice, in Dafny

This project models two pieces of a JHipster-generated CV management
application and proves properties of them.

1. **The Langue REST controller** (`LangueResource`). The Langue repository
   is a table from id to stored row. Each endpoint that changes the table is
   stated twice:
   - as a function from a request and a table to a response and the next
     table (module `LangueApi`);
   - as a method of the class `LangueRest.LangueResource`, which runs the
     controller's guards and calls `save`, `findById` and `deleteById` on
     its `table` field. Each method's postcondition ties it to the function.

   The two read endpoints, `getLangue` and `getAllLangues`, are lookups. They
   are stated only as functions in `LangueApi`.

   The responses carry the error keys of the controller's
   `BadRequestAlertException`s (`idexists`, `idnull`, `idinvalid`,
   `idnotfound`). They map onto the status codes of section 15 of RFC 9110:
   201 Created (15.3.2), 200 OK (15.3.1), 204 No Content (15.3.5),
   400 Bad Request (15.5.1) and 404 Not Found (15.5.5).

   The Location header gets its own module, `Decimal`. It renders a `long`
   as Java's string concatenation does. A parser reads every rendering back to
   its id, which shows that the header names the created id and nothing else.

2. **The Adresse Redux slice** (`adresse.reducer.ts`). The state record has
   `loading`, `errorMessage`, `entities`, `entity`, `updating` and
   `updateSuccess`. The actions are the pending and fulfilled actions of the
   six async thunks. The six registrations of `extraReducers` are modelled
   as predicates (which actions a registration accepts) and state updates.
   `Reduce` is the step function. `SliceState.Handle` assigns the fields in
   place and runs every accepting registration in the builder's order, as
   Redux Toolkit does. Its postcondition equates the result with `Reduce`,
   which holds because exactly one registration accepts each action
   (`HandlerFor`).

Where the two disagree, the model follows the code:
- The PATCH documentation promises 404 when the row is not found. But the
  guards already answer `idnotfound` with 400 for an absent id. So the
  `wrapOrNotFound` lookup after them finds the row when no other request
  runs in between. `PartialUpdate`, which models one request at a time,
  proves the 404 cannot happen.
- PATCH accepts `application/merge-patch+json`. But a null member keeps the
  stored field, where section 2 of RFC 7396 would remove it. `Merge`
  models what the code does.

## Model

| member | source | states |
|---|---|---|
| `LangueApi.StatusCode` | src/main/java/fr/rif/rh/cvtech/web/rest/LangueResource.java:41-45 | 201 exactly for created, 200 exactly for ok, 204 exactly for no-content, 400 exactly for a bad request, 404 exactly for not-found |
| `LangueApi.Location` | src/main/java/fr/rif/rh/cvtech/web/rest/LangueResource.java:56 | the Location header starts with "/api/langues/" and continues past it |
| `LangueApi.FindById` | src/main/java/fr/rif/rh/cvtech/web/rest/LangueResource.java:121-122 | findById finds something exactly when the id is stored, and then it finds the stored row |
| `LangueApi.WrapOrNotFound` | src/main/java/fr/rif/rh/cvtech/web/rest/LangueResource.java:132-135 | 404 exactly when there is no value; otherwise 200 with the value |
| `LangueApi.Create` | src/main/java/fr/rif/rh/cvtech/web/rest/LangueResource.java:48-59 | a body with an id gives idexists and leaves the table as it was; otherwise the body is stored under the fresh id with that id set, the table gains exactly that key (size +1, every other row unchanged), and the answer is 201 with that row and its Location |
| `LangueApi.CheckExisting` | src/main/java/fr/rif/rh/cvtech/web/rest/LangueResource.java:75-84 | the PUT/PATCH guards in order: idnull exactly when the body id is null; idinvalid exactly when it is set but differs from the path id (a missing path id included); idnotfound exactly when they agree but the id is not stored; no error exactly when the id is set, equal to the path id and stored |
| `LangueApi.Update` | src/main/java/fr/rif/rh/cvtech/web/rest/LangueResource.java:71-91 | a failed guard gives that guard's 400 and leaves the table unchanged; 200 exactly when every guard passes, and then the body is the answer and the stored row at its id, with the same keys and size and every other row unchanged; never 404; keeps every row keyed by its own id |
| `LangueApi.Merge` | src/main/java/fr/rif/rh/cvtech/web/rest/LangueResource.java:121-129 | the merged row keeps the stored id, takes the patch's label when that is non-null, and is the stored row unchanged when the patch's label is null |
| `LangueApi.PartialUpdate` | src/main/java/fr/rif/rh/cvtech/web/rest/LangueResource.java:104-136 | the same guards and the same failures as PUT; never 404; on success the answer is the new stored row, whose label is the body's when non-null and the stored one otherwise, with id, keys, size and every other row unchanged; an all-null patch leaves the table as it was |
| `LangueApi.GetLangue` | src/main/java/fr/rif/rh/cvtech/web/rest/LangueResource.java:155-160 | 200 with the stored row for a stored id, 404 for any other |
| `LangueApi.GetAllLangues` | src/main/java/fr/rif/rh/cvtech/web/rest/LangueResource.java:143-147 | one entry per stored row: every stored row appears, every entry is a stored row, no entry repeats |
| `LangueApi.Delete` | src/main/java/fr/rif/rh/cvtech/web/rest/LangueResource.java:168-176 | 204; the key is gone and no other key is; every remaining row is unchanged; a stored id removes exactly one row |
| `LangueRest.UpperBound` | src/main/java/fr/rif/rh/cvtech/web/rest/LangueResource.java:54 | an id beyond every stored key exists, so save always has a fresh id to hand out |
| `LangueRest.LangueResource.constructor` | src/main/java/fr/rif/rh/cvtech/web/rest/LangueResource.java:37-39 | the controller starts over a repository whose rows carry their own ids |
| `LangueRest.LangueResource.Save` | src/main/java/fr/rif/rh/cvtech/web/rest/LangueResource.java:54 | save stores a row under its id; a row without an id gets one not yet in the table; nothing else changes |
| `LangueRest.LangueResource.DeleteById` | src/main/java/fr/rif/rh/cvtech/web/rest/LangueResource.java:171 | removes the key from the table and nothing else |
| `LangueRest.LangueResource.CreateLangue` | src/main/java/fr/rif/rh/cvtech/web/rest/LangueResource.java:48-59 | idexists with the table untouched for a body with an id; otherwise 201 under an id that was not in the table, with the state Create gives |
| `LangueRest.LangueResource.UpdateLangue` | src/main/java/fr/rif/rh/cvtech/web/rest/LangueResource.java:71-91 | the guards then save end with the response and table that Update gives |
| `LangueRest.LangueResource.PartialUpdateLangue` | src/main/java/fr/rif/rh/cvtech/web/rest/LangueResource.java:104-136 | the guards, findById, the in-place setLangue and save end with the response and table that PartialUpdate gives |
| `LangueRest.LangueResource.DeleteLangue` | src/main/java/fr/rif/rh/cvtech/web/rest/LangueResource.java:168-176 | deleteById then 204 ends with the response and table that Delete gives |
| `Decimal.NatToString` | src/main/java/fr/rif/rh/cvtech/web/rest/LangueResource.java:56 | the decimal rendering of a natural number is a non-empty string of digits, a single digit exactly below 10, with a leading zero only for zero itself |
| `Decimal.IntToString` | src/main/java/fr/rif/rh/cvtech/web/rest/LangueResource.java:56 | the rendering of a long is non-empty and starts with a minus sign exactly when the number is negative |
| `Decimal.ParseNatToString` | src/main/java/fr/rif/rh/cvtech/web/rest/LangueResource.java:56 | reading the digits of a natural number back gives that number |
| `Decimal.IntToStringRoundTrip` | src/main/java/fr/rif/rh/cvtech/web/rest/LangueResource.java:56 | reading the rendering of any long back gives that long |
| `LangueProperties.LocationRoundTrip` | src/main/java/fr/rif/rh/cvtech/web/rest/LangueResource.java:55-56 | the id read back from a Location header is exactly the id it was built from |
| `LangueProperties.CreateThenGet` | src/main/java/fr/rif/rh/cvtech/web/rest/LangueResource.java:54-58 | after a create, the Location names the new id, GET of that id returns the created row, and the list contains it |
| `LangueProperties.UpdateThenGet` | src/main/java/fr/rif/rh/cvtech/web/rest/LangueResource.java:86-90 | after a successful PUT, GET of the id returns the body |
| `LangueProperties.DeleteThenGet` | src/main/java/fr/rif/rh/cvtech/web/rest/LangueResource.java:171 | after DELETE, GET of the id is 404 |
| `LangueProperties.MergeIdempotent` | src/main/java/fr/rif/rh/cvtech/web/rest/LangueResource.java:123-128 | merging a patch into its own result changes nothing |
| `LangueProperties.PartialUpdateIdempotent` | src/main/java/fr/rif/rh/cvtech/web/rest/LangueResource.java:121-130 | a PATCH repeated on the table it produced gives the same response and the same table |
| `LangueProperties.FullPatchIsUpdate` | src/main/java/fr/rif/rh/cvtech/web/rest/LangueResource.java:121-130 | a PATCH whose label is set answers and stores exactly what a PUT of the same body does |
| `LangueProperties.CreateThenDelete` | src/main/java/fr/rif/rh/cvtech/web/rest/LangueResource.java:48-176 | deleting the row a create just added gives back the table as it was before the create |
| `AdresseReducer.InitialState` | src/main/webapp/app/entities/adresse/adresse.reducer.ts:8-15 | not loading, not updating, no update success, null errorMessage, empty list, the default entity; consistent |
| `AdresseReducer.Handles` | src/main/webapp/app/entities/adresse/adresse.reducer.ts:83-116 | which actions each registration accepts: the pending matchers only pending actions, the cases and the fulfilled matchers only fulfilled ones; getEntity.fulfilled, deleteEntity.fulfilled and isFulfilled(getEntities) only the fulfilled action of their own thunk |
| `AdresseReducer.Apply` | src/main/webapp/app/entities/adresse/adresse.reducer.ts:84-115 | what each registration's reducer does: only the list matcher changes the list; the pending matchers clear errorMessage and updateSuccess and keep the entity; no other reducer touches errorMessage; a reducer other than the pending ones changes updateSuccess only to turn it on with updating off; every reducer keeps the state consistent |
| `AdresseReducer.HandlerFor` | src/main/webapp/app/entities/adresse/adresse.reducer.ts:83-116 | every action is accepted by a registration, and by no other |
| `AdresseReducer.Reduce` | src/main/webapp/app/entities/adresse/adresse.reducer.ts:83-116 | pending fetch: loading on, errorMessage and updateSuccess cleared, updating, entity and list kept; pending mutation: updating on, errorMessage and updateSuccess cleared, loading, entity and list kept; list fulfilled: the list replaced, loading off, every other field kept; single fetch fulfilled: entity set, loading off, the rest kept; create/update/patch fulfilled: updating and loading off, updateSuccess on, entity set, list and errorMessage kept; delete fulfilled: updating off, updateSuccess on, entity emptied, loading, list and errorMessage kept |
| `AdresseReducer.ReduceKeepsConsistent` | src/main/webapp/app/entities/adresse/adresse.reducer.ts:83-116 | no step ever leaves updateSuccess on while updating is on, starting from a state where that holds |
| `AdresseReducer.RunKeepsConsistent` | src/main/webapp/app/entities/adresse/adresse.reducer.ts:83-116 | the same for any sequence of actions |
| `AdresseReducer.ReachableIsConsistent` | src/main/webapp/app/entities/adresse/adresse.reducer.ts:8-116 | every state reached from the initial state has updateSuccess off whenever updating is on |
| `AdresseReducer.MutationPendingThenFulfilled` | src/main/webapp/app/entities/adresse/adresse.reducer.ts:87-116 | a pending mutation followed by its fulfilment ends with updating off, updateSuccess on, errorMessage null, the payload (or the empty record for delete) as entity, and the list kept |
| `AdresseReducer.FetchListPendingThenFulfilled` | src/main/webapp/app/entities/adresse/adresse.reducer.ts:92-111 | a list fetch, pending then fulfilled, replaces the list, turns loading off, clears errorMessage and updateSuccess, and keeps everything else |
| `AdresseReducer.FetchPendingThenFulfilled` | src/main/webapp/app/entities/adresse/adresse.reducer.ts:83-111 | a single fetch, pending then fulfilled, sets the entity, turns loading off, clears errorMessage and updateSuccess, and keeps everything else |
| `AdresseReducer.ReduceIdempotent` | src/main/webapp/app/entities/adresse/adresse.reducer.ts:83-116 | the same action delivered twice in a row does what it does once |
| `AdresseReducer.SliceState.constructor` | src/main/webapp/app/entities/adresse/adresse.reducer.ts:8-15 | a fresh slice state is the initial state |
| `AdresseReducer.SliceState.Handle` | src/main/webapp/app/entities/adresse/adresse.reducer.ts:81-117 | assigning the fields in place, once for each registration that accepts the action and in the order they were added, gives the state Reduce gives |

## Left out

- Logging, the HeaderUtil alert headers, `URISyntaxException`, the Spring annotations and the `@Transactional` boundaries are framework plumbing. Framework-level 500 errors are not modelled either.
- Id generation inside the JPA repository's `save` is not modelled. The model only requires that an id not used in the table is chosen; `Create` takes it as a parameter.
- Requests are modelled one at a time. Concurrent requests are not modelled. Another request's delete between `existsById` (LangueResource.java:117) and `findById` (line 121) would make PATCH's documented 404 reachable. There is a similar window in PUT between line 82 and `save` at line 86.
- `LangueApi.CheckExisting`: its `pathId == None` case models calling the controller method with a null id. Over HTTP, a PUT or PATCH without `{id}` never reaches this method; the analogous tests expect 405 (ResumeResourceIT.java:240, 356).
- Ids are unbounded integers, not 64-bit `Long`s. No id overflow is modelled.
- `LangueApi.Delete`: what `deleteById` does with an absent id depends on the Spring Data version, which is not part of this model. The model leaves the table unchanged and answers 204; only the stored-id case reflects the source.
- `LangueApi.GetAllLangues`: `findAll` returns its rows in the store's order. The model lists them by ascending id, and its contract promises only the contents.
- `LangueRest.LangueResource.PartialUpdateLangue`: the JPA entity is patched in place with `setLangue`. The model patches a copy and saves it. Entity identity and aliasing in the persistence context are not modelled.
- The repository class, the `Langue` entity class and JHipster's `ResponseUtil` are not part of this model. `save` is modelled as an upsert by id, the entity as an id plus an optional label, and `wrapOrNotFound` as 200-or-404.
- The axios thunks (adresse.reducer.ts:21-74) are left out. That covers their network I/O, the follow-up `getEntities` dispatches and the `cacheBuster` timestamp.
- `createEntitySlice`, `serializeAxiosError` and `cleanEntity` are not part of this model. This includes the rejected-action handling and the `reset` reducer, so no behaviour is modelled for rejected actions or for actions the registrations do not accept.
- The fields of `IAdresse` and its `defaultValue` (adresse.model.ts) are not part of this model. An address is a map of named fields, and the default value is a parameter of `InitialState`.
- profil-delete-dialog.tsx is React UI: hooks, effects and router navigation. It is not modelled.
- ResumeResourceIT.java tests a controller that is not part of this model. Its row-count assertions describe the same contract. For Langue they follow from the size clauses of `LangueApi.Create`, `LangueApi.Update`, `LangueApi.PartialUpdate` and `LangueApi.Delete`.
