/**
 * The client-side Adresse slice: its state record, the pending and
 * fulfilled actions of the six async thunks, the case reducers and
 * matchers registered in `extraReducers`, and the step function they make.
 */
module AdresseReducer {
  import opened Wrappers

  /**
   * An address as the REST API sends it: named fields and their JSON
   * values. `{}` is the record without fields.
   */
  datatype Adresse = Adresse(fields: map<string, string>)

  const EmptyAdresse: Adresse := Adresse(map[])

  /** `EntityState<IAdresse>`. */
  datatype State = State(
    loading: bool,
    errorMessage: Option<string>,
    entities: seq<Adresse>,
    entity: Adresse,
    updating: bool,
    updateSuccess: bool)

  /** `initialState`; `defaultValue` is the model's default address. */
  function InitialState(defaultValue: Adresse): (s: State)
    ensures !s.loading && !s.updating && !s.updateSuccess
    ensures s.errorMessage == None && s.entities == [] && s.entity == defaultValue
    ensures Consistent(s)
  {
    State(false, None, [], defaultValue, false, false)
  }

  /** The async thunks: 'adresse/fetch_entity_list', 'adresse/fetch_entity', 'adresse/create_entity', ... */
  datatype Thunk =
    | FetchEntityList
    | FetchEntity
    | CreateEntity
    | UpdateEntity
    | PartialUpdateEntity
    | DeleteEntity

  predicate IsFetch(t: Thunk) {
    t == FetchEntityList || t == FetchEntity
  }

  predicate IsMutation(t: Thunk) {
    t == CreateEntity || t == UpdateEntity || t == PartialUpdateEntity || t == DeleteEntity
  }

  /** The `payload.data` of a fulfilled thunk, by thunk. */
  datatype Outcome =
    | EntitiesFetched(list: seq<Adresse>)
    | EntityFetched(entity: Adresse)
    | EntityCreated(entity: Adresse)
    | EntityUpdated(entity: Adresse)
    | EntityPatched(entity: Adresse)
    | EntityDeleted(entity: Adresse)

  function OutcomeThunk(o: Outcome): Thunk {
    match o
    case EntitiesFetched(_) => FetchEntityList
    case EntityFetched(_) => FetchEntity
    case EntityCreated(_) => CreateEntity
    case EntityUpdated(_) => UpdateEntity
    case EntityPatched(_) => PartialUpdateEntity
    case EntityDeleted(_) => DeleteEntity
  }

  /** A `<type>/pending` or `<type>/fulfilled` action. */
  datatype Action = Pending(thunk: Thunk) | Fulfilled(outcome: Outcome)

  /** The six registrations of `extraReducers`, in the order they are added. */
  datatype Handler =
    | EntityFetchedCase      // addCase(getEntity.fulfilled)
    | EntityDeletedCase      // addCase(deleteEntity.fulfilled)
    | EntitiesFetchedMatcher // addMatcher(isFulfilled(getEntities))
    | EntitySavedMatcher     // addMatcher(isFulfilled(createEntity, updateEntity, partialUpdateEntity))
    | FetchPendingMatcher    // addMatcher(isPending(getEntities, getEntity))
    | MutationPendingMatcher // addMatcher(isPending(createEntity, updateEntity, partialUpdateEntity, deleteEntity))

  /** Whether a registration's action type or matcher accepts the action. */
  function Handles(h: Handler, a: Action): (accepts: bool)
    ensures accepts && a.Pending? ==> h == FetchPendingMatcher || h == MutationPendingMatcher
    ensures accepts && a.Fulfilled? ==> h != FetchPendingMatcher && h != MutationPendingMatcher
    ensures accepts && h == EntityFetchedCase ==> a.Fulfilled? && a.outcome.EntityFetched?
    ensures accepts && h == EntityDeletedCase ==> a.Fulfilled? && a.outcome.EntityDeleted?
    ensures accepts && h == EntitiesFetchedMatcher ==> a.Fulfilled? && a.outcome.EntitiesFetched?
  {
    match h
    case EntityFetchedCase => a.Fulfilled? && OutcomeThunk(a.outcome) == FetchEntity
    case EntityDeletedCase => a.Fulfilled? && OutcomeThunk(a.outcome) == DeleteEntity
    case EntitiesFetchedMatcher => a.Fulfilled? && OutcomeThunk(a.outcome) == FetchEntityList
    case EntitySavedMatcher =>
      a.Fulfilled? && OutcomeThunk(a.outcome) in {CreateEntity, UpdateEntity, PartialUpdateEntity}
    case FetchPendingMatcher => a.Pending? && IsFetch(a.thunk)
    case MutationPendingMatcher => a.Pending? && IsMutation(a.thunk)
  }

  /** What a registration's reducer makes of the state. */
  function Apply(h: Handler, s: State, a: Action): (r: State)
    requires Handles(h, a)
    ensures h != EntitiesFetchedMatcher ==> r.entities == s.entities
    ensures h == FetchPendingMatcher || h == MutationPendingMatcher ==>
      r.errorMessage == None && !r.updateSuccess && r.entity == s.entity
    ensures h != FetchPendingMatcher && h != MutationPendingMatcher ==> r.errorMessage == s.errorMessage
    ensures h != FetchPendingMatcher && h != MutationPendingMatcher && r.updateSuccess != s.updateSuccess ==>
      r.updateSuccess && !r.updating
    ensures Consistent(s) ==> Consistent(r)
  {
    match h
    case EntityFetchedCase => s.(loading := false, entity := a.outcome.entity)
    case EntityDeletedCase => s.(updating := false, updateSuccess := true, entity := EmptyAdresse)
    case EntitiesFetchedMatcher => s.(loading := false, entities := a.outcome.list)
    case EntitySavedMatcher =>
      s.(updating := false, loading := false, updateSuccess := true, entity := a.outcome.entity)
    case FetchPendingMatcher => s.(errorMessage := None, updateSuccess := false, loading := true)
    case MutationPendingMatcher => s.(errorMessage := None, updateSuccess := false, updating := true)
  }

  /** The registration that handles an action: there is one, and no other handles it. */
  function HandlerFor(a: Action): (h: Handler)
    ensures Handles(h, a)
    ensures forall g: Handler :: Handles(g, a) ==> g == h
  {
    match a
    case Pending(t) => if IsFetch(t) then FetchPendingMatcher else MutationPendingMatcher
    case Fulfilled(o) =>
      match o
      case EntitiesFetched(_) => EntitiesFetchedMatcher
      case EntityFetched(_) => EntityFetchedCase
      case EntityDeleted(_) => EntityDeletedCase
      case _ => EntitySavedMatcher
  }

  /** The slice reducer on the actions the registrations handle. */
  function Reduce(s: State, a: Action): (r: State)
    ensures a.Pending? && IsFetch(a.thunk) ==>
      && r.loading && r.errorMessage == None && !r.updateSuccess
      && r.updating == s.updating && r.entity == s.entity && r.entities == s.entities
    ensures a.Pending? && IsMutation(a.thunk) ==>
      && r.updating && r.errorMessage == None && !r.updateSuccess
      && r.loading == s.loading && r.entity == s.entity && r.entities == s.entities
    ensures a.Fulfilled? && a.outcome.EntitiesFetched? ==>
      r == s.(loading := false, entities := a.outcome.list)
    ensures a.Fulfilled? && a.outcome.EntityFetched? ==>
      && !r.loading && r.entity == a.outcome.entity
      && r.entities == s.entities && r.updating == s.updating
      && r.updateSuccess == s.updateSuccess && r.errorMessage == s.errorMessage
    ensures a.Fulfilled? && OutcomeThunk(a.outcome) in {CreateEntity, UpdateEntity, PartialUpdateEntity} ==>
      && !r.updating && !r.loading && r.updateSuccess && r.entity == a.outcome.entity
      && r.entities == s.entities && r.errorMessage == s.errorMessage
    ensures a.Fulfilled? && a.outcome.EntityDeleted? ==>
      && !r.updating && r.updateSuccess && r.entity == EmptyAdresse
      && r.loading == s.loading && r.entities == s.entities && r.errorMessage == s.errorMessage
  {
    Apply(HandlerFor(a), s, a)
  }

  /** A reported success is never still in progress. */
  predicate Consistent(s: State) {
    s.updateSuccess ==> !s.updating
  }

  lemma ReduceKeepsConsistent(s: State, a: Action)
    requires Consistent(s)
    ensures Consistent(Reduce(s, a))
  {
  }

  /** The state after a sequence of actions, first action first. */
  function Run(s: State, actions: seq<Action>): State
    decreases |actions|
  {
    if actions == [] then s else Run(Reduce(s, actions[0]), actions[1..])
  }

  lemma {:induction false} RunKeepsConsistent(s: State, actions: seq<Action>)
    requires Consistent(s)
    ensures Consistent(Run(s, actions))
    decreases |actions|
  {
    if actions != [] {
      ReduceKeepsConsistent(s, actions[0]);
      RunKeepsConsistent(Reduce(s, actions[0]), actions[1..]);
    }
  }

  /** Every state the slice reaches from its initial state is consistent. */
  lemma ReachableIsConsistent(defaultValue: Adresse, actions: seq<Action>)
    ensures Consistent(Run(InitialState(defaultValue), actions))
  {
    RunKeepsConsistent(InitialState(defaultValue), actions);
  }

  /** A pending mutation followed by its fulfilment ends a successful, finished update. */
  lemma MutationPendingThenFulfilled(s: State, o: Outcome)
    requires IsMutation(OutcomeThunk(o))
    ensures var r := Reduce(Reduce(s, Pending(OutcomeThunk(o))), Fulfilled(o));
      && !r.updating && r.updateSuccess && r.errorMessage == None
      && r.entity == (if o.EntityDeleted? then EmptyAdresse else o.entity)
      && r.loading == (if o.EntityDeleted? then s.loading else false)
      && r.entities == s.entities
  {
  }

  /** A list fetch, pending then fulfilled, leaves the fetched list and a cleared error. */
  lemma FetchListPendingThenFulfilled(s: State, list: seq<Adresse>)
    ensures Run(s, [Pending(FetchEntityList), Fulfilled(EntitiesFetched(list))])
         == s.(loading := false, errorMessage := None, updateSuccess := false, entities := list)
  {
    var actions := [Pending(FetchEntityList), Fulfilled(EntitiesFetched(list))];
    var pending := Reduce(s, actions[0]);
    assert actions[1..] == [actions[1]];
    assert Run(pending, [actions[1]]) == Reduce(pending, actions[1]);
  }

  /** A single fetch, pending then fulfilled, leaves the fetched record and keeps the list and the updating flag. */
  lemma FetchPendingThenFulfilled(s: State, e: Adresse)
    ensures Run(s, [Pending(FetchEntity), Fulfilled(EntityFetched(e))])
         == s.(loading := false, errorMessage := None, updateSuccess := false, entity := e)
  {
    var actions := [Pending(FetchEntity), Fulfilled(EntityFetched(e))];
    var pending := Reduce(s, actions[0]);
    assert actions[1..] == [actions[1]];
    assert Run(pending, [actions[1]]) == Reduce(pending, actions[1]);
  }

  /** Delivering the same action twice in a row has the effect of delivering it once. */
  lemma ReduceIdempotent(s: State, a: Action)
    ensures Reduce(Reduce(s, a), a) == Reduce(s, a)
  {
  }

  /**
   * The state that the case reducers assign field by field (Immer turns
   * those assignments into the next state).
   */
  class SliceState {
    var loading: bool
    var errorMessage: Option<string>
    var entities: seq<Adresse>
    var entity: Adresse
    var updating: bool
    var updateSuccess: bool

    function Snapshot(): State
      reads this
    {
      State(loading, errorMessage, entities, entity, updating, updateSuccess)
    }

    constructor (defaultValue: Adresse)
      ensures Snapshot() == InitialState(defaultValue)
    {
      loading, errorMessage, entities, entity, updating, updateSuccess
        := false, None, [], defaultValue, false, false;
    }

    /**
     * Runs every registration that accepts the action, in the builder's
     * order (the cases, then the matchers).
     */
    method Handle(a: Action)
      modifies this
      ensures Snapshot() == Reduce(old(Snapshot()), a)
    {
      if Handles(EntityFetchedCase, a) {
        loading := false;
        entity := a.outcome.entity;
      }
      if Handles(EntityDeletedCase, a) {
        updating := false;
        updateSuccess := true;
        entity := EmptyAdresse;
      }
      if Handles(EntitiesFetchedMatcher, a) {
        // this reducer returns a new record: the old one spread, with two fields replaced
        var next := Snapshot().(loading := false, entities := a.outcome.list);
        loading, errorMessage, entities, entity, updating, updateSuccess
          := next.loading, next.errorMessage, next.entities, next.entity, next.updating, next.updateSuccess;
      }
      if Handles(EntitySavedMatcher, a) {
        updating := false;
        loading := false;
        updateSuccess := true;
        entity := a.outcome.entity;
      }
      if Handles(FetchPendingMatcher, a) {
        errorMessage := None;
        updateSuccess := false;
        loading := true;
      }
      if Handles(MutationPendingMatcher, a) {
        errorMessage := None;
        updateSuccess := false;
        updating := true;
      }
    }
  }
}
