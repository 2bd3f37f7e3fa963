// `processResponse`, `register` and `unregister` of ChangesPropagator.ts as
// functions from the propagator's maps to their new contents, with the
// error each step can throw and the state left behind when it does.
module Process {
  import opened Results
  import opened Json
  import opened EngineTypes
  import Interfaces
  import Ordering
  import Routing
  import Projection
  import Relations
  import Dangling
  import Registration

  /** The maps a propagator holds: relations, dangling states in insertion order, and components. */
  datatype Store = Store(parents: map<int, Relation>, danglingStates: Dangling.States, danglingOrder: seq<int>, components: map<int, Component>)

  /** What every propagator keeps true between calls. */
  ghost predicate Consistent(s: Store) {
    && KeyedByChild(s.parents)
    && Dangling.OrderMatches(s.danglingStates, s.danglingOrder)
    && forall k | k in s.components :: s.components[k].id == k
  }

  // ---------------------------------------------------------------------
  // Validation, the root-reference filter, and the sort (ChangesPropagator.ts, lines 128-157)

  /** The comparator `a.id - b.id` sorts by this key, ascending. */
  function ChangeId(c: Change): int {
    c.id
  }

  /** A property change whose value refers to a root: such links are not followed. */
  predicate RefersToRoot(rootIds: seq<int>, c: Change) {
    c.PropertyChanged? && RefId(c.value).Some? && RefId(c.value).value in rootIds
  }

  /** The `filter` of `processResponse`. */
  function WithoutRootRefs(rootIds: seq<int>, changes: seq<Change>): (r: seq<Change>)
    ensures forall c :: c in r <==> c in changes && !RefersToRoot(rootIds, c)
    ensures Ordering.IsSubsequence(r, changes)
    decreases |changes|
  {
    if changes == [] then []
    else
      var rest := WithoutRootRefs(rootIds, changes[1..]);
      assert forall c :: c in changes <==> c == changes[0] || c in changes[1..];
      if RefersToRoot(rootIds, changes[0]) then rest else [changes[0]] + rest
  }

  /** Deleting `isCollection` from a truthy property value; other changes are kept as they are. */
  function StripIsCollection(c: Change): (r: Change)
    ensures r.id == c.id && r.instructionId == c.instructionId && IsHandled(r) == IsHandled(c)
    ensures IsHandled(c) ==> ChangeKey(r) == ChangeKey(c)
  {
    if c.PropertyChanged? && Truthy(c.value) && c.value.Obj? then
      c.(value := Obj(c.value.fields - {Name("isCollection")}))
    else c
  }

  /** The `map` of `processResponse`. */
  function StripAll(changes: seq<Change>): (r: seq<Change>)
    ensures |r| == |changes| && forall i | 0 <= i < |changes| :: r[i] == StripIsCollection(changes[i])
  {
    seq(|changes|, i requires 0 <= i < |changes| => StripIsCollection(changes[i]))
  }

  /**
   * Everything `processResponse` does before touching state: a negative id
   * fails first, then a change kind it does not handle, then (in the model)
   * a reference whose `__id` is not an integer; the rest is sorted by id.
   */
  function Prepare(rootIds: seq<int>, changes: seq<Change>): (r: Result<seq<Change>, EngineError>)
    ensures (exists c | c in changes :: c.id < 0) ==> r == Err(NegativeChangeId)
    ensures r.Ok? ==> forall c | c in r.value :: IsHandled(c) && !HasUnsupportedId(ChangeValue(c))
  {
    if exists c | c in changes :: c.id < 0 then Err(NegativeChangeId)
    else
      var kept := WithoutRootRefs(rootIds, changes);
      if exists c | c in kept :: !IsHandled(c) then Err(UnhandledChangeType)
      else
        var stripped := StripAll(kept);
        if exists c | c in stripped :: HasUnsupportedId(ChangeValue(c)) then Err(UnsupportedId)
        else
          var sorted := Ordering.SortBy(stripped, ChangeId);
          Ordering.SortByKeepsElements(stripped, ChangeId);
          Ok(sorted)
  }

  /**
   * The batch `processResponse` works on: every change of it is handled and
   * not a root link, it is sorted by id, and among equal ids it keeps the
   * order of the response.
   */
  lemma PreparedBatch(rootIds: seq<int>, changes: seq<Change>, id: int)
    requires Prepare(rootIds, changes).Ok?
    ensures var sorted := Prepare(rootIds, changes).value;
      && Ordering.SortedBy(sorted, ChangeId)
      && Ordering.WithKey(sorted, ChangeId, id) == Ordering.WithKey(StripAll(WithoutRootRefs(rootIds, changes)), ChangeId, id)
      && multiset(sorted) == multiset(StripAll(WithoutRootRefs(rootIds, changes)))
      && forall c | c in changes && !RefersToRoot(rootIds, c) :: c.id >= 0 && IsHandled(c) && StripIsCollection(c) in sorted
  {
    var kept := WithoutRootRefs(rootIds, changes);
    var stripped := StripAll(kept);
    PreparedIsSorted(rootIds, changes);
    Ordering.SortByIsSorted(stripped, ChangeId);
    Ordering.SortByIsStable(stripped, ChangeId, id);
    forall c | c in changes && !RefersToRoot(rootIds, c)
      ensures c.id >= 0 && IsHandled(c) && StripIsCollection(c) in Prepare(rootIds, changes).value
    {
      StrippedKeepsElement(kept, c);
      Ordering.SortByKeepsElements(stripped, ChangeId);
      assert StripIsCollection(c) in multiset(stripped);
    }
  }

  /** A successful `Prepare` is the sort of the filtered, stripped batch. */
  lemma PreparedIsSorted(rootIds: seq<int>, changes: seq<Change>)
    requires Prepare(rootIds, changes).Ok?
    ensures Prepare(rootIds, changes).value == Ordering.SortBy(StripAll(WithoutRootRefs(rootIds, changes)), ChangeId)
  {
  }

  lemma StrippedKeepsElement(changes: seq<Change>, c: Change)
    requires c in changes
    ensures StripIsCollection(c) in StripAll(changes)
  {
    var i :| 0 <= i < |changes| && changes[i] == c;
    assert StripAll(changes)[i] == StripIsCollection(c);
  }

  // ---------------------------------------------------------------------
  // Dangling decisions, routes and groups (ChangesPropagator.ts, lines 195-264)

  /** The first throw of `isDangling` over the batch, if any. */
  function DanglingError(parents: map<int, Relation>, components: map<int, Component>, rootIds: seq<int>, changes: seq<Change>): (r: Option<EngineError>)
    requires forall c | c in changes :: IsHandled(c)
    ensures r.None? ==> forall c | c in changes :: Routing.IsDangling(parents, components, rootIds, c).Ok?
    decreases |changes|
  {
    if changes == [] then None
    else match Routing.IsDangling(parents, components, rootIds, changes[0])
      case Err(e) => Some(e)
      case Ok(_) => DanglingError(parents, components, rootIds, changes[1..])
  }

  /** The `isDangling` closure as a total test, for a batch on which it does not throw. */
  function DanglingTest(parents: map<int, Relation>, components: map<int, Component>, rootIds: seq<int>): (t: Change -> bool)
    ensures forall c | IsHandled(c) :: t(c) <==> Routing.IsDangling(parents, components, rootIds, c) == Ok(true)
  {
    c => IsHandled(c) && Routing.IsDangling(parents, components, rootIds, c) == Ok(true)
  }

  /** The keys `groupBy` computes, one per change; the first throw aborts. */
  function Routes(parents: map<int, Relation>, components: map<int, Component>, rootIds: seq<int>, changes: seq<Change>): (r: Result<seq<int>, EngineError>)
    requires forall c | c in changes :: IsHandled(c)
    ensures r.Ok? ==> |r.value| == |changes|
    decreases |changes|
  {
    if changes == [] then Ok([])
    else
      var k :- Routing.Route(parents, components, rootIds, changes[0]);
      var rest :- Routes(parents, components, rootIds, changes[1..]);
      Ok([k] + rest)
  }

  /** Each change is grouped under its own route, and a failing route makes the whole grouping fail. */
  lemma {:induction false} RoutesArePointwise(parents: map<int, Relation>, components: map<int, Component>, rootIds: seq<int>, changes: seq<Change>)
    requires forall c | c in changes :: IsHandled(c)
    ensures Routes(parents, components, rootIds, changes).Ok? <==> forall c | c in changes :: Routing.Route(parents, components, rootIds, c).Ok?
    ensures Routes(parents, components, rootIds, changes).Ok? ==>
      forall i | 0 <= i < |changes| :: Routing.Route(parents, components, rootIds, changes[i]) == Ok(Routes(parents, components, rootIds, changes).value[i])
    decreases |changes|
  {
    if changes != [] {
      RoutesArePointwise(parents, components, rootIds, changes[1..]);
      assert forall c | c in changes :: c == changes[0] || c in changes[1..];
      assert forall i | 1 <= i < |changes| :: changes[i] == changes[1..][i - 1];
    }
  }

  /** `acc` put in front of a successful result. */
  function Prefixed(acc: seq<int>, r: Result<seq<int>, EngineError>): Result<seq<int>, EngineError> {
    if r.Ok? then Ok(acc + r.value) else r
  }

  /** One step of the route loop: the route of `changes[i]` moves from the rest into the accumulated prefix. */
  lemma RoutesStep(parents: map<int, Relation>, components: map<int, Component>, rootIds: seq<int>, changes: seq<Change>, i: nat, routes: seq<int>)
    requires i < |changes| && forall c | c in changes :: IsHandled(c)
    ensures var k := Routing.Route(parents, components, rootIds, changes[i]);
      && (k.Err? ==> Routes(parents, components, rootIds, changes[i..]) == Err(k.error))
      && (k.Ok? ==> Prefixed(routes, Routes(parents, components, rootIds, changes[i..]))
                     == Prefixed(routes + [k.value], Routes(parents, components, rootIds, changes[i + 1..])))
  {
    assert changes[i..][1..] == changes[i + 1..];
    assert changes[i..][0] == changes[i];
    var rest := Routes(parents, components, rootIds, changes[i + 1..]);
    var k := Routing.Route(parents, components, rootIds, changes[i]);
    if k.Ok? && rest.Ok? {
      assert routes + ([k.value] + rest.value) == (routes + [k.value]) + rest.value;
    }
  }

  /** The keys of `groupBy` computed by a loop over the changes. */
  method RouteAll(parents: map<int, Relation>, components: map<int, Component>, rootIds: seq<int>, changes: seq<Change>) returns (r: Result<seq<int>, EngineError>)
    requires forall c | c in changes :: IsHandled(c)
    ensures r == Routes(parents, components, rootIds, changes)
  {
    var routes := [];
    var i := 0;
    assert changes[0..] == changes;
    assert Routes(parents, components, rootIds, changes) == Prefixed(routes, Routes(parents, components, rootIds, changes[i..])) by {
      var whole := Routes(parents, components, rootIds, changes);
      if whole.Ok? {
        assert [] + whole.value == whole.value;
      }
    }
    while i < |changes|
      invariant 0 <= i <= |changes|
      invariant Routes(parents, components, rootIds, changes) == Prefixed(routes, Routes(parents, components, rootIds, changes[i..]))
    {
      RoutesStep(parents, components, rootIds, changes, i, routes);
      var k := Routing.GetComponentIdOnWhichToDoTheChange(parents, components, rootIds, changes[i]);
      if k.Err? {
        return Err(k.error);
      }
      routes := routes + [k.value];
      i := i + 1;
    }
    assert routes + [] == routes;
    return Ok(routes);
  }

  /** The changes routed to `k`, in batch order: one group of `groupBy`. */
  function Group(changes: seq<Change>, routes: seq<int>, k: int): (r: seq<Change>)
    requires |changes| == |routes|
    ensures forall c | c in r :: c in changes
    ensures forall i | 0 <= i < |changes| && routes[i] == k :: changes[i] in r
    decreases |changes|
  {
    if changes == [] then []
    else
      var rest := Group(changes[1..], routes[1..], k);
      assert forall i | 1 <= i < |changes| :: changes[i] == changes[1..][i - 1] && routes[i] == routes[1..][i - 1];
      if routes[0] == k then [changes[0]] + rest else rest
  }

  /** Strictly ascending. */
  predicate Ascending(s: seq<int>) {
    forall i, j | 0 <= i < j < |s| :: s[i] < s[j]
  }

  /** `x` put into its place in an ascending sequence, unless it is already there. */
  function InsertDistinct(x: int, s: seq<int>): (r: seq<int>)
    requires Ascending(s)
    ensures Ascending(r)
    ensures forall y :: y in r <==> y == x || y in s
    ensures r != [] && (s == [] || r[0] == (if x < s[0] then x else s[0]))
    decreases |s|
  {
    if s == [] then [x]
    else if x < s[0] then [x] + s
    else if x == s[0] then s
    else
      var rest := InsertDistinct(x, s[1..]);
      assert forall y :: y in s <==> y == s[0] || y in s[1..];
      [s[0]] + rest
  }

  /** The group keys in the order of `.sort((a, b) => a.key - b.key)`, each once. */
  function DistinctAscending(routes: seq<int>): (r: seq<int>)
    ensures Ascending(r)
    ensures forall y :: y in r <==> y in routes
    decreases |routes|
  {
    if routes == [] then []
    else
      var init := DistinctAscending(routes[..|routes| - 1]);
      assert forall y :: y in routes <==> y in routes[..|routes| - 1] || y == routes[|routes| - 1];
      InsertDistinct(routes[|routes| - 1], init)
  }

  /**
   * The last loop of `processResponse`: each group in ascending key order
   * changes its component's state to the shallow merge `{...state, ...patch}`
   * of the `toState` patch; a missing component or a failing patch stops it.
   */
  function ApplyGroups(parents: map<int, Relation>, components: map<int, Component>, changes: seq<Change>, routes: seq<int>, keys: seq<int>)
    : (r: Step<map<int, Component>>)
    requires |changes| == |routes|
    ensures r.state.Keys == components.Keys
    ensures forall k | k in components :: r.state[k] == components[k].(state := r.state[k].state)
    ensures forall k | k in components && k !in keys :: r.state[k] == components[k]
    decreases |keys|
  {
    if keys == [] then Step(components, None)
    else
      var k := keys[0];
      if k !in components then Step(components, Some(ComponentNotFound(k)))
      else match Projection.StatePatch(parents, k, components[k].state, Group(changes, routes, k))
        case Err(e) => Step(components, Some(e))
        case Ok(patch) =>
          ApplyGroups(parents, components[k := components[k].(state := Spread(components[k].state, patch))], changes, routes, keys[1..])
  }

  /** The loop over the groups of `processResponse`. */
  method DeliverEachGroup(parents: map<int, Relation>, components: map<int, Component>, changes: seq<Change>, routes: seq<int>, keys: seq<int>)
    returns (r: Step<map<int, Component>>)
    requires |changes| == |routes|
    ensures r == ApplyGroups(parents, components, changes, routes, keys)
  {
    var current := components;
    var i := 0;
    assert keys[0..] == keys;
    while i < |keys|
      invariant 0 <= i <= |keys|
      invariant ApplyGroups(parents, components, changes, routes, keys) == ApplyGroups(parents, current, changes, routes, keys[i..])
    {
      assert keys[i..][1..] == keys[i + 1..];
      var k := keys[i];
      if k !in current {
        return Step(current, Some(ComponentNotFound(k)));
      }
      var patch := Projection.ToState(parents, Group(changes, routes, k), k, current[k].state);
      if patch.Err? {
        return Step(current, Some(patch.error));
      }
      current := current[k := current[k].(state := Spread(current[k].state, patch.value))];
      i := i + 1;
    }
    return Step(current, None);
  }

  /** The groups of the ready changes: their keys, then each group applied in ascending key order. */
  function DeliverGroups(rootIds: seq<int>, s: Store, ready: seq<Change>): (r: Step<Store>)
    requires forall c | c in ready :: IsHandled(c)
    ensures r.state == s.(components := r.state.components)
    ensures r.state.components.Keys == s.components.Keys
    ensures forall k | k in s.components :: r.state.components[k] == s.components[k].(state := r.state.components[k].state)
  {
    match Routes(s.parents, s.components, rootIds, ready)
    case Err(e) => Step(s, Some(e))
    case Ok(routes) =>
      var applied := ApplyGroups(s.parents, s.components, ready, routes, DistinctAscending(routes));
      Step(s.(components := applied.state), applied.failure)
  }

  /** The sorted batch after inference: the dangling decisions, the buffer, and the groups. */
  function Distribute(rootIds: seq<int>, s: Store, sorted: seq<Change>): (r: Step<Store>)
    requires forall c | c in sorted :: IsHandled(c)
  {
    match DanglingError(s.parents, s.components, rootIds, sorted)
    case Some(e) => Step(s, Some(e))
    case None =>
      var split := Ordering.Partition(sorted, DanglingTest(s.parents, s.components, rootIds));
      var buffered := Dangling.BufferAll(s.danglingStates, s.danglingOrder, split.1);
      DeliverGroups(rootIds, s.(danglingStates := buffered.0, danglingOrder := buffered.1), split.0)
  }

  /** `processResponse` from the relation loop on. */
  function ProcessSorted(rootIds: seq<int>, s: Store, sorted: seq<Change>): (r: Step<Store>)
    requires forall c | c in sorted :: IsHandled(c)
  {
    var inferred := Relations.InferAll(s.parents, s.components, rootIds, sorted);
    if inferred.failure.Some? then Step(s.(parents := inferred.state), inferred.failure)
    else Distribute(rootIds, s.(parents := inferred.state), sorted)
  }

  /**
   * `processResponse`: the new maps and the throw, if any.  Every step after
   * the validation keeps what the steps before it changed.
   */
  function ProcessSpec(rootIds: seq<int>, s: Store, changes: seq<Change>): (r: Step<Store>)
  {
    match Prepare(rootIds, changes)
    case Err(e) => Step(s, Some(e))
    case Ok(sorted) => ProcessSorted(rootIds, s, sorted)
  }

  /** A batch with a negative id fails before anything changes. */
  lemma NegativeIdChangesNothing(rootIds: seq<int>, s: Store, changes: seq<Change>, c: Change)
    requires c in changes && c.id < 0
    ensures ProcessSpec(rootIds, s, changes) == Step(s, Some(NegativeChangeId))
  {
  }

  /** Processing keeps the propagator consistent, whether or not it throws. */
  lemma ProcessKeepsConsistent(rootIds: seq<int>, s: Store, changes: seq<Change>)
    requires Consistent(s)
    ensures Consistent(ProcessSpec(rootIds, s, changes).state)
  {
    if Prepare(rootIds, changes).Ok? {
      var sorted := Prepare(rootIds, changes).value;
      Relations.InferAllKeepsKeyedByChild(s.parents, s.components, rootIds, sorted);
      var inferred := Relations.InferAll(s.parents, s.components, rootIds, sorted);
      if inferred.failure.None? {
        DistributeKeepsConsistent(rootIds, s.(parents := inferred.state), sorted);
      }
    }
  }

  /** The distribution of the batch keeps the propagator consistent. */
  lemma DistributeKeepsConsistent(rootIds: seq<int>, s: Store, sorted: seq<Change>)
    requires forall c | c in sorted :: IsHandled(c)
    requires Consistent(s)
    ensures Consistent(Distribute(rootIds, s, sorted).state)
  {
    if DanglingError(s.parents, s.components, rootIds, sorted).None? {
      var split := Ordering.Partition(sorted, DanglingTest(s.parents, s.components, rootIds));
      Dangling.BufferAllKeepsOrder(s.danglingStates, s.danglingOrder, split.1);
    }
  }

  /**
   * The dangling rules at work: each change of the batch lands in exactly one
   * half of the partition, the dangling half exactly when `isDangling` says
   * so, and both halves keep the batch order.
   */
  lemma DanglingChangesAreSeparated(parents: map<int, Relation>, components: map<int, Component>, rootIds: seq<int>, sorted: seq<Change>)
    requires forall c | c in sorted :: IsHandled(c)
    requires DanglingError(parents, components, rootIds, sorted).None?
    ensures var split := Ordering.Partition(sorted, DanglingTest(parents, components, rootIds));
      && multiset(split.0) + multiset(split.1) == multiset(sorted)
      && Ordering.IsSubsequence(split.0, sorted) && Ordering.IsSubsequence(split.1, sorted)
      && (forall c | c in split.1 :: Routing.IsDangling(parents, components, rootIds, c) == Ok(true))
      && (forall c | c in split.0 :: Routing.IsDangling(parents, components, rootIds, c) == Ok(false))
  {
    var test := DanglingTest(parents, components, rootIds);
    Ordering.PartitionKeepsOrder(sorted, test);
    var split := Ordering.Partition(sorted, test);
    forall c | c in split.0 ensures Routing.IsDangling(parents, components, rootIds, c) == Ok(false) {
      assert c in sorted && !test(c);
      DanglingVerdict(parents, components, rootIds, sorted, c);
    }
    forall c | c in split.1 ensures Routing.IsDangling(parents, components, rootIds, c) == Ok(true) {
      assert c in sorted && test(c);
      DanglingVerdict(parents, components, rootIds, sorted, c);
    }
  }

  /** On a batch on which `isDangling` does not throw, the test is its verdict. */
  lemma DanglingVerdict(parents: map<int, Relation>, components: map<int, Component>, rootIds: seq<int>, sorted: seq<Change>, c: Change)
    requires forall c | c in sorted :: IsHandled(c)
    requires DanglingError(parents, components, rootIds, sorted).None? && c in sorted
    ensures Routing.IsDangling(parents, components, rootIds, c) == Ok(DanglingTest(parents, components, rootIds)(c))
  {
  }

  // ---------------------------------------------------------------------
  // register and unregister (ChangesPropagator.ts, lines 483-575)

  /** The enumeration orders `register` visits the keys of the state and of the acquired dangling state in. */
  ghost predicate RegisterOrders(rootIds: seq<int>, s: Store, c: Component, stateOrder: seq<Key>, danglingOrder: seq<Key>) {
    c.id > Interfaces.UNINITIALIZED_ID && Registration.ReservedIdCheck(rootIds, s.components.Keys, c.id).Ok? ==>
    && Registration.IsEnumeration(stateOrder, Registration.EnumeratedKeys(c.state))
    && var moved := Registration.Move(c.state, s.danglingStates, stateOrder);
      var acquired := Dangling.Acquire(s.components.Keys, moved.1, s.danglingOrder, c.id);
      acquired.Ok? ==> Registration.IsEnumeration(danglingOrder, acquired.value.0.Keys)
  }

  /**
   * `register` with the corrected `setIsComponent`: the new maps and the
   * returned state `{...state, ...danglingState}`.  The component goes
   * into the map with its own state (after the move); only a successful
   * `register` lets its constructor assign the returned state to it, so
   * after a throw the stored component keeps its own state.
   */
  function RegisterSpec(rootIds: seq<int>, s: Store, c: Component, stateOrder: seq<Key>, danglingOrder: seq<Key>): (r: (Store, Result<Value, EngineError>))
    requires KeyedByChild(s.parents)
  {
    if c.id == Interfaces.UNINITIALIZED_ID then (s, Err(UninitializedId))
    else if c.id < Interfaces.UNINITIALIZED_ID then (s, Ok(c.state))
    else match Registration.ReservedIdCheck(rootIds, s.components.Keys, c.id)
      case Err(e) => (s, Err(e))
      case Ok(_) =>
        var moved := Registration.Move(c.state, s.danglingStates, stateOrder);
        match Dangling.Acquire(s.components.Keys, moved.1, s.danglingOrder, c.id)
        case Err(e) => (s.(danglingStates := moved.1), Err(e))
        case Ok(acquired) =>
          var movedDangling := Registration.Move(Obj(acquired.0), acquired.1, danglingOrder);
          var result := Spread(moved.0, movedDangling.0);
          Attach(rootIds, Store(s.parents, movedDangling.1, acquired.2, s.components[c.id := c.(state := moved.0)]), c, result)
  }

  /**
   * The end of `register`, once the component is in the map: the relation
   * to it is flagged, then its dangling children are resolved.  On success
   * the constructor assigns the returned state to the component.
   */
  function Attach(rootIds: seq<int>, registered: Store, c: Component, result: Value): (r: (Store, Result<Value, EngineError>))
    requires KeyedByChild(registered.parents)
  {
    var flagged := Relations.SetIsComponent(registered.parents, rootIds, c.id);
    if flagged.failure.Some? then (registered, Err(flagged.failure.value))
    else
      var children := Relations.ChildrenOf(flagged.state, rootIds, registered.danglingOrder, c);
      if children.failure.Some? then (registered.(parents := children.state), Err(children.failure.value))
      else (registered.(parents := children.state, components := registered.components[c.id := c.(state := result)]), Ok(result))
  }

  /** The reserved ids: -1 fails, and a temporary id below it returns the default state and registers nothing. */
  lemma RegisterOfUnassignedIds(rootIds: seq<int>, s: Store, c: Component, stateOrder: seq<Key>, danglingOrder: seq<Key>)
    requires KeyedByChild(s.parents)
    ensures c.id == Interfaces.UNINITIALIZED_ID ==> RegisterSpec(rootIds, s, c, stateOrder, danglingOrder) == (s, Err(UninitializedId))
    ensures c.id < Interfaces.UNINITIALIZED_ID ==> RegisterSpec(rootIds, s, c, stateOrder, danglingOrder) == (s, Ok(c.state))
  {
  }

  /** A root id cannot be registered once a component with a non-root id is. */
  lemma RootAfterNonRootFails(rootIds: seq<int>, s: Store, c: Component, stateOrder: seq<Key>, danglingOrder: seq<Key>, other: int)
    requires KeyedByChild(s.parents)
    requires c.id in rootIds && c.id >= 0 && other in s.components && other !in rootIds
    ensures RegisterSpec(rootIds, s, c, stateOrder, danglingOrder) == (s, Err(ReservedId(c.id)))
  {
    Registration.ReservedIdCheckCases(rootIds, s.components.Keys, c.id, other);
  }

  /**
   * A successful registration returns the state with the dangling fields on
   * top, drains the dangling entry, and registers the component; registering
   * the same non-root id again fails.
   */
  lemma RegisterDrainsDanglingStateOnce(rootIds: seq<int>, s: Store, c: Component, stateOrder: seq<Key>, danglingOrder: seq<Key>,
                                        again: Component, againState: seq<Key>, againDangling: seq<Key>)
    requires Consistent(s)
    requires c.id > Interfaces.UNINITIALIZED_ID && RegisterSpec(rootIds, s, c, stateOrder, danglingOrder).1.Ok?
    requires again.id == c.id && c.id !in rootIds
    ensures var (after, result) := RegisterSpec(rootIds, s, c, stateOrder, danglingOrder);
      && c.id !in after.danglingStates && c.id in after.components && after.components[c.id].state == result.value
      && result.value.Obj?
      && (forall n | n in Registration.EnumeratedKeys(c.state) :: n in result.value.fields)
      && (c.id in s.danglingStates ==>
            var entry := Registration.Move(c.state, s.danglingStates, stateOrder).1[c.id] - {IdKey};
            forall n | n in entry :: n in result.value.fields && (RefId(entry[n]).None? ==> result.value.fields[n] == entry[n]))
      && KeyedByChild(after.parents)
      && RegisterSpec(rootIds, after, again, againState, againDangling) == (after.(danglingStates := Registration.Move(again.state, after.danglingStates, againState).1), Err(AlreadyRegistered(c.id)))
  {
    var moved := Registration.Move(c.state, s.danglingStates, stateOrder);
    var acquired := Dangling.Acquire(s.components.Keys, moved.1, s.danglingOrder, c.id);
    var flagged := Relations.SetIsComponent(s.parents, rootIds, c.id);
    assert KeyedByChild(flagged.state);
    var children := Relations.ChildrenOf(flagged.state, rootIds, acquired.value.2, c);
    Relations.ChildrenOfResolvesEveryChild(flagged.state, rootIds, acquired.value.2, c);
    Registration.ReservedIdCheckCases(rootIds, s.components.Keys + {c.id}, c.id, c.id);
  }

  /**
   * A `register` that throws once the component is in the map leaves it
   * there with its own state after the move: the constructor never gets to
   * assign the returned state.
   */
  lemma FailedRegistrationKeepsOwnState(rootIds: seq<int>, s: Store, c: Component, stateOrder: seq<Key>, danglingOrder: seq<Key>)
    requires KeyedByChild(s.parents)
    requires c.id > Interfaces.UNINITIALIZED_ID && Registration.ReservedIdCheck(rootIds, s.components.Keys, c.id).Ok?
    requires Dangling.Acquire(s.components.Keys, Registration.Move(c.state, s.danglingStates, stateOrder).1, s.danglingOrder, c.id).Ok?
    requires RegisterSpec(rootIds, s, c, stateOrder, danglingOrder).1.Err?
    ensures var after := RegisterSpec(rootIds, s, c, stateOrder, danglingOrder).0;
      c.id in after.components && after.components[c.id] == c.(state := Registration.Move(c.state, s.danglingStates, stateOrder).0)
  {
  }

  /** Every outcome of `register`, failures included, keeps the store consistent. */
  lemma RegisterKeepsConsistent(rootIds: seq<int>, s: Store, c: Component, stateOrder: seq<Key>, danglingOrder: seq<Key>)
    requires Consistent(s)
    ensures Consistent(RegisterSpec(rootIds, s, c, stateOrder, danglingOrder).0)
  {
    if c.id > Interfaces.UNINITIALIZED_ID && Registration.ReservedIdCheck(rootIds, s.components.Keys, c.id).Ok? {
      var moved := Registration.Move(c.state, s.danglingStates, stateOrder);
      assert Dangling.OrderMatches(moved.1, s.danglingOrder);
      var acquired := Dangling.Acquire(s.components.Keys, moved.1, s.danglingOrder, c.id);
      if acquired.Ok? {
        Dangling.AcquireDrainsOnce(s.components.Keys, moved.1, s.danglingOrder, c.id);
        var movedDangling := Registration.Move(Obj(acquired.value.0), acquired.value.1, danglingOrder);
        assert Dangling.OrderMatches(movedDangling.1, acquired.value.2);
        var result := Spread(moved.0, movedDangling.0);
        var registered := Store(s.parents, movedDangling.1, acquired.value.2, s.components[c.id := c.(state := moved.0)]);
        assert Consistent(registered);
        AttachKeepsConsistent(rootIds, registered, c, result);
      }
    }
  }

  /** The end of `register` keeps a consistent store consistent, whatever state the component ends up with. */
  lemma AttachKeepsConsistent(rootIds: seq<int>, registered: Store, c: Component, result: Value)
    requires Consistent(registered)
    ensures Consistent(Attach(rootIds, registered, c, result).0)
  {
    var flagged := Relations.SetIsComponent(registered.parents, rootIds, c.id);
    assert KeyedByChild(flagged.state);
    if flagged.failure.None? {
      var children := Relations.ChildrenOf(flagged.state, rootIds, registered.danglingOrder, c);
      assert Consistent(registered.(parents := children.state));
    }
  }

  /** `unregister`: -1 fails, a registered id is removed, any other id fails. */
  function UnregisterSpec(components: map<int, Component>, id: int): (r: Result<map<int, Component>, EngineError>)
    ensures id == Interfaces.UNINITIALIZED_ID ==> r == Err(UninitializedId)
    ensures id != Interfaces.UNINITIALIZED_ID && id !in components ==> r == Err(NeverRegistered(id))
    ensures id != Interfaces.UNINITIALIZED_ID && id in components ==> r.Ok? && r.value == components - {id}
  {
    if id == Interfaces.UNINITIALIZED_ID then Err(UninitializedId)
    else if id in components then Ok(components - {id})
    else Err(NeverRegistered(id))
  }
}
