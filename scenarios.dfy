// The nested counter of tests/case3/changepropagator.spec.tsx, played on the
// model: the root registers, the server references the counter, the counter
// registers and the server increments it.
module Scenarios {
  import opened Results
  import opened Json
  import opened EngineTypes
  import Interfaces
  import Dangling
  import Registration
  import Relations
  import Routing
  import Projection
  import Ordering
  import Process
  import Propagator
  import TempIds

  /** The roots the test container binds: the command manager, then the application. */
  const Roots: seq<int> := [Interfaces.CommandManagerId, Interfaces.AppId]
  const CounterId: int := 2

  const RootState: Value := Obj(map[Name("counter") := Null])
  const CounterRef: Value := Obj(map[IdKey := Num(CounterId)])

  /** The root of the test: its counter starts as null and is not part of its state info's components. */
  function Root(): Component {
    Component(Interfaces.AppId, RootState, Nested(map[Name("counter") := Flag(false)]), k => true)
  }

  /** The counter, registering with its default count. */
  function Counter(count: int): Component {
    Component(CounterId, Obj(map[Name("currentCount") := Num(count)]), Nested(map[Name("currentCount") := Flag(false)]), k => true)
  }

  /** The first response references the counter from the root. */
  function ReferenceCounter(): Change {
    PropertyChanged(Interfaces.AppId, 0, "counter", CounterRef)
  }

  /** The second response increments the counter; the mock server stamps its changes with instruction id 1. */
  function Increment(): Change {
    PropertyChanged(CounterId, 1, "currentCount", Num(1))
  }

  /** The relation the first response creates. */
  const CounterRelation: Relation := Relation(CounterId, Name("counter"), Interfaces.AppId, Yes)

  /** The constructor leaves an empty dangling state for each root, the command manager first. */
  lemma InitialStore()
    ensures Dangling.InitialStates(Roots) == (map[1 := map[], 0 := map[]], [1, 0])
  {
    var empty: map<Key, Value> := map[];
    var none: seq<int> := [];
    assert Roots == [1, 0] && Roots[..1] == [1] && [1][..0] == none;
    assert Dangling.InitialStates(none) == (map[], none);
    assert none + [1] == [1] && [1] + [0] == [1, 0];
    assert Dangling.InitialStates([1]) == (map[1 := empty], [1]);
    assert map[1 := empty][0 := empty] == map[1 := empty, 0 := empty];
  }

  /** The root registers with its own state, and its dangling entry is drained. */
  lemma RootRegisters(stateOrder: seq<Key>, danglingOrder: seq<Key>)
    ensures var s := Process.Store(map[], map[1 := map[], 0 := map[]], [1, 0], map[]);
      Process.RegisterSpec(Roots, s, Root(), stateOrder, danglingOrder)
        == (Process.Store(map[], map[1 := map[]], [1], map[0 := Root()]), Ok(RootState))
  {
    var states: Dangling.States := map[1 := map[], 0 := map[]];
    Registration.ReservedIdCheckCases(Roots, {}, 0, 0);
    Registration.MoveWithoutReferences(RootState, states, stateOrder);
    RootAcquires();
    Registration.MoveWithoutReferences(Obj(map[]), map[1 := map[]], danglingOrder);
    assert Spread(RootState, Obj(map[])) == RootState;
    assert Root().(state := RootState) == Root();
    RootAttaches();
  }

  /** The root's dangling entry is empty and is taken out of the buffer. */
  lemma RootAcquires()
    ensures Dangling.Acquire({}, map[1 := map[], 0 := map[]], [1, 0], 0) == Ok((map[], map[1 := map[]], [1]))
  {
    var states: Dangling.States := map[1 := map[], 0 := map[]];
    assert states - {0} == map[1 := map[]];
    assert Dangling.Remove([1, 0], 0) == [1] by {
      assert [1, 0][1..] == [0];
      assert [0][1..] == [];
    }
  }

  /** No relation points at the root, and it has no children yet. */
  lemma RootAttaches()
    ensures Process.Attach(Roots, RootRegistered(), Root(), RootState) == (RootRegistered(), Ok(RootState))
  {
    assert [1][1..] == [];
    assert Relations.ChildrenOf(map[], Roots, [1], Root()) == Step(map[], None);
    assert Root().(state := RootState) == Root();
    assert RootRegistered().components[0 := Root()] == RootRegistered().components;
  }

  /** A batch of one change sorts to itself, whatever the key. */
  lemma SortOne(c: Change, key: Change -> int)
    ensures Ordering.SortBy([c], key) == [c]
  {
    assert [c][..0] == [];
  }

  /** The state of the root once the server has referenced the counter. */
  const RootWithCounter: Value := Obj(map[Name("counter") := CounterRef])

  /** The relations after the first response. */
  const WithCounter: map<int, Relation> := map[CounterId := CounterRelation]

  /** The store once the root has registered. */
  function RootRegistered(): Process.Store {
    Process.Store(map[], map[1 := map[]], [1], map[0 := Root()])
  }

  /** The store once the server has referenced the counter. */
  function CounterReferenced(): Process.Store {
    Process.Store(WithCounter, map[1 := map[]], [1], map[0 := Root().(state := RootWithCounter)])
  }

  lemma ReferencePrepared()
    ensures Process.Prepare(Roots, [ReferenceCounter()]) == Ok([ReferenceCounter()])
  {
    var c := ReferenceCounter();
    var batch := [c];
    assert forall x | x in batch :: x == c;
    assert [c][1..] == [];
    assert CounterRef.fields - {Name("isCollection")} == CounterRef.fields;
    assert Process.StripIsCollection(c) == c;
    assert Process.StripAll(batch) == batch;
    SortOne(c, Process.ChangeId);
  }

  lemma ReferenceInferred()
    ensures Relations.InferAll(map[], RootRegistered().components, Roots, [ReferenceCounter()]) == Step(WithCounter, None)
  {
    var c := ReferenceCounter();
    var components := RootRegistered().components;
    assert [c][1..] == [];
    assert RefId(CounterRef) == Some(CounterId);
    assert Root().isComponent(Name("counter"));
    assert Relations.NewRelation(CounterId, c).(isComponent := Yes) == CounterRelation;
    assert 0 in Roots && 0 in components;
    var stored := map[CounterId := Relations.NewRelation(CounterId, c)];
    assert stored[CounterId := CounterRelation] == WithCounter;
    assert Relations.InferRelation(map[], components, Roots, c) == Step(WithCounter, None);
  }

  /** `toState` of the first response on the root: the reference replaces null. */
  lemma ReferencePatch()
    ensures Projection.StatePatch(WithCounter, 0, RootState, [ReferenceCounter()]) == Ok(RootWithCounter)
  {
    var c := ReferenceCounter();
    var batch := [c];
    assert batch[1..] == [];
    SortOne(c, Projection.DescendingInstructionId);
    assert Projection.PathKeys(WithCounter, 0, c) == Ok([]);
    assert !Projection.MergesIntoOld(RootState, Name("counter"), CounterRef);
    assert Projection.LeafValue(RootState, Name("counter"), CounterRef) == CounterRef;
    assert Projection.WritePath(Obj(map[]), [], RootState, Name("counter"), CounterRef) == Ok(RootWithCounter);
    assert Projection.ApplyChanges(WithCounter, 0, RootState, Obj(map[]), batch) == Ok(RootWithCounter);
  }

  /** A one-change batch that is not dangling goes to delivery untouched. */
  lemma DistributeOne(rootIds: seq<int>, s: Process.Store, c: Change)
    requires IsHandled(c) && Routing.IsDangling(s.parents, s.components, rootIds, c) == Ok(false)
    ensures Process.Distribute(rootIds, s, [c]) == Process.DeliverGroups(rootIds, s, [c])
  {
    var batch := [c];
    assert batch[1..] == [];
    assert Process.DanglingError(s.parents, s.components, rootIds, batch[1..]).None?;
    assert Process.DanglingError(s.parents, s.components, rootIds, batch).None?;
    var test := Process.DanglingTest(s.parents, s.components, rootIds);
    assert !test(c);
    assert Ordering.Partition(batch[1..], test) == ([], []);
    assert [batch[0]] + [] == batch;
    assert Ordering.Partition(batch, test) == (batch, []);
    assert Dangling.BufferAll(s.danglingStates, s.danglingOrder, []) == (s.danglingStates, s.danglingOrder);
    assert s.(danglingStates := s.danglingStates, danglingOrder := s.danglingOrder) == s;
  }

  /** A one-change batch routed to a registered component merges its patch into that component's state. */
  lemma DeliverOne(rootIds: seq<int>, s: Process.Store, c: Change, k: int, patch: Value)
    requires IsHandled(c) && Routing.Route(s.parents, s.components, rootIds, c) == Ok(k) && k in s.components
    requires Projection.StatePatch(s.parents, k, s.components[k].state, [c]) == Ok(patch)
    ensures Process.DeliverGroups(rootIds, s, [c])
      == Step(s.(components := s.components[k := s.components[k].(state := Spread(s.components[k].state, patch))]), None)
  {
    var batch := [c];
    assert batch[1..] == [];
    assert Process.Routes(s.parents, s.components, rootIds, batch[1..]) == Ok([]);
    assert [k] + [] == [k];
    assert Process.Routes(s.parents, s.components, rootIds, batch) == Ok([k]);
    assert [k][..0] == [] && [k][1..] == [];
    assert Process.DistinctAscending([k]) == [k];
    assert Process.Group(batch, [k], k) == batch;
    var delivered := s.components[k := s.components[k].(state := Spread(s.components[k].state, patch))];
    assert Process.ApplyGroups(s.parents, delivered, batch, [k], []) == Step(delivered, None);
    assert Process.ApplyGroups(s.parents, s.components, batch, [k], [k]) == Step(delivered, None);
  }

  /**
   * The first response: the relation of the counter is recorded and, the
   * root being a component, marked component; the root's state holds the
   * reference.
   */
  lemma ServerReferencesCounter()
    ensures Process.ProcessSpec(Roots, RootRegistered(), [ReferenceCounter()]) == Step(CounterReferenced(), None)
  {
    ReferenceReachesDistribute();
    ReferenceDistributed();
  }

  lemma ReferenceReachesDistribute()
    ensures Process.ProcessSpec(Roots, RootRegistered(), [ReferenceCounter()])
      == Process.Distribute(Roots, RootRegistered().(parents := WithCounter), [ReferenceCounter()])
  {
    var c := ReferenceCounter();
    ReferencePrepared();
    assert Process.ProcessSpec(Roots, RootRegistered(), [c]) == Process.ProcessSorted(Roots, RootRegistered(), [c]);
    ReferenceInferred();
  }

  /** The first response is for the registered root: it is not dangling, and goes to the root itself. */
  lemma ReferenceRootIsOwner()
    ensures Routing.IsDangling(WithCounter, RootRegistered().components, Roots, ReferenceCounter()) == Ok(false)
    ensures Routing.Route(WithCounter, RootRegistered().components, Roots, ReferenceCounter()) == Ok(0)
  {
  }

  lemma ReferenceDistributed()
    ensures Process.Distribute(Roots, RootRegistered().(parents := WithCounter), [ReferenceCounter()]) == Step(CounterReferenced(), None)
  {
    var s := RootRegistered().(parents := WithCounter);
    var c := ReferenceCounter();
    ReferenceRootIsOwner();
    DistributeOne(Roots, s, c);
    ReferencePatch();
    DeliverOne(Roots, s, c, 0, RootWithCounter);
    ReferenceStore();
  }

  lemma ReferenceStore()
    ensures var s := RootRegistered().(parents := WithCounter);
      s.(components := s.components[0 := s.components[0].(state := Spread(s.components[0].state, RootWithCounter))]) == CounterReferenced()
  {
    assert Spread(RootState, RootWithCounter) == RootWithCounter;
  }

  /** The store once the counter has registered with its default count. */
  function CounterRegistered(): Process.Store {
    Process.Store(WithCounter, map[1 := map[]], [1], map[0 := Root().(state := RootWithCounter), CounterId := Counter(0)])
  }

  /** The counter registers: nothing is dangling for it, so it keeps its default state. */
  lemma CounterRegisters(stateOrder: seq<Key>, danglingOrder: seq<Key>)
    ensures Process.RegisterSpec(Roots, CounterReferenced(), Counter(0), stateOrder, danglingOrder) == (CounterRegistered(), Ok(Counter(0).state))
  {
    var s := CounterReferenced();
    var states: Dangling.States := map[1 := map[]];
    Registration.ReservedIdCheckCases(Roots, s.components.Keys, CounterId, CounterId);
    Registration.MoveWithoutReferences(Counter(0).state, states, stateOrder);
    assert Dangling.Acquire(s.components.Keys, states, [1], CounterId) == Ok((map[], states, [1]));
    Registration.MoveWithoutReferences(Obj(map[]), states, danglingOrder);
    assert Spread(Counter(0).state, Obj(map[])) == Counter(0).state;
    assert Counter(0).(state := Counter(0).state) == Counter(0);
    assert Relations.SetIsComponent(WithCounter, Roots, CounterId) == Step(WithCounter, None);
    assert [1][1..] == [];
    assert Relations.ResolveChildren(WithCounter, Roots, [1], CounterId, Counter(0).stateInfo, []) == Step((WithCounter, []), None);
    assert Relations.ChildrenOf(WithCounter, Roots, [1], Counter(0)) == Step(WithCounter, None);
    assert CounterRegistered().components[CounterId := Counter(0)] == CounterRegistered().components;
  }

  /** The store once the server has incremented the counter. */
  function CounterIncremented(): Process.Store {
    Process.Store(WithCounter, map[1 := map[]], [1], map[0 := Root().(state := RootWithCounter), CounterId := Counter(1)])
  }

  lemma IncrementPrepared()
    ensures Process.Prepare(Roots, [Increment()]) == Ok([Increment()])
  {
    var c := Increment();
    var batch := [c];
    assert forall x | x in batch :: x == c;
    assert [c][1..] == [];
    assert Process.StripAll(batch) == batch;
    SortOne(c, Process.ChangeId);
  }

  lemma IncrementReachesDistribute()
    ensures Process.ProcessSpec(Roots, CounterRegistered(), [Increment()]) == Process.Distribute(Roots, CounterRegistered(), [Increment()])
  {
    var c := Increment();
    IncrementPrepared();
    assert Process.ProcessSpec(Roots, CounterRegistered(), [c]) == Process.ProcessSorted(Roots, CounterRegistered(), [c]);
    assert [c][1..] == [];
    assert Relations.InferAll(WithCounter, CounterRegistered().components, Roots, [c]) == Step(WithCounter, None);
  }

  /**
   * The increment is for the registered counter: it is not dangling, and,
   * `currentCount` not being props, the counter itself takes it.
   */
  lemma IncrementCounterIsOwner()
    ensures Routing.IsDangling(WithCounter, CounterRegistered().components, Roots, Increment()) == Ok(false)
    ensures Routing.Route(WithCounter, CounterRegistered().components, Roots, Increment()) == Ok(CounterId)
  {
    var components := CounterRegistered().components;
    assert Routing.StateInfoOf(WithCounter, components, CounterId, WalkFuel(WithCounter)) == Ok(Counter(0).stateInfo);
    assert Routing.IsProps(WithCounter, components, Name("currentCount"), CounterId) == Ok(false);
    assert Routing.MovesUp(WithCounter, components, Name("currentCount"), CounterId) == Ok(false);
  }

  /** `toState` of the increment on the counter: the new count, merged over nothing. */
  lemma IncrementPatch()
    ensures Projection.StatePatch(WithCounter, CounterId, Counter(0).state, [Increment()]) == Ok(Counter(1).state)
  {
    var c := Increment();
    var batch := [c];
    assert batch[1..] == [];
    SortOne(c, Projection.DescendingInstructionId);
    assert Projection.PathKeys(WithCounter, CounterId, c) == Ok([]);
    assert !Projection.MergesIntoOld(Counter(0).state, Name("currentCount"), Num(1));
    assert Projection.WritePath(Obj(map[]), [], Counter(0).state, Name("currentCount"), Num(1)) == Ok(Counter(1).state);
    assert Projection.ApplyChanges(WithCounter, CounterId, Counter(0).state, Obj(map[]), batch) == Ok(Counter(1).state);
  }

  lemma IncrementStore()
    ensures var s := CounterRegistered();
      s.(components := s.components[CounterId := s.components[CounterId].(state := Spread(s.components[CounterId].state, Counter(1).state))])
        == CounterIncremented()
  {
    assert Spread(Counter(0).state, Counter(1).state) == Counter(1).state;
    assert Counter(0).(state := Counter(1).state) == Counter(1);
  }

  /** The second response: the counter's state becomes the new count. */
  lemma ServerIncrementsCounter()
    ensures Process.ProcessSpec(Roots, CounterRegistered(), [Increment()]) == Step(CounterIncremented(), None)
  {
    var s := CounterRegistered();
    var c := Increment();
    IncrementReachesDistribute();
    IncrementCounterIsOwner();
    DistributeOne(Roots, s, c);
    IncrementPatch();
    DeliverOne(Roots, s, c, CounterId, Counter(1).state);
    IncrementStore();
  }

  /** The store the constructor builds for the roots. */
  function Constructed(): Process.Store {
    Process.Store(map[], map[1 := map[], 0 := map[]], [1, 0], map[])
  }

  /** The root mounts and registers. */
  method MountRoot(propagator: Propagator.ChangesPropagator) returns (state: Result<Value, EngineError>)
    requires propagator.Valid() && propagator.rootIds == Roots && propagator.Snapshot() == Constructed()
    modifies propagator
    ensures propagator.Valid() && propagator.Snapshot() == RootRegistered() && state == Ok(RootState)
  {
    ghost var stateOrder, danglingOrder;
    state, stateOrder, danglingOrder := propagator.Register(Root());
    RootRegisters(stateOrder, danglingOrder);
  }

  /** The server's first response links the counter to the root. */
  method LinkCounter(propagator: Propagator.ChangesPropagator) returns (failure: Option<EngineError>)
    requires propagator.Valid() && propagator.rootIds == Roots && propagator.Snapshot() == RootRegistered()
    modifies propagator
    ensures propagator.Valid() && propagator.Snapshot() == CounterReferenced() && failure.None?
  {
    failure := propagator.ProcessResponse([ReferenceCounter()]);
    ServerReferencesCounter();
  }

  /** The counter mounts and registers with its default count. */
  method MountCounter(propagator: Propagator.ChangesPropagator) returns (state: Result<Value, EngineError>)
    requires propagator.Valid() && propagator.rootIds == Roots && propagator.Snapshot() == CounterReferenced()
    modifies propagator
    ensures propagator.Valid() && propagator.Snapshot() == CounterRegistered() && state == Ok(Counter(0).state)
  {
    ghost var stateOrder, danglingOrder;
    state, stateOrder, danglingOrder := propagator.Register(Counter(0));
    CounterRegisters(stateOrder, danglingOrder);
  }

  /** The server's second response increments the counter. */
  method IncrementCounter(propagator: Propagator.ChangesPropagator) returns (failure: Option<EngineError>)
    requires propagator.Valid() && propagator.rootIds == Roots && propagator.Snapshot() == CounterRegistered()
    modifies propagator
    ensures propagator.Valid() && propagator.Snapshot() == CounterIncremented() && failure.None?
  {
    failure := propagator.ProcessResponse([Increment()]);
    ServerIncrementsCounter();
  }

  /**
   * The whole test on the propagator: the root mounts, the server links the
   * counter, the counter mounts with its default count, and the server
   * increments it.
   */
  method NestedCounter() returns (registeredCount: Value, count: Value)
    ensures registeredCount == Num(0) && count == Num(1)
  {
    var propagator := new Propagator.ChangesPropagator(Roots);
    InitialStore();
    assert propagator.Snapshot() == Constructed();
    var root := MountRoot(propagator);
    var failure := LinkCounter(propagator);
    var counter := MountCounter(propagator);
    registeredCount := Get(counter.value, Name("currentCount"));
    failure := IncrementCounter(propagator);
    count := Get(propagator.components[CounterId].state, Name("currentCount"));
    Counts();
  }

  /** The count the counter registers with, and the one it holds after the increment. */
  lemma Counts()
    ensures Get(Counter(0).state, Name("currentCount")) == Num(0)
    ensures Get(CounterIncremented().components[CounterId].state, Name("currentCount")) == Num(1)
  {
  }

  /**
   * A component created clientside carries a temporary id: registering it
   * returns its own state, registers nothing and drains no dangling state.
   */
  method ClientsideComponent(state: Value, stateInfo: StateInfo) returns (r: Result<Value, EngineError>, registered: set<int>, pending: seq<int>)
    ensures r == Ok(state) && registered == {} && pending == Roots
  {
    var propagator := new Propagator.ChangesPropagator(Roots);
    InitialStore();
    var ids := new TempIds.TempIdProvider();
    var id := ids.Next();
    ghost var stateOrder, danglingOrder;
    r, stateOrder, danglingOrder := propagator.Register(Component(id, state, stateInfo, k => true));
    registered, pending := propagator.components.Keys, propagator.danglingOrder;
  }
}
