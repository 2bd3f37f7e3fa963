// The class ChangesPropagator of changesPropagator/ChangesPropagator.ts: the
// three maps it updates in place and the synchronous operations on them.
module Propagator {
  import opened Results
  import opened Json
  import opened EngineTypes
  import Interfaces
  import Instructions
  import Ordering
  import Projection
  import Relations
  import Dangling
  import Registration
  import Process

  /** The validation of `executeCommand`: an empty name, an id below -1 or null event arguments are rejected. */
  function ValidateInstruction(command: Instructions.CommandInstruction): (r: Result<(), EngineError>)
    ensures r.Ok? <==> command.commandName != "" && command.viewModelId >= Interfaces.UNINITIALIZED_ID && !IsNullish(command.eventArgs)
    ensures r.Err? ==> r.error == InvalidCommandInstruction
  {
    if command.commandName == "" || command.viewModelId < Interfaces.UNINITIALIZED_ID || IsNullish(command.eventArgs) then
      Err(InvalidCommandInstruction)
    else Ok(())
  }

  /** An instruction the command manager builds for a named command on a view model passes the validation. */
  lemma ManagerInstructionsAreValid(commandName: string, viewModelId: int, args: Value)
    requires commandName != "" && viewModelId >= Interfaces.UNINITIALIZED_ID
    ensures ValidateInstruction(Instructions.MakeInstruction(commandName, viewModelId, args)).Ok?
  {
    var instruction := Instructions.MakeInstruction(commandName, viewModelId, args);
    assert Truthy(instruction.eventArgs);
  }

  class ChangesPropagator {
    const rootIds: seq<int>
    /** From a child view model id to the relation with its parent. */
    var parents: map<int, Relation>
    /** The changes for view models whose component has not registered yet. */
    var danglingStates: Dangling.States
    /** The insertion order of `danglingStates`. */
    var danglingOrder: seq<int>
    /** The registered components by id. */
    var components: map<int, Component>

    function Snapshot(): Process.Store
      reads this
    {
      Process.Store(parents, danglingStates, danglingOrder, components)
    }

    ghost predicate Valid()
      reads this
    {
      Process.Consistent(Snapshot())
    }

    /** Every root starts with an empty dangling state. */
    constructor(rootIds: seq<int>)
      ensures Valid()
      ensures this.rootIds == rootIds && parents == map[] && components == map[]
      ensures (danglingStates, danglingOrder) == Dangling.InitialStates(rootIds)
    {
      this.rootIds := rootIds;
      var states: Dangling.States, order: seq<int> := map[], [];
      var i := 0;
      while i < |rootIds|
        invariant 0 <= i <= |rootIds|
        invariant (states, order) == Dangling.InitialStates(rootIds[..i])
      {
        assert rootIds[..i + 1][..i] == rootIds[..i];
        if rootIds[i] !in states {
          order := order + [rootIds[i]];
        }
        ghost var before := states;
        states := states[rootIds[i] := map[]];
        if rootIds[i] in before {
          assert states == before;
        }
        i := i + 1;
      }
      assert rootIds[..|rootIds|] == rootIds;
      parents, danglingStates, danglingOrder, components := map[], states, order, map[];
    }

    /** `processResponse`: apply a batch of server changes. */
    method ProcessResponse(changes: seq<Change>) returns (failure: Option<EngineError>)
      requires Valid()
      modifies this
      ensures Valid()
      ensures Snapshot() == Process.ProcessSpec(rootIds, old(Snapshot()), changes).state
      ensures failure == Process.ProcessSpec(rootIds, old(Snapshot()), changes).failure
    {
      Process.ProcessKeepsConsistent(rootIds, Snapshot(), changes);
      var prepared := Process.Prepare(rootIds, changes);
      if prepared.Err? {
        return Some(prepared.error);
      }
      var sorted := prepared.value;
      var inferred := Relations.InferRelations(parents, components, rootIds, sorted);
      parents := inferred.state;
      if inferred.failure.Some? {
        return inferred.failure;
      }
      failure := DistributeChanges(sorted);
    }

    /** `processResponse` after the relation loop: buffer the dangling changes and deliver the others. */
    method DistributeChanges(sorted: seq<Change>) returns (failure: Option<EngineError>)
      requires forall c | c in sorted :: IsHandled(c)
      modifies this
      ensures Snapshot() == Process.Distribute(rootIds, old(Snapshot()), sorted).state
      ensures failure == Process.Distribute(rootIds, old(Snapshot()), sorted).failure
    {
      var danglingError := Process.DanglingError(parents, components, rootIds, sorted);
      if danglingError.Some? {
        return danglingError;
      }
      var setStateChanges, danglingChanges := Ordering.FilterOutDanglingChanges(sorted, Process.DanglingTest(parents, components, rootIds));
      var buffered := Dangling.BufferDanglingChanges(danglingStates, danglingOrder, danglingChanges);
      danglingStates, danglingOrder := buffered.0, buffered.1;
      failure := DeliverChanges(setStateChanges);
    }

    /** The groups of `processResponse`: each component, in ascending id, gets `toState` of its changes. */
    method DeliverChanges(setStateChanges: seq<Change>) returns (failure: Option<EngineError>)
      requires forall c | c in setStateChanges :: IsHandled(c)
      modifies this
      ensures Snapshot() == Process.DeliverGroups(rootIds, old(Snapshot()), setStateChanges).state
      ensures failure == Process.DeliverGroups(rootIds, old(Snapshot()), setStateChanges).failure
    {
      var routes := Process.RouteAll(parents, components, rootIds, setStateChanges);
      if routes.Err? {
        return Some(routes.error);
      }
      var applied := Process.DeliverEachGroup(parents, components, setStateChanges, routes.value, Process.DistinctAscending(routes.value));
      components := applied.state;
      return applied.failure;
    }

    /** `setIsComponent`, as corrected: the relation of a newly registered component says component. */
    method SetIsComponent(componentId: int) returns (failure: Option<EngineError>)
      modifies this
      ensures parents == Relations.SetIsComponent(old(parents), rootIds, componentId).state
      ensures failure == Relations.SetIsComponent(old(parents), rootIds, componentId).failure
      ensures danglingStates == old(danglingStates) && danglingOrder == old(danglingOrder) && components == old(components)
    {
      if componentId !in parents {
        if componentId !in rootIds {
          return Some(DanglingComponent(componentId));
        }
        return None;
      }
      var relation := parents[componentId];
      match relation.isComponent
      case Yes =>
        return None;
      case Unknown =>
        parents := parents[componentId := relation.(isComponent := Yes)];
        return None;
      case No =>
        return Some(WrongStateInfo(componentId));
    }

    /** `setIsComponentOnChildrenOf`. */
    method SetIsComponentOnChildrenOf(newComponent: Component) returns (failure: Option<EngineError>)
      requires KeyedByChild(parents)
      modifies this
      ensures parents == Relations.ChildrenOf(old(parents), rootIds, danglingOrder, newComponent).state
      ensures failure == Relations.ChildrenOf(old(parents), rootIds, danglingOrder, newComponent).failure
      ensures danglingStates == old(danglingStates) && danglingOrder == old(danglingOrder) && components == old(components)
    {
      if newComponent.stateInfo.Absent? {
        return Some(MissingStateInfo(newComponent.id));
      }
      var resolved := Relations.ResolveChildrenOf(parents, rootIds, danglingOrder, newComponent.id, newComponent.stateInfo);
      parents := resolved.state.0;
      if resolved.failure.Some? {
        return resolved.failure;
      }
      parents := Relations.SetIsNonComponentOnDescendantsOf(parents, danglingOrder, resolved.state.1);
      return None;
    }

    /** `acquireDanglingState`. */
    method AcquireDanglingState(componentId: int) returns (r: Result<map<Key, Value>, EngineError>)
      modifies this
      ensures var a := Dangling.Acquire(old(components).Keys, old(danglingStates), old(danglingOrder), componentId);
        && (a.Err? ==> r == Err(a.error) && danglingStates == old(danglingStates) && danglingOrder == old(danglingOrder))
        && (a.Ok? ==> r == Ok(a.value.0) && danglingStates == a.value.1 && danglingOrder == a.value.2)
      ensures parents == old(parents) && components == old(components)
    {
      if componentId in components {
        return Err(AlreadyRegistered(componentId));
      }
      if componentId !in danglingStates {
        return Ok(map[]);
      }
      var state := danglingStates[componentId];
      danglingStates := danglingStates - {componentId};
      danglingOrder := Dangling.Remove(danglingOrder, componentId);
      return Ok(state - {IdKey});
    }

    /**
     * `register`: the state the new component starts with.  The key orders
     * the two moves visit are returned as `stateOrder` and `danglingKeyOrder`.
     */
    method Register(newComponent: Component) returns (r: Result<Value, EngineError>, ghost stateOrder: seq<Key>, ghost danglingKeyOrder: seq<Key>)
      requires Valid()
      modifies this
      ensures Valid()
      ensures Process.RegisterOrders(rootIds, old(Snapshot()), newComponent, stateOrder, danglingKeyOrder)
      ensures (Snapshot(), r) == Process.RegisterSpec(rootIds, old(Snapshot()), newComponent, stateOrder, danglingKeyOrder)
    {
      ghost var before := Snapshot();
      stateOrder, danglingKeyOrder := [], [];
      var id := newComponent.id;
      if id == Interfaces.UNINITIALIZED_ID {
        return Err(UninitializedId), stateOrder, danglingKeyOrder;
      } else if id < Interfaces.UNINITIALIZED_ID {
        return Ok(newComponent.state), stateOrder, danglingKeyOrder;
      }
      var reserved := Registration.AssertIsNotReservedId(rootIds, components.Keys, id);
      if reserved.Err? {
        return Err(reserved.error), stateOrder, danglingKeyOrder;
      }
      var state, states, order := Registration.MovePropertiesFromStateToProps(newComponent.state, danglingStates);
      stateOrder := order;
      danglingStates := states;
      var acquired := AcquireDanglingState(id);
      if acquired.Err? {
        Process.RegisterKeepsConsistent(rootIds, before, newComponent, stateOrder, danglingKeyOrder);
        return Err(acquired.error), stateOrder, danglingKeyOrder;
      }
      var danglingState, states', order' := Registration.MovePropertiesFromStateToProps(Obj(acquired.value), danglingStates);
      danglingKeyOrder := order';
      danglingStates := states';
      var result := Spread(state, danglingState);
      components := components[id := newComponent.(state := state)];
      Process.RegisterKeepsConsistent(rootIds, before, newComponent, stateOrder, danglingKeyOrder);
      r := Attach(newComponent, result);
    }

    /** The end of `register`: `setIsComponent`, then `setIsComponentOnChildrenOf`. */
    method Attach(newComponent: Component, result: Value) returns (r: Result<Value, EngineError>)
      requires KeyedByChild(parents)
      modifies this
      ensures (Snapshot(), r) == Process.Attach(rootIds, old(Snapshot()), newComponent, result)
    {
      var failure := SetIsComponent(newComponent.id);
      if failure.Some? {
        return Err(failure.value);
      }
      assert KeyedByChild(parents);
      failure := SetIsComponentOnChildrenOf(newComponent);
      if failure.Some? {
        return Err(failure.value);
      }
      components := components[newComponent.id := newComponent.(state := result)];
      return Ok(result);
    }

    /** `unregister`. */
    method Unregister(componentId: int) returns (failure: Option<EngineError>)
      requires Valid()
      modifies this
      ensures Valid()
      ensures var u := Process.UnregisterSpec(old(components), componentId);
        && (u.Ok? ==> failure.None? && components == u.value)
        && (u.Err? ==> failure == Some(u.error) && components == old(components))
      ensures parents == old(parents) && danglingStates == old(danglingStates) && danglingOrder == old(danglingOrder)
    {
      if componentId == Interfaces.UNINITIALIZED_ID {
        return Some(UninitializedId);
      } else if componentId in components {
        components := components - {componentId};
        return None;
      } else {
        return Some(NeverRegistered(componentId));
      }
    }
  }

}
