// The data of changesPropagator/ChangesPropagator.ts: parent relations,
// registered components, server changes, and the ways processing fails.
module EngineTypes {
  import opened Results
  import opened Json
  import Common

  /** A relation's `isComponent` flag: `undefined`, `true` or `false`. */
  datatype Tri = Unknown | Yes | No

  function TriOf(b: bool): (t: Tri)
    ensures t != Unknown && (t == Yes <==> b)
  {
    if b then Yes else No
  }

  /** `Relation`: the child with id `childId` is stored under `propertyName` of the view model `parentId`. */
  datatype Relation = Relation(childId: int, propertyName: Key, parentId: int, isComponent: Tri)

  /** A component's `stateInfo`: undefined, a boolean, or an object of nested entries. */
  datatype StateInfo = Absent | Flag(b: bool) | Nested(entries: map<Key, StateInfo>)

  /**
   * A registered component: its `__id`, its state, its `stateInfo` and its
   * answer to `isComponent(propertyName)`.
   */
  datatype Component = Component(id: int, state: Value, stateInfo: StateInfo, isComponent: Key -> bool)

  /** The kinds of change a server response carries. */
  datatype Change =
    | PropertyChanged(id: int, instructionId: int, propertyName: string, value: Value)
    | ItemAdded(id: int, instructionId: int, collectionName: string, item: Value, index: int)
    | ItemRemoved(id: int, instructionId: int, collectionName: string, removedItem: Value, index: int)
    | ItemsReordered(id: int, instructionId: int, collectionName: string, index1: int, index2: int)

  /** The changes the propagator handles: property changes and item additions. */
  predicate IsHandled(c: Change) {
    c.PropertyChanged? || c.ItemAdded?
  }

  /** `change.propertyName`, or `change.index` for an item addition. */
  function ChangeKey(c: Change): (k: Key)
    requires IsHandled(c)
    ensures c.PropertyChanged? ==> k == Name(c.propertyName)
    ensures c.ItemAdded? ==> k == Index(c.index)
  {
    if c.PropertyChanged? then Name(c.propertyName) else Index(c.index)
  }

  /** `change.value`, or `change.item` for an item addition. */
  function ChangeValue(c: Change): (v: Value)
    requires IsHandled(c)
    ensures c.PropertyChanged? ==> v == c.value
    ensures c.ItemAdded? ==> v == c.item
  {
    if c.PropertyChanged? then c.value else c.item
  }

  /**
   * The id a value refers to: its `__id` when `isComponentProps` accepts it
   * and the id is an integer.
   */
  function RefId(v: Value): (r: Option<int>)
    ensures r.Some? <==> Common.IsComponentProps(v) && Get(v, IdKey).Num?
    ensures r.Some? ==> v.Obj? && v.fields[IdKey] == Num(r.value)
  {
    if Common.IsComponentProps(v) && Get(v, IdKey).Num? then Some(Get(v, IdKey).n) else None
  }

  /** A value `isComponentProps` accepts whose `__id` is not an integer: the model does not follow such ids. */
  predicate HasUnsupportedId(v: Value) {
    Common.IsComponentProps(v) && !Get(v, IdKey).Num?
  }

  datatype EngineError =
    // processResponse
    | NegativeChangeId
    | UnsupportedId
    | UnhandledChangeType
    | RootMismatch(id: int)
    | ObjectAncestor(id: int)
    | UnregisteredNonRoot(id: int)
    | UnknownIsComponent(id: int)
    | PropsOnRoot(id: int)
    | RootsMustHaveRegistered(id: int)
    | StateInfoOfUndefined(id: int)
    | NotDescendant(id: int)
    | ComponentNotFound(id: int)
    | NotAnObject
    | Cycle
    // the isComponent setter
    | AlreadySetToTrue
    | UndefinedAssigned
    // register and unregister
    | UninitializedId
    | ReservedId(id: int)
    | AlreadyRegistered(id: int)
    | DanglingComponent(id: int)
    | WrongStateInfo(id: int)
    | MissingStateInfo(id: int)
    | InOperatorOnPrimitive
    | InconsistentIsComponent(id: int)
    | NeverRegistered(id: int)
    | UnresolvedChild(id: int)   // the development-only check of `setIsComponentOnChildrenOf`
    // executeCommand
    | InvalidCommandInstruction

  /**
   * The `isComponent` setter: assigning undefined fails, and once the flag
   * holds true every assignment fails; `false` may be overwritten.
   */
  function AssignIsComponent(r: Relation, value: Option<bool>): (res: Result<Relation, EngineError>)
    ensures res.Ok? <==> r.isComponent != Yes && value.Some?
    ensures r.isComponent == Yes ==> res == Err(AlreadySetToTrue)
    ensures r.isComponent != Yes && value.None? ==> res == Err(UndefinedAssigned)
    ensures res.Ok? ==> (res.value.isComponent == TriOf(value.value) && res.value.(isComponent := r.isComponent) == r)
  {
    if r.isComponent == Yes then Err(AlreadySetToTrue)
    else if value.None? then Err(UndefinedAssigned)
    else Ok(r.(isComponent := TriOf(value.value)))
  }

  /** The relations that the maps of the propagator hold are filed under their own child id. */
  ghost predicate KeyedByChild(parents: map<int, Relation>) {
    forall k | k in parents :: parents[k].childId == k
  }

  /** A step of a procedure that may throw after changing some of the state. */
  datatype Step<S> = Step(state: S, failure: Option<EngineError>)

  /** The number of steps after which a walk over `parents` is known to revisit an id. */
  function WalkFuel(parents: map<int, Relation>): (n: nat)
    ensures n > |parents|
  {
    |parents| + 1
  }
}
