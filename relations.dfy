// How ChangesPropagator.ts learns whether a view model is a component: the
// relations inferred from reference-valued changes, the flag set on
// registration, the flags of a new component's children, and the cascade of
// "plain data" down the dangling tree.
module Relations {
  import opened Results
  import opened Json
  import opened EngineTypes
  import Routing

  /** The relation a reference change records: its `isComponent` is not known yet. */
  function NewRelation(childId: int, c: Change): Relation
    requires IsHandled(c)
  {
    Relation(childId, ChangeKey(c), c.id, Unknown)
  }

  /**
   * One iteration of the relation loop of `processResponse`.  The relation is
   * stored before the parent's relation is read, and stays stored when the
   * root test then throws.
   */
  function InferRelation(parents: map<int, Relation>, components: map<int, Component>, rootIds: seq<int>, c: Change): (r: Step<map<int, Relation>>)
    requires IsHandled(c)
    ensures RefId(ChangeValue(c)).None? ==> r == Step(parents, None)
    ensures RefId(ChangeValue(c)).Some? ==>
      var childId := RefId(ChangeValue(c)).value;
      var stored := parents[childId := NewRelation(childId, c)];
      // the relation child -> (key, change id) is recorded, and nothing else changes
      && r.state.Keys == stored.Keys
      && (forall k | k in stored && k != childId :: r.state[k] == stored[k])
      && r.state[childId].(isComponent := Unknown) == NewRelation(childId, c)
      // "the parent has no relation" must coincide with "the parent is a root"
      && ((c.id !in stored) != (c.id in rootIds) ==> r == Step(stored, Some(RootMismatch(c.id))))
      && ((c.id !in stored) == (c.id in rootIds) ==>
        // a child of plain data is plain data
        && (c.id in stored && stored[c.id].isComponent == No ==> r.failure.None? && r.state[childId].isComponent == No)
        // otherwise a registered parent answers, and an unregistered one leaves it open
        && ((c.id !in stored || stored[c.id].isComponent == Yes) && c.id in components ==>
              r.failure.None? && r.state[childId].isComponent == TriOf(components[c.id].isComponent(ChangeKey(c))))
        && ((c.id !in stored || stored[c.id].isComponent == Yes) && c.id !in components ==> r == Step(stored, None))
        // below a parent of unknown kind, no ancestor may be plain data
        && (c.id in stored && stored[c.id].isComponent == Unknown ==>
              r.state == stored && (r.failure.None? <==> Routing.NoObjectAncestor(stored, c.id, WalkFuel(stored)).Ok?)))
  {
    match RefId(ChangeValue(c))
    case None => Step(parents, None)
    case Some(childId) =>
      var relation := NewRelation(childId, c);
      var stored := parents[childId := relation];
      if (c.id !in stored) != (c.id in rootIds) then Step(stored, Some(RootMismatch(c.id)))
      else if c.id in stored && stored[c.id].isComponent == No then
        Step(stored[childId := relation.(isComponent := No)], None)
      else if c.id !in stored || stored[c.id].isComponent == Yes then
        if c.id in components then
          Step(stored[childId := relation.(isComponent := TriOf(components[c.id].isComponent(relation.propertyName)))], None)
        else Step(stored, None)
      else match Routing.NoObjectAncestor(stored, c.id, WalkFuel(stored))
        case Ok(_) => Step(stored, None)
        case Err(e) => Step(stored, Some(e))
  }

  /** The relation loop over the sorted changes, stopping at the first throw. */
  function InferAll(parents: map<int, Relation>, components: map<int, Component>, rootIds: seq<int>, changes: seq<Change>): Step<map<int, Relation>>
    requires forall c | c in changes :: IsHandled(c)
    decreases |changes|
  {
    if changes == [] then Step(parents, None)
    else
      var s := InferRelation(parents, components, rootIds, changes[0]);
      if s.failure.Some? then s else InferAll(s.state, components, rootIds, changes[1..])
  }

  /** Inference keeps every relation filed under its child id. */
  lemma {:induction false} InferAllKeepsKeyedByChild(parents: map<int, Relation>, components: map<int, Component>, rootIds: seq<int>, changes: seq<Change>)
    requires forall c | c in changes :: IsHandled(c)
    requires KeyedByChild(parents)
    ensures KeyedByChild(InferAll(parents, components, rootIds, changes).state)
    decreases |changes|
  {
    if changes != [] {
      var s := InferRelation(parents, components, rootIds, changes[0]);
      if s.failure.None? {
        InferAllKeepsKeyedByChild(s.state, components, rootIds, changes[1..]);
      }
    }
  }

  /** After a complete pass every referenced child has a relation, and no relation was dropped. */
  lemma {:induction false} InferAllRecordsEveryReference(parents: map<int, Relation>, components: map<int, Component>, rootIds: seq<int>, changes: seq<Change>)
    requires forall c | c in changes :: IsHandled(c)
    ensures parents.Keys <= InferAll(parents, components, rootIds, changes).state.Keys
    ensures InferAll(parents, components, rootIds, changes).failure.None? ==>
      forall c | c in changes && RefId(ChangeValue(c)).Some? :: RefId(ChangeValue(c)).value in InferAll(parents, components, rootIds, changes).state
    decreases |changes|
  {
    if changes != [] {
      var s := InferRelation(parents, components, rootIds, changes[0]);
      if s.failure.None? {
        InferAllRecordsEveryReference(s.state, components, rootIds, changes[1..]);
        assert changes == [changes[0]] + changes[1..];
      }
    }
  }

  /** The relation loop of `processResponse`. */
  method InferRelations(parents: map<int, Relation>, components: map<int, Component>, rootIds: seq<int>, changes: seq<Change>)
    returns (r: Step<map<int, Relation>>)
    requires forall c | c in changes :: IsHandled(c)
    ensures r == InferAll(parents, components, rootIds, changes)
  {
    var current := parents;
    var i := 0;
    assert changes[0..] == changes;
    while i < |changes|
      invariant 0 <= i <= |changes|
      invariant InferAll(parents, components, rootIds, changes) == InferAll(current, components, rootIds, changes[i..])
    {
      assert changes[i..][1..] == changes[i + 1..];
      var s := InferRelation(current, components, rootIds, changes[i]);
      if s.failure.Some? {
        return s;
      }
      current := s.state;
      i := i + 1;
    }
    return Step(current, None);
  }

  /**
   * `setIsComponent` as written: the `undefined` case sets the flag and then
   * falls through into the failing assertion.
   */
  function SetIsComponentAsWritten(parents: map<int, Relation>, rootIds: seq<int>, id: int): (r: Step<map<int, Relation>>)
    ensures id !in parents ==> r == Step(parents, if id in rootIds then None else Some(DanglingComponent(id)))
    ensures id in parents ==> (r.failure.None? <==> parents[id].isComponent == Yes)
  {
    if id !in parents then Step(parents, if id in rootIds then None else Some(DanglingComponent(id)))
    else match parents[id].isComponent
      case Yes => Step(parents, None)
      case Unknown => Step(parents[id := parents[id].(isComponent := Yes)], Some(WrongStateInfo(id)))
      case No => Step(parents, Some(WrongStateInfo(id)))
  }

  /**
   * `setIsComponent` as evidently intended: an unknown flag becomes true and
   * registration goes on; only a relation that says plain data fails.
   */
  function SetIsComponent(parents: map<int, Relation>, rootIds: seq<int>, id: int): (r: Step<map<int, Relation>>)
    ensures id !in parents ==> r == Step(parents, if id in rootIds then None else Some(DanglingComponent(id)))
    ensures id in parents ==> (r.failure.None? <==> parents[id].isComponent != No)
    ensures r.failure.None? && id in parents ==> r.state == parents[id := parents[id].(isComponent := Yes)]
    ensures r.failure.Some? ==> r.state == parents
  {
    if id !in parents then Step(parents, if id in rootIds then None else Some(DanglingComponent(id)))
    else match parents[id].isComponent
      case Yes => Step(parents, None)
      case Unknown => Step(parents[id := parents[id].(isComponent := Yes)], None)
      case No => Step(parents, Some(WrongStateInfo(id)))
  }

  /**
   * The two differ exactly on an unknown flag: the code as written records
   * the component and still fails the registration.
   */
  lemma UnknownFlagFailsRegistrationAsWritten(parents: map<int, Relation>, rootIds: seq<int>, id: int)
    requires id in parents && parents[id].isComponent == Unknown
    ensures SetIsComponentAsWritten(parents, rootIds, id).failure == Some(WrongStateInfo(id))
    ensures SetIsComponentAsWritten(parents, rootIds, id).state[id].isComponent == Yes
    ensures SetIsComponent(parents, rootIds, id) == Step(SetIsComponentAsWritten(parents, rootIds, id).state, None)
  {
  }

  /** The `in` test of `setIsComponentOnChildrenOf` on a `stateInfo` that is not undefined. */
  function InStateInfo(key: Key, info: StateInfo): (r: Result<bool, EngineError>)
    requires !info.Absent?
    ensures info.Flag? ==> r == Err(InOperatorOnPrimitive)
    ensures info.Nested? ==> r == Ok(key in info.entries)
  {
    if info.Flag? then Err(InOperatorOnPrimitive) else Ok(key in info.entries)
  }

  /** Only flags that were unknown have been given a value; every other part of every relation is as it was. */
  ghost predicate OnlyResolved(before: map<int, Relation>, after: map<int, Relation>) {
    && after.Keys == before.Keys
    && forall k | k in before :: after[k] == before[k] || (before[k].isComponent == Unknown && after[k] == before[k].(isComponent := after[k].isComponent))
  }

  /**
   * The loop of `setIsComponentOnChildrenOf` over the dangling ids, from
   * `order` on: a relation to the new component takes "key in stateInfo"
   * when it was unknown, and fails when it already held the opposite.
   * Children found to be plain data are appended to `childObjectIds`.
   */
  function ResolveChildren(parents: map<int, Relation>, rootIds: seq<int>, order: seq<int>, parentId: int, info: StateInfo, childObjectIds: seq<int>)
    : (r: Step<(map<int, Relation>, seq<int>)>)
    requires !info.Absent?
    ensures OnlyResolved(parents, r.state.0)
    ensures r.failure.None? ==> forall d | d in order :: d in parents || d in rootIds
    ensures r.failure.None? ==> forall d | d in order && d in parents && parents[d].parentId == parentId ::
      info.Nested? && r.state.0[d].isComponent == TriOf(parents[d].propertyName in info.entries)
    ensures forall k | k in parents && (k !in order || parents[k].parentId != parentId) :: r.state.0[k] == parents[k]
    decreases |order|
  {
    if order == [] then Step((parents, childObjectIds), None)
    else
      var d := order[0];
      if d !in parents then
        if d in rootIds then ResolveChildren(parents, rootIds, order[1..], parentId, info, childObjectIds)
        else Step((parents, childObjectIds), Some(DanglingComponent(d)))
      else if parents[d].parentId != parentId then ResolveChildren(parents, rootIds, order[1..], parentId, info, childObjectIds)
      else match InStateInfo(parents[d].propertyName, info)
        case Err(e) => Step((parents, childObjectIds), Some(e))
        case Ok(isComponent) =>
          var relation := parents[d];
          if relation.isComponent != Unknown && relation.isComponent != TriOf(isComponent) then
            Step((parents, childObjectIds), Some(InconsistentIsComponent(d)))
          else if relation.isComponent == Unknown then
            ResolveChildren(parents[d := relation.(isComponent := TriOf(isComponent))], rootIds, order[1..], parentId, info,
              if isComponent then childObjectIds else childObjectIds + [relation.childId])
          else ResolveChildren(parents, rootIds, order[1..], parentId, info, childObjectIds)
  }

  /** The ids whose relation has an unknown `isComponent`. */
  ghost function UnknownIds(parents: map<int, Relation>): set<int> {
    set k | k in parents && parents[k].isComponent == Unknown
  }

  /** Whether round of the cascade over `objectIds` turns the relation of `k` into plain data. */
  ghost predicate Demoted(parents: map<int, Relation>, order: seq<int>, objectIds: seq<int>, k: int) {
    k in order && k in parents && parents[k].isComponent == Unknown && parents[k].parentId in objectIds
  }

  /**
   * One round of `setIsNonComponentOnDescendantsOf`: every dangling relation
   * of unknown kind under one of `objectIds` becomes plain data, and its
   * child is collected for the next round.
   */
  function CascadeRound(parents: map<int, Relation>, order: seq<int>, objectIds: seq<int>, found: seq<int>): (r: (map<int, Relation>, seq<int>))
    requires KeyedByChild(parents)
    ensures KeyedByChild(r.0) && r.0.Keys == parents.Keys
    ensures forall k | k in parents :: r.0[k] == if Demoted(parents, order, objectIds, k) then parents[k].(isComponent := No) else parents[k]
    ensures forall x :: x in r.1 <==> x in found || Demoted(parents, order, objectIds, x)
    decreases |order|
  {
    if order == [] then (parents, found)
    else
      var d := order[0];
      if d in parents && parents[d].isComponent == Unknown && parents[d].parentId in objectIds then
        var r := CascadeRound(parents[d := parents[d].(isComponent := No)], order[1..], objectIds, found + [parents[d].childId]);
        assert forall k | k in parents :: Demoted(parents, order, objectIds, k) <==> k == d || Demoted(parents[d := parents[d].(isComponent := No)], order[1..], objectIds, k);
        r
      else
        var r := CascadeRound(parents, order[1..], objectIds, found);
        assert forall k | k in parents :: Demoted(parents, order, objectIds, k) <==> Demoted(parents, order[1..], objectIds, k);
        r
  }

  /** A subset has at most as many elements, a proper subset fewer. */
  lemma SubsetCardinality(a: set<int>, b: set<int>)
    requires a <= b
    ensures |a| <= |b|
    ensures a < b ==> |a| < |b|
  {
    assert b == a + (b - a);
    assert a * (b - a) == {};
  }

  /** A round that collects a child makes the set of unknown relations strictly smaller. */
  lemma RoundShrinksUnknown(parents: map<int, Relation>, order: seq<int>, objectIds: seq<int>)
    requires KeyedByChild(parents)
    ensures |UnknownIds(CascadeRound(parents, order, objectIds, []).0)| <= |UnknownIds(parents)|
    ensures CascadeRound(parents, order, objectIds, []).1 != [] ==>
      |UnknownIds(CascadeRound(parents, order, objectIds, []).0)| < |UnknownIds(parents)|
  {
    var r := CascadeRound(parents, order, objectIds, []);
    assert forall k | k in UnknownIds(r.0) :: k in parents && r.0[k] == parents[k];
    assert UnknownIds(r.0) <= UnknownIds(parents);
    if r.1 != [] {
      var x := r.1[0];
      assert x in r.1;
      assert Demoted(parents, order, objectIds, x);
      assert x in UnknownIds(parents);
      assert r.0[x].isComponent == No;
      assert x !in UnknownIds(r.0);
    }
    SubsetCardinality(UnknownIds(r.0), UnknownIds(parents));
  }

  /** `setIsNonComponentOnDescendantsOf`, round after round until no child is collected. */
  function Cascade(parents: map<int, Relation>, order: seq<int>, objectIds: seq<int>): (r: map<int, Relation>)
    requires KeyedByChild(parents)
    ensures KeyedByChild(r)
    decreases |UnknownIds(parents)|, if objectIds == [] then 0 else 1
  {
    if objectIds == [] then parents
    else
      var round := CascadeRound(parents, order, objectIds, []);
      RoundShrinksUnknown(parents, order, objectIds);
      Cascade(round.0, order, round.1)
  }

  /**
   * The cascade only turns unknown flags into plain data, and leaves no
   * dangling relation of unknown kind under one of `objectIds` or under a
   * relation it turned into plain data.
   */
  lemma {:induction false} CascadeReachesAllDescendants(parents: map<int, Relation>, order: seq<int>, objectIds: seq<int>)
    requires KeyedByChild(parents)
    ensures var r := Cascade(parents, order, objectIds);
      && r.Keys == parents.Keys
      && (forall k | k in parents :: r[k] == parents[k] || (parents[k].isComponent == Unknown && r[k] == parents[k].(isComponent := No)))
      && (forall d | d in order && d in r && r[d].isComponent == Unknown ::
            && r[d].parentId !in objectIds
            && !(r[d].parentId in parents && parents[r[d].parentId].isComponent == Unknown && r[r[d].parentId].isComponent == No))
    decreases |UnknownIds(parents)|, if objectIds == [] then 0 else 1
  {
    if objectIds != [] {
      var round := CascadeRound(parents, order, objectIds, []);
      RoundShrinksUnknown(parents, order, objectIds);
      CascadeReachesAllDescendants(round.0, order, round.1);
    }
  }

  /** One step of a round: the relation at `order[i]` is looked at, then the rest of the order. */
  lemma CascadeRoundStep(parents: map<int, Relation>, order: seq<int>, i: nat, objectIds: seq<int>, found: seq<int>)
    requires KeyedByChild(parents) && i < |order|
    ensures var d := order[i];
      CascadeRound(parents, order[i..], objectIds, found) ==
        if d in parents && parents[d].isComponent == Unknown && parents[d].parentId in objectIds
        then CascadeRound(parents[d := parents[d].(isComponent := No)], order[i + 1..], objectIds, found + [parents[d].childId])
        else CascadeRound(parents, order[i + 1..], objectIds, found)
  {
    assert order[i..][1..] == order[i + 1..];
  }

  /** The recursion of `setIsNonComponentOnDescendantsOf`, each round a loop over the dangling ids. */
  method SetIsNonComponentOnDescendantsOf(parents: map<int, Relation>, order: seq<int>, objectIds: seq<int>) returns (r: map<int, Relation>)
    requires KeyedByChild(parents)
    ensures r == Cascade(parents, order, objectIds)
    decreases |UnknownIds(parents)|, if objectIds == [] then 0 else 1
  {
    if objectIds == [] {
      return parents;
    }
    var current := parents;
    var descendantObjectIds := [];
    var i := 0;
    assert order[0..] == order;
    while i < |order|
      invariant 0 <= i <= |order|
      invariant KeyedByChild(current)
      invariant CascadeRound(parents, order, objectIds, []) == CascadeRound(current, order[i..], objectIds, descendantObjectIds)
    {
      CascadeRoundStep(current, order, i, objectIds, descendantObjectIds);
      var d := order[i];
      if d in current && current[d].isComponent == Unknown && current[d].parentId in objectIds {
        descendantObjectIds := descendantObjectIds + [current[d].childId];
        current := current[d := current[d].(isComponent := No)];
      }
      i := i + 1;
    }
    RoundShrinksUnknown(parents, order, objectIds);
    r := SetIsNonComponentOnDescendantsOf(current, order, descendantObjectIds);
  }

  /**
   * `setIsComponentOnChildrenOf`: a component without `stateInfo` fails;
   * otherwise its dangling children are resolved and plain data cascades.
   */
  function ChildrenOf(parents: map<int, Relation>, rootIds: seq<int>, order: seq<int>, component: Component): (r: Step<map<int, Relation>>)
    requires KeyedByChild(parents)
    ensures KeyedByChild(r.state)
    ensures component.stateInfo.Absent? ==> r == Step(parents, Some(MissingStateInfo(component.id)))
  {
    if component.stateInfo.Absent? then Step(parents, Some(MissingStateInfo(component.id)))
    else
      var s := ResolveChildren(parents, rootIds, order, component.id, component.stateInfo, []);
      assert KeyedByChild(s.state.0);
      if s.failure.Some? then Step(s.state.0, s.failure)
      else
        Step(Cascade(s.state.0, order, s.state.1), None)
  }

  /**
   * After a successful registration step every dangling relation to the new
   * component holds "key in stateInfo", and no relation changed other than
   * by resolving an unknown flag.
   */
  lemma ChildrenOfResolvesEveryChild(parents: map<int, Relation>, rootIds: seq<int>, order: seq<int>, component: Component)
    requires KeyedByChild(parents)
    requires ChildrenOf(parents, rootIds, order, component).failure.None?
    ensures var r := ChildrenOf(parents, rootIds, order, component).state;
      && OnlyResolved(parents, r)
      && forall d | d in order && d in parents && parents[d].parentId == component.id ::
           component.stateInfo.Nested? && r[d].isComponent == TriOf(parents[d].propertyName in component.stateInfo.entries)
  {
    var s := ResolveChildren(parents, rootIds, order, component.id, component.stateInfo, []);
    assert KeyedByChild(s.state.0);
    CascadeReachesAllDescendants(s.state.0, order, s.state.1);
  }

  /**
   * The development-only check at the end of `setIsComponentOnChildrenOf`:
   * it throws when some relation to the new component still has an unknown
   * flag.
   */
  function DevelopmentCheck(parents: map<int, Relation>, parentId: int): (r: Option<EngineError>)
    ensures r.None? <==> forall d | d in parents && parents[d].parentId == parentId :: parents[d].isComponent != Unknown
    ensures r.Some? ==> r == Some(UnresolvedChild(parentId))
  {
    if exists d | d in parents :: parents[d].parentId == parentId && parents[d].isComponent == Unknown
    then Some(UnresolvedChild(parentId))
    else None
  }

  /**
   * The resolution only visits children with a dangling state, so a child
   * without one keeps an unknown flag and the development check throws:
   * a child 5 under the field `c` of an unregistered 3, whose `c` was props
   * and so got no dangling state, stays unknown when 3 registers.
   */
  lemma ChildWithoutDanglingStateStaysUnknown()
    ensures var parents := map[5 := Relation(5, Name("c"), 3, Unknown)];
      var component := Component(3, Obj(map[]), Nested(map[Name("c") := Flag(true)]), k => true);
      var r := ChildrenOf(parents, [0], [], component);
      && r.failure.None?
      && r.state[5].isComponent == Unknown
      && DevelopmentCheck(r.state, 3) == Some(UnresolvedChild(3))
  {
    var parents := map[5 := Relation(5, Name("c"), 3, Unknown)];
    var component := Component(3, Obj(map[]), Nested(map[Name("c") := Flag(true)]), k => true);
    assert ResolveChildren(parents, [0], [], 3, component.stateInfo, []) == Step((parents, []), None);
    assert Cascade(parents, [], []) == parents;
  }

  /** The loop of `setIsComponentOnChildrenOf`. */
  method ResolveChildrenOf(parents: map<int, Relation>, rootIds: seq<int>, order: seq<int>, parentId: int, info: StateInfo)
    returns (r: Step<(map<int, Relation>, seq<int>)>)
    requires !info.Absent?
    ensures r == ResolveChildren(parents, rootIds, order, parentId, info, [])
  {
    var current := parents;
    var childObjectIds := [];
    var i := 0;
    assert order[0..] == order;
    while i < |order|
      invariant 0 <= i <= |order|
      invariant ResolveChildren(parents, rootIds, order, parentId, info, []) == ResolveChildren(current, rootIds, order[i..], parentId, info, childObjectIds)
    {
      assert order[i..][1..] == order[i + 1..];
      var d := order[i];
      if d !in current {
        if d !in rootIds {
          return Step((current, childObjectIds), Some(DanglingComponent(d)));
        }
      } else if current[d].parentId == parentId {
        var isComponent := InStateInfo(current[d].propertyName, info);
        if isComponent.Err? {
          return Step((current, childObjectIds), Some(isComponent.error));
        }
        var relation := current[d];
        if relation.isComponent != Unknown && relation.isComponent != TriOf(isComponent.value) {
          return Step((current, childObjectIds), Some(InconsistentIsComponent(d)));
        }
        if relation.isComponent == Unknown {
          current := current[d := relation.(isComponent := TriOf(isComponent.value))];
          if !isComponent.value {
            childObjectIds := childObjectIds + [relation.childId];
          }
        }
      }
      i := i + 1;
    }
    return Step((current, childObjectIds), None);
  }
}
