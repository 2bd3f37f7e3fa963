// How ChangesPropagator.ts finds where a change goes: the walks over the
// parent relations (`isOnViewModel`, `isProps`, `getStateInfo`,
// `getComponentIdOnWhichToDoTheChange`, `getPathFrom`, `getComponent`,
// `assertNoAncestorIsObject`) and the dangling test of `processResponse`.
// A walk that exceeds `WalkFuel(parents)` steps has revisited an id, so the
// source would loop (or recurse) forever; the model reports `Cycle` instead.
module Routing {
  import opened Results
  import opened Json
  import opened EngineTypes

  /** Following `parents` from `id` for `n` steps arrives at `ancestor`. */
  ghost predicate Reaches(parents: map<int, Relation>, id: int, ancestor: int, n: nat)
    decreases n
  {
    if n == 0 then id == ancestor
    else id in parents && Reaches(parents, parents[id].parentId, ancestor, n - 1)
  }

  /** `isOnViewModel`: the view model `parentId` is plain data; its relation must be resolved. */
  function IsOnViewModel(parents: map<int, Relation>, parentId: int): (r: Result<bool, EngineError>)
    ensures parentId !in parents ==> r == Ok(false)
    ensures parentId in parents ==> (r.Err? <==> parents[parentId].isComponent == Unknown)
    ensures r == Ok(true) <==> parentId in parents && parents[parentId].isComponent == No
  {
    if parentId !in parents then Ok(false)
    else match parents[parentId].isComponent
      case No => Ok(true)
      case Yes => Ok(false)
      case Unknown => Err(UnknownIsComponent(parentId))
  }

  /** `stateInfo[key]` on a defined state info: a boolean has no entries. */
  function Entry(info: StateInfo, key: Key): (r: StateInfo)
    requires !info.Absent?
    ensures info.Nested? && key in info.entries ==> r == info.entries[key]
    ensures !(info.Nested? && key in info.entries) ==> r.Absent?
  {
    if info.Nested? && key in info.entries then info.entries[key] else Absent
  }

  /**
   * `getStateInfo`: a registered component answers with its own state info;
   * an unregistered view model takes its entry in its parent's state info.
   */
  function StateInfoOf(parents: map<int, Relation>, components: map<int, Component>, id: int, fuel: nat): (r: Result<StateInfo, EngineError>)
    ensures id in components ==> r == Ok(components[id].stateInfo)
    ensures id !in components && id !in parents ==> r == Err(RootsMustHaveRegistered(id))
    decreases fuel
  {
    if id in components then Ok(components[id].stateInfo)
    else if id !in parents then Err(RootsMustHaveRegistered(id))
    else if fuel == 0 then Err(Cycle)
    else
      var relation := parents[id];
      var parentInfo :- StateInfoOf(parents, components, relation.parentId, fuel - 1);
      if parentInfo.Absent? then Err(StateInfoOfUndefined(relation.parentId))
      else Ok(Entry(parentInfo, relation.propertyName))
  }

  /** `isProps`: the entry for `key` in the state info of `parentId` is exactly `true`. */
  function IsProps(parents: map<int, Relation>, components: map<int, Component>, key: Key, parentId: int): (r: Result<bool, EngineError>)
    ensures r.Ok? <==> StateInfoOf(parents, components, parentId, WalkFuel(parents)).Ok?
    ensures r == Ok(true) <==> (var info := StateInfoOf(parents, components, parentId, WalkFuel(parents));
      info.Ok? && info.value.Nested? && key in info.value.entries && info.value.entries[key] == Flag(true))
  {
    var info :- StateInfoOf(parents, components, parentId, WalkFuel(parents));
    Ok(info.Nested? && key in info.entries && info.entries[key] == Flag(true))
  }

  /** The loop condition of `getComponentIdOnWhichToDoTheChange`; `isProps` is only asked when `isOnViewModel` is false. */
  function MovesUp(parents: map<int, Relation>, components: map<int, Component>, key: Key, parentId: int): (r: Result<bool, EngineError>)
    ensures IsOnViewModel(parents, parentId).Err? ==> r == IsOnViewModel(parents, parentId)
    ensures IsOnViewModel(parents, parentId) == Ok(true) ==> r == Ok(true)
    ensures IsOnViewModel(parents, parentId) == Ok(false) ==> r == IsProps(parents, components, key, parentId)
  {
    var onViewModel :- IsOnViewModel(parents, parentId);
    if onViewModel then Ok(true) else IsProps(parents, components, key, parentId)
  }

  /** The walk from the cursor `(key, parentId)` up to the first parent whose field is not props of a view model. */
  function Walk(parents: map<int, Relation>, components: map<int, Component>, key: Key, parentId: int, fuel: nat): (r: Result<int, EngineError>)
    ensures MovesUp(parents, components, key, parentId) == Ok(false) ==> r == Ok(parentId)
    ensures MovesUp(parents, components, key, parentId) == Ok(true) && parentId !in parents ==> r == Err(PropsOnRoot(parentId))
    decreases fuel
  {
    var up :- MovesUp(parents, components, key, parentId);
    if !up then Ok(parentId)
    else if parentId !in parents then Err(PropsOnRoot(parentId))
    else if fuel == 0 then Err(Cycle)
    else
      var ancestor := parents[parentId];
      Walk(parents, components, ancestor.propertyName, ancestor.parentId, fuel - 1)
  }

  /** The walk ends at an ancestor: the id it returns is reached from the start within the fuel. */
  lemma {:induction false} WalkEndsAtAncestor(parents: map<int, Relation>, components: map<int, Component>, key: Key, parentId: int, fuel: nat)
    requires Walk(parents, components, key, parentId, fuel).Ok?
    ensures exists n: nat | n <= fuel :: Reaches(parents, parentId, Walk(parents, components, key, parentId, fuel).value, n)
    decreases fuel
  {
    var k := Walk(parents, components, key, parentId, fuel).value;
    if MovesUp(parents, components, key, parentId) == Ok(false) {
      assert Reaches(parents, parentId, k, 0);
    } else {
      var ancestor := parents[parentId];
      WalkEndsAtAncestor(parents, components, ancestor.propertyName, ancestor.parentId, fuel - 1);
      var n: nat :| n <= fuel - 1 && Reaches(parents, ancestor.parentId, k, n);
      assert Reaches(parents, parentId, k, n + 1);
    }
  }

  /**
   * `getComponentIdOnWhichToDoTheChange`: a change on a root or on an id
   * without a relation stays where it is; otherwise its field is walked up.
   */
  function Route(parents: map<int, Relation>, components: map<int, Component>, rootIds: seq<int>, c: Change): (r: Result<int, EngineError>)
    requires IsHandled(c)
    ensures c.id !in parents || c.id in rootIds ==> r == Ok(c.id)
    ensures c.id in parents && c.id !in rootIds ==> r == Walk(parents, components, ChangeKey(c), c.id, WalkFuel(parents))
  {
    if c.id !in parents || c.id in rootIds then Ok(c.id)
    else Walk(parents, components, ChangeKey(c), c.id, WalkFuel(parents))
  }

  /** The while loop of `getComponentIdOnWhichToDoTheChange`. */
  method GetComponentIdOnWhichToDoTheChange(parents: map<int, Relation>, components: map<int, Component>, rootIds: seq<int>, c: Change)
    returns (r: Result<int, EngineError>)
    requires IsHandled(c)
    ensures r == Route(parents, components, rootIds, c)
  {
    if c.id !in parents {
      return Ok(c.id);
    }
    if c.id in rootIds {
      return Ok(c.id);
    }
    var propertyName, parentId := ChangeKey(c), c.id;
    var fuel := WalkFuel(parents);
    while true
      invariant Route(parents, components, rootIds, c) == Walk(parents, components, propertyName, parentId, fuel)
      decreases fuel
    {
      var onViewModel := IsOnViewModel(parents, parentId);
      if onViewModel.Err? {
        return Err(onViewModel.error);
      }
      var up := onViewModel.value;
      if !up {
        var isProps := IsProps(parents, components, propertyName, parentId);
        if isProps.Err? {
          return Err(isProps.error);
        }
        up := isProps.value;
      }
      if !up {
        return Ok(parentId);
      }
      if parentId !in parents {
        return Err(PropsOnRoot(parentId));
      }
      if fuel == 0 {
        return Err(Cycle);
      }
      var ancestor := parents[parentId];
      propertyName, parentId, fuel := ancestor.propertyName, ancestor.parentId, fuel - 1;
    }
  }

  /** `getPathFrom`: the relations from `descendantId` up to `ancestorId`, nearest first. */
  function PathFrom(parents: map<int, Relation>, ancestorId: int, descendantId: int, fuel: nat): (r: Result<seq<Relation>, EngineError>)
    ensures descendantId == ancestorId ==> r == Ok([])
    ensures descendantId != ancestorId && descendantId !in parents ==> r == Err(NotDescendant(descendantId))
    ensures r.Ok? ==> forall i | 0 <= i < |r.value| :: r.value[i] in parents.Values
    decreases fuel
  {
    if descendantId == ancestorId then Ok([])
    else if descendantId !in parents then Err(NotDescendant(descendantId))
    else if fuel == 0 then Err(Cycle)
    else
      var relation := parents[descendantId];
      var rest :- PathFrom(parents, ancestorId, relation.parentId, fuel - 1);
      Ok([relation] + rest)
  }

  /** The path is the chain of relations: each starts where the previous one ends, and the last ends at the ancestor. */
  lemma {:induction false} PathFromIsAChain(parents: map<int, Relation>, ancestorId: int, descendantId: int, fuel: nat)
    requires KeyedByChild(parents)
    requires PathFrom(parents, ancestorId, descendantId, fuel).Ok?
    ensures var path := PathFrom(parents, ancestorId, descendantId, fuel).value;
      && (path == [] <==> descendantId == ancestorId)
      && (path != [] ==> path[0].childId == descendantId && path[|path| - 1].parentId == ancestorId)
      && forall i | 0 <= i < |path| - 1 :: path[i].parentId == path[i + 1].childId
    decreases fuel
  {
    if descendantId != ancestorId {
      PathFromIsAChain(parents, ancestorId, parents[descendantId].parentId, fuel - 1);
    }
  }

  /** A path exists to every ancestor that the walk can reach within the fuel. */
  lemma {:induction false} ReachableAncestorHasPath(parents: map<int, Relation>, ancestorId: int, descendantId: int, n: nat, fuel: nat)
    requires Reaches(parents, descendantId, ancestorId, n) && n <= fuel
    ensures PathFrom(parents, ancestorId, descendantId, fuel).Ok?
    decreases n
  {
    if descendantId != ancestorId {
      ReachableAncestorHasPath(parents, ancestorId, parents[descendantId].parentId, n - 1, fuel - 1);
    }
  }

  /** The component a change is routed to is an ancestor of the change's view model, so `toState` finds a path to it. */
  lemma RouteIsAnAncestor(parents: map<int, Relation>, components: map<int, Component>, rootIds: seq<int>, c: Change)
    requires IsHandled(c)
    requires Route(parents, components, rootIds, c).Ok?
    ensures PathFrom(parents, Route(parents, components, rootIds, c).value, c.id, WalkFuel(parents)).Ok?
  {
    var k := Route(parents, components, rootIds, c).value;
    if c.id in parents && c.id !in rootIds {
      WalkEndsAtAncestor(parents, components, ChangeKey(c), c.id, WalkFuel(parents));
      var n: nat :| n <= WalkFuel(parents) && Reaches(parents, c.id, k, n);
      ReachableAncestorHasPath(parents, k, c.id, n, WalkFuel(parents));
    }
  }

  /** The while loop of `getPathFrom`. */
  method GetPathFrom(parents: map<int, Relation>, ancestorId: int, descendantId: int) returns (r: Result<seq<Relation>, EngineError>)
    ensures r == PathFrom(parents, ancestorId, descendantId, WalkFuel(parents))
  {
    var result: seq<Relation> := [];
    var id := descendantId;
    var fuel := WalkFuel(parents);
    ghost var whole := PathFrom(parents, ancestorId, descendantId, fuel);
    assert whole.Ok? ==> result + whole.value == whole.value;
    while id != ancestorId
      invariant PathFrom(parents, ancestorId, descendantId, WalkFuel(parents)) ==
        (var rest := PathFrom(parents, ancestorId, id, fuel); if rest.Err? then rest else Ok(result + rest.value))
      decreases fuel
    {
      if id !in parents {
        return Err(NotDescendant(id));
      }
      if fuel == 0 {
        return Err(Cycle);
      }
      var relation := parents[id];
      ghost var rest := PathFrom(parents, ancestorId, relation.parentId, fuel - 1);
      assert rest.Ok? ==> result + ([relation] + rest.value) == (result + [relation]) + rest.value;
      result := result + [relation];
      id, fuel := relation.parentId, fuel - 1;
    }
    assert result + [] == result;
    return Ok(result);
  }

  /**
   * `getComponent`: the first registered component at or above `id`, with
   * the path of relations from it down to `id`.
   */
  function ComponentAndPath(parents: map<int, Relation>, components: map<int, Component>, id: int, fuel: nat): (r: Result<(int, seq<Relation>), EngineError>)
    ensures id in components ==> r == Ok((id, []))
    ensures id !in components && id !in parents ==> r == Err(ComponentNotFound(id))
    ensures r.Ok? ==> r.value.0 in components
    decreases fuel
  {
    if id in components then Ok((id, []))
    else if id !in parents then Err(ComponentNotFound(id))
    else if fuel == 0 then Err(Cycle)
    else
      var above :- ComponentAndPath(parents, components, parents[id].parentId, fuel - 1);
      Ok((above.0, above.1 + [parents[id]]))
  }

  function Reversed<T>(s: seq<T>): (r: seq<T>)
    ensures |r| == |s| && forall i | 0 <= i < |s| :: r[i] == s[|s| - 1 - i]
  {
    if s == [] then [] else Reversed(s[1..]) + [s[0]]
  }

  /** `getComponent`'s path, read nearest first, is `getPathFrom` of the component it finds. */
  lemma {:induction false} ComponentPathIsPathFrom(parents: map<int, Relation>, components: map<int, Component>, id: int, fuel: nat)
    requires ComponentAndPath(parents, components, id, fuel).Ok?
    ensures var found := ComponentAndPath(parents, components, id, fuel).value;
      PathFrom(parents, found.0, id, fuel) == Ok(Reversed(found.1))
    decreases fuel
  {
    if id !in components {
      var above := ComponentAndPath(parents, components, parents[id].parentId, fuel - 1).value;
      ComponentPathIsPathFrom(parents, components, parents[id].parentId, fuel - 1);
      assert above.0 in components;
      var path := above.1 + [parents[id]];
      assert Reversed(path) == [parents[id]] + Reversed(above.1) by {
        ReversedOfSnoc(above.1, parents[id]);
      }
    }
  }

  lemma {:induction false} ReversedOfSnoc<T>(s: seq<T>, x: T)
    ensures Reversed(s + [x]) == [x] + Reversed(s)
  {
    if s != [] {
      assert (s + [x])[1..] == s[1..] + [x];
      ReversedOfSnoc(s[1..], x);
    } else {
      assert s + [x] == [x];
    }
  }

  /** The while loop of `getComponent`; the path is reversed once the component is found. */
  method GetComponent(parents: map<int, Relation>, components: map<int, Component>, viewModelId: int) returns (r: Result<(int, seq<Relation>), EngineError>)
    ensures r == ComponentAndPath(parents, components, viewModelId, WalkFuel(parents))
  {
    var path: seq<Relation> := [];
    var id := viewModelId;
    var fuel := WalkFuel(parents);
    ghost var whole := ComponentAndPath(parents, components, id, fuel);
    assert whole.Ok? ==> whole.value.1 + Reversed(path) == whole.value.1;
    while true
      invariant ComponentAndPath(parents, components, viewModelId, WalkFuel(parents)) ==
        (var above := ComponentAndPath(parents, components, id, fuel); if above.Err? then above else Ok((above.value.0, above.value.1 + Reversed(path))))
      decreases fuel
    {
      if id in components {
        assert Reversed(path) == [] + Reversed(path);
        assert Reversed(Reversed(path)) == path by {
          ReversedTwice(path);
        }
        return Ok((id, Reversed(path)));
      }
      if id !in parents {
        return Err(ComponentNotFound(id));
      }
      if fuel == 0 {
        return Err(Cycle);
      }
      var relation := parents[id];
      ghost var above := ComponentAndPath(parents, components, relation.parentId, fuel - 1);
      ReversedOfSnoc(path, relation);
      assert above.Ok? ==> above.value.1 + [relation] + Reversed(path) == above.value.1 + Reversed(path + [relation]);
      path := path + [relation];
      id, fuel := relation.parentId, fuel - 1;
    }
  }

  lemma {:induction false} ReversedTwice<T>(s: seq<T>)
    ensures Reversed(Reversed(s)) == s
  {
    if s != [] {
      ReversedTwice(s[1..]);
      ReversedOfSnoc(Reversed(s[1..]), s[0]);
      assert s == [s[0]] + s[1..];
    }
  }

  /** `assertNoAncestorIsObject`: no relation on the chain above `id` says plain data. */
  function NoObjectAncestor(parents: map<int, Relation>, id: int, fuel: nat): (r: Result<(), EngineError>)
    ensures id !in parents ==> r.Ok?
    ensures id in parents && parents[id].isComponent == No ==> r == Err(ObjectAncestor(id))
    decreases fuel
  {
    if id !in parents then Ok(())
    else if parents[id].isComponent == No then Err(ObjectAncestor(id))
    else if fuel == 0 then Err(Cycle)
    else NoObjectAncestor(parents, parents[id].parentId, fuel - 1)
  }

  /** When the assertion passes, every relation reachable above `id` within the fuel is not plain data. */
  lemma {:induction false} NoObjectAncestorMeansNone(parents: map<int, Relation>, id: int, fuel: nat, ancestor: int, n: nat)
    requires NoObjectAncestor(parents, id, fuel).Ok?
    requires Reaches(parents, id, ancestor, n) && n <= fuel && ancestor in parents
    ensures parents[ancestor].isComponent != No
    decreases n
  {
    if n > 0 {
      NoObjectAncestorMeansNone(parents, parents[id].parentId, fuel - 1, ancestor, n - 1);
    }
  }

  /** The while loop of `assertNoAncestorIsObject`. */
  method AssertNoAncestorIsObject(parents: map<int, Relation>, id: int) returns (r: Result<(), EngineError>)
    ensures r == NoObjectAncestor(parents, id, WalkFuel(parents))
  {
    var current := id;
    var fuel := WalkFuel(parents);
    while current in parents
      invariant NoObjectAncestor(parents, id, WalkFuel(parents)) == NoObjectAncestor(parents, current, fuel)
      decreases fuel
    {
      if parents[current].isComponent == No {
        return Err(ObjectAncestor(current));
      }
      if fuel == 0 {
        return Err(Cycle);
      }
      current, fuel := parents[current].parentId, fuel - 1;
    }
    return Ok(());
  }

  /**
   * The `isDangling` closure of `processResponse`: whether a change must
   * wait for its component to register.
   */
  function IsDangling(parents: map<int, Relation>, components: map<int, Component>, rootIds: seq<int>, c: Change): (r: Result<bool, EngineError>)
    requires IsHandled(c)
    ensures c.id !in parents ==> (r.Ok? <==> c.id in rootIds)
    ensures c.id !in parents && c.id in rootIds ==> (r == Ok(true) <==> c.id !in components)
    ensures c.id in parents && parents[c.id].isComponent == Unknown ==> r == Ok(true)
    ensures c.id in parents && parents[c.id].isComponent == No ==> r == Ok(false)
    ensures c.id in parents && parents[c.id].isComponent == Yes ==>
      (r == Ok(true) <==> c.id !in components && Route(parents, components, rootIds, c) == Ok(c.id))
  {
    if c.id !in parents then
      if c.id in rootIds then Ok(c.id !in components) else Err(UnregisteredNonRoot(c.id))
    else match parents[c.id].isComponent
      case Yes =>
        if c.id in components then Ok(false)
        else
          var ownerId :- Route(parents, components, rootIds, c);
          Ok(ownerId == c.id)
      case Unknown => Ok(true)
      case No => Ok(false)
  }
}
