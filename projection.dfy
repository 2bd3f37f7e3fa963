// `toState` of ChangesPropagator.ts: the nested partial state a group of
// changes makes on the component that owns them.  The source writes through
// references into containers it takes from the previous state; the model
// builds the same patch as a value.
module Projection {
  import opened Results
  import opened Json
  import opened EngineTypes
  import opened Routing
  import opened Ordering
  import Interfaces

  /** The comparator `b.instructionId - a.instructionId` sorts by this key, ascending. */
  function DescendingInstructionId(c: Change): int {
    -c.instructionId
  }

  /** One step of `currentOldState`: a null or undefined old state stays as it is. */
  function OldStep(prev: Value, name: Key): (r: Value)
    ensures IsNullish(prev) ==> r == prev
    ensures !IsNullish(prev) ==> r == Get(prev, name)
  {
    if IsNullish(prev) then prev else Get(prev, name)
  }

  /** `currentOldState` after walking `keys` down from the previous state. */
  function OldAtPath(prev: Value, keys: seq<Key>): Value
    decreases |keys|
  {
    if keys == [] then prev else OldAtPath(OldStep(prev, keys[0]), keys[1..])
  }

  /** Reading `v[k0][k1]...` in the patch. */
  function ReadPath(v: Value, keys: seq<Key>): Value
    decreases |keys|
  {
    if keys == [] then v else ReadPath(Get(v, keys[0]), keys[1..])
  }

  /**
   * The merge test: a reference lands on a slot of the previous state that
   * holds a plain object without `__id`.
   */
  predicate MergesIntoOld(prevContainer: Value, key: Key, value: Value) {
    && prevContainer.Obj?
    && !Interfaces.IsReference(Get(prevContainer, key))
    && Get(prevContainer, key).Obj?
    && Interfaces.IsReference(value)
  }

  /** What the leaf receives: the shallow merge `{...prev, ...value}` when the merge test holds, else the value. */
  function LeafValue(prevContainer: Value, key: Key, value: Value): (r: Value)
    ensures MergesIntoOld(prevContainer, key, value) ==>
      r.Obj? && r.fields.Keys == Get(prevContainer, key).fields.Keys + value.fields.Keys
      && (forall k | k in value.fields :: r.fields[k] == value.fields[k])
      && (forall k | k in Get(prevContainer, key).fields && k !in value.fields :: r.fields[k] == Get(prevContainer, key).fields[k])
    ensures !MergesIntoOld(prevContainer, key, value) ==> r == value
  {
    if MergesIntoOld(prevContainer, key, value) then Spread(Get(prevContainer, key), value) else value
  }

  /**
   * The inner loop of `toState` and the leaf write: walk `keys` down the
   * patch, seeding an absent container with the previous state's (or `{}`
   * when that is falsy), then write the leaf.  Writing into a primitive
   * throws.
   */
  function WritePath(result: Value, keys: seq<Key>, prev: Value, leafKey: Key, value: Value): (r: Result<Value, EngineError>)
    ensures !result.Obj? ==> r == Err(NotAnObject)
    ensures r.Ok? ==> r.value.Obj?
    decreases |keys|
  {
    if !result.Obj? then Err(NotAnObject)
    else if keys == [] then Ok(Obj(result.fields[leafKey := LeafValue(prev, leafKey, value)]))
    else
      var name := keys[0];
      var prevChild := OldStep(prev, name);
      var child := if name in result.fields then result.fields[name] else if Truthy(prevChild) then prevChild else Obj(map[]);
      var written :- WritePath(child, keys[1..], prevChild, leafKey, value);
      Ok(Obj(result.fields[name := written]))
  }

  /** After the write, the patch holds the leaf's value at the end of the path. */
  lemma {:induction false} WritePathReadsBack(result: Value, keys: seq<Key>, prev: Value, leafKey: Key, value: Value)
    requires WritePath(result, keys, prev, leafKey, value).Ok?
    ensures ReadPath(WritePath(result, keys, prev, leafKey, value).value, keys + [leafKey]) == LeafValue(OldAtPath(prev, keys), leafKey, value)
    decreases |keys|
  {
    var r := WritePath(result, keys, prev, leafKey, value).value;
    if keys == [] {
      assert ReadPath(r, [leafKey]) == ReadPath(Get(r, leafKey), []);
    } else {
      var name := keys[0];
      var prevChild := OldStep(prev, name);
      var child := if name in result.fields then result.fields[name] else if Truthy(prevChild) then prevChild else Obj(map[]);
      var written := WritePath(child, keys[1..], prevChild, leafKey, value);
      assert written.Ok? && r == Obj(result.fields[name := written.value]);
      WritePathReadsBack(child, keys[1..], prevChild, leafKey, value);
      AppendAfterFirst(keys, leafKey);
      assert ReadPath(r, keys + [leafKey]) == ReadPath(written.value, keys[1..] + [leafKey]);
    }
  }

  lemma AppendAfterFirst(keys: seq<Key>, leafKey: Key)
    requires keys != []
    ensures (keys + [leafKey])[0] == keys[0] && (keys + [leafKey])[1..] == keys[1..] + [leafKey]
  {
  }

  /** The write leaves every other field of the patch's top level as it was. */
  lemma TopLevelSiblingsUnchanged(result: Value, keys: seq<Key>, prev: Value, leafKey: Key, value: Value, j: Key)
    requires WritePath(result, keys, prev, leafKey, value).Ok?
    requires j != (if keys == [] then leafKey else keys[0])
    ensures var r := WritePath(result, keys, prev, leafKey, value).value;
      (j in r.fields <==> j in result.fields) && (j in result.fields ==> r.fields[j] == result.fields[j])
  {
  }

  /**
   * A container absent from the patch is seeded from the previous state, so
   * its fields off the path keep their prev values.
   */
  lemma SeededContainerKeepsOldSiblings(result: Value, keys: seq<Key>, prev: Value, leafKey: Key, value: Value, j: Key)
    requires WritePath(result, keys, prev, leafKey, value).Ok?
    requires keys != [] && keys[0] !in result.fields && OldStep(prev, keys[0]).Obj?
    requires j in OldStep(prev, keys[0]).fields && j != (if |keys| == 1 then leafKey else keys[1])
    ensures var r := WritePath(result, keys, prev, leafKey, value).value;
      j in r.fields[keys[0]].fields && r.fields[keys[0]].fields[j] == OldStep(prev, keys[0]).fields[j]
  {
    var prevChild := OldStep(prev, keys[0]);
    TopLevelSiblingsUnchanged(prevChild, keys[1..], prevChild, leafKey, value, j);
  }

  /** The property names of a path, in order. */
  function PropertyNames(path: seq<Relation>): (r: seq<Key>)
    ensures |r| == |path| && forall i | 0 <= i < |path| :: r[i] == path[i].propertyName
  {
    if path == [] then [] else [path[0].propertyName] + PropertyNames(path[1..])
  }

  /** The keys from the component down to the change's view model. */
  function PathKeys(parents: map<int, Relation>, componentId: int, c: Change): Result<seq<Key>, EngineError> {
    var path :- PathFrom(parents, componentId, c.id, WalkFuel(parents));
    Ok(PropertyNames(Reversed(path)))
  }

  /** The loop over the changes of `toState`, in the order given. */
  function ApplyChanges(parents: map<int, Relation>, componentId: int, prevState: Value, result: Value, changes: seq<Change>): (r: Result<Value, EngineError>)
    decreases |changes|
  {
    if changes == [] then Ok(result)
    else
      var c := changes[0];
      if !IsHandled(c) then Err(UnhandledChangeType)
      else
        var keys :- PathKeys(parents, componentId, c);
        var written :- WritePath(result, keys, prevState, ChangeKey(c), ChangeValue(c));
        ApplyChanges(parents, componentId, prevState, written, changes[1..])
  }

  /** `toState`: the patch, with the changes folded in descending instruction id. */
  function StatePatch(parents: map<int, Relation>, componentId: int, prevState: Value, changes: seq<Change>): Result<Value, EngineError> {
    ApplyChanges(parents, componentId, prevState, Obj(map[]), SortBy(changes, DescendingInstructionId))
  }

  /** The change applied last decides its own slot. */
  lemma {:induction false} LastAppliedWins(parents: map<int, Relation>, componentId: int, prevState: Value, result: Value, changes: seq<Change>)
    requires changes != []
    requires ApplyChanges(parents, componentId, prevState, result, changes).Ok?
    ensures var last := changes[|changes| - 1];
      IsHandled(last) && PathKeys(parents, componentId, last).Ok?
      && var keys := PathKeys(parents, componentId, last).value;
      ReadPath(ApplyChanges(parents, componentId, prevState, result, changes).value, keys + [ChangeKey(last)])
        == LeafValue(OldAtPath(prevState, keys), ChangeKey(last), ChangeValue(last))
    decreases |changes|
  {
    var c := changes[0];
    var keys := PathKeys(parents, componentId, c).value;
    var written := WritePath(result, keys, prevState, ChangeKey(c), ChangeValue(c)).value;
    if |changes| == 1 {
      WritePathReadsBack(result, keys, prevState, ChangeKey(c), ChangeValue(c));
      assert ApplyChanges(parents, componentId, prevState, written, changes[1..]) == Ok(written);
    } else {
      LastAppliedWins(parents, componentId, prevState, written, changes[1..]);
      assert changes[1..][|changes[1..]| - 1] == changes[|changes| - 1];
    }
  }

  /**
   * Of two changes to the same slot, the one with the lower instruction id is
   * applied last and wins; on a tie the later one in the batch wins.
   */
  lemma LowerInstructionIdWins(parents: map<int, Relation>, componentId: int, prevState: Value, a: Change, b: Change)
    requires StatePatch(parents, componentId, prevState, [a, b]).Ok?
    ensures var winner := if b.instructionId > a.instructionId then a else b;
      IsHandled(winner) && PathKeys(parents, componentId, winner).Ok?
      && var keys := PathKeys(parents, componentId, winner).value;
      ReadPath(StatePatch(parents, componentId, prevState, [a, b]).value, keys + [ChangeKey(winner)])
        == LeafValue(OldAtPath(prevState, keys), ChangeKey(winner), ChangeValue(winner))
  {
    var sorted := SortBy([a, b], DescendingInstructionId);
    SortTwo(a, b);
    LastAppliedWins(parents, componentId, prevState, Obj(map[]), sorted);
  }

  /** The sort by descending instruction id of two changes. */
  lemma SortTwo(a: Change, b: Change)
    ensures SortBy([a, b], DescendingInstructionId) == if b.instructionId > a.instructionId then [b, a] else [a, b]
  {
    assert [a, b][..1] == [a];
    assert SortBy([a], DescendingInstructionId) == [a] by {
      assert [a][..0] == [];
    }
  }

  /** One iteration of the loop of `toState`, on the change at `i`. */
  lemma ApplyChangesStep(parents: map<int, Relation>, componentId: int, prevState: Value, result: Value, changes: seq<Change>, i: nat)
    requires i < |changes|
    ensures var c := changes[i];
      var rest := ApplyChanges(parents, componentId, prevState, result, changes[i..]);
      && (!IsHandled(c) ==> rest == Err(UnhandledChangeType))
      && (IsHandled(c) ==> var keys := PathKeys(parents, componentId, c);
           && (keys.Err? ==> rest == Err(keys.error))
           && (keys.Ok? ==> var written := WritePath(result, keys.value, prevState, ChangeKey(c), ChangeValue(c));
                 && (written.Err? ==> rest == Err(written.error))
                 && (written.Ok? ==> rest == ApplyChanges(parents, componentId, prevState, written.value, changes[i + 1..]))))
  {
    assert changes[i..][1..] == changes[i + 1..];
    assert changes[i..][0] == changes[i];
  }

  /** `getPathFrom` for the change, as the keys from the component down. */
  method GetPathKeys(parents: map<int, Relation>, componentId: int, c: Change) returns (r: Result<seq<Key>, EngineError>)
    ensures r == PathKeys(parents, componentId, c)
  {
    var path := GetPathFrom(parents, componentId, c.id);
    if path.Err? {
      return Err(path.error);
    }
    return Ok(PropertyNames(Reversed(path.value)));
  }

  /** `toState`: the sort, then the loop over the changes. */
  method ToState(parents: map<int, Relation>, changes: seq<Change>, componentId: int, prevState: Value) returns (r: Result<Value, EngineError>)
    ensures r == StatePatch(parents, componentId, prevState, changes)
  {
    var sorted := SortBy(changes, DescendingInstructionId);
    r := ApplyEachChange(parents, componentId, prevState, sorted);
  }

  /** The for loop of `toState`, over the sorted changes. */
  method ApplyEachChange(parents: map<int, Relation>, componentId: int, prevState: Value, sorted: seq<Change>) returns (r: Result<Value, EngineError>)
    ensures r == ApplyChanges(parents, componentId, prevState, Obj(map[]), sorted)
  {
    var result := Obj(map[]);
    var i := 0;
    assert sorted[0..] == sorted;
    while i < |sorted|
      invariant 0 <= i <= |sorted|
      invariant ApplyChanges(parents, componentId, prevState, Obj(map[]), sorted) == ApplyChanges(parents, componentId, prevState, result, sorted[i..])
    {
      var change := sorted[i];
      ApplyChangesStep(parents, componentId, prevState, result, sorted, i);
      if !IsHandled(change) {
        return Err(UnhandledChangeType);
      }
      var keys := GetPathKeys(parents, componentId, change);
      if keys.Err? {
        return Err(keys.error);
      }
      var written := WritePath(result, keys.value, prevState, ChangeKey(change), ChangeValue(change));
      if written.Err? {
        return Err(written.error);
      }
      result := written.value;
      i := i + 1;
    }
    return Ok(result);
  }
}
