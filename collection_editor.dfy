// changesPropagator/AsynchronousCollectionEditorSolver.ts: reconciles the
// collection edits a clientside command made optimistically with the edits
// the server reports for that command.  One command runs at a time.
module CollectionEditor {
  import opened Results
  import opened Json
  import Common

  /** Commands are opaque tokens, compared by identity. */
  type Command = int

  /** A clientside edit awaiting confirmation by the server. */
  datatype Item = Item(containerId: int, collectionName: string, item: Value, index: int, command: Command)

  /** A `Partial<Item>` predicate: an absent field matches anything. */
  datatype Pattern = Pattern(
    containerId: Option<int>,
    collectionName: Option<string>,
    command: Option<Command>,
    index: Option<int>,
    item: Option<Value>)

  /** One call of the `associateWithId` callback: a cached clientside component and the id the server gave it. */
  datatype Association = Association(component: Value, id: Value)

  /** The container of a collection: its id and the names of its properties. */
  datatype Container = Container(id: int, propertyNames: set<string>)

  datatype EditorError =
    | AnotherCommandRunning
    | NoOrAnotherCommandRunning
    | UnmatchedClientAdditions
    | UnmatchedClientRemovals
    | NullCollection
    | NoCommandRunning
    | MissingCollection
    | UndefinedItem
    | NonComponentItem
    | RefetchRequired   // `refetch`: not implemented, it always throws

  predicate Matches(p: Pattern, it: Item) {
    (p.collectionName.None? || p.collectionName.value == it.collectionName)
    && (p.command.None? || p.command.value == it.command)
    && (p.containerId.None? || p.containerId.value == it.containerId)
    && (p.index.None? || p.index.value == it.index)
    && (p.item.None? || LooseEquals(p.item.value, it.item))
  }

  /** The position of the first item the pattern matches, or -1. */
  function FirstMatch(items: seq<Item>, p: Pattern): (r: int)
    ensures -1 <= r < |items|
    ensures r == -1 <==> forall j | 0 <= j < |items| :: !Matches(p, items[j])
    ensures r != -1 ==> Matches(p, items[r]) && forall j | 0 <= j < r :: !Matches(p, items[j])
  {
    if items == [] then -1
    else if Matches(p, items[0]) then 0
    else
      var rest := FirstMatch(items[1..], p);
      if rest == -1 then -1 else rest + 1
  }

  /** Narrowing a pattern can only move its first match later (or lose it). */
  lemma {:induction false} NarrowerPatternMatchesLater(items: seq<Item>, wide: Pattern, narrow: Pattern)
    requires forall it: Item :: Matches(narrow, it) ==> Matches(wide, it)
    ensures FirstMatch(items, narrow) != -1 ==> FirstMatch(items, wide) != -1
    ensures FirstMatch(items, narrow) != -1 ==> FirstMatch(items, wide) <= FirstMatch(items, narrow)
  {
    var n := FirstMatch(items, narrow);
    if n != -1 {
      assert Matches(wide, items[n]);
    }
  }

  /** `findIndex`: the first position whose item the pattern matches, or -1. */
  method FindIndex(items: seq<Item>, p: Pattern) returns (r: int)
    ensures r == FirstMatch(items, p)
  {
    var i := 0;
    while i < |items|
      invariant 0 <= i <= |items|
      invariant forall j | 0 <= j < i :: !Matches(p, items[j])
    {
      if Matches(p, items[i]) {
        return i;
      }
      i := i + 1;
    }
    return -1;
  }

  /** `splice(i, 1)`: the item at `i` is taken out and the others keep their order. */
  function Without(items: seq<Item>, i: int): (r: seq<Item>)
    requires 0 <= i < |items|
    ensures |r| == |items| - 1
    ensures forall j | 0 <= j < i :: r[j] == items[j]
    ensures forall j | i <= j < |r| :: r[j] == items[j + 1]
    ensures multiset(r) + multiset{items[i]} == multiset(items)
  {
    assert items == items[..i] + [items[i]] + items[i + 1..];
    items[..i] + items[i + 1..]
  }

  function Renamed(it: Item, oldId: int, newId: int): Item {
    if it.containerId == oldId then it.(containerId := newId) else it
  }

  class AsynchronousCollectionEditorSolver {
    var currentCommand: Option<Command>
    var addedItems: seq<Item>
    var removedItems: seq<Item>
    /** The calls made to `associateWithId`, oldest first. */
    var associations: seq<Association>

    /** Every pending clientside edit belongs to the running command; so without one, nothing is pending. */
    ghost predicate Valid()
      reads this
    {
      (currentCommand.None? ==> addedItems == [] && removedItems == [])
      && (forall i | 0 <= i < |addedItems| :: currentCommand == Some(addedItems[i].command))
      && (forall i | 0 <= i < |removedItems| :: currentCommand == Some(removedItems[i].command))
    }

    constructor()
      ensures Valid()
      ensures currentCommand == None && addedItems == [] && removedItems == [] && associations == []
    {
      currentCommand := None;
      addedItems := [];
      removedItems := [];
      associations := [];
    }

    /** `onIdChange`: items of container `oldId` move to `newId`; nothing else changes. */
    method OnIdChange(oldId: int, newId: int)
      requires Valid()
      modifies this
      ensures Valid()
      ensures |addedItems| == |old(addedItems)| && |removedItems| == |old(removedItems)|
      ensures forall i | 0 <= i < |addedItems| :: addedItems[i] == Renamed(old(addedItems)[i], oldId, newId)
      ensures forall i | 0 <= i < |removedItems| :: removedItems[i] == Renamed(old(removedItems)[i], oldId, newId)
      ensures currentCommand == old(currentCommand) && associations == old(associations)
    {
      var i := 0;
      while i < |addedItems|
        invariant 0 <= i <= |addedItems| == |old(addedItems)|
        invariant forall j | 0 <= j < i :: addedItems[j] == Renamed(old(addedItems)[j], oldId, newId)
        invariant forall j | i <= j < |addedItems| :: addedItems[j] == old(addedItems)[j]
        invariant removedItems == old(removedItems) && currentCommand == old(currentCommand)
        invariant associations == old(associations)
      {
        addedItems := addedItems[i := Renamed(addedItems[i], oldId, newId)];
        i := i + 1;
      }
      i := 0;
      while i < |removedItems|
        invariant 0 <= i <= |removedItems| == |old(removedItems)|
        invariant forall j | 0 <= j < i :: removedItems[j] == Renamed(old(removedItems)[j], oldId, newId)
        invariant forall j | i <= j < |removedItems| :: removedItems[j] == old(removedItems)[j]
        invariant |addedItems| == |old(addedItems)|
        invariant forall j | 0 <= j < |addedItems| :: addedItems[j] == Renamed(old(addedItems)[j], oldId, newId)
        invariant currentCommand == old(currentCommand) && associations == old(associations)
      {
        removedItems := removedItems[i := Renamed(removedItems[i], oldId, newId)];
        i := i + 1;
      }
    }

    /** `onCommandStart`: fails while another command runs, else records the command. */
    method OnCommandStart(command: Command) returns (r: Result<(), EditorError>)
      requires Valid()
      modifies this
      ensures Valid()
      ensures old(currentCommand).Some? ==> r == Err(AnotherCommandRunning) && currentCommand == old(currentCommand)
      ensures old(currentCommand).None? ==> r.Ok? && currentCommand == Some(command)
      ensures addedItems == old(addedItems) && removedItems == old(removedItems) && associations == old(associations)
    {
      if currentCommand.Some? {
        return Err(AnotherCommandRunning);
      }
      currentCommand := Some(command);
      return Ok(());
    }

    /** `OnCommandEnd`: only the running command can end, and only with no unconfirmed clientside edit. */
    method OnCommandEnd(command: Command) returns (r: Result<(), EditorError>)
      requires Valid()
      modifies this
      ensures Valid()
      ensures r.Ok? <==> old(currentCommand) == Some(command) && old(addedItems) == [] && old(removedItems) == []
      ensures old(currentCommand) != Some(command) ==> r == Err(NoOrAnotherCommandRunning)
      ensures old(currentCommand) == Some(command) && old(addedItems) != [] ==> r == Err(UnmatchedClientAdditions)
      ensures old(currentCommand) == Some(command) && old(addedItems) == [] && old(removedItems) != [] ==> r == Err(UnmatchedClientRemovals)
      ensures r.Ok? ==> currentCommand == None
      ensures r.Err? ==> currentCommand == old(currentCommand)
      ensures addedItems == old(addedItems) && removedItems == old(removedItems) && associations == old(associations)
    {
      if currentCommand != Some(command) {
        return Err(NoOrAnotherCommandRunning);
      }
      if addedItems != [] {
        return Err(UnmatchedClientAdditions);
      }
      if removedItems != [] {
        return Err(UnmatchedClientRemovals);
      }
      currentCommand := None;
      return Ok(());
    }

    /** `onAddedClientSide`: appends one item tagged with the container and the running command. */
    method OnAddedClientSide(componentId: Option<int>, collectionName: string, item: Value, index: int) returns (r: Result<(), EditorError>)
      requires Valid()
      modifies this
      ensures Valid()
      ensures componentId.None? ==> r == Err(NullCollection)
      ensures componentId.Some? && old(currentCommand).None? ==> r == Err(NoCommandRunning)
      ensures r.Ok? <==> componentId.Some? && old(currentCommand).Some?
      ensures r.Ok? ==> addedItems == old(addedItems) + [Item(componentId.value, collectionName, item, index, old(currentCommand).value)]
      ensures r.Err? ==> addedItems == old(addedItems)
      ensures removedItems == old(removedItems) && currentCommand == old(currentCommand) && associations == old(associations)
    {
      if componentId.None? {
        return Err(NullCollection);
      }
      if currentCommand.None? {
        return Err(NoCommandRunning);
      }
      addedItems := addedItems + [Item(componentId.value, collectionName, item, index, currentCommand.value)];
      return Ok(());
    }

    /** `onRemovedClientSide`: appends one item tagged with the container and the running command. */
    method OnRemovedClientSide(componentId: Option<int>, collectionName: string, item: Value, index: int) returns (r: Result<(), EditorError>)
      requires Valid()
      modifies this
      ensures Valid()
      ensures componentId.None? ==> r == Err(NullCollection)
      ensures componentId.Some? && old(currentCommand).None? ==> r == Err(NoCommandRunning)
      ensures r.Ok? <==> componentId.Some? && old(currentCommand).Some?
      ensures r.Ok? ==> removedItems == old(removedItems) + [Item(componentId.value, collectionName, item, index, old(currentCommand).value)]
      ensures r.Err? ==> removedItems == old(removedItems)
      ensures addedItems == old(addedItems) && currentCommand == old(currentCommand) && associations == old(associations)
    {
      if componentId.None? {
        return Err(NullCollection);
      }
      if currentCommand.None? {
        return Err(NoCommandRunning);
      }
      removedItems := removedItems + [Item(componentId.value, collectionName, item, index, currentCommand.value)];
      return Ok(());
    }

    /** `onAddedServerSide`: reconciles a server addition with the clientside additions. */
    method OnAddedServerSide(container: Container, collectionName: string, addedItem: Value, index: int, command: Command)
      returns (r: Result<bool, EditorError>)
      requires Valid()
      modifies this
      ensures Valid()
      ensures ServerSideEffect(old(addedItems), addedItems, old(associations), associations, r, container, collectionName, addedItem, index, command, true)
      ensures removedItems == old(removedItems) && currentCommand == old(currentCommand)
    {
      r := OnServerSideChanged(container, collectionName, addedItem, index, command, true);
    }

    /** `onRemovedServerSide`: reconciles a server removal with the clientside removals. */
    method OnRemovedServerSide(container: Container, collectionName: string, removedItem: Value, index: int, command: Command)
      returns (r: Result<bool, EditorError>)
      requires Valid()
      modifies this
      ensures Valid()
      ensures ServerSideEffect(old(removedItems), removedItems, old(associations), associations, r, container, collectionName, removedItem, index, command, false)
      ensures addedItems == old(addedItems) && currentCommand == old(currentCommand)
    {
      r := OnServerSideChanged(container, collectionName, removedItem, index, command, false);
    }

    method OnServerSideChanged(container: Container, collectionName: string, item: Value, index: int, command: Command, addOrRemove: bool)
      returns (r: Result<bool, EditorError>)
      requires Valid()
      modifies this
      ensures Valid()
      ensures addOrRemove ==> (removedItems == old(removedItems)
        && ServerSideEffect(old(addedItems), addedItems, old(associations), associations, r, container, collectionName, item, index, command, true))
      ensures !addOrRemove ==> (addedItems == old(addedItems)
        && ServerSideEffect(old(removedItems), removedItems, old(associations), associations, r, container, collectionName, item, index, command, false))
      ensures currentCommand == old(currentCommand)
    {
      var items := if addOrRemove then addedItems else removedItems;
      var after, associated;
      r, after, associated := Reconcile(items, container, collectionName, item, index, command, addOrRemove);
      ServerSideEffectOnLog(items, after, associations, associated, r, container, collectionName, item, index, command, addOrRemove);
      SetItems(addOrRemove, after);
      associations := associations + associated;
    }

    /** Replaces the list of additions or that of removals by a sublist of it. */
    method SetItems(addOrRemove: bool, items: seq<Item>)
      requires Valid()
      requires addOrRemove ==> multiset(items) <= multiset(addedItems)
      requires !addOrRemove ==> multiset(items) <= multiset(removedItems)
      modifies this
      ensures Valid()
      ensures addOrRemove ==> addedItems == items && removedItems == old(removedItems)
      ensures !addOrRemove ==> removedItems == items && addedItems == old(addedItems)
      ensures currentCommand == old(currentCommand) && associations == old(associations)
    {
      if addOrRemove {
        forall i | 0 <= i < |items|
          ensures currentCommand == Some(items[i].command)
        {
          assert items[i] in multiset(addedItems);
        }
        addedItems := items;
      } else {
        forall i | 0 <= i < |items|
          ensures currentCommand == Some(items[i].command)
        {
          assert items[i] in multiset(removedItems);
        }
        removedItems := items;
      }
    }
  }

  /**
   * The body of `onServerSideChanged` on the pending list of the kind of the
   * change (`add`): the verdict, the list afterwards, and the calls made to
   * `associateWithId`.
   */
  method Reconcile(items: seq<Item>, container: Container, collectionName: string, item: Value, index: int, command: Command, add: bool)
    returns (r: Result<bool, EditorError>, after: seq<Item>, associated: seq<Association>)
    ensures multiset(after) <= multiset(items)
    ensures ServerSideEffect(items, after, [], associated, r, container, collectionName, item, index, command, add)
  {
    after, associated := items, [];
    if collectionName !in container.propertyNames {
      return Err(MissingCollection), after, associated;
    }
    if item.Undefined? {
      return Err(UndefinedItem), after, associated;
    }
    var clientsideIndex := FindIndex(items, Pattern(Some(container.id), Some(collectionName), Some(command), None, None));
    if Common.IsComponentProps(item) {
      if clientsideIndex != -1 {
        var component := items[clientsideIndex].item;
        if !Common.IsComponent(component) {
          return Err(NonComponentItem), after, associated;
        }
        after := Without(items, clientsideIndex);
        if add {
          associated := [Association(component, Get(item, IdKey))];
        }
        return Ok(true), after, associated;
      }
    } else if clientsideIndex != -1 {
      if LooseEquals(items[clientsideIndex].item, item) && items[clientsideIndex].index == index {
        return Ok(true), Without(items, clientsideIndex), associated;
      } else {
        return Err(RefetchRequired), after, associated;
      }
    }
    var modified := FindIndex(items, Pattern(Some(container.id), Some(collectionName), None, None, None));
    if modified == -1 {
      return Ok(false), after, associated;
    }
    return Err(RefetchRequired), after, associated;
  }

  /**
   * What a server-side addition (`add`) or removal does to the pending list
   * of the same kind and to the association log.  The first pending edit of
   * the same container, collection and command decides: a component item
   * confirms it (index ignored), a primitive item confirms it only when
   * equal and at the same index.  With no such edit, the change is left to
   * the caller unless the collection has other pending edits.
   */
  ghost predicate ServerSideEffect(
    before: seq<Item>, after: seq<Item>, logBefore: seq<Association>, logAfter: seq<Association>,
    r: Result<bool, EditorError>,
    container: Container, collectionName: string, item: Value, index: int, command: Command, add: bool)
  {
    var ci := FirstMatch(before, Pattern(Some(container.id), Some(collectionName), Some(command), None, None));
    var touched := FirstMatch(before, Pattern(Some(container.id), Some(collectionName), None, None, None));
    var same := after == before && logAfter == logBefore;
    if collectionName !in container.propertyNames then r == Err(MissingCollection) && same
    else if item.Undefined? then r == Err(UndefinedItem) && same
    else if ci != -1 && Common.IsComponentProps(item) then
      if !Common.IsComponent(before[ci].item) then r == Err(NonComponentItem) && same
      else
        r == Ok(true) && after == Without(before, ci)
        && logAfter == logBefore + (if add then [Association(before[ci].item, Get(item, IdKey))] else [])
    else if ci != -1 then
      if LooseEquals(before[ci].item, item) && before[ci].index == index then
        r == Ok(true) && after == Without(before, ci) && logAfter == logBefore
      else r == Err(RefetchRequired) && same
    else if touched == -1 then r == Ok(false) && same
    else r == Err(RefetchRequired) && same
  }

  /** The effect does not depend on the calls logged before. */
  lemma ServerSideEffectOnLog(
    before: seq<Item>, after: seq<Item>, log: seq<Association>, associated: seq<Association>,
    r: Result<bool, EditorError>,
    container: Container, collectionName: string, item: Value, index: int, command: Command, add: bool)
    requires ServerSideEffect(before, after, [], associated, r, container, collectionName, item, index, command, add)
    ensures ServerSideEffect(before, after, log, log + associated, r, container, collectionName, item, index, command, add)
  {
    assert [] + associated == associated;
    assert log + [] == log;
  }

  /** The server step of the scenario below: the pending addition is confirmed and associated with id 42. */
  lemma ServerConfirmsCachedComponent(cached: Value, after: seq<Item>, log: seq<Association>, r: Result<bool, EditorError>)
    requires cached == Obj(map[Name("state") := Obj(map[]), Name("props") := Obj(map[])])
    requires ServerSideEffect([Item(5, "items", cached, 0, 7)], after, [], log, r, Container(5, {"items"}), "items", Obj(map[IdKey := Num(42)]), 3, 7, true)
    ensures r == Ok(true) && after == [] && log == [Association(cached, Num(42))]
  {
    var items := [Item(5, "items", cached, 0, 7)];
    assert Matches(Pattern(Some(5), Some("items"), Some(7), None, None), items[0]);
    assert FirstMatch(items, Pattern(Some(5), Some("items"), Some(7), None, None)) == 0;
    assert Common.IsComponentProps(Obj(map[IdKey := Num(42)]));
    assert Common.IsComponent(cached);
    assert Without(items, 0) == [];
  }

  /**
   * A clientside command adds a component with a temporary id; the server
   * then reports adding a component with id 42 for the same command: the
   * edit is confirmed, the cached component is associated with id 42, and
   * the command can end.
   */
  method ConfirmedComponentAddition() returns (server: Result<bool, EditorError>, end: Result<(), EditorError>, log: seq<Association>)
    ensures server == Ok(true) && end.Ok?
    ensures log == [Association(Obj(map[Name("state") := Obj(map[]), Name("props") := Obj(map[])]), Num(42))]
  {
    var solver := new AsynchronousCollectionEditorSolver();
    var cached := Obj(map[Name("state") := Obj(map[]), Name("props") := Obj(map[])]);
    var container := Container(5, {"items"});
    var _ := solver.OnCommandStart(7);
    var _ := solver.OnAddedClientSide(Some(5), "items", cached, 0);
    assert solver.addedItems == [Item(5, "items", cached, 0, 7)];
    server := solver.OnAddedServerSide(container, "items", Obj(map[IdKey := Num(42)]), 3, 7);
    ServerConfirmsCachedComponent(cached, solver.addedItems, solver.associations, server);
    assert solver.addedItems == [];
    assert solver.removedItems == [];
    assert solver.currentCommand == Some(7);
    end := solver.OnCommandEnd(7);
    log := solver.associations;
  }

  /** A clientside addition the server never confirms keeps the command from ending. */
  method UnconfirmedAdditionBlocksEnd() returns (end: Result<(), EditorError>)
    ensures end == Err(UnmatchedClientAdditions)
  {
    var solver := new AsynchronousCollectionEditorSolver();
    var _ := solver.OnCommandStart(7);
    var _ := solver.OnAddedClientSide(Some(5), "items", Num(1), 0);
    end := solver.OnCommandEnd(7);
  }
}
