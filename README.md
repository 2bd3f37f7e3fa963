# ReactNotifier client core, modelled in Dafny

ReactNotifier keeps a tree of React components in step with view models on a
server. The server answers every command with a batch of changes. On the
client the **change propagator** (`ChangesPropagator`) routes each change to
the component that owns the changed state and buffers changes for components
that have not mounted yet. It also learns, relation by relation, which view
models are components and which are plain data.

This project models that engine and the smaller pieces around it:

- the **collection editor** (`AsynchronousCollectionEditorSolver`), which reconciles optimistic clientside edits of a collection with the edits the server reports;
- the condition language of commands and input bindings (`ConditionAST`);
- `deepMerge` / `deepMergeInPlace`;
- the temporary-id provider;
- the command registry and dispatch of `AbstractCommandManager`;
- the reference predicates `isReference` and `isComponentProps`.

Everything is proved with Dafny. Nothing was executed.

Layout (one module per file):

| file | module | models |
|---|---|---|
| `results.dfy` | `Results` | `Option` / `Result` |
| `json.dfy` | `Json` | JavaScript values, own-property reads, object spread, loose `==`, `JSON.parse(JSON.stringify(...))` |
| `interfaces.dfy` | `Interfaces` | `isReference`, `UNINITIALIZED_ID`, `AppId`, `CommandManagerId` |
| `common.dfy` | `Common` | `isComponentProps`, `isComponent` |
| `temp_ids.dfy` | `TempIds` | class `TempIdProvider` |
| `deep_merge.dfy` | `Core` | `_deepMerge`, `deepMergeHelper`, the two entry points |
| `condition_ast.dfy` | `ConditionAst` | `trim`, `indexOf`, `substr`, `parse`, `toBoolean` |
| `command_instruction.dfy` | `Instructions` | `CommandInstruction` |
| `command_manager.dfy` | `CommandManager` | class `AbstractCommandManager` |
| `collection_editor.dfy` | `CollectionEditor` | class `AsynchronousCollectionEditorSolver` |
| `engine_types.dfy` | `EngineTypes` | `Relation` and its set-once flag, `stateInfo`, changes, errors |
| `ordering.dfy` | `Ordering` | the stable numeric sort, `filterOutDanglingChanges` |
| `dangling.dfy` | `Dangling` | the dangling-state buffer and `acquireDanglingState` |
| `routing.dfy` | `Routing` | `isOnViewModel`, `isProps`/`getStateInfo`, routing, `getPathFrom`, `getComponent`, `assertNoAncestorIsObject`, `isDangling` |
| `relations.dfy` | `Relations` | relation inference, `setIsComponent`, `setIsComponentOnChildrenOf`, `setIsNonComponentOnDescendantsOf` |
| `registration.dfy` | `Registration` | `assertIsNotReservedId`, `movePropertiesFromStateToProps` |
| `projection.dfy` | `Projection` | `toState` |
| `process.dfy` | `Process` | `processResponse`, `register`, `unregister` as functions on the propagator's maps |
| `propagator.dfy` | `Propagator` | class `ChangesPropagator`, whose methods are proved equal to the `Process` functions |
| `scenarios.dfy` | `Scenarios` | the nested-counter test, played on the model |

How the model represents the source:

- **Values.** JavaScript values are `Json.Value`: undefined, null, booleans, integers, strings, objects, and an opaque case for symbols, functions and bigints. An object is a finite map from keys to values. A key is a property name or an integer index.
- **Components.** A component is a record with four parts: its `__id`, its state, its `stateInfo` tree, and its answer to `isComponent(propertyName)`.
- **Engine state.** The propagator's three maps are fields of the class: `parents`, `danglingStates` and `components`. The insertion order of the `danglingStates` Map is a fourth field, because registration walks the Map in that order.
- **Methods and functions.** Each loop of the source is a method. The method is proved equal to a function, and the properties are proved as lemmas about that function.
- **Throws.** An `assert` or `throw` of the source becomes an error value. In the change propagator, when the source has already changed state before it throws, the model returns that partial state with the error. The exception is an in-place merge in `Core`, listed under "## Left out".
- **Endless walks.** A walk up `parents` that would loop forever in the source, on a cyclic `parents` map, stops after `|parents| + 1` steps with the error `Cycle`.

Two behaviours of the code are easy to misread; the model follows the code in both:

- **Which change wins.** `toState` sorts the changes by descending `instructionId` (ChangesPropagator.ts:660) and writes them in that order, so of two changes to one slot the one with the *lowest* `instructionId` is written last and wins (`Projection.LowerInstructionIdWins`).
- **`ConditionAST.parse`.** The split point is always the first `||` (or -1). A lone `||` builds an `And`, and `Or` evaluates with `&&`. The model reproduces these quirks.

## Model

| member | source | states |
|---|---|---|
| Interfaces.IsReferenceCharacterization | base.interfaces.ts:15-17 | `isReference` holds exactly for an object with an own `__id` key, whatever that key holds; null, undefined and primitives are never references |
| Common.ComponentPropsVersusReference | changesPropagator/common.ts:6-8 | whatever `isComponentProps` accepts is a reference; the two disagree exactly on an object whose `__id` holds undefined, so `{__id: 0}` counts for both |
| Common.PrimitivesAreNotComponentProps | changesPropagator/common.ts:6-11 | null, undefined, booleans, numbers and strings are neither component props nor components |
| TempIds.TempIdProvider.constructor | tempIdProvider.ts:4 | the counter starts at `UNINITIALIZED_ID - 1` and nothing has been issued |
| TempIds.TempIdProvider.Next | tempIdProvider.ts:5-7 | returns the counter and decrements it by exactly one; the id is below -1 and differs from every id issued before |
| TempIds.FirstTwoIds | tempIdProvider.ts:4-7 | a new provider hands out -2, then -3 |
| Json.Spread | changesPropagator/ChangesPropagator.ts:563 | `{...a, ...b}` has the own keys of both; a key of `b` takes `b`'s value, any other key `a`'s |
| Json.LooseEqualsIsSymmetric | changesPropagator/AsynchronousCollectionEditorSolver.ts:123 | the loose `==` that compares items is symmetric |
| Json.LooseEqualsReflexiveOnPrimitives | changesPropagator/AsynchronousCollectionEditorSolver.ts:123 | a value is loosely equal to itself exactly when it is neither an object nor a foreign value |
| Json.JsonCloneOfJsonData | core.ts:73 | cloning a value without undefined or foreign parts through a JSON string gives the same value |
| Json.JsonCloneYieldsJsonData | core.ts:73 | every successful clone is JSON data |
| Core.DeepMergeHelper | core.ts:68-76 | the key loop computes `MergeHelper` whatever order it visits the keys in: shared keys merge recursively, new keys are cloned, other keys stay |
| Core.MergeArgumentAfter | core.ts:42-66 | what the `merge` argument holds after the call: it fails exactly when the merge fails, and with the flag clear a success leaves `merge` as it was |
| Core.DeepMergeInPlaceAsWritten | core.ts:30-32 | as written, `deepMergeInPlace` leaves `merge` as it was after every successful call |
| Core.DeepMergeAsWritten | core.ts:36-38 | as written, `deepMerge` throws when an object is merged into a non-object |
| Core.DeepMergeInPlace | core.ts:30-32 | with the flag as intended, `merge` holds the in-place merge, and an object merged into a non-object throws |
| Core.DeepMerge | core.ts:36-38 | with the flag as intended, a successful `deepMerge` leaves its `merge` argument untouched |
| Core.PrimitiveDataIsReturned | core.ts:47-52 | string, number, boolean and undefined data are returned whatever `merge` is, in both modes |
| Core.ForeignDataThrows | core.ts:45-62 | bigint, symbol and function data throw, in both modes |
| Core.ObjectIntoObject | core.ts:53-76 | an object merged into an object keeps the keys only `merge` has, merges the shared keys recursively and clones the keys only `data` has |
| Core.DataLeavesWin | core.ts:42-76 | every primitive leaf of JSON `data` is found at the same path in the merge |
| Core.JsonDataMergesIntoCopies | core.ts:42-76 | merging JSON data into copies never throws, whatever `merge` is |
| Core.DeepMergeCopiesDataIntoNonObject | core.ts:53-59 | merging a JSON object into a non-object returns a copy of the data |
| Core.DeepMergeInPlaceAsWrittenWritesNothing | core.ts:30-32 | as written, merging `{a: 1}` into `{}` leaves `{}`; as intended it becomes `{a: 1}` |
| Core.DeepMergeAsWrittenThrowsOnNonObject | core.ts:36-38 | as written, `deepMerge(1, {})` throws; as intended it returns `{}` |
| ConditionAst.Trim | commands/ConditionAST.ts:17 | the result of trimming neither starts nor ends with white space, and is no longer than the input |
| ConditionAst.TrimIsIdempotent | commands/ConditionAST.ts:17 | trimming twice removes nothing more |
| ConditionAst.TrimEmptyIffAllWhiteSpace | commands/ConditionAST.ts:17-18 | a string trims to nothing exactly when it is all white space |
| ConditionAst.IndexOf | commands/ConditionAST.ts:21-22 | `indexOf` is -1 exactly when the pattern never occurs, otherwise the first position at which it occurs |
| ConditionAst.Substr | commands/ConditionAST.ts:25 | `substr(start, length)` is the slice when in range; a length of zero or less gives "" |
| ConditionAst.SubstrFrom | commands/ConditionAST.ts:26 | `substr(start)` is the suffix from `start`, or "" past the end |
| ConditionAst.ParsedFlagsAreKnown | commands/ConditionAST.ts:16-43 | a condition that parses only names flags the record held at parse time |
| ConditionAst.EvaluationOfKnownFlagsSucceeds | commands/ConditionAST.ts:85-91 | evaluation cannot throw when every flag the condition names is present |
| ConditionAst.ParseThenEvaluateSucceeds | commands/ConditionAST.ts:37-40 | a condition parsed against a flags record evaluates against that record without throwing |
| ConditionAst.BlankConditionHolds | commands/ConditionAST.ts:17-19 | an empty or all-white-space condition parses to the constant true, which holds for every sender |
| ConditionAst.ParseIgnoresSurroundingWhiteSpace | commands/ConditionAST.ts:17 | surrounding white space never changes what a condition parses to |
| ConditionAst.OrEvaluatesAsAnd | commands/ConditionAST.ts:65-67 | `Or` evaluates exactly as `And` does |
| ConditionAst.NotNegates | commands/ConditionAST.ts:75-77 | `Not` negates a successful evaluation and passes a throw through |
| ConditionAst.FlagNameParsesToFlag | commands/ConditionAST.ts:37-40 | a known flag name parses to that flag, which evaluates to its delegate's answer |
| ConditionAst.ParseOfBinary | commands/ConditionAST.ts:21-33 | an expression with `\|\|` or `&&` splits around its first `\|\|`; it is an `Or` exactly when that `\|\|` comes before the first `&&`, else an `And` |
| ConditionAst.LoneOrParsesAsAnd | commands/ConditionAST.ts:24-33 | `x\|\|y` for two one-letter flags parses to `And(x, y)` and evaluates as a conjunction |
| Instructions.MakeInstruction | commands/commandInstruction.ts:10-18 | the instruction keeps the name and id; falsy event arguments become the string 'null', so the arguments are always truthy |
| CommandManager.BoundNamesSucceedIffNoConditionThrows | commands/abstractCommandManager.ts:184-192 | the names come out exactly when no binding's condition throws |
| CommandManager.BoundNamesAreTheHoldingBindings | commands/abstractCommandManager.ts:184-192 | a name is listed exactly for each binding whose condition evaluates to true, once per such binding and in binding order |
| CommandManager.UnconditionalBindingIsBound | commands/abstractCommandManager.ts:186-190 | a binding with a constant-true condition is among the bound names |
| CommandManager.UnconditionalBindingsAreAllBound | commands/abstractCommandManager.ts:178-193 | when every condition is constant true, every bound name is returned, in binding order |
| CommandManager.ServersideOutcome | commands/abstractCommandManager.ts:216-232 | an unknown command sends nothing; a command without a condition sends its instruction with the sender's id; a condition that evaluates to false sends that instruction, and one sent under a condition implies the condition evaluated to false; a condition that evaluates to true sends nothing and is no error; a condition that fails to parse or to evaluate throws that failure |
| CommandManager.ClientsideOutcome | commands/abstractCommandManager.ts:233-251 | a clientside optimization runs exactly when it exists and `canExecute` is not `False` |
| CommandManager.AbstractCommandManager.constructor | commands/abstractCommandManager.ts:57-62 | the default state: no flags, no commands, no input bindings |
| CommandManager.AbstractCommandManager.OptimizeCommandClientside | commands/abstractCommandManager.ts:83-89 | an empty name is refused; otherwise the optimization is set or overwritten, and nothing else changes |
| CommandManager.AbstractCommandManager.SetEventArgPropagation | commands/abstractCommandManager.ts:90-99 | succeeds exactly for a non-empty name for which `hasCommand` holds (`commands[name]` defined and no clientside optimization) and then stores the propagation |
| CommandManager.AbstractCommandManager.Bind | commands/abstractCommandManager.ts:100-115 | an unregistered command or an unparsable condition fails; otherwise exactly one binding is appended to the input's list, created empty first if needed |
| CommandManager.AbstractCommandManager.GetCommandBindingsFor | commands/abstractCommandManager.ts:178-193 | [] for an unbound input, otherwise the bound names whose conditions hold, in insertion order |
| CommandManager.AbstractCommandManager.ExecuteServersideCommandIfPossible | commands/abstractCommandManager.ts:216-232 | returns whether an instruction was sent, and appends exactly the instruction of `ServersideOutcome` |
| CommandManager.AbstractCommandManager.ExecuteClientsideCommandIfPossible | commands/abstractCommandManager.ts:233-251 | returns whether the optimization is executed, and logs exactly that execution |
| CommandManager.AbstractCommandManager.ExecuteCommandIfPossible | commands/abstractCommandManager.ts:195-202 | both sides are attempted and the result is their disjunction; a throw sends and runs nothing |
| CommandManager.AbstractCommandManager.ExecuteCommandByName | commands/abstractCommandManager.ts:127-132 | one attempt, whose failure only warns |
| CommandManager.AbstractCommandManager.Handle | commands/abstractCommandManager.ts:156-173 | every iteration attempts the first bound name, so the outcome is one attempt of that name; no bound name consumes nothing |
| CommandManager.AbstractCommandManager.SetState | commands/abstractCommandManager.ts:254-262 | the keys present in the partial state are replaced and every other field is unchanged |
| CommandManager.SecondBindingIsNeverTried | commands/abstractCommandManager.ts:163-171 | with an unknown command bound first and a valid one second, `handle` sends nothing |
| CommandManager.UnconditionalCommandIsSent | commands/abstractCommandManager.ts:216-232 | an unconditional serverside command is sent once, with the sender's id and the arguments 'null' |
| CollectionEditor.FirstMatch | changesPropagator/AsynchronousCollectionEditorSolver.ts:147-155 | -1 exactly when no item matches (undefined pattern fields are wildcards), otherwise the first matching position |
| CollectionEditor.NarrowerPatternMatchesLater | changesPropagator/AsynchronousCollectionEditorSolver.ts:139-145 | when the narrower pattern of the command finds an entry, the wider collection pattern finds one at or before it |
| CollectionEditor.FindIndex | changesPropagator/AsynchronousCollectionEditorSolver.ts:147-155 | the loop returns `FirstMatch` |
| CollectionEditor.Without | changesPropagator/AsynchronousCollectionEditorSolver.ts:106 | `splice(i, 1)` removes exactly the item at `i`: the items before it stay in place, the items after it move one position forward in their order |
| CollectionEditor.AsynchronousCollectionEditorSolver.constructor | changesPropagator/AsynchronousCollectionEditorSolver.ts:20-25 | idle, with no pending edits |
| CollectionEditor.AsynchronousCollectionEditorSolver.OnIdChange | changesPropagator/AsynchronousCollectionEditorSolver.ts:27-35 | items of container `oldId` move to `newId` in both lists; every other field and item is untouched |
| CollectionEditor.AsynchronousCollectionEditorSolver.OnCommandStart | changesPropagator/AsynchronousCollectionEditorSolver.ts:36-40 | fails while a command runs, otherwise records the command |
| CollectionEditor.AsynchronousCollectionEditorSolver.OnCommandEnd | changesPropagator/AsynchronousCollectionEditorSolver.ts:41-47 | succeeds exactly for the running command with both lists empty, then is idle; each failure has its own error and changes nothing |
| CollectionEditor.AsynchronousCollectionEditorSolver.OnAddedClientSide | changesPropagator/AsynchronousCollectionEditorSolver.ts:52-57 | with a container and a running command, appends exactly one item tagged with both; nothing else changes |
| CollectionEditor.AsynchronousCollectionEditorSolver.OnRemovedClientSide | changesPropagator/AsynchronousCollectionEditorSolver.ts:62-67 | the same for removals |
| CollectionEditor.AsynchronousCollectionEditorSolver.OnAddedServerSide | changesPropagator/AsynchronousCollectionEditorSolver.ts:77-79 | reconciles against the pending additions only |
| CollectionEditor.AsynchronousCollectionEditorSolver.OnRemovedServerSide | changesPropagator/AsynchronousCollectionEditorSolver.ts:85-87 | reconciles against the pending removals only |
| CollectionEditor.AsynchronousCollectionEditorSolver.OnServerSideChanged | changesPropagator/AsynchronousCollectionEditorSolver.ts:88-145 | the list of the change's kind and the association log change as `ServerSideEffect` says; the other list and the command stay |
| CollectionEditor.AsynchronousCollectionEditorSolver.SetItems | changesPropagator/AsynchronousCollectionEditorSolver.ts:106-124 | the list of one kind is replaced by a sub-multiset of it; the other list, the command and the log stay |
| CollectionEditor.Reconcile | changesPropagator/AsynchronousCollectionEditorSolver.ts:93-145 | a component item confirms the first entry of the same container, collection and command, index ignored, and associates additions only; a primitive item confirms only an equal item at an equal index; otherwise refetch, or false with nothing changed when the collection has no pending entry |
| CollectionEditor.ServerConfirmsCachedComponent | changesPropagator/AsynchronousCollectionEditorSolver.ts:93-112 | a server addition of component 42 matching one pending addition of the same container, collection and command confirms it and associates the cached item with id 42 |
| CollectionEditor.ConfirmedComponentAddition | changesPropagator/AsynchronousCollectionEditorSolver.ts:36-112 | a clientside component addition confirmed by the server is associated with the server's id, and the command can end |
| CollectionEditor.UnconfirmedAdditionBlocksEnd | changesPropagator/AsynchronousCollectionEditorSolver.ts:41-57 | a clientside addition the server never confirms keeps the command from ending |
| EngineTypes.AssignIsComponent | changesPropagator/ChangesPropagator.ts:30-34 | assigning undefined fails; once the flag is true every assignment fails; otherwise the flag takes the value and nothing else changes |
| EngineTypes.RefId | changesPropagator/ChangesPropagator.ts:163-164 | a referenced id exists exactly when `isComponentProps` accepts the value and its `__id` is a number, which it then is |
| Ordering.InsertAfterEquals | changesPropagator/ChangesPropagator.ts:157 | one insertion step of the sort adds exactly the element |
| Ordering.InsertKeepsSorted | changesPropagator/ChangesPropagator.ts:157 | inserting into a sorted sequence keeps it sorted |
| Ordering.InsertIsStable | changesPropagator/ChangesPropagator.ts:157 | the inserted element goes behind every element with its key |
| Ordering.SortBy | changesPropagator/ChangesPropagator.ts:157 | the sort is a permutation of its input |
| Ordering.SortByKeepsElements | changesPropagator/ChangesPropagator.ts:157 | every element of the sorted batch comes from the input |
| Ordering.SortByIsSorted | changesPropagator/ChangesPropagator.ts:157 | the sort orders by ascending key |
| Ordering.SortByIsStable | changesPropagator/ChangesPropagator.ts:157 | elements with equal keys keep their relative order |
| Ordering.Partition | changesPropagator/ChangesPropagator.ts:443-460 | the two lists together are the batch; the first holds only ready changes, the second only dangling ones |
| Ordering.PartitionKeepsOrder | changesPropagator/ChangesPropagator.ts:443-460 | both lists keep the batch order |
| Ordering.FilterOutDanglingChanges | changesPropagator/ChangesPropagator.ts:443-460 | the loop computes `Partition` |
| Dangling.InitialStates | changesPropagator/ChangesPropagator.ts:86-88 | an empty dangling state for every root, in root order |
| Dangling.Remove | changesPropagator/ChangesPropagator.ts:499 | deleting a Map entry takes exactly that id out of the insertion order, which stays duplicate-free |
| Dangling.BufferOne | changesPropagator/ChangesPropagator.ts:242-256 | a reference only ensures an entry for the referenced child; any other value is written under its key in the entry of the change's id |
| Dangling.BufferAllKeepsOrder | changesPropagator/ChangesPropagator.ts:241-257 | buffering keeps the insertion order in step and never drops an entry or a field |
| Dangling.BufferAllKeepsOtherFields | changesPropagator/ChangesPropagator.ts:241-257 | a field no buffered change writes keeps its value |
| Dangling.LastBufferedWriteWins | changesPropagator/ChangesPropagator.ts:250-256 | of several writes to one dangling field, the last one wins |
| Dangling.BufferDanglingChanges | changesPropagator/ChangesPropagator.ts:241-257 | the loop computes `BufferAll` |
| Dangling.Acquire | changesPropagator/ChangesPropagator.ts:483-503 | a registered id fails; a missing entry gives `{}`; otherwise the entry, without `__id`, is removed and returned |
| Dangling.AcquireDrainsOnce | changesPropagator/ChangesPropagator.ts:483-503 | after acquiring, acquiring again finds nothing, and the order still matches the entries |
| Routing.IsOnViewModel | changesPropagator/ChangesPropagator.ts:294-309 | false without a parent relation, true exactly when the parent is plain data, a throw when its kind is unknown |
| Routing.StateInfoOf | changesPropagator/ChangesPropagator.ts:323-337 | a registered component answers with its own `stateInfo`; an unregistered one without a relation throws |
| Routing.IsProps | changesPropagator/ChangesPropagator.ts:310-322 | true exactly when the parent's `stateInfo` entry for the key is exactly `true` |
| Routing.Walk | changesPropagator/ChangesPropagator.ts:283-291 | stops at the first parent whose field is neither on a view model nor props; stepping above an id without a relation fails |
| Routing.WalkEndsAtAncestor | changesPropagator/ChangesPropagator.ts:283-291 | the id the walk returns is an ancestor of the start |
| Routing.Route | changesPropagator/ChangesPropagator.ts:267-292 | a change on a root or on an id without a relation stays on that id; otherwise its field is walked up |
| Routing.GetComponentIdOnWhichToDoTheChange | changesPropagator/ChangesPropagator.ts:267-292 | the while loop computes `Route` |
| Routing.RouteIsAnAncestor | changesPropagator/ChangesPropagator.ts:267-292 | a change is routed to an ancestor of its view model, so `toState` finds a path to it |
| Routing.PathFrom | changesPropagator/ChangesPropagator.ts:744-756 | [] from an id to itself; a descendant without a relation fails; every element is a stored relation |
| Routing.PathFromIsAChain | changesPropagator/ChangesPropagator.ts:744-756 | the path starts at the descendant, each relation starts at the parent of the previous one, and the last one ends at the ancestor |
| Routing.ReachableAncestorHasPath | changesPropagator/ChangesPropagator.ts:744-756 | every ancestor reachable up `parents` has a path |
| Routing.GetPathFrom | changesPropagator/ChangesPropagator.ts:744-756 | the while loop computes `PathFrom` |
| Routing.ComponentAndPath | changesPropagator/ChangesPropagator.ts:699-716 | the first registered component at or above the id, with the path down to it; an unrelated id fails |
| Routing.Reversed | changesPropagator/ChangesPropagator.ts:705 | `reverse()` puts element `i` at position `n - 1 - i` |
| Routing.ComponentPathIsPathFrom | changesPropagator/ChangesPropagator.ts:699-716 | the path `getComponent` returns, reversed, is `getPathFrom` of the component it finds |
| Routing.GetComponent | changesPropagator/ChangesPropagator.ts:699-716 | the while loop computes `ComponentAndPath` |
| Routing.NoObjectAncestor | changesPropagator/ChangesPropagator.ts:344-351 | succeeds without a relation and fails on a plain-data relation |
| Routing.NoObjectAncestorMeansNone | changesPropagator/ChangesPropagator.ts:344-351 | when the assertion passes, no relation reachable upwards is plain data |
| Routing.AssertNoAncestorIsObject | changesPropagator/ChangesPropagator.ts:344-351 | the while loop computes `NoObjectAncestor` |
| Routing.IsDangling | changesPropagator/ChangesPropagator.ts:195-233 | a root without a relation is dangling exactly when unregistered, any other id without one throws; an unknown kind is dangling; plain data is not; a component is dangling exactly when unregistered and the change routes to its own id |
| Relations.InferRelation | changesPropagator/ChangesPropagator.ts:160-189 | a reference records child to (key, change id) and nothing else; "no parent relation" must coincide with "parent is a root"; a child of plain data is plain data; a registered parent's `isComponent(key)` answers; an unregistered parent leaves it unknown; below a parent of unknown kind it succeeds exactly when no ancestor is plain data |
| Relations.InferAllKeepsKeyedByChild | changesPropagator/ChangesPropagator.ts:160-190 | inference keeps every relation filed under its child id |
| Relations.InferAllRecordsEveryReference | changesPropagator/ChangesPropagator.ts:160-190 | no relation is dropped, and after a complete pass every referenced child has a relation |
| Relations.InferRelations | changesPropagator/ChangesPropagator.ts:160-190 | the loop computes `InferAll` |
| Relations.SetIsComponentAsWritten | changesPropagator/ChangesPropagator.ts:353-371 | as written: a root without a relation is silent, any other id without one fails; a relation succeeds only when already true |
| Relations.SetIsComponent | changesPropagator/ChangesPropagator.ts:353-371 | as intended: an unknown or true flag becomes true and registration goes on; only plain data fails, changing nothing |
| Relations.UnknownFlagFailsRegistrationAsWritten | changesPropagator/ChangesPropagator.ts:361-370 | on an unknown flag the code sets true and then fails; the corrected version keeps that relation and does not fail |
| Relations.ResolveChildren | changesPropagator/ChangesPropagator.ts:380-398 | only unknown flags change; relations of other parents stay; on success every dangling relation under the component holds "its key is in `stateInfo`" |
| Relations.CascadeRound | changesPropagator/ChangesPropagator.ts:422-429 | one round turns every dangling unknown relation under the given ids into plain data and collects its child |
| Relations.RoundShrinksUnknown | changesPropagator/ChangesPropagator.ts:419-432 | a round that collects a child leaves strictly fewer unknown relations, so the recursion ends |
| Relations.Cascade | changesPropagator/ChangesPropagator.ts:419-432 | the rounds keep every relation filed under its child |
| Relations.CascadeReachesAllDescendants | changesPropagator/ChangesPropagator.ts:419-432 | only unknown flags turn into plain data, and no dangling unknown relation is left under a plain-data id |
| Relations.SetIsNonComponentOnDescendantsOf | changesPropagator/ChangesPropagator.ts:419-432 | the recursion of loops computes `Cascade` |
| Relations.ChildrenOf | changesPropagator/ChangesPropagator.ts:375-401 | relations stay filed under their child id; a component without `stateInfo` fails and changes nothing |
| Relations.ChildrenOfResolvesEveryChild | changesPropagator/ChangesPropagator.ts:375-401 | after success every relation from a child with a dangling state to the new component is known, as "its key is in `stateInfo`" |
| Relations.ChildWithoutDanglingStateStaysUnknown | changesPropagator/ChangesPropagator.ts:375-417 | a child without a dangling state is never visited: its unknown relation to the new component stays unknown, and the development check at 407-416 would throw |
| Relations.ResolveChildrenOf | changesPropagator/ChangesPropagator.ts:380-398 | the loop computes `ResolveChildren` |
| Registration.ReservedIdCheck | changesPropagator/ChangesPropagator.ts:580-590 | the only failure is `ReservedId` for the id |
| Registration.ReservedIdCheckCases | changesPropagator/ChangesPropagator.ts:580-590 | a non-root id never clashes; a root id clashes once a non-root id is registered; while only root ids are registered nothing clashes |
| Registration.AssertIsNotReservedId | changesPropagator/ChangesPropagator.ts:580-590 | the loop computes `ReservedIdCheck` |
| Registration.MovedProps | changesPropagator/ChangesPropagator.ts:605-611 | the props keep exactly their own keys |
| Registration.LeftDangling | changesPropagator/ChangesPropagator.ts:605-611 | the dangling state keeps only the fields the props lack |
| Registration.MoveOne | changesPropagator/ChangesPropagator.ts:594-613 | for a field holding the props of a child with a dangling state, each dangling field either stays dangling or lands in the props, never both; any other field changes nothing |
| Registration.MoveAll | changesPropagator/ChangesPropagator.ts:593-614 | no key or dangling entry appears or disappears, and dangling entries only lose fields |
| Registration.MoveAllWithoutReferences | changesPropagator/ChangesPropagator.ts:593-614 | a state without references moves nothing, in any order |
| Registration.Move | changesPropagator/ChangesPropagator.ts:591-615 | a non-object is left alone; an object keeps its keys and its non-reference fields |
| Registration.MoveWithoutReferences | changesPropagator/ChangesPropagator.ts:591-615 | a state without references and the dangling states stay as they are |
| Registration.MoveDanglingFields | changesPropagator/ChangesPropagator.ts:605-611 | the inner loop computes `MovedProps` and `LeftDangling` |
| Registration.MoveField | changesPropagator/ChangesPropagator.ts:594-613 | one outer iteration computes `MoveOne` |
| Registration.MovePropertiesFromStateToProps | changesPropagator/ChangesPropagator.ts:591-615 | the loop visits every key once and computes `Move` in that order; whatever the order, no key or dangling entry appears or disappears and every non-reference field stays |
| Projection.LeafValue | changesPropagator/ChangesPropagator.ts:684-691 | a reference landing on a non-reference object slot is shallow-merged over it; otherwise the value is written |
| Projection.WritePath | changesPropagator/ChangesPropagator.ts:672-691 | writing into a primitive fails; a successful write gives an object |
| Projection.WritePathReadsBack | changesPropagator/ChangesPropagator.ts:669-691 | after the write, the patch holds the leaf value at the end of the path |
| Projection.TopLevelSiblingsUnchanged | changesPropagator/ChangesPropagator.ts:677-680 | the write leaves every other top-level field of the patch alone |
| Projection.SeededContainerKeepsOldSiblings | changesPropagator/ChangesPropagator.ts:677-679 | a container absent from the patch is seeded from the previous state, so its siblings off the path keep their previous values |
| Projection.PropertyNames | changesPropagator/ChangesPropagator.ts:672-673 | the property names of the path, in order |
| Projection.LastAppliedWins | changesPropagator/ChangesPropagator.ts:662-692 | the change applied last decides its own slot |
| Projection.LowerInstructionIdWins | changesPropagator/ChangesPropagator.ts:660-692 | of two changes to one slot, the lower `instructionId` wins; on a tie the later one in the batch |
| Projection.GetPathKeys | changesPropagator/ChangesPropagator.ts:671 | the keys from the component down to the change's view model |
| Projection.ToState | changesPropagator/ChangesPropagator.ts:656-694 | sorting by descending `instructionId`, then the loop, computes `StatePatch` |
| Projection.ApplyEachChange | changesPropagator/ChangesPropagator.ts:662-692 | the loop computes `ApplyChanges` |
| Process.WithoutRootRefs | changesPropagator/ChangesPropagator.ts:130-139 | keeps exactly the changes that do not reference a root, in order |
| Process.StripIsCollection | changesPropagator/ChangesPropagator.ts:144-149 | deleting `isCollection` keeps the id, instruction id, kind and key |
| Process.StripAll | changesPropagator/ChangesPropagator.ts:144-156 | the map strips each change in place |
| Process.Prepare | changesPropagator/ChangesPropagator.ts:128-157 | any negative id fails first; a successful batch holds only handled changes |
| Process.PreparedBatch | changesPropagator/ChangesPropagator.ts:128-157 | the batch is sorted by id, stable among equal ids, without root links, and keeps every other change |
| Process.DanglingError | changesPropagator/ChangesPropagator.ts:195-236 | no error means `isDangling` does not throw on any change of the batch |
| Process.Routes | changesPropagator/ChangesPropagator.ts:259 | one route per change |
| Process.RoutesArePointwise | changesPropagator/ChangesPropagator.ts:259 | the grouping succeeds exactly when every route does, and each change gets its own route |
| Process.RouteAll | changesPropagator/ChangesPropagator.ts:259 | the loop computes `Routes` |
| Process.Group | changesPropagator/ChangesPropagator.ts:259 | a group holds only changes of the batch, and every change routed to its key |
| Process.DistinctAscending | changesPropagator/ChangesPropagator.ts:259 | each group key once, in ascending order |
| Process.ApplyGroups | changesPropagator/ChangesPropagator.ts:260-264 | only the state of the grouped components changes |
| Process.DeliverEachGroup | changesPropagator/ChangesPropagator.ts:260-264 | the loop computes `ApplyGroups` |
| Process.DeliverGroups | changesPropagator/ChangesPropagator.ts:259-264 | delivery changes component states only |
| Process.NegativeIdChangesNothing | changesPropagator/ChangesPropagator.ts:128 | a batch with a negative id fails before touching state |
| Process.ProcessKeepsConsistent | changesPropagator/ChangesPropagator.ts:127-265 | processing keeps the propagator consistent, whether or not it throws |
| Process.DistributeKeepsConsistent | changesPropagator/ChangesPropagator.ts:195-264 | the dangling split, buffer and delivery keep it consistent |
| Process.DanglingChangesAreSeparated | changesPropagator/ChangesPropagator.ts:195-236 | each change lands in exactly one list, the dangling one exactly when `isDangling` says so, both in batch order |
| Process.RegisterOfUnassignedIds | changesPropagator/ChangesPropagator.ts:514-520 | id -1 fails; a lower id returns the default state and changes nothing |
| Process.RootAfterNonRootFails | changesPropagator/ChangesPropagator.ts:580-590 | a root id cannot register once a non-root id has |
| Process.RegisterDrainsDanglingStateOnce | changesPropagator/ChangesPropagator.ts:505-566 | success returns `{...state, ...dangling}`, drains the entry and registers the component; registering the same non-root id again fails |
| Process.FailedRegistrationKeepsOwnState | changesPropagator/ChangesPropagator.ts:549-560 | a `register` that throws after the component went into the map leaves it there with its own state after the move, never the returned state |
| Process.RegisterKeepsConsistent | changesPropagator/ChangesPropagator.ts:505-566 | every outcome of `register`, failures included, keeps the propagator consistent |
| Process.UnregisterSpec | changesPropagator/ChangesPropagator.ts:567-575 | -1 fails, a registered id is removed, any other id fails |
| Propagator.ValidateInstruction | changesPropagator/ChangesPropagator.ts:101 | an instruction passes exactly with a non-empty name, an id of at least -1 and non-null arguments |
| Propagator.ManagerInstructionsAreValid | changesPropagator/ChangesPropagator.ts:101 | every instruction the command manager builds for a named command passes |
| Propagator.ChangesPropagator.constructor | changesPropagator/ChangesPropagator.ts:82-89 | no relations, no components, and an empty dangling state per root |
| Propagator.ChangesPropagator.ProcessResponse | changesPropagator/ChangesPropagator.ts:127-265 | the maps and the throw are those of `ProcessSpec`, and consistency is kept |
| Propagator.ChangesPropagator.DistributeChanges | changesPropagator/ChangesPropagator.ts:236-264 | the maps and the throw are those of `Distribute` |
| Propagator.ChangesPropagator.DeliverChanges | changesPropagator/ChangesPropagator.ts:259-264 | the maps and the throw are those of `DeliverGroups` |
| Propagator.ChangesPropagator.SetIsComponent | changesPropagator/ChangesPropagator.ts:353-371 | `parents` and the throw are those of the corrected `setIsComponent`; nothing else changes |
| Propagator.ChangesPropagator.SetIsComponentOnChildrenOf | changesPropagator/ChangesPropagator.ts:375-417 | `parents` and the throw are those of `ChildrenOf`; nothing else changes |
| Propagator.ChangesPropagator.AcquireDanglingState | changesPropagator/ChangesPropagator.ts:483-503 | the result and the dangling states are those of `Acquire` |
| Propagator.ChangesPropagator.Register | changesPropagator/ChangesPropagator.ts:505-566 | the maps and the returned state are those of `RegisterSpec` in the key orders it visited, and consistency is kept; the stored component gets the returned state only on success |
| Propagator.ChangesPropagator.Attach | changesPropagator/ChangesPropagator.ts:549-560 | the end of `register` computes `Process.Attach` |
| Propagator.ChangesPropagator.Unregister | changesPropagator/ChangesPropagator.ts:567-575 | `components` and the throw are those of `UnregisterSpec`; the other maps stay |
| Scenarios.InitialStore | tests/case3/container.ts:10 | with roots `[CommandManagerId, AppId]`, the buffer starts with two empty entries in that order |
| Scenarios.RootRegisters | tests/case3/changepropagator.spec.tsx:83-86 | the root registers with its own state, and its entry is drained |
| Scenarios.RootAcquires | changesPropagator/ChangesPropagator.ts:483-503 | the root's empty entry is taken out of the buffer |
| Scenarios.RootAttaches | changesPropagator/ChangesPropagator.ts:549-560 | the root has no relation and no children, so attaching it changes nothing |
| Scenarios.ServerReferencesCounter | tests/case3/changepropagator.spec.tsx:70 | the first response records the counter's relation as a component and puts the reference in the root's state |
| Scenarios.ReferenceRootIsOwner | tests/case3/changepropagator.spec.tsx:70 | that change is not dangling and is routed to the root |
| Scenarios.ReferencePatch | tests/case3/changepropagator.spec.tsx:70 | its patch on the root replaces `counter: null` by the reference |
| Scenarios.CounterRegisters | tests/case3/changepropagator.spec.tsx:87-92 | the counter registers with its default count, nothing dangling for it |
| Scenarios.IncrementCounterIsOwner | tests/case3/changepropagator.spec.tsx:71 | the increment is not dangling and is routed to the counter itself |
| Scenarios.IncrementPatch | tests/case3/changepropagator.spec.tsx:71 | its patch is `{currentCount: 1}` |
| Scenarios.ServerIncrementsCounter | tests/case3/changepropagator.spec.tsx:93-99 | the second response sets the counter's count to 1 |
| Scenarios.MountRoot | tests/case3/changepropagator.spec.tsx:83-86 | the class run: the root mounts |
| Scenarios.LinkCounter | tests/case3/changepropagator.spec.tsx:87-89 | the class run: the server links the counter |
| Scenarios.MountCounter | tests/case3/changepropagator.spec.tsx:87-92 | the class run: the counter mounts with count 0 |
| Scenarios.IncrementCounter | tests/case3/changepropagator.spec.tsx:93-99 | the class run: the server increments the counter |
| Scenarios.NestedCounter | tests/case3/changepropagator.spec.tsx:65-99 | the whole test on the class: the counter registers with 0 and then holds 1 |
| Scenarios.Counts | tests/case3/changepropagator.spec.tsx:91-98 | the counts the test asserts, 0 then 1 |
| Scenarios.ClientsideComponent | changesPropagator/ChangesPropagator.ts:518-520 | a component with a temporary id gets its own state back; nothing is registered and nothing is drained |

## Left out

- **Async transport.** `open`, `registerRequest`, `postAndProcess`, `post`, the `Http` service and promises are I/O. `executeCommand` is modelled only by its validation.
- **React glue.** `superSetState` is modelled as the shallow merge of the patch into the component's state. `assertIsValidState`, `console`, `debugger` and the `isDevelopment` check are left out. What is proved instead: every relation from a child with a dangling state to the new component is known afterwards (`Relations.ChildrenOfResolvesEveryChild`). A child without a dangling state is not visited, so the check can throw on it (`Relations.ChildWithoutDanglingStateStaysUnknown`, with the check as `Relations.DevelopmentCheck`).
- **The JSON clone of a response.** The clone at ChangesPropagator.ts:129 is a value copy, which is what it is for the JSON data a server sends.
- **Unhandled change kinds.** Removed and reordered items, and any other kind, are modelled only as the error they throw. `onClientsideCollectionChange` and `Relation.isPropsChange` are not modelled: they are unimplemented or unused.
- **`refetch`.** It is the error `RefetchRequired`.
- **Non-integer ids.** A reference whose `__id` is not an integer makes the model's `Prepare` fail with `UnsupportedId`; the source would go on with such an id. Only integer ids are modelled.
- **Keys.** A key stays a name or an index. JavaScript would coerce an index to the string of its digits.
- **Key order.** The order of an object's keys and of `for...in` is not modelled. Where a loop's result could depend on that order, the order is a ghost parameter: the register lemmas hold for every order. Otherwise the result is proved not to depend on it (`Core.DeepMergeHelper`).
- **`groupBy`.** It is assumed to keep the batch order within each group.
- **`toState` aliasing.** The patch is built as a value. The source writes through containers it shares with the previous state, and that sharing is not modelled.
- **Cyclic `parents`.** A walk up `parents` that does not end in the source stops after `|parents| + 1` steps with the error `Cycle`.
- **A dead check.** `register` tests `!isReference(danglingState)` on an id above -1, which cannot throw there. It is not modelled.
- **The command manager's setup.** The constructor's `server.register(this)` and the verify callbacks are left out; the model starts from the default state.
- **Condition flags.** `bind` and serverside conditions take a name-to-delegate record. The source passes a `Map`, on which `in` does not see the entries.
- **Input canonicalisation.** The mouse and keyboard handlers and `CanonicalInputBinding.parse` are identity stubs in the source; an input binding is its string.
- **Clientside commands.** `getEventArgs` with the default propagations, and the deferred `setState` of a clientside optimization, are recorded as a run in the class's log.
- **`isNumeric`.** The `CommandInstruction` constructor is modelled for a sender object only (`isNumeric` relies on `parseFloat` coercion).
- **String positions.** Strings are sequences of characters. JavaScript's `trim`, `indexOf` and `substr` in `ConditionAST` count UTF-16 code units, so positions differ on characters outside the Basic Multilingual Plane.
- **Inherited names.** JavaScript's `in` and property reads also see names inherited from `Object.prototype`, such as `constructor`. The model's maps see only their own entries. This applies to `key in stateInfo` (ChangesPropagator.ts:386), `stateInfo[key]` (325-327) and `danglingStateName in childProps` (606). It also applies to `this.commands[commandName]` (abstractCommandManager.ts:101, 117, 218), `expr in flags` (ConditionAST.ts:37) and `s in merge` (core.ts:70).
- **Core.MergeArgumentAfter: a throwing in-place merge.** `deepMergeHelper` (core.ts:68-76) writes one key at a time into `merge`. An in-place merge that throws part-way therefore leaves the keys it already wrote in `merge`. The model returns only the error and does not describe that partial `merge`.
- **Loose equality.** `Json.LooseEquals` does not coerce across numbers, strings and booleans, and it takes two objects as unequal.
- **Other files.** `PromiseFactory`, the IoC container, the DOM services, the typesystem and the test components are not part of this model.

## Findings

| source | as written | input that shows it | evidently intended | confidence | as-written member | corrected member |
|---|---|---|---|---|---|---|
| core.ts:30-38 | `deepMergeInPlace` passes `mergeInPlace = false` and `deepMerge` passes `true`, the opposite of their documentation | `deepMergeInPlace({}, {a: 1})` leaves `{}` unchanged; `deepMerge(1, {})` throws | `deepMergeInPlace` writes into `merge`; `deepMerge` returns a merged copy | not executed | Core.DeepMergeInPlaceAsWrittenWritesNothing | Core.DeepMergeInPlace |
| changesPropagator/ChangesPropagator.ts:361-370 | the `undefined` case of `setIsComponent` sets the flag and then falls through into `default`, whose assertion always fails | registering a component whose relation's kind is still unknown: the flag becomes true and `register` throws | an unknown flag becomes true and registration goes on | not executed | Relations.UnknownFlagFailsRegistrationAsWritten | Relations.SetIsComponent |
