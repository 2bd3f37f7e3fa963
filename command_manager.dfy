// commands/abstractCommandManager.ts: the registry of commands, their
// clientside optimizations, event-argument propagations and input bindings,
// and the dispatch of an input to the first bound command.
module CommandManager {
  import opened Results
  import opened Json
  import opened ConditionAst
  import opened Instructions

  /** `OptimizationCanExecute`; only `False` (0) is falsy. */
  datatype CanExecute = False | ServersideOnly | ClientsideOnly | True

  /** A clientside optimization: whether it can run on a sender state with the given arguments. */
  datatype Optimization = Optimization(canExecute: (Value, Value) -> CanExecute)

  /** An event-to-argument propagation; the manager calls it with the event only. */
  type Propagation = Value -> Value

  /** The serverside view of a command: only its optional condition is read here. */
  datatype CommandViewModel = CommandViewModel(name: string, condition: Option<string>)

  /**
   * `CommandBindingWithCommandName`; the condition was parsed against the
   * flags record current at binding time, which its flags then read.
   */
  datatype Binding = Binding(commandName: string, condition: Condition, flags: map<string, FlagDelegate>, input: string)

  /** The component an input or command was triggered on. */
  datatype Sender = Sender(id: int, props: Value, state: Value)

  /** A run of a clientside optimization (the `setState` request on the sender). */
  datatype ClientsideRun = ClientsideRun(commandName: string, senderId: int, args: Value)

  /** `Partial<CommandManagerState>`: the keys `setState` replaces. */
  datatype PartialState = PartialState(
    flags: Option<map<string, FlagDelegate>>,
    commands: Option<map<string, CommandViewModel>>,
    inputBindings: Option<map<string, seq<Binding>>>)

  datatype ManagerError =
    | InvalidCommandName
    | NoSuchCommand(commandName: string)
    | CommandNotRegistered(commandName: string)
    | ConditionParse(parseError: ParseError)
    | ConditionEvaluation(evalError: EvalError)

  /** The names bound to an input whose conditions hold, in binding order; a condition that throws aborts. */
  function BoundNames(bindings: seq<Binding>, senderProps: Value, e: Value): (r: Result<seq<string>, ManagerError>)
    ensures r.Ok? ==> |r.value| <= |bindings|
    ensures r.Ok? ==> forall n | n in r.value :: exists b | b in bindings :: b.commandName == n
  {
    if bindings == [] then Ok([])
    else
      var b := bindings[0];
      var holds := ToBoolean(b.condition, b.flags, senderProps, e);
      if holds.Err? then Err(ConditionEvaluation(holds.error))
      else
        var rest := BoundNames(bindings[1..], senderProps, e);
        if rest.Err? then rest
        else if holds.value then Ok([b.commandName] + rest.value)
        else rest
  }

  /** Whether a binding's condition holds for the sender and event (or throws). */
  function Holds(b: Binding, senderProps: Value, e: Value): Result<bool, EvalError> {
    ToBoolean(b.condition, b.flags, senderProps, e)
  }

  /**
   * `idx` lists, ascending, every position of `bindings` whose condition is
   * true and no other, and `names` holds their command names in that order.
   */
  ghost predicate SelectsHolding(bindings: seq<Binding>, senderProps: Value, e: Value, names: seq<string>, idx: seq<int>) {
    && |idx| == |names|
    && (forall j | 0 <= j < |idx| :: 0 <= idx[j] < |bindings| && names[j] == bindings[idx[j]].commandName)
    && (forall j, k | 0 <= j < k < |idx| :: idx[j] < idx[k])
    && (forall i | 0 <= i < |bindings| :: i in idx <==> Holds(bindings[i], senderProps, e) == Ok(true))
  }

  /** The names come out exactly when no condition throws. */
  lemma {:induction false} BoundNamesSucceedIffNoConditionThrows(bindings: seq<Binding>, senderProps: Value, e: Value)
    ensures BoundNames(bindings, senderProps, e).Ok? <==> forall i | 0 <= i < |bindings| :: Holds(bindings[i], senderProps, e).Ok?
  {
    if bindings != [] {
      BoundNamesSucceedIffNoConditionThrows(bindings[1..], senderProps, e);
      assert forall i | 1 <= i < |bindings| :: bindings[i] == bindings[1..][i - 1];
    }
  }

  /** A selection of the tail, moved one position on, selects the bindings of the whole sequence after its head. */
  lemma ShiftSelection(bindings: seq<Binding>, senderProps: Value, e: Value, names: seq<string>, idx: seq<int>) returns (shifted: seq<int>)
    requires bindings != [] && SelectsHolding(bindings[1..], senderProps, e, names, idx)
    ensures |shifted| == |names|
    ensures forall j | 0 <= j < |shifted| :: 1 <= shifted[j] < |bindings| && names[j] == bindings[shifted[j]].commandName
    ensures forall j, k | 0 <= j < k < |shifted| :: shifted[j] < shifted[k]
    ensures forall i | 1 <= i < |bindings| :: i in shifted <==> Holds(bindings[i], senderProps, e) == Ok(true)
    ensures 0 !in shifted
  {
    shifted := seq(|idx|, j requires 0 <= j < |idx| => idx[j] + 1);
    forall j | 0 <= j < |shifted|
      ensures 1 <= shifted[j] < |bindings| && names[j] == bindings[shifted[j]].commandName
    {
      assert bindings[1..][idx[j]] == bindings[shifted[j]];
    }
    forall i | 1 <= i < |bindings|
      ensures i in shifted <==> Holds(bindings[i], senderProps, e) == Ok(true)
    {
      assert bindings[i] == bindings[1..][i - 1];
      if i - 1 in idx {
        var j :| 0 <= j < |idx| && idx[j] == i - 1;
        assert shifted[j] == i;
      }
    }
  }

  /** A head whose condition holds goes in front of the shifted selection. */
  lemma SelectHead(bindings: seq<Binding>, senderProps: Value, e: Value, names: seq<string>, shifted: seq<int>)
    requires bindings != [] && Holds(bindings[0], senderProps, e) == Ok(true)
    requires |shifted| == |names| && 0 !in shifted
    requires forall j | 0 <= j < |shifted| :: 1 <= shifted[j] < |bindings| && names[j] == bindings[shifted[j]].commandName
    requires forall j, k | 0 <= j < k < |shifted| :: shifted[j] < shifted[k]
    requires forall i | 1 <= i < |bindings| :: i in shifted <==> Holds(bindings[i], senderProps, e) == Ok(true)
    ensures SelectsHolding(bindings, senderProps, e, [bindings[0].commandName] + names, [0] + shifted)
  {
    var idx := [0] + shifted;
    forall i | 0 <= i < |bindings|
      ensures i in idx <==> Holds(bindings[i], senderProps, e) == Ok(true)
    {
      if i > 0 {
        assert i in idx <==> i in shifted;
      }
    }
  }

  /** A head whose condition is false is left out of the shifted selection. */
  lemma SkipHead(bindings: seq<Binding>, senderProps: Value, e: Value, names: seq<string>, shifted: seq<int>)
    requires bindings != [] && Holds(bindings[0], senderProps, e) != Ok(true)
    requires |shifted| == |names| && 0 !in shifted
    requires forall j | 0 <= j < |shifted| :: 1 <= shifted[j] < |bindings| && names[j] == bindings[shifted[j]].commandName
    requires forall j, k | 0 <= j < k < |shifted| :: shifted[j] < shifted[k]
    requires forall i | 1 <= i < |bindings| :: i in shifted <==> Holds(bindings[i], senderProps, e) == Ok(true)
    ensures SelectsHolding(bindings, senderProps, e, names, shifted)
  {
  }

  /** The bound names are those of the bindings whose condition holds, in binding order. */
  lemma {:induction false} BoundNamesAreTheHoldingBindings(bindings: seq<Binding>, senderProps: Value, e: Value) returns (idx: seq<int>)
    requires BoundNames(bindings, senderProps, e).Ok?
    ensures SelectsHolding(bindings, senderProps, e, BoundNames(bindings, senderProps, e).value, idx)
  {
    if bindings == [] {
      return [];
    }
    var rest := BoundNamesAreTheHoldingBindings(bindings[1..], senderProps, e);
    var names := BoundNames(bindings[1..], senderProps, e).value;
    var shifted := ShiftSelection(bindings, senderProps, e, names, rest);
    if Holds(bindings[0], senderProps, e) == Ok(true) {
      assert BoundNames(bindings, senderProps, e).value == [bindings[0].commandName] + names;
      SelectHead(bindings, senderProps, e, names, shifted);
      idx := [0] + shifted;
    } else {
      assert BoundNames(bindings, senderProps, e).value == names;
      SkipHead(bindings, senderProps, e, names, shifted);
      idx := shifted;
    }
  }

  /** A binding whose condition is the constant `true` is always among the bound names, as long as none throws. */
  lemma {:induction false} UnconditionalBindingIsBound(bindings: seq<Binding>, i: int, senderProps: Value, e: Value)
    requires 0 <= i < |bindings| && bindings[i].condition == Constant(true)
    requires BoundNames(bindings, senderProps, e).Ok?
    ensures bindings[i].commandName in BoundNames(bindings, senderProps, e).value
  {
    if i > 0 {
      UnconditionalBindingIsBound(bindings[1..], i - 1, senderProps, e);
    }
  }

  /** `getEventArgs`: the command's propagation applied to the event, or undefined without one. */
  function EventArgs(propagations: map<string, Propagation>, commandName: string, e: Value): (r: Value)
    ensures commandName !in propagations ==> r.Undefined?
    ensures commandName in propagations ==> r == propagations[commandName](e)
  {
    if commandName in propagations then propagations[commandName](e) else Undefined
  }

  /**
   * What `executeServersideCommandIfPossible` sends: nothing for an
   * unknown command or when the command's condition holds (a condition
   * that holds blocks the command); otherwise one instruction.
   */
  function ServersideOutcome(commands: map<string, CommandViewModel>, flags: map<string, FlagDelegate>,
    commandName: string, sender: Sender, args: Value, e: Value): (r: Result<Option<CommandInstruction>, ManagerError>)
    ensures commandName !in commands ==> r == Ok(None)
    ensures commandName in commands && commands[commandName].condition.None? ==> r == Ok(Some(MakeInstruction(commandName, sender.id, args)))
    ensures r.Ok? && r.value.Some? ==> r.value.value == MakeInstruction(commandName, sender.id, args)
    ensures r.Ok? && r.value.Some? && commands[commandName].condition.Some? ==>
      && Parse(commands[commandName].condition.value, flags.Keys).Ok?
      && ToBoolean(Parse(commands[commandName].condition.value, flags.Keys).value, flags, sender.props, e) == Ok(false)
    ensures commandName in commands && commands[commandName].condition.Some? ==>
      var ast := Parse(commands[commandName].condition.value, flags.Keys);
      && (ast.Err? ==> r == Err(ConditionParse(ast.error)))
      && (ast.Ok? && ToBoolean(ast.value, flags, sender.props, e).Err? ==>
            r == Err(ConditionEvaluation(ToBoolean(ast.value, flags, sender.props, e).error)))
      && (ast.Ok? && ToBoolean(ast.value, flags, sender.props, e) == Ok(true) ==> r == Ok(None))
      && (ast.Ok? && ToBoolean(ast.value, flags, sender.props, e) == Ok(false) ==> r == Ok(Some(MakeInstruction(commandName, sender.id, args))))
  {
    if commandName !in commands then Ok(None)
    else
      var condition := commands[commandName].condition;
      if condition.None? then Ok(Some(MakeInstruction(commandName, sender.id, args)))
      else
        var ast := Parse(condition.value, flags.Keys);
        if ast.Err? then Err(ConditionParse(ast.error))
        else
          var holds := ToBoolean(ast.value, flags, sender.props, e);
          if holds.Err? then Err(ConditionEvaluation(holds.error))
          else if holds.value then Ok(None)
          else Ok(Some(MakeInstruction(commandName, sender.id, args)))
  }

  /** What `executeClientsideCommandIfPossible` runs: the optimization, unless it answers `False`. */
  function ClientsideOutcome(optimizations: map<string, Optimization>, commandName: string, sender: Sender, args: Value): (r: Option<ClientsideRun>)
    ensures r.Some? <==> commandName in optimizations && optimizations[commandName].canExecute(sender.state, args) != False
    ensures r.Some? ==> r.value == ClientsideRun(commandName, sender.id, args)
  {
    if commandName in optimizations && optimizations[commandName].canExecute(sender.state, args) != False then
      Some(ClientsideRun(commandName, sender.id, args))
    else None
  }

  /** The logs after one attempt, given what each side does; an attempt that throws sends and runs nothing. */
  ghost predicate Attempted(server: Result<Option<CommandInstruction>, ManagerError>, client: Option<ClientsideRun>,
    sentBefore: seq<CommandInstruction>, runsBefore: seq<ClientsideRun>,
    sentAfter: seq<CommandInstruction>, runsAfter: seq<ClientsideRun>, r: Result<bool, ManagerError>)
  {
    && (server.Err? ==> r == Err(server.error) && sentAfter == sentBefore && runsAfter == runsBefore)
    && (server.Ok? ==>
      && r == Ok(server.value.Some? || client.Some?)
      && sentAfter == sentBefore + (if server.value.Some? then [server.value.value] else [])
      && runsAfter == runsBefore + (if client.Some? then [client.value] else []))
  }

  /** `names` in front of a successful result. */
  function Prefixed(names: seq<string>, r: Result<seq<string>, ManagerError>): Result<seq<string>, ManagerError> {
    if r.Err? then r else Ok(names + r.value)
  }

  /** The command names of the bindings, in order. */
  function CommandNames(bindings: seq<Binding>): (r: seq<string>)
    ensures |r| == |bindings| && forall i | 0 <= i < |bindings| :: r[i] == bindings[i].commandName
  {
    if bindings == [] then [] else [bindings[0].commandName] + CommandNames(bindings[1..])
  }

  /** Bindings whose conditions are all the constant `true` yield every bound name, in binding order. */
  lemma {:induction false} UnconditionalBindingsAreAllBound(bindings: seq<Binding>, senderProps: Value, e: Value)
    requires forall i | 0 <= i < |bindings| :: bindings[i].condition == Constant(true)
    ensures BoundNames(bindings, senderProps, e) == Ok(CommandNames(bindings))
  {
    if bindings != [] {
      UnconditionalBindingsAreAllBound(bindings[1..], senderProps, e);
      assert bindings[0].condition == Constant(true);
    }
  }

  class AbstractCommandManager {
    const id: int
    var flags: map<string, FlagDelegate>
    var commands: map<string, CommandViewModel>
    var inputBindings: map<string, seq<Binding>>
    var commandOptimizations: map<string, Optimization>
    var commandEventPropagations: map<string, Propagation>
    /** The instructions handed to the change propagator's `executeCommand`, oldest first. */
    var sent: seq<CommandInstruction>
    /** The clientside optimizations run, oldest first. */
    var clientsideRuns: seq<ClientsideRun>

    /** The default state: no flags, no commands, no input bindings. */
    constructor(id: int)
      ensures this.id == id
      ensures flags == map[] && commands == map[] && inputBindings == map[]
      ensures commandOptimizations == map[] && commandEventPropagations == map[]
      ensures sent == [] && clientsideRuns == []
    {
      this.id := id;
      flags := map[];
      commands := map[];
      inputBindings := map[];
      commandOptimizations := map[];
      commandEventPropagations := map[];
      sent := [];
      clientsideRuns := [];
    }

    /** `hasCommand`: a serverside command that is not overridden by a clientside-only optimization. */
    predicate HasCommand(name: string)
      reads this
    {
      name in commands && name !in commandOptimizations
    }

    /** `optimizeCommandClientside`: an empty name is refused; otherwise the optimization is recorded. */
    method OptimizeCommandClientside(commandName: string, command: Optimization) returns (r: Result<(), ManagerError>)
      modifies this
      ensures commandName == "" ==> r == Err(InvalidCommandName) && commandOptimizations == old(commandOptimizations)
      ensures commandName != "" ==> r.Ok? && commandOptimizations == old(commandOptimizations)[commandName := command]
      ensures flags == old(flags) && commands == old(commands) && inputBindings == old(inputBindings)
      ensures commandEventPropagations == old(commandEventPropagations) && sent == old(sent) && clientsideRuns == old(clientsideRuns)
    {
      if commandName == "" {
        return Err(InvalidCommandName);
      }
      commandOptimizations := commandOptimizations[commandName := command];
      return Ok(());
    }

    /** `setEventArgPropagation`: only for a named serverside command without a clientside-only optimization. */
    method SetEventArgPropagation(commandName: string, propagation: Propagation) returns (r: Result<(), ManagerError>)
      modifies this
      ensures commandName == "" ==> r == Err(InvalidCommandName)
      ensures commandName != "" && !old(HasCommand(commandName)) ==> r == Err(NoSuchCommand(commandName))
      ensures r.Ok? <==> commandName != "" && old(commandName in commands && commandName !in commandOptimizations)
      ensures r.Ok? ==> commandEventPropagations == old(commandEventPropagations)[commandName := propagation]
      ensures r.Err? ==> commandEventPropagations == old(commandEventPropagations)
      ensures flags == old(flags) && commands == old(commands) && inputBindings == old(inputBindings)
      ensures commandOptimizations == old(commandOptimizations) && sent == old(sent) && clientsideRuns == old(clientsideRuns)
    {
      if commandName == "" {
        return Err(InvalidCommandName);
      }
      if !HasCommand(commandName) {
        return Err(NoSuchCommand(commandName));
      }
      commandEventPropagations := commandEventPropagations[commandName := propagation];
      return Ok(());
    }

    /**
     * `bind`: the command must be registered and the condition must parse
     * against the current flags; the binding is appended to those of the input.
     */
    method Bind(commandName: string, inputBinding: string, condition: string) returns (r: Result<(), ManagerError>)
      modifies this
      ensures old(commandName !in commands) ==> r == Err(CommandNotRegistered(commandName))
      ensures old(commandName in commands) && Parse(condition, old(flags).Keys).Err? ==> r == Err(ConditionParse(Parse(condition, old(flags).Keys).error))
      ensures r.Ok? <==> old(commandName in commands) && Parse(condition, old(flags).Keys).Ok?
      ensures r.Ok? ==> inputBindings == old(inputBindings)[inputBinding :=
        (if inputBinding in old(inputBindings) then old(inputBindings)[inputBinding] else [])
        + [Binding(commandName, Parse(condition, old(flags).Keys).value, old(flags), inputBinding)]]
      ensures r.Err? ==> inputBindings == old(inputBindings)
      ensures flags == old(flags) && commands == old(commands) && commandOptimizations == old(commandOptimizations)
      ensures commandEventPropagations == old(commandEventPropagations) && sent == old(sent) && clientsideRuns == old(clientsideRuns)
    {
      if commandName !in commands {
        return Err(CommandNotRegistered(commandName));
      }
      var conditionAst := Parse(condition, flags.Keys);
      if conditionAst.Err? {
        return Err(ConditionParse(conditionAst.error));
      }
      var existing := if inputBinding in inputBindings then inputBindings[inputBinding] else [];
      inputBindings := inputBindings[inputBinding := existing + [Binding(commandName, conditionAst.value, flags, inputBinding)]];
      return Ok(());
    }

    /** `getCommandBindingsFor`: the names bound to the input whose conditions hold for the sender and event. */
    method GetCommandBindingsFor(inputBinding: string, senderProps: Value, e: Value) returns (r: Result<seq<string>, ManagerError>)
      ensures r == BoundNames(if inputBinding in inputBindings then inputBindings[inputBinding] else [], senderProps, e)
    {
      if inputBinding !in inputBindings {
        return Ok([]);
      }
      var bindings := inputBindings[inputBinding];
      var commandNames: seq<string> := [];
      assert bindings[0..] == bindings;
      assert BoundNames(bindings, senderProps, e).Ok? ==> [] + BoundNames(bindings, senderProps, e).value == BoundNames(bindings, senderProps, e).value;
      var i := 0;
      while i < |bindings|
        invariant 0 <= i <= |bindings|
        invariant BoundNames(bindings, senderProps, e) == Prefixed(commandNames, BoundNames(bindings[i..], senderProps, e))
      {
        assert bindings[i..][1..] == bindings[i + 1..];
        ghost var rest := BoundNames(bindings[i + 1..], senderProps, e);
        assert rest.Ok? ==> commandNames + ([bindings[i].commandName] + rest.value) == commandNames + [bindings[i].commandName] + rest.value;
        var holds := ToBoolean(bindings[i].condition, bindings[i].flags, senderProps, e);
        if holds.Err? {
          return Err(ConditionEvaluation(holds.error));
        }
        if holds.value {
          commandNames := commandNames + [bindings[i].commandName];
        }
        i := i + 1;
      }
      assert BoundNames(bindings[i..], senderProps, e) == Ok([]);
      assert commandNames + [] == commandNames;
      return Ok(commandNames);
    }

    method ExecuteServersideCommandIfPossible(commandName: string, sender: Sender, args: Value, e: Value) returns (r: Result<bool, ManagerError>)
      modifies this
      ensures var o := ServersideOutcome(commands, flags, commandName, sender, args, e);
        && (o.Err? ==> r == Err(o.error) && sent == old(sent))
        && (o.Ok? ==> r == Ok(o.value.Some?) && sent == old(sent) + (if o.value.Some? then [o.value.value] else []))
      ensures flags == old(flags) && commands == old(commands) && inputBindings == old(inputBindings)
      ensures commandOptimizations == old(commandOptimizations) && commandEventPropagations == old(commandEventPropagations)
      ensures clientsideRuns == old(clientsideRuns)
    {
      if commandName !in commands {
        return Ok(false);
      }
      var command := commands[commandName];
      if command.condition.Some? {
        var ast := Parse(command.condition.value, flags.Keys);
        if ast.Err? {
          return Err(ConditionParse(ast.error));
        }
        var holds := ToBoolean(ast.value, flags, sender.props, e);
        if holds.Err? {
          return Err(ConditionEvaluation(holds.error));
        }
        if holds.value {
          return Ok(false);
        }
      }
      sent := sent + [MakeInstruction(commandName, sender.id, args)];
      return Ok(true);
    }

    method ExecuteClientsideCommandIfPossible(commandName: string, sender: Sender, args: Value) returns (r: bool)
      modifies this
      ensures var o := ClientsideOutcome(commandOptimizations, commandName, sender, args);
        r == o.Some? && clientsideRuns == old(clientsideRuns) + (if o.Some? then [o.value] else [])
      ensures flags == old(flags) && commands == old(commands) && inputBindings == old(inputBindings)
      ensures commandOptimizations == old(commandOptimizations) && commandEventPropagations == old(commandEventPropagations)
      ensures sent == old(sent)
    {
      if commandName !in commandOptimizations {
        return false;
      }
      if commandOptimizations[commandName].canExecute(sender.state, args) == False {
        return false;
      }
      clientsideRuns := clientsideRuns + [ClientsideRun(commandName, sender.id, args)];
      return true;
    }

    /** `executeCommandIfPossible`: both the serverside and the clientside attempt are made. */
    method ExecuteCommandIfPossible(commandName: string, sender: Sender, e: Value) returns (r: Result<bool, ManagerError>)
      modifies this
      ensures var args := EventArgs(commandEventPropagations, commandName, e);
        Attempted(ServersideOutcome(commands, flags, commandName, sender, args, e), ClientsideOutcome(commandOptimizations, commandName, sender, args),
          old(sent), old(clientsideRuns), sent, clientsideRuns, r)
      ensures flags == old(flags) && commands == old(commands) && inputBindings == old(inputBindings)
      ensures commandOptimizations == old(commandOptimizations) && commandEventPropagations == old(commandEventPropagations)
    {
      var args := EventArgs(commandEventPropagations, commandName, e);
      var serverSideExecuted := ExecuteServersideCommandIfPossible(commandName, sender, args, e);
      if serverSideExecuted.Err? {
        return Err(serverSideExecuted.error);
      }
      var clientSideExecuted := ExecuteClientsideCommandIfPossible(commandName, sender, args);
      return Ok(serverSideExecuted.value || clientSideExecuted);
    }

    /** `executeCommandByName`: an attempt whose failure only warns. */
    method ExecuteCommandByName(commandName: string, sender: Sender, e: Value) returns (r: Result<(), ManagerError>)
      modifies this
      ensures var args := EventArgs(commandEventPropagations, commandName, e);
        exists attempt :: Attempted(ServersideOutcome(commands, flags, commandName, sender, args, e), ClientsideOutcome(commandOptimizations, commandName, sender, args),
          old(sent), old(clientsideRuns), sent, clientsideRuns, attempt) && (r.Err? <==> attempt.Err?)
      ensures flags == old(flags) && commands == old(commands) && inputBindings == old(inputBindings)
      ensures commandOptimizations == old(commandOptimizations) && commandEventPropagations == old(commandEventPropagations)
    {
      var executed := ExecuteCommandIfPossible(commandName, sender, e);
      if executed.Err? {
        return Err(executed.error);
      }
      return Ok(());
    }

    /**
     * `handle`: every iteration attempts the FIRST bound name, so at most one
     * attempt has an effect; the result says whether the event was consumed
     * (`stopPropagation`).
     */
    method Handle(inputBinding: string, sender: Sender, e: Value) returns (r: Result<bool, ManagerError>)
      modifies this
      ensures var names := BoundNames(if inputBinding in inputBindings then inputBindings[inputBinding] else [], sender.props, e);
        && (names.Err? ==> r == Err(names.error) && sent == old(sent) && clientsideRuns == old(clientsideRuns))
        && (names == Ok([]) ==> r == Ok(false) && sent == old(sent) && clientsideRuns == old(clientsideRuns))
        && (names.Ok? && names.value != [] ==>
          var first := names.value[0];
          var args := EventArgs(commandEventPropagations, first, e);
          Attempted(ServersideOutcome(commands, flags, first, sender, args, e), ClientsideOutcome(commandOptimizations, first, sender, args),
            old(sent), old(clientsideRuns), sent, clientsideRuns, r))
      ensures flags == old(flags) && commands == old(commands) && inputBindings == old(inputBindings)
      ensures commandOptimizations == old(commandOptimizations) && commandEventPropagations == old(commandEventPropagations)
    {
      var commandNames := GetCommandBindingsFor(inputBinding, sender.props, e);
      if commandNames.Err? {
        return Err(commandNames.error);
      }
      var names := commandNames.value;
      if names == [] {
        return Ok(false);
      }
      ghost var args := EventArgs(commandEventPropagations, names[0], e);
      ghost var server := ServersideOutcome(commands, flags, names[0], sender, args, e);
      ghost var client := ClientsideOutcome(commandOptimizations, names[0], sender, args);
      var i := 0;
      while i < |names|
        invariant 0 <= i <= |names|
        invariant flags == old(flags) && commands == old(commands) && inputBindings == old(inputBindings)
        invariant commandOptimizations == old(commandOptimizations) && commandEventPropagations == old(commandEventPropagations)
        invariant sent == old(sent) && clientsideRuns == old(clientsideRuns)
        invariant i > 0 ==> server.Ok? && server.value.None? && client.None?
      {
        var executed := ExecuteCommandIfPossible(names[0], sender, e);
        if executed.Err? {
          return Err(executed.error);
        }
        if executed.value {
          // the event's propagation is stopped
          return Ok(true);
        }
        i := i + 1;
      }
      return Ok(false);
    }

    /** `setState`: `Object.assign` of the partial state; keys it lacks keep their values. */
    method SetState(partial: PartialState)
      modifies this
      ensures flags == (if partial.flags.Some? then partial.flags.value else old(flags))
      ensures commands == (if partial.commands.Some? then partial.commands.value else old(commands))
      ensures inputBindings == (if partial.inputBindings.Some? then partial.inputBindings.value else old(inputBindings))
      ensures commandOptimizations == old(commandOptimizations) && commandEventPropagations == old(commandEventPropagations)
      ensures sent == old(sent) && clientsideRuns == old(clientsideRuns)
    {
      if partial.flags.Some? {
        flags := partial.flags.value;
      }
      if partial.commands.Some? {
        commands := partial.commands.value;
      }
      if partial.inputBindings.Some? {
        inputBindings := partial.inputBindings.value;
      }
    }
  }

  /**
   * Two commands are bound to the same input; the first bound one is
   * unknown and the second is a plain serverside command.  `handle` tries
   * the first one twice and never reaches the second: nothing is sent.
   */
  method SecondBindingIsNeverTried() returns (consumed: Result<bool, ManagerError>, sentCount: int)
    ensures consumed == Ok(false) && sentCount == 0
  {
    var manager := new AbstractCommandManager(1);
    var go := map["go" := CommandViewModel("go", None)];
    manager.SetState(PartialState(None, Some(go["ghost" := CommandViewModel("ghost", None)]), None));
    BlankConditionHolds("", manager.flags, Obj(map[IdKey := Num(2)]), Undefined);
    var _ := manager.Bind("ghost", "Ctrl+G", "");
    var _ := manager.Bind("go", "Ctrl+G", "");
    manager.SetState(PartialState(None, Some(go), None));
    var bindings := manager.inputBindings["Ctrl+G"];
    assert bindings == [Binding("ghost", Constant(true), map[], "Ctrl+G"), Binding("go", Constant(true), map[], "Ctrl+G")];
    UnconditionalBindingsAreAllBound(bindings, Obj(map[IdKey := Num(2)]), Undefined);
    assert BoundNames(bindings, Obj(map[IdKey := Num(2)]), Undefined).value[0] == "ghost";
    consumed := manager.Handle("Ctrl+G", Sender(2, Obj(map[IdKey := Num(2)]), Obj(map[])), Undefined);
    sentCount := |manager.sent|;
  }

  /** A serverside command without a condition is sent with the sender's id and the argument 'null'. */
  method UnconditionalCommandIsSent() returns (consumed: Result<bool, ManagerError>, sent: seq<CommandInstruction>)
    ensures consumed == Ok(true)
    ensures sent == [CommandInstruction("go", 2, Str("null"))]
  {
    var manager := new AbstractCommandManager(1);
    manager.SetState(PartialState(None, Some(map["go" := CommandViewModel("go", None)]), None));
    BlankConditionHolds("", manager.flags, Obj(map[IdKey := Num(2)]), Undefined);
    var _ := manager.Bind("go", "Ctrl+G", "");
    var bindings := manager.inputBindings["Ctrl+G"];
    assert bindings == [Binding("go", Constant(true), map[], "Ctrl+G")];
    UnconditionalBindingsAreAllBound(bindings, Obj(map[IdKey := Num(2)]), Undefined);
    assert BoundNames(bindings, Obj(map[IdKey := Num(2)]), Undefined).value == ["go"];
    consumed := manager.Handle("Ctrl+G", Sender(2, Obj(map[IdKey := Num(2)]), Obj(map[])), Undefined);
    sent := manager.sent;
  }
}
