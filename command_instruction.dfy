// commands/commandInstruction.ts: what the command manager hands to the
// change propagator for serverside execution.
module Instructions {
  import opened Json

  datatype CommandInstruction = CommandInstruction(commandName: string, viewModelId: int, eventArgs: Value)

  /** `new CommandInstruction(name, sender, args)` for a sender with id `viewModelId`: falsy arguments become the string 'null'. */
  function MakeInstruction(commandName: string, viewModelId: int, args: Value): (r: CommandInstruction)
    ensures r.commandName == commandName && r.viewModelId == viewModelId
    ensures Truthy(r.eventArgs)
    ensures Truthy(args) ==> r.eventArgs == args
    ensures !Truthy(args) ==> r.eventArgs == Str("null")
  {
    CommandInstruction(commandName, viewModelId, if Truthy(args) then args else Str("null"))
  }
}
