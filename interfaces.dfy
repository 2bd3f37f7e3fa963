// Shared identifiers and the reference test of base.interfaces.ts.
module Interfaces {
  import opened Json

  /** The id of a component the server has not assigned an id to yet. */
  const UNINITIALIZED_ID: int := -1
  /** The root application component. */
  const AppId: int := 0
  /** The root command manager component. */
  const CommandManagerId: int := 1

  /** `isReference`: a non-null object with an own `__id` key (whatever it holds). */
  predicate IsReference(v: Value) {
    !IsNullish(v) && IsObjectType(v) && IdKey in v.fields
  }

  /** Only objects can be references; an object is one exactly when it has the `__id` key. */
  lemma IsReferenceCharacterization(v: Value)
    ensures IsReference(v) <==> v.Obj? && IdKey in v.fields
  {
  }
}
