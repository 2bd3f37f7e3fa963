// The structural tests of changesPropagator/common.ts.
module Common {
  import opened Json
  import Interfaces

  /** `isComponentProps`: not null/undefined, and its `__id` reads as something other than undefined. */
  predicate IsComponentProps(v: Value) {
    !IsNullish(v) && !Get(v, IdKey).Undefined?
  }

  /** `isComponent`: not null/undefined, with `state` and `props` both loosely non-null. */
  predicate IsComponent(v: Value) {
    !IsNullish(v) && !IsNullish(Get(v, Name("state"))) && !IsNullish(Get(v, Name("props")))
  }

  /**
   * The two reference tests agree except on an object whose `__id` key holds
   * undefined: `isReference` accepts it, `isComponentProps` does not.
   */
  lemma ComponentPropsVersusReference(v: Value)
    ensures IsComponentProps(v) ==> Interfaces.IsReference(v)
    ensures Interfaces.IsReference(v) && !IsComponentProps(v) <==> v.Obj? && IdKey in v.fields && v.fields[IdKey].Undefined?
  {
  }

  /** Primitives are never taken for component props or components. */
  lemma PrimitivesAreNotComponentProps(v: Value)
    requires v.Bool? || v.Num? || v.Str? || IsNullish(v)
    ensures !IsComponentProps(v) && !IsComponent(v)
  {
  }
}
