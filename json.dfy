// The JavaScript values the library moves around: deserialized server data,
// component state and props.  Objects (and arrays, whose keys are indices)
// are finite maps; key order is not part of the model.
module Json {
  import opened Results

  datatype Key = Name(name: string) | Index(index: int)

  // Values no JSON document can contain.
  datatype Foreign = Symbol | Function | BigInt

  datatype Value =
    | Undefined
    | Null
    | Bool(b: bool)
    | Num(n: int)
    | Str(s: string)
    | Obj(fields: map<Key, Value>)
    | Opaque(kind: Foreign)

  const IdKey: Key := Name("__id")

  /** `v == null` (loose): true for null and undefined only. */
  predicate IsNullish(v: Value) {
    v.Null? || v.Undefined?
  }

  /** `typeof v == 'object'` (null included). */
  predicate IsObjectType(v: Value) {
    v.Null? || v.Obj?
  }

  /** JavaScript truthiness. */
  predicate Truthy(v: Value) {
    match v
    case Undefined => false
    case Null => false
    case Bool(b) => b
    case Num(n) => n != 0
    case Str(s) => s != []
    case Obj(_) => true
    case Opaque(_) => true
  }

  /** Own property read `v[k]`; inherited (prototype) members are not modelled. */
  function Get(v: Value, k: Key): (r: Value)
    ensures v.Obj? && k in v.fields ==> r == v.fields[k]
    ensures IsNullish(v) || v.Bool? || v.Num? ==> r.Undefined?
  {
    match v
    case Obj(f) => if k in f then f[k] else Undefined
    case Str(s) =>
      (match k
       case Index(i) => if 0 <= i < |s| then Str([s[i]]) else Undefined
       case Name(n) => if n == "length" then Num(|s|) else Undefined)
    case _ => Undefined
  }

  /** The own enumerable fields that an object spread `{...v}` copies. */
  function OwnFields(v: Value): (r: map<Key, Value>)
    ensures v.Obj? ==> r == v.fields
    ensures !v.Obj? && !v.Str? ==> r == map[]
    ensures v.Str? ==> r.Keys == set i | 0 <= i < |v.s| :: Index(i)
  {
    match v
    case Obj(f) => f
    case Str(s) => map i | 0 <= i < |s| :: Index(i) := Str([s[i]])
    case _ => map[]
  }

  /** `{...a, ...b}`: the fields of `b` take precedence over those of `a`. */
  function Spread(a: Value, b: Value): (r: Value)
    ensures r.Obj?
    ensures r.fields.Keys == OwnFields(a).Keys + OwnFields(b).Keys
    ensures forall k :: k in OwnFields(b) ==> r.fields[k] == OwnFields(b)[k]
    ensures forall k :: k in OwnFields(a) && k !in OwnFields(b) ==> r.fields[k] == OwnFields(a)[k]
  {
    Obj(OwnFields(a) + OwnFields(b))
  }

  /**
   * Loose equality `a == b`.  Two object values are never equal (the callers
   * always compare distinct objects); number/string/boolean coercions are not
   * modelled.
   */
  predicate LooseEquals(a: Value, b: Value) {
    (IsNullish(a) && IsNullish(b))
    || (a.Bool? && b.Bool? && a.b == b.b)
    || (a.Num? && b.Num? && a.n == b.n)
    || (a.Str? && b.Str? && a.s == b.s)
  }

  lemma LooseEqualsIsSymmetric(a: Value, b: Value)
    ensures LooseEquals(a, b) <==> LooseEquals(b, a)
  {
  }

  /** Every primitive that is not undefined equals itself; objects never do. */
  lemma LooseEqualsReflexiveOnPrimitives(a: Value)
    ensures LooseEquals(a, a) <==> !a.Obj? && !a.Opaque?
  {
  }

  /** A value that `JSON.stringify` writes out completely: no undefined, no foreign value, anywhere. */
  predicate IsJsonData(v: Value) {
    match v
    case Undefined => false
    case Opaque(_) => false
    case Obj(f) => forall k | k in f :: IsJsonData(f[k])
    case _ => true
  }

  datatype CloneError = NotSerializable | BigIntNotSerializable

  /** How a field value fares inside `JSON.stringify`: omitted, written, or fatal. */
  function CloneField(v: Value): (r: Result<Option<Value>, CloneError>)
    decreases v, 1
  {
    match v
    case Undefined => Ok(None)
    case Opaque(Symbol) => Ok(None)
    case Opaque(Function) => Ok(None)
    case Opaque(BigInt) => Err(BigIntNotSerializable)
    case _ =>
      var c := JsonClone(v);
      if c.Err? then Err(c.error) else Ok(Some(c.value))
  }

  /**
   * `JSON.parse(JSON.stringify(v))`.  A top-level undefined, symbol or
   * function stringifies to `undefined`, which `JSON.parse` rejects; a bigint
   * anywhere throws; inside objects undefined, symbol and function fields are
   * dropped.
   */
  function JsonClone(v: Value): (r: Result<Value, CloneError>)
    decreases v, 0
  {
    match v
    case Undefined => Err(NotSerializable)
    case Opaque(BigInt) => Err(BigIntNotSerializable)
    case Opaque(_) => Err(NotSerializable)
    case Obj(f) =>
      if exists k | k in f :: CloneField(f[k]).Err? then
        Err(NotSerializable)
      else
        Ok(Obj(map k | k in f && CloneField(f[k]).value.Some? :: CloneField(f[k]).value.value))
    case _ => Ok(v)
  }

  /** Cloning JSON data through a string is the identity. */
  lemma {:induction false} JsonCloneOfJsonData(v: Value)
    requires IsJsonData(v)
    ensures JsonClone(v) == Ok(v)
    decreases v
  {
    match v
    case Obj(f) =>
      forall k | k in f
        ensures CloneField(f[k]) == Ok(Some(f[k]))
      {
        JsonCloneOfJsonData(f[k]);
      }
      assert (map k | k in f && CloneField(f[k]).value.Some? :: CloneField(f[k]).value.value) == f;
    case _ =>
  }

  /** A successful clone is always JSON data. */
  lemma {:induction false} JsonCloneYieldsJsonData(v: Value)
    requires JsonClone(v).Ok?
    ensures IsJsonData(JsonClone(v).value)
    decreases v
  {
    match v
    case Obj(f) =>
      var g := JsonClone(v).value.fields;
      forall k | k in g
        ensures IsJsonData(g[k])
      {
        JsonCloneYieldsJsonData(f[k]);
      }
    case _ =>
  }
}
