// core.ts: recursive merging of deserialized data into an existing value.
//
// `_deepMerge(merge, data, mergeInPlace)` either writes into `merge` (flag
// set) or into shallow copies of it (flag clear).  In a value model, writing
// in place shows up as the value the `merge` argument holds after the call;
// `MergeArgumentAfter` below states it.  The two exported entry points pass
// the flag the wrong way round (`deepMergeInPlace` passes false, `deepMerge`
// passes true); both the code as written and the evidently intended entry
// points are modelled.
module Core {
  import opened Results
  import opened Json

  datatype MergeError =
    | BigIntData              // `typeof data == 'bigint'`
    | SymbolOrFunctionData    // 'argument error'
    | ObjectIntoNonObject     // in place, the object cannot be written into a primitive
    | InOperatorOnNull        // `s in null` while writing into a null merge target
    | FieldThrew              // one of the fields failed; which one depends on key order

  /** `{ ...merge }` for a merge target of type 'object' (null spreads to `{}`). */
  function ShallowCopy(merge: Value): (r: Value)
    requires IsObjectType(merge)
    ensures r.Obj? && r.fields == OwnFields(merge)
  {
    Obj(OwnFields(merge))
  }

  /** The return value of `_deepMerge(merge, data, mergeInPlace)`. */
  function MergeValue(merge: Value, data: Value, mergeInPlace: bool): (r: Result<Value, MergeError>)
    decreases data, 1
  {
    match data
    case Opaque(BigInt) => Err(BigIntData)
    case Opaque(_) => Err(SymbolOrFunctionData)
    case Str(_) => Ok(data)
    case Num(_) => Ok(data)
    case Bool(_) => Ok(data)
    case Undefined => Ok(data)
    case _ =>
      if IsObjectType(merge) then
        MergeHelper(if mergeInPlace then merge else ShallowCopy(merge), data, mergeInPlace)
      else if mergeInPlace then
        Err(ObjectIntoNonObject)
      else
        MergeHelper(Obj(map[]), data, mergeInPlace)
  }

  /** What `deepMergeHelper` writes into key `k` of the target: a recursive merge, or a JSON clone for a new key. */
  function FieldOutcome(target: map<Key, Value>, k: Key, dataField: Value, mergeInPlace: bool): (r: Result<Value, MergeError>)
    decreases dataField, 2
  {
    if k in target then
      MergeValue(target[k], dataField, mergeInPlace)
    else
      var c := JsonClone(dataField);
      if c.Err? then Err(FieldThrew) else Ok(c.value)
  }

  /**
   * `deepMergeHelper(target, data, mergeInPlace)`: every key of `data` is
   * written into `target`; the others keep their values.  Enumerating a null
   * `data` visits no key; a null target fails on the first key.
   */
  function MergeHelper(target: Value, data: Value, mergeInPlace: bool): (r: Result<Value, MergeError>)
    requires IsObjectType(target) && IsObjectType(data)
    decreases data, 0
  {
    if !data.Obj? || data.fields == map[] then Ok(target)
    else if target.Null? then Err(InOperatorOnNull)
    else if exists k | k in data.fields :: FieldOutcome(target.fields, k, data.fields[k], mergeInPlace).Err? then
      Err(FieldThrew)
    else
      Ok(Obj(map k | k in target.fields.Keys + data.fields.Keys ::
        if k in data.fields then FieldOutcome(target.fields, k, data.fields[k], mergeInPlace).value
        else target.fields[k]))
  }

  /**
   * The loop of `deepMergeHelper`, one key of `data` at a time in an
   * arbitrary order; the result does not depend on that order.
   */
  method DeepMergeHelper(target: Value, data: Value, mergeInPlace: bool) returns (r: Result<Value, MergeError>)
    requires IsObjectType(target) && IsObjectType(data)
    ensures r == MergeHelper(target, data, mergeInPlace)
  {
    if !data.Obj? {
      return Ok(target);
    }
    var d := data.fields;
    if target.Null? {
      // `s in null` throws on the first key, if there is one
      if d == map[] {
        return Ok(target);
      }
      return Err(InOperatorOnNull);
    }
    var merge := target;
    var remaining := d.Keys;
    while remaining != {}
      invariant remaining <= d.Keys
      invariant merge.Obj?
      invariant merge.fields.Keys == target.fields.Keys + (d.Keys - remaining)
      invariant forall k | k in d.Keys - remaining ::
        FieldOutcome(target.fields, k, d[k], mergeInPlace).Ok?
        && merge.fields[k] == FieldOutcome(target.fields, k, d[k], mergeInPlace).value
      invariant forall k | k in target.fields && k !in d.Keys - remaining :: merge.fields[k] == target.fields[k]
      decreases remaining
    {
      var k :| k in remaining;
      var outcome := FieldOutcome(merge.fields, k, d[k], mergeInPlace);
      assert outcome == FieldOutcome(target.fields, k, d[k], mergeInPlace);
      if outcome.Err? {
        return Err(FieldThrew);
      }
      merge := Obj(merge.fields[k := outcome.value]);
      remaining := remaining - {k};
    }
    if d != map[] {
      assert !exists k | k in d :: FieldOutcome(target.fields, k, d[k], mergeInPlace).Err?;
      assert merge.fields == map k | k in target.fields.Keys + d.Keys ::
        if k in d then FieldOutcome(target.fields, k, d[k], mergeInPlace).value else target.fields[k];
    } else {
      assert merge.fields == target.fields;
    }
    return Ok(merge);
  }

  /**
   * The value the `merge` argument holds after a successful call: written
   * in place when the flag is set and both arguments are of type 'object',
   * untouched otherwise.
   */
  function MergeArgumentAfter(merge: Value, data: Value, mergeInPlace: bool): (r: Result<Value, MergeError>)
    ensures r.Ok? <==> MergeValue(merge, data, mergeInPlace).Ok?
    ensures r.Ok? && !mergeInPlace ==> r.value == merge
  {
    var result := MergeValue(merge, data, mergeInPlace);
    if result.Err? then result
    else if mergeInPlace && IsObjectType(merge) && IsObjectType(data) then result
    else Ok(merge)
  }

  /** `deepMergeInPlace(merge, data)` as written: the value of `merge` afterwards. */
  function DeepMergeInPlaceAsWritten(merge: Value, data: Value): (r: Result<Value, MergeError>)
    ensures r.Ok? ==> r.value == merge
  {
    MergeArgumentAfter(merge, data, false)
  }

  /** `deepMerge(merge, data)` as written: its return value (it also writes into `merge`). */
  function DeepMergeAsWritten(merge: Value, data: Value): (r: Result<Value, MergeError>)
    ensures data.Obj? && !IsObjectType(merge) ==> r == Err(ObjectIntoNonObject)
  {
    MergeValue(merge, data, true)
  }

  /** `deepMergeInPlace(merge, data)` as intended: the value of `merge` afterwards. */
  function DeepMergeInPlace(merge: Value, data: Value): (r: Result<Value, MergeError>)
    ensures IsObjectType(merge) && IsObjectType(data) ==> r == MergeValue(merge, data, true)
    ensures data.Obj? && !IsObjectType(merge) ==> r == Err(ObjectIntoNonObject)
  {
    MergeArgumentAfter(merge, data, true)
  }

  /** `deepMerge(merge, data)` as intended: a merged copy; `merge` itself is left as it was. */
  function DeepMerge(merge: Value, data: Value): (r: Result<Value, MergeError>)
    ensures r.Ok? ==> MergeArgumentAfter(merge, data, false) == Ok(merge)
  {
    MergeValue(merge, data, false)
  }

  /** String, number, boolean and undefined data are the result whatever `merge` is, in both modes. */
  lemma PrimitiveDataIsReturned(merge: Value, data: Value, mergeInPlace: bool)
    requires data.Str? || data.Num? || data.Bool? || data.Undefined?
    ensures MergeValue(merge, data, mergeInPlace) == Ok(data)
  {
  }

  /** Symbol, function and bigint data throw, in both modes. */
  lemma ForeignDataThrows(merge: Value, data: Value, mergeInPlace: bool)
    requires data.Opaque?
    ensures MergeValue(merge, data, mergeInPlace).Err?
  {
  }

  /**
   * Merging an object into an object keeps the keys found only in `merge`,
   * merges the shared keys recursively and clones the keys found only in
   * `data`.
   */
  lemma ObjectIntoObject(m: map<Key, Value>, d: map<Key, Value>, mergeInPlace: bool)
    requires MergeValue(Obj(m), Obj(d), mergeInPlace).Ok?
    ensures MergeValue(Obj(m), Obj(d), mergeInPlace).value.Obj?
    ensures var r := MergeValue(Obj(m), Obj(d), mergeInPlace).value.fields;
      && r.Keys == m.Keys + d.Keys
      && (forall k | k in m && k !in d :: r[k] == m[k])
      && (forall k | k in m && k in d :: MergeValue(m[k], d[k], mergeInPlace) == Ok(r[k]))
      && (forall k | k !in m && k in d :: JsonClone(d[k]) == Ok(r[k]))
  {
    if d != map[] {
      assert forall k | k in d :: FieldOutcome(m, k, d[k], mergeInPlace).Ok?;
    }
  }

  /** Reading a path of keys out of nested objects. */
  function ReadPath(v: Value, path: seq<Key>): (r: Option<Value>)
    ensures path == [] ==> r == Some(v)
    decreases |path|
  {
    if path == [] then Some(v)
    else if v.Obj? && path[0] in v.fields then ReadPath(v.fields[path[0]], path[1..])
    else None
  }

  /** The target `_deepMerge` writes an object into. */
  function MergeTarget(merge: Value, mergeInPlace: bool): (r: Value)
    ensures IsObjectType(r)
  {
    if IsObjectType(merge) then (if mergeInPlace then merge else ShallowCopy(merge)) else Obj(map[])
  }

  /** Every primitive of JSON `data` is found at the same path in a successful merge: data wins. */
  lemma {:induction false} DataLeavesWin(merge: Value, data: Value, mergeInPlace: bool, path: seq<Key>)
    requires IsJsonData(data)
    requires MergeValue(merge, data, mergeInPlace).Ok?
    requires ReadPath(data, path).Some? && !IsObjectType(ReadPath(data, path).value)
    ensures ReadPath(MergeValue(merge, data, mergeInPlace).value, path) == ReadPath(data, path)
    decreases |path|
  {
    if path != [] {
      var d := data.fields;
      var k := path[0];
      var target := MergeTarget(merge, mergeInPlace);
      assert MergeValue(merge, data, mergeInPlace) == MergeHelper(target, data, mergeInPlace);
      assert target.Obj?;
      var r := MergeValue(merge, data, mergeInPlace).value;
      assert FieldOutcome(target.fields, k, d[k], mergeInPlace).Ok?;
      assert r.fields[k] == FieldOutcome(target.fields, k, d[k], mergeInPlace).value;
      if k in target.fields {
        DataLeavesWin(target.fields[k], d[k], mergeInPlace, path[1..]);
      } else {
        JsonCloneOfJsonData(d[k]);
      }
    }
  }

  /** Merging JSON data into anything never throws when writing into copies. */
  lemma {:induction false} JsonDataMergesIntoCopies(merge: Value, data: Value)
    requires IsJsonData(data)
    ensures MergeValue(merge, data, false).Ok?
    decreases data
  {
    if data.Obj? && data.fields != map[] {
      var target := MergeTarget(merge, false);
      forall k | k in data.fields
        ensures FieldOutcome(target.fields, k, data.fields[k], false).Ok?
      {
        if k in target.fields {
          JsonDataMergesIntoCopies(target.fields[k], data.fields[k]);
        } else {
          JsonCloneOfJsonData(data.fields[k]);
        }
      }
    }
  }

  /** `deepMerge` of a JSON object into a non-object returns a copy of the data. */
  lemma DeepMergeCopiesDataIntoNonObject(merge: Value, data: Value)
    requires !IsObjectType(merge) && data.Obj? && IsJsonData(data)
    ensures DeepMerge(merge, data) == Ok(data)
  {
    var d := data.fields;
    var empty: map<Key, Value> := map[];
    if d != map[] {
      forall k | k in d
        ensures FieldOutcome(empty, k, d[k], false) == Ok(d[k])
      {
        JsonCloneOfJsonData(d[k]);
      }
      var r := MergeHelper(Obj(empty), data, false);
      assert r.Ok?;
      assert r.value.fields == d;
    }
  }

  /** As written, `deepMergeInPlace` leaves `merge` unchanged: `{}` stays `{}` although `{a: 1}` was merged in. */
  lemma DeepMergeInPlaceAsWrittenWritesNothing()
    ensures DeepMergeInPlaceAsWritten(Obj(map[]), Obj(map[Name("a") := Num(1)])) == Ok(Obj(map[]))
    ensures DeepMergeInPlace(Obj(map[]), Obj(map[Name("a") := Num(1)])) == Ok(Obj(map[Name("a") := Num(1)]))
  {
    var d := map[Name("a") := Num(1)];
    assert FieldOutcome(map[], Name("a"), Num(1), true) == Ok(Num(1));
    var empty: map<Key, Value> := map[];
    assert FieldOutcome(empty, Name("a"), Num(1), true) == Ok(Num(1));
    var r := MergeHelper(Obj(empty), Obj(d), true);
    assert r.Ok?;
    assert r.value.fields == d;
  }

  /** As written, `deepMerge` throws on an object merged into a number, where a copy is documented. */
  lemma DeepMergeAsWrittenThrowsOnNonObject()
    ensures DeepMergeAsWritten(Num(1), Obj(map[])) == Err(ObjectIntoNonObject)
    ensures DeepMerge(Num(1), Obj(map[])) == Ok(Obj(map[]))
  {
  }
}
