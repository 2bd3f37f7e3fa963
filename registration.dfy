// The steps of `register` in ChangesPropagator.ts that do not touch the
// relations: the reserved-id check and the move of dangling fields into the
// props of child components.
module Registration {
  import opened Results
  import opened Json
  import opened EngineTypes
  import Dangling

  /** A non-empty set of keys has an element. */
  lemma NonEmptyHasElement(s: set<Key>)
    requires s != {}
    ensures exists x :: x in s
  {
    if forall x :: x !in s {
      assert false;
    }
  }

  /** A non-empty set of ids has an element. */
  lemma NonEmptyHasId(s: set<int>)
    requires s != {}
    ensures exists x :: x in s
  {
    if forall x :: x !in s {
      assert false;
    }
  }

  /**
   * `assertIsNotReservedId`: registering a root id fails once a component
   * with a non-root id is registered.
   */
  function ReservedIdCheck(rootIds: seq<int>, registered: set<int>, id: int): (r: Result<(), EngineError>)
    ensures r.Err? ==> r.error == ReservedId(id)
  {
    if id in rootIds && exists k | k in registered :: k !in rootIds then Err(ReservedId(id)) else Ok(())
  }

  /** Non-root ids never clash, and a root id clashes exactly with a registered non-root id. */
  lemma ReservedIdCheckCases(rootIds: seq<int>, registered: set<int>, id: int, other: int)
    ensures id !in rootIds ==> ReservedIdCheck(rootIds, registered, id).Ok?
    ensures id in rootIds && other in registered && other !in rootIds ==> ReservedIdCheck(rootIds, registered, id) == Err(ReservedId(id))
    ensures (forall k | k in registered :: k in rootIds) ==> ReservedIdCheck(rootIds, registered, id).Ok?
  {
  }

  /** The loop of `assertIsNotReservedId` over the registered ids. */
  method AssertIsNotReservedId(rootIds: seq<int>, registered: set<int>, id: int) returns (r: Result<(), EngineError>)
    ensures r == ReservedIdCheck(rootIds, registered, id)
  {
    if id !in rootIds {
      return Ok(());
    }
    var remaining := registered;
    while remaining != {}
      invariant remaining <= registered
      invariant forall k | k in registered && k !in remaining :: k in rootIds
      decreases |remaining|
    {
      NonEmptyHasId(remaining);
      var componentId :| componentId in remaining;
      if componentId !in rootIds {
        return Err(ReservedId(id));
      }
      remaining := remaining - {componentId};
    }
    return Ok(());
  }

  /** The props object after the move: fields the dangling state also has take its values. */
  function MovedProps(props: map<Key, Value>, dangling: map<Key, Value>): (r: map<Key, Value>)
    ensures r.Keys == props.Keys
  {
    map n | n in props :: if n in dangling then dangling[n] else props[n]
  }

  /** The dangling state after the move: only the fields the props object lacks. */
  function LeftDangling(props: map<Key, Value>, dangling: map<Key, Value>): (r: map<Key, Value>)
    ensures r.Keys == dangling.Keys - props.Keys
  {
    map n | n in dangling && n !in props :: dangling[n]
  }

  /**
   * One iteration of the outer loop of `movePropertiesFromStateToProps`: when
   * the field `key` holds the props of a child with a dangling state, every
   * dangling field the props object has moves into it.
   */
  function MoveOne(state: map<Key, Value>, states: Dangling.States, key: Key): (r: (map<Key, Value>, Dangling.States))
    ensures r.0.Keys == state.Keys && r.1.Keys == states.Keys
    ensures forall k | k in state && k != key :: r.0[k] == state[k]
    ensures forall id | id in states :: r.1[id].Keys <= states[id].Keys && forall n | n in r.1[id] :: r.1[id][n] == states[id][n]
    ensures key in state && RefId(state[key]).Some? && RefId(state[key]).value in states ==>
      var id := RefId(state[key]).value;
      var props := state[key].fields;
      // each dangling field either stays dangling or lands in the props, never both
      && r.0[key].Obj? && r.0[key].fields.Keys == props.Keys
      && (forall n | n in states[id] :: (n in r.1[id]) != (n in props) && (n in props ==> r.0[key].fields[n] == states[id][n]))
      && (forall n | n in props && n !in states[id] :: r.0[key].fields[n] == props[n])
    ensures !(key in state && RefId(state[key]).Some? && RefId(state[key]).value in states) ==> r == (state, states)
  {
    if key in state && RefId(state[key]).Some? && RefId(state[key]).value in states then
      var id := RefId(state[key]).value;
      var props := state[key].fields;
      (state[key := Obj(MovedProps(props, states[id]))], states[id := LeftDangling(props, states[id])])
    else (state, states)
  }

  /** The outer loop of the move, over the keys of the state in the order `order`. */
  function MoveAll(state: map<Key, Value>, states: Dangling.States, order: seq<Key>): (r: (map<Key, Value>, Dangling.States))
    ensures r.0.Keys == state.Keys && r.1.Keys == states.Keys
    ensures forall id | id in states :: r.1[id].Keys <= states[id].Keys && forall n | n in r.1[id] :: r.1[id][n] == states[id][n]
    ensures forall k | k in state && (k !in order || RefId(state[k]).None?) :: r.0[k] == state[k]
    decreases |order|
  {
    if order == [] then (state, states)
    else
      var before := MoveAll(state, states, order[..|order| - 1]);
      MoveOne(before.0, before.1, order[|order| - 1])
  }

  /** A state none of whose fields refers to a child moves nothing, whatever the order. */
  lemma {:induction false} MoveAllWithoutReferences(state: map<Key, Value>, states: Dangling.States, order: seq<Key>)
    requires forall k | k in state :: RefId(state[k]).None?
    ensures MoveAll(state, states, order) == (state, states)
    decreases |order|
  {
    if order != [] {
      MoveAllWithoutReferences(state, states, order[..|order| - 1]);
    }
  }

  /** `order` enumerates `keys`, each once. */
  ghost predicate IsEnumeration(order: seq<Key>, keys: set<Key>) {
    && (forall i, j | 0 <= i < j < |order| :: order[i] != order[j])
    && (forall k :: k in keys <==> k in order)
  }

  /** The keys `for...in` visits: an object's own keys, none for any other value. */
  function EnumeratedKeys(v: Value): set<Key> {
    if v.Obj? then v.fields.Keys else {}
  }

  /** `movePropertiesFromStateToProps` on a value, in the enumeration order `order`. */
  function Move(state: Value, states: Dangling.States, order: seq<Key>): (r: (Value, Dangling.States))
    ensures EnumeratedKeys(r.0) == EnumeratedKeys(state) && r.1.Keys == states.Keys
    ensures !state.Obj? ==> r == (state, states)
    ensures state.Obj? ==> r.0.Obj? && forall k | k in state.fields && RefId(state.fields[k]).None? :: r.0.fields[k] == state.fields[k]
  {
    if state.Obj? then
      var moved := MoveAll(state.fields, states, order);
      (Obj(moved.0), moved.1)
    else (state, states)
  }

  /** `movePropertiesFromStateToProps` leaves a state without references and the dangling states as they are. */
  lemma MoveWithoutReferences(state: Value, states: Dangling.States, order: seq<Key>)
    requires forall k | k in EnumeratedKeys(state) :: RefId(state.fields[k]).None?
    ensures Move(state, states, order) == (state, states)
  {
    if state.Obj? {
      MoveAllWithoutReferences(state.fields, states, order);
    }
  }

  /** The inner loop of the move, over the fields of one dangling state. */
  method MoveDanglingFields(props: map<Key, Value>, dangling: map<Key, Value>) returns (newProps: map<Key, Value>, newDangling: map<Key, Value>)
    ensures newProps == MovedProps(props, dangling) && newDangling == LeftDangling(props, dangling)
  {
    newProps, newDangling := props, dangling;
    var remaining := dangling.Keys;
    MovedSoFar(props, dangling, remaining);
    while remaining != {}
      invariant remaining <= dangling.Keys
      invariant newProps == PropsSoFar(props, dangling, remaining)
      invariant newDangling == DanglingSoFar(props, dangling, remaining)
      decreases |remaining|
    {
      NonEmptyHasElement(remaining);
      var name :| name in remaining;
      MoveDanglingField(props, dangling, remaining, name);
      if name in newProps {
        newProps := newProps[name := newDangling[name]];
        newDangling := newDangling - {name};
      }
      remaining := remaining - {name};
    }
    MovedSoFar(props, dangling, remaining);
  }

  /** The props object once the dangling fields outside `remaining` are moved. */
  function PropsSoFar(props: map<Key, Value>, dangling: map<Key, Value>, remaining: set<Key>): map<Key, Value> {
    map n | n in props :: if n in dangling && n !in remaining then dangling[n] else props[n]
  }

  /** The dangling state once the fields outside `remaining` are moved. */
  function DanglingSoFar(props: map<Key, Value>, dangling: map<Key, Value>, remaining: set<Key>): map<Key, Value> {
    map n | n in dangling && !(n !in remaining && n in props) :: dangling[n]
  }

  /** Before the loop nothing is moved; after it, everything is. */
  lemma MovedSoFar(props: map<Key, Value>, dangling: map<Key, Value>, remaining: set<Key>)
    ensures remaining == dangling.Keys ==> PropsSoFar(props, dangling, remaining) == props && DanglingSoFar(props, dangling, remaining) == dangling
    ensures remaining == {} ==>
      && PropsSoFar(props, dangling, remaining) == MovedProps(props, dangling)
      && DanglingSoFar(props, dangling, remaining) == LeftDangling(props, dangling)
  {
  }

  /** One iteration of the inner loop, on the dangling field `name`. */
  lemma MoveDanglingField(props: map<Key, Value>, dangling: map<Key, Value>, remaining: set<Key>, name: Key)
    requires remaining <= dangling.Keys && name in remaining
    ensures var p, d := PropsSoFar(props, dangling, remaining), DanglingSoFar(props, dangling, remaining);
      && (name in p ==>
            && p[name := d[name]] == PropsSoFar(props, dangling, remaining - {name})
            && d - {name} == DanglingSoFar(props, dangling, remaining - {name}))
      && (name !in p ==> p == PropsSoFar(props, dangling, remaining - {name}) && d == DanglingSoFar(props, dangling, remaining - {name}))
  {
  }

  /** One iteration of the outer loop, on the field `key`. */
  method MoveField(state: map<Key, Value>, states: Dangling.States, key: Key) returns (newState: map<Key, Value>, newStates: Dangling.States)
    requires key in state
    ensures (newState, newStates) == MoveOne(state, states, key)
  {
    newState, newStates := state, states;
    var childProps := state[key];
    var child := RefId(childProps);
    if child.Some? && child.value in states {
      var props, dangling := MoveDanglingFields(childProps.fields, states[child.value]);
      newState, newStates := state[key := Obj(props)], states[child.value := dangling];
    }
  }

  /** Visiting one more key moves that key's field last. */
  lemma MoveAllSnoc(state: map<Key, Value>, states: Dangling.States, order: seq<Key>, key: Key)
    ensures var before := MoveAll(state, states, order);
      MoveAll(state, states, order + [key]) == MoveOne(before.0, before.1, key)
  {
    assert (order + [key])[..|order|] == order;
  }

  /**
   * `movePropertiesFromStateToProps`: the keys are visited in an order of the
   * model's choosing, returned as `order`.
   */
  method MovePropertiesFromStateToProps(state: Value, states: Dangling.States) returns (newState: Value, newStates: Dangling.States, ghost order: seq<Key>)
    ensures IsEnumeration(order, EnumeratedKeys(state))
    ensures (newState, newStates) == Move(state, states, order)
    ensures EnumeratedKeys(newState) == EnumeratedKeys(state) && newStates.Keys == states.Keys
    ensures !state.Obj? ==> newState == state && newStates == states
    ensures state.Obj? ==> newState.Obj? && forall k | k in state.fields && RefId(state.fields[k]).None? :: newState.fields[k] == state.fields[k]
  {
    order := [];
    if !state.Obj? {
      return state, states, order;
    }
    var fields := state.fields;
    newStates := states;
    var remaining := fields.Keys;
    while remaining != {}
      invariant Visiting(order, remaining, state.fields.Keys)
      invariant (fields, newStates) == MoveAll(state.fields, states, order)
      decreases |remaining|
    {
      NonEmptyHasElement(remaining);
      var key :| key in remaining;
      MoveAllSnoc(state.fields, states, order, key);
      VisitNext(order, remaining, state.fields.Keys, key);
      fields, newStates := MoveField(fields, newStates, key);
      order := order + [key];
      remaining := remaining - {key};
    }
    VisitedAll(order, state.fields.Keys);
    newState := Obj(fields);
  }

  /** While the loop runs, `order` has visited each key once and `remaining` holds the others. */
  ghost predicate Visiting(order: seq<Key>, remaining: set<Key>, keys: set<Key>) {
    && remaining <= keys
    && (forall i, j | 0 <= i < j < |order| :: order[i] != order[j])
    && (forall k :: k in keys <==> k in remaining || k in order)
    && (forall k | k in order :: k !in remaining)
  }

  lemma VisitNext(order: seq<Key>, remaining: set<Key>, keys: set<Key>, key: Key)
    requires Visiting(order, remaining, keys) && key in remaining
    ensures Visiting(order + [key], remaining - {key}, keys)
  {
  }

  lemma VisitedAll(order: seq<Key>, keys: set<Key>)
    requires Visiting(order, {}, keys)
    ensures IsEnumeration(order, keys)
  {
  }
}
