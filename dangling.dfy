// The dangling states of ChangesPropagator.ts: the changes buffered for view
// models whose component has not registered yet, kept in the insertion order
// of the JavaScript Map that holds them.
module Dangling {
  import opened Results
  import opened Json
  import opened EngineTypes

  /** A pending field map per view model id. */
  type States = map<int, map<Key, Value>>

  /** `order` lists the keys of `states` once each, in insertion order. */
  ghost predicate OrderMatches(states: States, order: seq<int>) {
    && (forall i, j | 0 <= i < j < |order| :: order[i] != order[j])
    && (forall id :: id in states <==> id in order)
  }

  /** The entries of the constructor: an empty state per root, in the order of `rootIds`. */
  function InitialStates(rootIds: seq<int>): (r: (States, seq<int>))
    ensures forall id :: id in r.0 <==> id in rootIds
    ensures forall id | id in r.0 :: r.0[id] == map[]
    ensures OrderMatches(r.0, r.1)
    decreases |rootIds|
  {
    if rootIds == [] then (map[], [])
    else
      var init := InitialStates(rootIds[..|rootIds| - 1]);
      var last := rootIds[|rootIds| - 1];
      assert forall id :: id in rootIds <==> id in rootIds[..|rootIds| - 1] || id == last;
      if last in init.0 then init else (init.0[last := map[]], init.1 + [last])
  }

  /** `order` without `id`. */
  function Remove(order: seq<int>, id: int): (r: seq<int>)
    ensures forall x :: x in r <==> x in order && x != id
    ensures (forall i, j | 0 <= i < j < |order| :: order[i] != order[j]) ==> (forall i, j | 0 <= i < j < |r| :: r[i] != r[j])
    decreases |order|
  {
    if order == [] then []
    else if order[0] == id then Remove(order[1..], id)
    else
      var rest := Remove(order[1..], id);
      assert forall x :: x in order <==> x == order[0] || x in order[1..];
      assert (forall i, j | 0 <= i < j < |order| :: order[i] != order[j]) ==> order[0] !in order[1..] by {
        if (forall i, j | 0 <= i < j < |order| :: order[i] != order[j]) && order[0] in order[1..] {
          assert false;
        }
      }
      [order[0]] + rest
  }

  /**
   * The buffering of one dangling change in `processResponse`: a reference
   * only makes sure the referenced child has an entry; any other value is
   * written under its key in the entry of the change's own id.
   */
  function BufferOne(states: States, order: seq<int>, c: Change): (r: (States, seq<int>))
    requires IsHandled(c)
    ensures RefId(ChangeValue(c)).Some? ==>
      var child := RefId(ChangeValue(c)).value;
      && r.0.Keys == states.Keys + {child}
      && (forall id | id in states :: r.0[id] == states[id])
      && (child !in states ==> r.0[child] == map[] && r.1 == order + [child])
      && (child in states ==> r.1 == order)
    ensures RefId(ChangeValue(c)).None? ==>
      && r.0.Keys == states.Keys + {c.id}
      && (forall id | id in states && id != c.id :: r.0[id] == states[id])
      && r.0[c.id].Keys == (if c.id in states then states[c.id].Keys else {}) + {ChangeKey(c)}
      && r.0[c.id][ChangeKey(c)] == ChangeValue(c)
      && (forall n | n in r.0[c.id] && n != ChangeKey(c) :: r.0[c.id][n] == states[c.id][n])
      && r.1 == (if c.id in states then order else order + [c.id])
  {
    match RefId(ChangeValue(c))
    case Some(child) =>
      if child in states then (states, order) else (states[child := map[]], order + [child])
    case None =>
      var entry := if c.id in states then states[c.id] else map[];
      (states[c.id := entry[ChangeKey(c) := ChangeValue(c)]], if c.id in states then order else order + [c.id])
  }

  /** The buffer loop of `processResponse`, over the dangling changes in order. */
  function BufferAll(states: States, order: seq<int>, changes: seq<Change>): (r: (States, seq<int>))
    requires forall c | c in changes :: IsHandled(c)
    decreases |changes|
  {
    if changes == [] then (states, order)
    else
      var next := BufferOne(states, order, changes[0]);
      BufferAll(next.0, next.1, changes[1..])
  }

  /** Buffering keeps the insertion order in step with the entries, and never drops an entry or a field. */
  lemma {:induction false} BufferAllKeepsOrder(states: States, order: seq<int>, changes: seq<Change>)
    requires forall c | c in changes :: IsHandled(c)
    requires OrderMatches(states, order)
    ensures OrderMatches(BufferAll(states, order, changes).0, BufferAll(states, order, changes).1)
    ensures states.Keys <= BufferAll(states, order, changes).0.Keys
    ensures forall id | id in states :: states[id].Keys <= BufferAll(states, order, changes).0[id].Keys
    decreases |changes|
  {
    if changes != [] {
      var next := BufferOne(states, order, changes[0]);
      BufferAllKeepsOrder(next.0, next.1, changes[1..]);
    }
  }

  /** Whether `c` writes the field `key` of the entry `id`. */
  predicate WritesField(c: Change, id: int, key: Key)
    requires IsHandled(c)
  {
    RefId(ChangeValue(c)).None? && c.id == id && ChangeKey(c) == key
  }

  /** The changes before the last write are buffered first. */
  lemma {:induction false} BufferAllOfConcat(states: States, order: seq<int>, before: seq<Change>, after: seq<Change>)
    requires forall c | c in before + after :: IsHandled(c)
    ensures BufferAll(states, order, before + after) ==
      var mid := BufferAll(states, order, before); BufferAll(mid.0, mid.1, after)
    decreases |before|
  {
    if before != [] {
      assert (before + after)[1..] == before[1..] + after;
      var next := BufferOne(states, order, before[0]);
      BufferAllOfConcat(next.0, next.1, before[1..], after);
    } else {
      assert before + after == after;
    }
  }

  /** Changes that do not write a field leave it as it is. */
  lemma {:induction false} BufferAllKeepsOtherFields(states: States, order: seq<int>, changes: seq<Change>, id: int, key: Key)
    requires forall c | c in changes :: IsHandled(c)
    requires forall c | c in changes :: !WritesField(c, id, key)
    requires id in states && key in states[id]
    ensures var r := BufferAll(states, order, changes).0;
      id in r && key in r[id] && r[id][key] == states[id][key]
    decreases |changes|
  {
    if changes != [] {
      assert changes[0] in changes;
      assert forall c | c in changes[1..] :: c in changes;
      var next := BufferOne(states, order, changes[0]);
      BufferAllKeepsOtherFields(next.0, next.1, changes[1..], id, key);
    }
  }

  /** Of several writes to one field of a dangling state, the last one wins. */
  lemma LastBufferedWriteWins(states: States, order: seq<int>, before: seq<Change>, c: Change, after: seq<Change>)
    requires forall x | x in before + [c] + after :: IsHandled(x)
    requires RefId(ChangeValue(c)).None?
    requires forall x | x in after :: !WritesField(x, c.id, ChangeKey(c))
    ensures var r := BufferAll(states, order, before + [c] + after).0;
      c.id in r && ChangeKey(c) in r[c.id] && r[c.id][ChangeKey(c)] == ChangeValue(c)
  {
    BufferAllOfConcat(states, order, before + [c], after);
    BufferAllOfConcat(states, order, before, [c]);
    var mid := BufferAll(states, order, before);
    assert BufferAll(mid.0, mid.1, [c]) == BufferOne(mid.0, mid.1, c);
    var withC := BufferOne(mid.0, mid.1, c);
    BufferAllKeepsOtherFields(withC.0, withC.1, after, c.id, ChangeKey(c));
  }

  /** The loop of `processResponse` that merges the dangling changes into the dangling states. */
  method BufferDanglingChanges(states: States, order: seq<int>, changes: seq<Change>) returns (r: (States, seq<int>))
    requires forall c | c in changes :: IsHandled(c)
    ensures r == BufferAll(states, order, changes)
  {
    var current, currentOrder := states, order;
    var i := 0;
    assert changes[0..] == changes;
    while i < |changes|
      invariant 0 <= i <= |changes|
      invariant BufferAll(states, order, changes) == BufferAll(current, currentOrder, changes[i..])
    {
      assert changes[i..][1..] == changes[i + 1..];
      var c := changes[i];
      ghost var before := (current, currentOrder);
      var value := ChangeValue(c);
      var child := RefId(value);
      if child.Some? {
        if child.value !in current {
          current, currentOrder := current[child.value := map[]], currentOrder + [child.value];
        }
      } else {
        var entry := if c.id in current then current[c.id] else map[];
        if c.id !in current {
          currentOrder := currentOrder + [c.id];
        }
        current := current[c.id := entry[ChangeKey(c) := value]];
      }
      assert (current, currentOrder) == BufferOne(before.0, before.1, c);
      i := i + 1;
    }
    return (current, currentOrder);
  }

  /**
   * `acquireDanglingState`: a registered id fails; otherwise the entry is
   * removed and returned without its `__id`, or `{}` when there is none.
   */
  function Acquire(registered: set<int>, states: States, order: seq<int>, id: int): (r: Result<(map<Key, Value>, States, seq<int>), EngineError>)
    ensures id in registered ==> r == Err(AlreadyRegistered(id))
    ensures id !in registered && id !in states ==> r == Ok((map[], states, order))
    ensures id !in registered && id in states ==> r.Ok? && r.value.0 == states[id] - {IdKey}
    ensures id !in registered && id in states ==> r.value.1 == states - {id} && (forall x :: x in r.value.2 <==> x in order && x != id)
  {
    if id in registered then Err(AlreadyRegistered(id))
    else if id !in states then Ok((map[], states, order))
    else Ok((states[id] - {IdKey}, states - {id}, Remove(order, id)))
  }

  /** An entry is drained exactly once: acquiring again finds nothing, and the order still matches. */
  lemma AcquireDrainsOnce(registered: set<int>, states: States, order: seq<int>, id: int)
    requires OrderMatches(states, order)
    requires Acquire(registered, states, order, id).Ok?
    ensures var a := Acquire(registered, states, order, id).value;
      OrderMatches(a.1, a.2) && Acquire(registered, a.1, a.2, id) == Ok((map[], a.1, a.2))
  {
  }
}
