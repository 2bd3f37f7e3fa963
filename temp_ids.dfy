// tempIdProvider.ts: hands out ids for components created clientside, before
// the server has assigned them an id.
module TempIds {
  import Interfaces

  class TempIdProvider {
    var counter: int
    /** The ids handed out so far. */
    ghost var issued: set<int>

    ghost predicate Valid()
      reads this
    {
      counter <= Interfaces.UNINITIALIZED_ID - 1
      && (forall i :: i in issued <==> counter < i <= Interfaces.UNINITIALIZED_ID - 1)
    }

    constructor()
      ensures Valid()
      ensures counter == Interfaces.UNINITIALIZED_ID - 1 && issued == {}
    {
      counter := Interfaces.UNINITIALIZED_ID - 1;
      issued := {};
    }

    /** Returns the counter and then decrements it: a fresh id, strictly below UNINITIALIZED_ID. */
    method Next() returns (id: int)
      requires Valid()
      modifies this
      ensures Valid()
      ensures id == old(counter) && counter == old(counter) - 1
      ensures id < Interfaces.UNINITIALIZED_ID
      ensures id !in old(issued) && issued == old(issued) + {id}
    {
      id := counter;
      counter := counter - 1;
      issued := issued + {id};
    }
  }

  /** The first id of a new provider is -2, the next -3. */
  method FirstTwoIds() returns (first: int, second: int)
    ensures first == -2 && second == -3
  {
    var provider := new TempIdProvider();
    first := provider.Next();
    second := provider.Next();
  }
}
