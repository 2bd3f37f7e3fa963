// The orderings processing relies on: `Array.prototype.sort` with a numeric
// comparator (stable since ECMAScript 2019) and the split of a batch into
// ready and dangling changes.
module Ordering {

  /** Every element's key is at most its successor's. */
  predicate SortedBy<T>(s: seq<T>, key: T -> int) {
    forall i, j | 0 <= i < j < |s| :: key(s[i]) <= key(s[j])
  }

  /** The elements of `s` whose key is `k`, in their order in `s`. */
  function WithKey<T>(s: seq<T>, key: T -> int, k: int): (r: seq<T>)
  {
    if s == [] then [] else (if key(s[0]) == k then [s[0]] else []) + WithKey(s[1..], key, k)
  }

  /** `WithKey` keeps exactly the elements with key `k`. */
  lemma {:induction false} WithKeySelects<T>(s: seq<T>, key: T -> int, k: int)
    ensures forall x :: x in WithKey(s, key, k) <==> x in s && key(x) == k
  {
    if s != [] {
      WithKeySelects(s[1..], key, k);
      assert forall x :: x in s <==> x == s[0] || x in s[1..];
    }
  }

  lemma {:induction false} WithKeyOfConcat<T>(a: seq<T>, b: seq<T>, key: T -> int, k: int)
    ensures WithKey(a + b, key, k) == WithKey(a, key, k) + WithKey(b, key, k)
  {
    if a == [] {
      assert a + b == b;
    } else {
      var ab := a + b;
      assert ab[0] == a[0] && ab[1..] == a[1..] + b;
      var first := if key(a[0]) == k then [a[0]] else [];
      assert WithKey(ab, key, k) == first + WithKey(a[1..] + b, key, k);
      assert WithKey(a, key, k) == first + WithKey(a[1..], key, k);
      WithKeyOfConcat(a[1..], b, key, k);
      assert first + (WithKey(a[1..], key, k) + WithKey(b, key, k)) == (first + WithKey(a[1..], key, k)) + WithKey(b, key, k);
    }
  }

  /** Inserts `x` after every element whose key is at most its own. */
  function InsertAfterEquals<T>(x: T, s: seq<T>, key: T -> int): (r: seq<T>)
    ensures multiset(r) == multiset(s) + multiset{x}
    ensures |r| == |s| + 1
  {
    if s == [] then [x]
    else if key(x) < key(s[0]) then [x] + s
    else
      assert s == [s[0]] + s[1..];
      [s[0]] + InsertAfterEquals(x, s[1..], key)
  }

  lemma {:induction false} InsertKeepsSorted<T>(x: T, s: seq<T>, key: T -> int)
    requires SortedBy(s, key)
    ensures SortedBy(InsertAfterEquals(x, s, key), key)
  {
    if s != [] && key(x) >= key(s[0]) {
      InsertKeepsSorted(x, s[1..], key);
      var r := InsertAfterEquals(x, s, key);
      forall i, j | 0 <= i < j < |r| ensures key(r[i]) <= key(r[j]) {
        if i == 0 {
          assert r[j] in multiset(s[1..]) + multiset{x};
          if r[j] in multiset(s[1..]) {
            var m :| 0 <= m < |s[1..]| && s[1..][m] == r[j];
            assert key(s[0]) <= key(s[1 + m]);
          }
        }
      }
    }
  }

  lemma WithKeyOfSingleton<T>(x: T, key: T -> int, k: int)
    ensures WithKey([x], key, k) == if key(x) == k then [x] else []
  {
    assert [x][1..] == [];
  }

  lemma {:induction false} InsertIsStable<T>(x: T, s: seq<T>, key: T -> int, k: int)
    requires SortedBy(s, key)
    ensures WithKey(InsertAfterEquals(x, s, key), key, k) == WithKey(s, key, k) + WithKey([x], key, k)
  {
    if s == [] {
      WithKeyOfSingleton(x, key, k);
      assert WithKey(s, key, k) == [];
    } else if key(x) < key(s[0]) {
      InsertInFrontIsStable(x, s, key, k);
    } else {
      assert SortedBy(s[1..], key);
      InsertIsStable(x, s[1..], key, k);
      InsertBehindIsStable(x, s, key, k);
    }
  }

  /** An element whose key is not below the first one goes behind it: the first one keeps its place among its key. */
  lemma InsertBehindIsStable<T>(x: T, s: seq<T>, key: T -> int, k: int)
    requires s != [] && key(x) >= key(s[0])
    requires WithKey(InsertAfterEquals(x, s[1..], key), key, k) == WithKey(s[1..], key, k) + WithKey([x], key, k)
    ensures WithKey(InsertAfterEquals(x, s, key), key, k) == WithKey(s, key, k) + WithKey([x], key, k)
  {
    var inserted := InsertAfterEquals(x, s[1..], key);
    InsertAfterEqualsBehind(x, s, key);
    WithKeyOfConcat([s[0]], inserted, key, k);
    SplitFirst(s);
    WithKeyOfConcat([s[0]], s[1..], key, k);
    AppendIsAssociative(WithKey([s[0]], key, k), WithKey(s[1..], key, k), WithKey([x], key, k));
  }

  lemma InsertAfterEqualsBehind<T>(x: T, s: seq<T>, key: T -> int)
    requires s != [] && key(x) >= key(s[0])
    ensures InsertAfterEquals(x, s, key) == [s[0]] + InsertAfterEquals(x, s[1..], key)
  {
  }

  lemma SplitFirst<T>(s: seq<T>)
    requires s != []
    ensures s == [s[0]] + s[1..]
  {
  }

  lemma AppendIsAssociative<T>(a: seq<T>, b: seq<T>, c: seq<T>)
    ensures a + (b + c) == (a + b) + c
  {
  }

  /** An element whose key is below the first one goes in front: among its key it is then the only one. */
  lemma InsertInFrontIsStable<T>(x: T, s: seq<T>, key: T -> int, k: int)
    requires SortedBy(s, key) && s != [] && key(x) < key(s[0])
    ensures WithKey([x] + s, key, k) == WithKey(s, key, k) + WithKey([x], key, k)
  {
    WithKeyOfSingleton(x, key, k);
    WithKeyOfConcat([x], s, key, k);
    if key(x) == k {
      forall y | y in s ensures key(y) != k {
        var m :| 0 <= m < |s| && s[m] == y;
        assert key(s[0]) <= key(s[m]);
      }
      NoneWithKey(s, key, k);
    } else {
      assert WithKey(s, key, k) + [] == WithKey(s, key, k);
    }
  }

  lemma {:induction false} NoneWithKey<T>(s: seq<T>, key: T -> int, k: int)
    requires forall y | y in s :: key(y) != k
    ensures WithKey(s, key, k) == []
  {
    if s != [] {
      NoneWithKey(s[1..], key, k);
    }
  }

  /** `s.sort((a, b) => key(a) - key(b))`: a stable sort by ascending key. */
  function SortBy<T>(s: seq<T>, key: T -> int): (r: seq<T>)
    ensures multiset(r) == multiset(s) && |r| == |s|
  {
    if s == [] then []
    else
      assert s == s[..|s| - 1] + [s[|s| - 1]];
      InsertAfterEquals(s[|s| - 1], SortBy(s[..|s| - 1], key), key)
  }

  /** The sort keeps the elements it was given. */
  lemma SortByKeepsElements<T>(s: seq<T>, key: T -> int)
    ensures forall x | x in SortBy(s, key) :: x in s
  {
    var r := SortBy(s, key);
    forall x | x in r ensures x in s {
      assert x in multiset(r);
    }
  }

  /** The sort orders by key. */
  lemma {:induction false} SortByIsSorted<T>(s: seq<T>, key: T -> int)
    ensures SortedBy(SortBy(s, key), key)
  {
    if s != [] {
      SortByIsSorted(s[..|s| - 1], key);
      InsertKeepsSorted(s[|s| - 1], SortBy(s[..|s| - 1], key), key);
    }
  }

  /** Elements with equal keys keep their relative order. */
  lemma {:induction false} SortByIsStable<T>(s: seq<T>, key: T -> int, k: int)
    ensures WithKey(SortBy(s, key), key, k) == WithKey(s, key, k)
  {
    if s != [] {
      var init := s[..|s| - 1];
      var x := s[|s| - 1];
      SortByIsStable(init, key, k);
      SortByIsSorted(init, key);
      InsertIsStable(x, SortBy(init, key), key, k);
      assert init + [x] == s;
      WithKeyOfConcat(init, [x], key, k);
    }
  }

  /** `a` is `s` with some elements left out. */
  predicate IsSubsequence<T(==)>(a: seq<T>, s: seq<T>)
    decreases |s|
  {
    a == [] || (s != [] && ((a[0] == s[0] && IsSubsequence(a[1..], s[1..])) || IsSubsequence(a, s[1..])))
  }

  /** `filterOutDanglingChanges`: the changes `isDangling` rejects, and those it accepts. */
  function Partition<T>(s: seq<T>, isDangling: T -> bool): (r: (seq<T>, seq<T>))
    ensures multiset(r.0) + multiset(r.1) == multiset(s)
    ensures forall x | x in r.0 :: x in s && !isDangling(x)
    ensures forall x | x in r.1 :: x in s && isDangling(x)
  {
    if s == [] then ([], [])
    else
      var rest := Partition(s[1..], isDangling);
      assert s == [s[0]] + s[1..];
      if isDangling(s[0]) then (rest.0, [s[0]] + rest.1) else ([s[0]] + rest.0, rest.1)
  }

  /** Both halves of the partition keep the order of the batch. */
  lemma {:induction false} PartitionKeepsOrder<T>(s: seq<T>, isDangling: T -> bool)
    ensures IsSubsequence(Partition(s, isDangling).0, s)
    ensures IsSubsequence(Partition(s, isDangling).1, s)
  {
    if s != [] {
      PartitionKeepsOrder(s[1..], isDangling);
    }
  }

  /** The loop of `filterOutDanglingChanges`. */
  method FilterOutDanglingChanges<T>(changes: seq<T>, isDangling: T -> bool) returns (setStateChanges: seq<T>, danglingChanges: seq<T>)
    ensures (setStateChanges, danglingChanges) == Partition(changes, isDangling)
  {
    setStateChanges, danglingChanges := [], [];
    var i := 0;
    assert changes[0..] == changes;
    assert setStateChanges + Partition(changes, isDangling).0 == Partition(changes, isDangling).0;
    assert danglingChanges + Partition(changes, isDangling).1 == Partition(changes, isDangling).1;
    while i < |changes|
      invariant 0 <= i <= |changes|
      invariant Partition(changes, isDangling) ==
        (setStateChanges + Partition(changes[i..], isDangling).0, danglingChanges + Partition(changes[i..], isDangling).1)
    {
      assert changes[i..][1..] == changes[i + 1..];
      ghost var rest := Partition(changes[i + 1..], isDangling);
      if isDangling(changes[i]) {
        assert danglingChanges + ([changes[i]] + rest.1) == danglingChanges + [changes[i]] + rest.1;
        danglingChanges := danglingChanges + [changes[i]];
      } else {
        assert setStateChanges + ([changes[i]] + rest.0) == setStateChanges + [changes[i]] + rest.0;
        setStateChanges := setStateChanges + [changes[i]];
      }
      i := i + 1;
    }
    assert changes[i..] == [];
    assert setStateChanges + [] == setStateChanges && danglingChanges + [] == danglingChanges;
  }
}
