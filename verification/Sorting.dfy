/** The library sort; the order of entries with equal keys is not promised. */
module Sorting {

  ghost predicate SortedBy<T(!new)>(xs: seq<T>, key: T -> int) {
    forall i, j :: 0 <= i < j < |xs| ==> key(xs[i]) <= key(xs[j])
  }

  function Insert<T>(x: T, xs: seq<T>, key: T -> int): seq<T> {
    if xs == [] || key(x) <= key(xs[0]) then [x] + xs else [xs[0]] + Insert(x, xs[1..], key)
  }

  lemma {:induction false} InsertElements<T>(x: T, xs: seq<T>, key: T -> int)
    ensures multiset(Insert(x, xs, key)) == multiset(xs) + multiset{x}
  {
    if xs == [] || key(x) <= key(xs[0]) {
    } else {
      InsertElements(x, xs[1..], key);
      assert xs == [xs[0]] + xs[1..];
    }
  }

  lemma {:induction false} InsertSorts<T(!new)>(x: T, xs: seq<T>, key: T -> int)
    requires SortedBy(xs, key)
    ensures SortedBy(Insert(x, xs, key), key)
  {
    if xs == [] || key(x) <= key(xs[0]) {
    } else {
      var rest := Insert(x, xs[1..], key);
      InsertSorts(x, xs[1..], key);
      InsertElements(x, xs[1..], key);
      forall j | 0 <= j < |rest|
        ensures key(xs[0]) <= key(rest[j])
      {
        assert rest[j] in multiset(rest);
        assert rest[j] == x || rest[j] in xs[1..];
      }
    }
  }

  method Sort<T(!new)>(xs: seq<T>, key: T -> int) returns (r: seq<T>)
    ensures SortedBy(r, key) && multiset(r) == multiset(xs)
  {
    r := [];
    for i := 0 to |xs|
      invariant SortedBy(r, key) && multiset(r) == multiset(xs[..i])
    {
      InsertSorts(xs[i], r, key);
      InsertElements(xs[i], r, key);
      r := Insert(xs[i], r, key);
      assert xs[..i + 1] == xs[..i] + [xs[i]];
    }
    assert xs[..|xs|] == xs;
  }

  /** An element at two positions is counted twice. */
  lemma Twice<T>(xs: seq<T>, i: nat, j: nat)
    requires i < j < |xs| && xs[i] == xs[j]
    ensures multiset(xs)[xs[i]] >= 2
  {
    assert xs == xs[..i] + [xs[i]] + xs[i + 1..j] + [xs[j]] + xs[j + 1..];
  }
}
