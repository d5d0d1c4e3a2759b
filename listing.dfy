/**
 * `SELECT … WHERE … ORDER BY key`: the rows of a table that satisfy a
 * condition, scanned in primary-key order and then ordered by a key.
 * MySQL leaves the order of equal keys open; the model keeps them in
 * primary-key order, and the contracts promise only what MySQL does.
 */
module Listing {

  predicate Increasing(ids: seq<nat>) {
    forall i, j :: 0 <= i < j < |ids| ==> ids[i] < ids[j]
  }

  /** Ascending by `key`. */
  predicate SortedBy(ids: seq<nat>, key: nat -> int) {
    forall i, j :: 0 <= i < j < |ids| ==> key(ids[i]) <= key(ids[j])
  }

  /** The keys of `m` whose rows satisfy `p`, in ascending order. */
  method SelectIds<T>(m: map<nat, T>, bound: nat, p: T -> bool) returns (ids: seq<nat>)
    requires forall k :: k in m ==> k < bound
    ensures Increasing(ids)
    ensures forall k :: k in ids <==> k in m && p(m[k])
  {
    ids := [];
    var k := 0;
    while k < bound
      invariant k <= bound
      invariant Increasing(ids)
      invariant forall i :: 0 <= i < |ids| ==> ids[i] < k
      invariant forall x :: x in ids <==> x < k && x in m && p(m[x])
    {
      if k in m && p(m[k]) {
        ids := ids + [k];
      }
      k := k + 1;
    }
  }

  /** `x` placed before the first element whose key is not smaller. */
  function Insert(x: nat, s: seq<nat>, key: nat -> int): seq<nat> {
    if s == [] then [x]
    else if key(x) <= key(s[0]) then [x] + s
    else [s[0]] + Insert(x, s[1..], key)
  }

  /** Insertion sort by `key`; equal keys keep their relative order. */
  function SortBy(s: seq<nat>, key: nat -> int): seq<nat> {
    if s == [] then [] else Insert(s[0], SortBy(s[1..], key), key)
  }

  lemma {:induction false} InsertMembers(x: nat, s: seq<nat>, key: nat -> int)
    ensures forall y :: y in Insert(x, s, key) <==> y == x || y in s
  {
    if s != [] && key(x) > key(s[0]) {
      InsertMembers(x, s[1..], key);
      assert s == [s[0]] + s[1..];
    }
  }

  lemma {:induction false} InsertSorted(x: nat, s: seq<nat>, key: nat -> int)
    requires SortedBy(s, key)
    ensures SortedBy(Insert(x, s, key), key)
  {
    if s != [] && key(x) > key(s[0]) {
      InsertSorted(x, s[1..], key);
      InsertMembers(x, s[1..], key);
      var r := Insert(x, s[1..], key);
      forall j | 0 <= j < |r|
        ensures key(s[0]) <= key(r[j])
      {
        assert r[j] in r;
        if r[j] != x {
          var k :| 0 <= k < |s[1..]| && s[1..][k] == r[j];
          assert s[k + 1] == r[j];
        }
      }
      assert Insert(x, s, key) == [s[0]] + r;
    }
  }

  lemma {:induction false} InsertDistinct(x: nat, s: seq<nat>, key: nat -> int)
    requires Distinct(s) && x !in s
    ensures Distinct(Insert(x, s, key))
  {
    if s != [] && key(x) > key(s[0]) {
      InsertDistinct(x, s[1..], key);
      InsertMembers(x, s[1..], key);
      var r := Insert(x, s[1..], key);
      assert s[0] !in s[1..];
      assert s[0] !in r;
      assert Insert(x, s, key) == [s[0]] + r;
    }
  }

  /** The sorted sequence is ordered by the key and holds the same ids. */
  lemma {:induction false} SortByCorrect(s: seq<nat>, key: nat -> int)
    ensures SortedBy(SortBy(s, key), key)
    ensures forall y :: y in SortBy(s, key) <==> y in s
  {
    if s != [] {
      SortByCorrect(s[1..], key);
      InsertSorted(s[0], SortBy(s[1..], key), key);
      InsertMembers(s[0], SortBy(s[1..], key), key);
      assert s == [s[0]] + s[1..];
    }
  }

  /** Sorting a duplicate-free sequence leaves it duplicate-free. */
  lemma {:induction false} SortByDistinct(s: seq<nat>, key: nat -> int)
    requires Distinct(s)
    ensures Distinct(SortBy(s, key))
  {
    if s != [] {
      SortByDistinct(s[1..], key);
      SortByCorrect(s[1..], key);
      assert s[0] !in s[1..];
      InsertDistinct(s[0], SortBy(s[1..], key), key);
    }
  }

  predicate Distinct(s: seq<nat>) {
    forall i, j :: 0 <= i < j < |s| ==> s[i] != s[j]
  }

  /**
   * `WHERE p ORDER BY key`: exactly the matching keys, each once, ordered
   * by the key.
   */
  method SelectOrdered<T>(m: map<nat, T>, bound: nat, p: T -> bool, key: nat -> int) returns (ids: seq<nat>)
    requires forall k :: k in m ==> k < bound
    ensures forall k :: k in ids <==> k in m && p(m[k])
    ensures Distinct(ids)
    ensures SortedBy(ids, key)
  {
    var found := SelectIds(m, bound, p);
    ids := SortBy(found, key);
    SortByCorrect(found, key);
    SortByDistinct(found, key);
  }
}
