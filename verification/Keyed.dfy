/** Lists of records looked up by a key with Array.prototype.find, as every store here keeps them. */
module Keyed {

  /** Position of the first record with the given key, or the length when there is none. */
  function FirstIndex<T, K(==)>(s: seq<T>, key: T -> K, k: K): (i: nat)
    ensures i <= |s|
    ensures i < |s| ==> key(s[i]) == k
    ensures forall j | 0 <= j < i :: key(s[j]) != k
  {
    if s == [] then 0
    else if key(s[0]) == k then 0
    else
      var rest := FirstIndex(s[1..], key, k);
      assert forall j | 0 < j < rest + 1 :: s[j] == s[1..][j - 1];
      rest + 1
  }

  predicate Has<T, K(==)>(s: seq<T>, key: T -> K, k: K) {
    FirstIndex(s, key, k) < |s|
  }

  function Get<T, K(==)>(s: seq<T>, key: T -> K, k: K): (r: T)
    requires Has(s, key, k)
    ensures r in s && key(r) == k
  {
    s[FirstIndex(s, key, k)]
  }

  /** At most one record per key. */
  ghost predicate Unique<T, K>(s: seq<T>, key: T -> K) {
    forall i, j | 0 <= i < j < |s| :: key(s[i]) != key(s[j])
  }

  /** The newest n records: slice(-n), and splice(0, length - n). */
  function Newest<T>(s: seq<T>, n: nat): seq<T> {
    if |s| > n then s[|s| - n..] else s
  }

  lemma FirstIndexIs<T, K>(s: seq<T>, key: T -> K, k: K, i: nat)
    requires i < |s| && key(s[i]) == k
    requires forall j | 0 <= j < i :: key(s[j]) != k
    ensures FirstIndex(s, key, k) == i && Has(s, key, k) && Get(s, key, k) == s[i]
  {
  }

  lemma AbsentEverywhere<T, K>(s: seq<T>, key: T -> K, k: K)
    ensures Has(s, key, k) <==> exists j | 0 <= j < |s| :: key(s[j]) == k
  {
  }

  /** Replacing a record by one with the same key changes that lookup and no other. */
  lemma ReplaceKeeps<T, K>(s: seq<T>, key: T -> K, i: nat, x: T)
    requires i < |s| && key(x) == key(s[i]) && Unique(s, key)
    ensures Unique(s[i := x], key)
    ensures Has(s[i := x], key, key(x)) && Get(s[i := x], key, key(x)) == x
    ensures forall k | k != key(x) && Has(s, key, k) :: Has(s[i := x], key, k) && Get(s[i := x], key, k) == Get(s, key, k)
    ensures forall k | k != key(x) && Has(s[i := x], key, k) :: Has(s, key, k)
  {
    var t := s[i := x];
    FirstIndexIs(t, key, key(x), i);
    forall k | k != key(x)
      ensures Has(t, key, k) == Has(s, key, k)
      ensures Has(s, key, k) ==> Get(t, key, k) == Get(s, key, k)
    {
      var j := FirstIndex(s, key, k);
      if j < |s| {
        FirstIndexIs(t, key, k, j);
      } else {
        AbsentEverywhere(t, key, k);
      }
    }
  }

  /** Appending a record under a new key changes no other lookup. */
  lemma AppendKeeps<T, K>(s: seq<T>, key: T -> K, x: T)
    requires !Has(s, key, key(x)) && Unique(s, key)
    ensures Unique(s + [x], key)
    ensures Has(s + [x], key, key(x)) && Get(s + [x], key, key(x)) == x
    ensures forall k | Has(s, key, k) :: Has(s + [x], key, k) && Get(s + [x], key, k) == Get(s, key, k)
    ensures forall k | k != key(x) && Has(s + [x], key, k) :: Has(s, key, k)
  {
    var t := s + [x];
    FirstIndexIs(t, key, key(x), |s|);
    forall k | k != key(x)
      ensures Has(t, key, k) == Has(s, key, k)
      ensures Has(s, key, k) ==> Get(t, key, k) == Get(s, key, k)
    {
      var j := FirstIndex(s, key, k);
      if j < |s| {
        FirstIndexIs(t, key, k, j);
      } else {
        AbsentEverywhere(t, key, k);
      }
    }
  }

  /** Trimming old records keeps the keys apart, and the records that stay are found unchanged. */
  lemma NewestKeeps<T, K>(s: seq<T>, key: T -> K, n: nat)
    requires Unique(s, key)
    ensures Unique(Newest(s, n), key) && |Newest(s, n)| <= n
    ensures forall k | Has(Newest(s, n), key, k) :: Has(s, key, k) && Get(Newest(s, n), key, k) == Get(s, key, k)
  {
  }

  /** Array.prototype.findIndex with the length for "not found". */
  method Find<T, K(==)>(s: seq<T>, key: T -> K, k: K) returns (i: nat)
    ensures i == FirstIndex(s, key, k)
  {
    i := 0;
    while i < |s| && key(s[i]) != k
      invariant i <= |s|
      invariant forall j | 0 <= j < i :: key(s[j]) != k
    {
      i := i + 1;
    }
    if i < |s| {
      FirstIndexIs(s, key, k, i);
    }
  }
}
