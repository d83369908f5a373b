/** Array.prototype.sort: a stable sort by a comparison, written as insertion from the left. */
module StableSort {

  function Insert<T>(less: (T, T) -> bool, x: T, sorted: seq<T>): seq<T> {
    if sorted == [] then [x]
    else if less(x, sorted[0]) then [x] + sorted
    else [sorted[0]] + Insert(less, x, sorted[1..])
  }

  function Sort<T>(less: (T, T) -> bool, s: seq<T>): seq<T> {
    if s == [] then [] else Insert(less, s[|s| - 1], Sort(less, s[..|s| - 1]))
  }

  ghost predicate StrictWeakOrder<T(!new)>(less: (T, T) -> bool) {
    && (forall a, b :: less(a, b) ==> !less(b, a))
    && (forall a, b, c :: !less(b, a) && !less(c, b) ==> !less(c, a))
  }

  ghost predicate Ordered<T>(less: (T, T) -> bool, s: seq<T>) {
    forall i, j | 0 <= i < j < |s| :: !less(s[j], s[i])
  }

  lemma {:induction false} InsertKeeps<T>(less: (T, T) -> bool, x: T, sorted: seq<T>)
    ensures multiset(Insert(less, x, sorted)) == multiset(sorted) + multiset{x}
  {
    if sorted == [] || less(x, sorted[0]) {
    } else {
      InsertKeeps(less, x, sorted[1..]);
      assert sorted == [sorted[0]] + sorted[1..];
    }
  }

  lemma {:induction false} SortKeeps<T>(less: (T, T) -> bool, s: seq<T>)
    ensures multiset(Sort(less, s)) == multiset(s)
  {
    if s == [] {
    } else {
      SortKeeps(less, s[..|s| - 1]);
      InsertKeeps(less, s[|s| - 1], Sort(less, s[..|s| - 1]));
      assert s == s[..|s| - 1] + [s[|s| - 1]];
    }
  }

  lemma {:induction false} InsertOrdered<T(!new)>(less: (T, T) -> bool, x: T, sorted: seq<T>)
    requires StrictWeakOrder(less) && Ordered(less, sorted)
    ensures Ordered(less, Insert(less, x, sorted))
  {
    if sorted == [] {
    } else {
      var rest := sorted[1..];
      if less(x, sorted[0]) {
        forall j | 0 < j <= |sorted|
          ensures !less(([x] + sorted)[j], x)
        {
          assert j > 1 ==> !less(sorted[j - 1], sorted[0]);
        }
      } else {
        InsertOrdered(less, x, rest);
        InsertKeeps(less, x, rest);
        var t := Insert(less, x, rest);
        forall j | 0 <= j < |t|
          ensures !less(t[j], sorted[0])
        {
          assert t[j] in multiset(t);
          assert t[j] == x || t[j] in rest;
        }
      }
    }
  }

  lemma {:induction false} SortOrdered<T(!new)>(less: (T, T) -> bool, s: seq<T>)
    requires StrictWeakOrder(less)
    ensures Ordered(less, Sort(less, s))
  {
    if s == [] {
    } else {
      SortOrdered(less, s[..|s| - 1]);
      InsertOrdered(less, s[|s| - 1], Sort(less, s[..|s| - 1]));
    }
  }
}
