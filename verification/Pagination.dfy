/** Reading all pages of a list, and mapping in batches (packages/dkrypt/src/billingRevenue.ts:126-149). */
module Pagination {
  import opened Wrappers

  const MAX_PAGES: nat := 1000

  datatype Item = Item(id: string, body: int)

  datatype Page = Page(data: seq<Item>, hasMore: bool)

  datatype PageError = DidNotAdvance | TooManyPages

  /** A server: what it answers to a request for the items after the one with a given id, or for the first. */
  type Server = Option<string> -> Page

  function LastId(data: seq<Item>, before: Option<string>): Option<string> {
    if data == [] then before else Some(data[|data| - 1].id)
  }

  /** Where the n-th request starts. */
  function StartingAfter(server: Server, n: nat): Option<string> {
    if n == 0 then None else LastId(server(StartingAfter(server, n - 1)).data, StartingAfter(server, n - 1))
  }

  function PageAt(server: Server, n: nat): Page {
    server(StartingAfter(server, n))
  }

  function Concatenated(server: Server, n: nat): seq<Item> {
    if n == 0 then [] else Concatenated(server, n - 1) + PageAt(server, n - 1).data
  }

  /** Page n says there is more and shows where. */
  predicate Advances(server: Server, n: nat) {
    PageAt(server, n).hasMore && StartingAfter(server, n + 1) != StartingAfter(server, n)
  }

  /** How reading all pages can end: with the exact concatenation of the pages up to the first that is the last,
      within a thousand, or the error of the first page that leads nowhere, or of having read a thousand. */
  ghost predicate Outcome(server: Server, r: Result<seq<Item>, PageError>) {
    match r
    case Success(items) =>
      exists n :: 0 <= n < MAX_PAGES && !PageAt(server, n).hasMore && items == Concatenated(server, n + 1)
                  && forall m | 0 <= m < n :: Advances(server, m)
    case Failure(DidNotAdvance) =>
      exists n :: 0 <= n < MAX_PAGES && PageAt(server, n).hasMore && !Advances(server, n)
                  && forall m | 0 <= m < n :: Advances(server, m)
    case Failure(TooManyPages) => forall m | 0 <= m < MAX_PAGES :: Advances(server, m)
  }

  method ListAllPages(server: Server) returns (r: Result<seq<Item>, PageError>)
    ensures Outcome(server, r)
  {
    var items := [];
    var startingAfter: Option<string> := None;
    for n := 0 to MAX_PAGES
      invariant startingAfter == StartingAfter(server, n) && items == Concatenated(server, n)
      invariant forall m | 0 <= m < n :: Advances(server, m)
    {
      var page := server(startingAfter);
      items := items + page.data;
      assert page == PageAt(server, n) && items == Concatenated(server, n + 1);
      if !page.hasMore { return Success(items); }
      assert StartingAfter(server, n + 1) == LastId(page.data, startingAfter);
      if page.data == [] || Some(page.data[|page.data| - 1].id) == startingAfter {
        assert !Advances(server, n);
        return Failure(DidNotAdvance);
      }
      startingAfter := Some(page.data[|page.data| - 1].id);
    }
    r := Failure(TooManyPages);
  }

  // ---------------------------------------------------------------- a server that keeps its promises

  predicate DistinctIds(list: seq<Item>) {
    forall i, j | 0 <= i < j < |list| :: list[i].id != list[j].id
  }

  /** Position just after the item with the id, or the start. */
  function After(list: seq<Item>, id: Option<string>): (n: nat)
    ensures n <= |list|
  {
    if id.None? || list == [] then 0
    else if list[|list| - 1].id == id.value then |list|
    else After(list[..|list| - 1], id)
  }

  function Slice(list: seq<Item>, start: nat, size: nat): Page
    requires start <= |list|
  {
    if start + size < |list| then Page(list[start..start + size], true) else Page(list[start..], false)
  }

  /** It pages through one list, size items at a time. */
  ghost predicate Serves(server: Server, list: seq<Item>, size: nat) {
    forall after: Option<string> :: server(after) == Slice(list, After(list, after), size)
  }

  lemma {:induction false} AfterItem(list: seq<Item>, i: nat)
    requires DistinctIds(list) && i < |list|
    ensures After(list, Some(list[i].id)) == i + 1
    decreases |list|
  {
    if i >= |list| - 1 {
    } else {
      AfterItem(list[..|list| - 1], i);
    }
  }

  lemma {:induction false} PageStarts(server: Server, list: seq<Item>, size: nat, n: nat)
    requires Serves(server, list, size) && DistinctIds(list) && size > 0 && (n == 0 || n * size < |list|)
    ensures StartingAfter(server, n) == if n == 0 then None else Some(list[n * size - 1].id)
    ensures PageAt(server, n) == Slice(list, n * size, size)
    ensures Concatenated(server, n) == list[..n * size]
  {
    hide StartingAfter, PageAt, Concatenated, Serves;
    if n == 0 {
      assert StartingAfter(server, 0) == None && Concatenated(server, 0) == [] by { Beginning(server); }
      Answer(server, list, size, 0);
    } else {
      var m := n - 1;
      assert n * size == m * size + size;
      PageStarts(server, list, size, m);
      NextStart(server, list, size, m, m * size);
    }
  }

  lemma NextStart(server: Server, list: seq<Item>, size: nat, m: nat, start: nat)
    requires Serves(server, list, size) && DistinctIds(list) && size > 0 && start + size < |list|
    requires PageAt(server, m) == Slice(list, start, size) && Concatenated(server, m) == list[..start]
    ensures StartingAfter(server, m + 1) == Some(list[start + size - 1].id)
    ensures PageAt(server, m + 1) == Slice(list, start + size, size)
    ensures Concatenated(server, m + 1) == list[..start + size]
  {
    hide StartingAfter, PageAt, Concatenated, Serves;
    ConcatenatedNext(server, m);
    StartNext(server, m);
    assert list[..start + size] == list[..start] + list[start..start + size];
    AfterItem(list, start + size - 1);
    Answer(server, list, size, m + 1);
  }

  lemma Beginning(server: Server)
    ensures StartingAfter(server, 0) == None && Concatenated(server, 0) == []
  {
  }

  lemma StartNext(server: Server, n: nat)
    ensures StartingAfter(server, n + 1) == LastId(PageAt(server, n).data, StartingAfter(server, n))
  {
  }

  lemma Answer(server: Server, list: seq<Item>, size: nat, n: nat)
    requires Serves(server, list, size)
    ensures PageAt(server, n) == Slice(list, After(list, StartingAfter(server, n)), size)
  {
  }

  /** Page n of such a server: it has more exactly when items remain, leads on when it has, and ends the list when
      it has not. */
  lemma PageIs(server: Server, list: seq<Item>, size: nat, n: nat)
    requires Serves(server, list, size) && DistinctIds(list) && size > 0 && (n == 0 || n * size < |list|)
    ensures PageAt(server, n).hasMore <==> (n + 1) * size < |list|
    ensures Advances(server, n) <==> (n + 1) * size < |list|
    ensures |list| <= (n + 1) * size ==> Concatenated(server, n + 1) == list
  {
    hide Concatenated, StartingAfter, Serves;
    assert (n + 1) * size == n * size + size;
    PageStarts(server, list, size, n);
    if (n + 1) * size < |list| {
      PageStarts(server, list, size, n + 1);
      assert n > 0 ==> list[(n + 1) * size - 1].id != list[n * size - 1].id;
    } else {
      ConcatenatedNext(server, n);
      assert list == list[..n * size] + list[n * size..];
    }
  }

  lemma ConcatenatedNext(server: Server, n: nat)
    ensures Concatenated(server, n + 1) == Concatenated(server, n) + PageAt(server, n).data
  {
  }

  lemma {:induction false} ReadSoFar(server: Server, list: seq<Item>, size: nat, n: nat)
    requires Serves(server, list, size) && DistinctIds(list) && size > 0 && forall m | 0 <= m < n :: Advances(server, m)
    ensures n == 0 || n * size < |list|
  {
    hide Advances, Serves;
    if n == 0 {
    } else {
      ReadSoFar(server, list, size, n - 1);
      assert Advances(server, n - 1);
      PageIs(server, list, size, n - 1);
    }
  }

  /** From a server that pages through one list, the whole list is read exactly when it fits into a thousand
      pages; otherwise reading stops with an error. */
  lemma ServedListIsRead(server: Server, list: seq<Item>, size: nat, r: Result<seq<Item>, PageError>)
    requires Serves(server, list, size) && DistinctIds(list) && size > 0
    ensures Outcome(server, r) ==> r == if |list| <= MAX_PAGES * size then Success(list) else Failure(TooManyPages)
  {
    hide Advances, Serves, PageAt, Concatenated;
    if !Outcome(server, r) { return; }
    match r
    case Success(items) =>
      var n :| 0 <= n < MAX_PAGES && !PageAt(server, n).hasMore && items == Concatenated(server, n + 1)
               && forall m | 0 <= m < n :: Advances(server, m);
      ReadSoFar(server, list, size, n);
      PageIs(server, list, size, n);
      Times(n + 1, MAX_PAGES, size);
    case Failure(DidNotAdvance) =>
      var n :| 0 <= n < MAX_PAGES && PageAt(server, n).hasMore && !Advances(server, n)
               && forall m | 0 <= m < n :: Advances(server, m);
      ReadSoFar(server, list, size, n);
      PageIs(server, list, size, n);
    case Failure(TooManyPages) =>
      ReadSoFar(server, list, size, MAX_PAGES);
  }

  lemma Times(m: nat, n: nat, size: nat)
    requires m <= n
    ensures m * size <= n * size
  {
  }

  // ---------------------------------------------------------------- batches

  function Mapped<T, R>(values: seq<T>, f: T -> Option<R>): Option<seq<R>> {
    if values == [] then Some([])
    else
      var before, last := Mapped(values[..|values| - 1], f), f(values[|values| - 1]);
      if before.Some? && last.Some? then Some(before.value + [last.value]) else None
  }

  lemma {:induction false} MappedConcat<T, R>(a: seq<T>, b: seq<T>, f: T -> Option<R>)
    ensures Mapped(a + b, f) == if Mapped(a, f).Some? && Mapped(b, f).Some? then Some(Mapped(a, f).value + Mapped(b, f).value) else None
  {
    if b == [] {
      assert a + b == a;
      assert Mapped(a, f).Some? ==> Mapped(a, f).value + [] == Mapped(a, f).value;
    } else {
      assert (a + b)[..|a + b| - 1] == a + b[..|b| - 1];
      MappedConcat(a, b[..|b| - 1], f);
      if Mapped(a, f).Some? && Mapped(b, f).Some? {
        var x, y, z := Mapped(a, f).value, Mapped(b[..|b| - 1], f).value, f(b[|b| - 1]).value;
        assert (x + y) + [z] == x + (y + [z]);
      }
    }
  }

  /** Mapping in order maps each value when every operation succeeds, and fails when one does. */
  lemma {:induction false} MappedEach<T, R>(values: seq<T>, f: T -> Option<R>)
    requires forall v | v in values :: f(v).Some?
    ensures Mapped(values, f).Some? && |Mapped(values, f).value| == |values|
    ensures forall i | 0 <= i < |values| :: Some(Mapped(values, f).value[i]) == f(values[i])
  {
    if values == [] {
    } else {
      var before, last := values[..|values| - 1], values[|values| - 1];
      assert values == before + [last];
      assert last in values;
      MappedEach(before, f);
      assert forall i | 0 <= i < |before| :: before[i] == values[i];
    }
  }

  lemma {:induction false} MappedFails<T, R>(values: seq<T>, f: T -> Option<R>, i: nat)
    requires i < |values| && f(values[i]).None?
    ensures Mapped(values, f).None?
    decreases |values|
  {
    var before := values[..|values| - 1];
    if i >= |before| {
    } else {
      assert before[i] == values[i];
      MappedFails(before, f, i);
    }
  }

  /** mapWithConcurrency: batches of a given size, one after the other; None when an operation throws. */
  method MapWithConcurrency<T, R>(values: seq<T>, concurrency: nat, f: T -> Option<R>) returns (results: Option<seq<R>>)
    requires concurrency > 0
    ensures results == Mapped(values, f)
  {
    var done: seq<R> := [];
    var offset := 0;
    while offset < |values|
      invariant 0 <= offset <= |values| && Mapped(values[..offset], f) == Some(done)
    {
      var end := if offset + concurrency < |values| then offset + concurrency else |values|;
      var batch := values[offset..end];
      var mapped := MapBatch(batch, f);
      assert values[..end] == values[..offset] + batch;
      MappedConcat(values[..offset], batch, f);
      if mapped.None? {
        assert values == values[..end] + values[end..];
        MappedConcat(values[..end], values[end..], f);
        return None;
      }
      done := done + mapped.value;
      offset := end;
    }
    assert values[..|values|] == values;
    results := Some(done);
  }

  /** Promise.all over a batch. */
  method MapBatch<T, R>(batch: seq<T>, f: T -> Option<R>) returns (results: Option<seq<R>>)
    ensures results == Mapped(batch, f)
  {
    var done: seq<R> := [];
    var failed := false;
    for i := 0 to |batch|
      invariant Mapped(batch[..i], f) == if failed then None else Some(done)
    {
      assert batch[..i + 1][..i] == batch[..i];
      var r := f(batch[i]);
      if r.None? {
        failed := true;
      } else if !failed {
        done := done + [r.value];
      }
    }
    assert batch[..|batch|] == batch;
    results := if failed then None else Some(done);
  }
}
