/** Comparing two directory listings (packages/dkrypt/src/ipaStructure.ts:70-85), and what the
    comparison says about two exports that differ in one byte. */
module IpaDiff {
  import opened Words
  import opened CrcRegister
  import opened Crc32
  import opened ZipFormat
  import opened ZipLayout
  import opened IpaReader
  import opened ZipRoundTrip
  import opened Wrappers
  import StableSort

  datatype Change = Change(path: seq<Byte>, before: FileEntry, after: FileEntry)

  datatype Diff = Diff(added: seq<FileEntry>, removed: seq<FileEntry>, changed: seq<Change>, kept: nat)

  type Index = map<seq<Byte>, FileEntry>

  /** new Map(entries.map(...)): a later entry replaces an earlier one with the same path. */
  function ByPath(entries: seq<FileEntry>): Index {
    if entries == [] then map[]
    else ByPath(entries[..|entries| - 1])[entries[|entries| - 1].path := entries[|entries| - 1]]
  }

  predicate SameContents(a: FileEntry, b: FileEntry) {
    a.crc32 == b.crc32 && a.uncompressedSize == b.uncompressedSize && a.compressedSize == b.compressedSize
  }

  /** Entries whose path is not listed on the other side. */
  function Missing(entries: seq<FileEntry>, other: Index): seq<FileEntry> {
    if entries == [] then []
    else
      var e := entries[|entries| - 1];
      Missing(entries[..|entries| - 1], other) + if e.path in other then [] else [e]
  }

  function Changes(entries: seq<FileEntry>, previous: Index): seq<Change> {
    if entries == [] then []
    else
      var e := entries[|entries| - 1];
      Changes(entries[..|entries| - 1], previous)
      + if e.path in previous && !SameContents(previous[e.path], e) then [Change(e.path, previous[e.path], e)] else []
  }

  function Unchanged(entries: seq<FileEntry>, previous: Index): nat {
    if entries == [] then 0
    else
      var e := entries[|entries| - 1];
      Unchanged(entries[..|entries| - 1], previous)
      + if e.path in previous && SameContents(previous[e.path], e) then 1 else 0
  }

  function DiffOf(before: seq<FileEntry>, after: seq<FileEntry>): Diff {
    Diff(Missing(after, ByPath(before)), Missing(before, ByPath(after)),
         Changes(after, ByPath(before)), Unchanged(after, ByPath(before)))
  }

  method BuildIndex(entries: seq<FileEntry>) returns (index: Index)
    ensures index == ByPath(entries)
  {
    index := map[];
    for i := 0 to |entries|
      invariant index == ByPath(entries[..i])
    {
      assert entries[..i + 1][..i] == entries[..i];
      index := index[entries[i].path := entries[i]];
    }
    assert entries[..|entries|] == entries;
  }

  method CompareIpaStructures(before: seq<FileEntry>, after: seq<FileEntry>) returns (diff: Diff)
    ensures diff == DiffOf(before, after)
  {
    var beforeByPath := BuildIndex(before);
    var afterByPath := BuildIndex(after);
    var added: seq<FileEntry>, removed: seq<FileEntry>, changed: seq<Change>, kept := [], [], [], 0;
    for i := 0 to |after|
      invariant added == Missing(after[..i], beforeByPath)
      invariant changed == Changes(after[..i], beforeByPath)
      invariant kept == Unchanged(after[..i], beforeByPath)
    {
      assert after[..i + 1][..i] == after[..i];
      var entry := after[i];
      if entry.path !in beforeByPath {
        added := added + [entry];
      } else if !SameContents(beforeByPath[entry.path], entry) {
        changed := changed + [Change(entry.path, beforeByPath[entry.path], entry)];
      } else {
        kept := kept + 1;
      }
    }
    assert after[..|after|] == after;
    for i := 0 to |before|
      invariant removed == Missing(before[..i], afterByPath)
    {
      assert before[..i + 1][..i] == before[..i];
      if before[i].path !in afterByPath {
        removed := removed + [before[i]];
      }
    }
    assert before[..|before|] == before;
    diff := Diff(added, removed, changed, kept);
  }

  // ---------------------------------------------------------------- nothing is counted twice or lost

  predicate UniquePaths(entries: seq<FileEntry>) {
    forall i, j | 0 <= i < j < |entries| :: entries[i].path != entries[j].path
  }

  function Paths(entries: seq<FileEntry>): set<seq<Byte>> {
    set e | e in entries :: e.path
  }

  lemma {:induction false} ByPathMeaning(entries: seq<FileEntry>)
    ensures ByPath(entries).Keys == Paths(entries)
    ensures forall p | p in ByPath(entries) :: ByPath(entries)[p] in entries && ByPath(entries)[p].path == p
  {
    if entries == [] {
    } else {
      var before, last := entries[..|entries| - 1], entries[|entries| - 1];
      ByPathMeaning(before);
      assert entries == before + [last];
    }
  }

  lemma ByPathUnique(entries: seq<FileEntry>, e: FileEntry)
    requires UniquePaths(entries) && e in entries
    ensures e.path in ByPath(entries) && ByPath(entries)[e.path] == e
  {
  }

  lemma LastIsNew(entries: seq<FileEntry>)
    requires entries != [] && UniquePaths(entries)
    ensures var before, last := entries[..|entries| - 1], entries[|entries| - 1];
            && entries == before + [last] && UniquePaths(before)
            && (forall e | e in before :: e.path != last.path)
            && last.path !in Paths(before) && Paths(entries) == Paths(before) + {last.path}
  {
  }

  lemma {:induction false} PathCount(entries: seq<FileEntry>)
    requires UniquePaths(entries)
    ensures |Paths(entries)| == |entries|
  {
    if entries == [] {
    } else {
      var before, last := entries[..|entries| - 1], entries[|entries| - 1];
      LastIsNew(entries);
      PathCount(before);
    }
  }

  lemma OneMoreOutside<T>(a: set<T>, x: T, b: set<T>)
    requires x !in a
    ensures |a + {x} - b| == |a - b| + if x in b then 0 else 1
  {
    if x in b {
      assert a + {x} - b == a - b;
    } else {
      assert a + {x} - b == a - b + {x};
    }
  }

  lemma {:induction false} MissingCount(entries: seq<FileEntry>, other: Index)
    requires UniquePaths(entries)
    ensures |Missing(entries, other)| == |Paths(entries) - other.Keys|
  {
    if entries == [] {
    } else {
      var before, last := entries[..|entries| - 1], entries[|entries| - 1];
      LastIsNew(entries);
      MissingCount(before, other);
      OneMoreOutside(Paths(before), last.path, other.Keys);
    }
  }

  lemma {:induction false} AfterCount(after: seq<FileEntry>, previous: Index)
    ensures |Missing(after, previous)| + |Changes(after, previous)| + Unchanged(after, previous) == |after|
  {
    if after == [] {
    } else {
      AfterCount(after[..|after| - 1], previous);
    }
  }

  /** Every entry of either listing is accounted for exactly once. */
  lemma DiffConserves(before: seq<FileEntry>, after: seq<FileEntry>)
    requires UniquePaths(before) && UniquePaths(after)
    ensures var d := DiffOf(before, after);
            && |d.added| + |d.changed| + d.kept == |after|
            && |d.removed| + |d.changed| + d.kept == |before|
  {
    hide Paths, UniquePaths, ByPath;
    AfterCount(after, ByPath(before));
    ByPathMeaning(before);
    ByPathMeaning(after);
    PathCount(before);
    PathCount(after);
    MissingCount(after, ByPath(before));
    MissingCount(before, ByPath(after));
    SetDifference(Paths(before), Paths(after));
    SetDifference(Paths(after), Paths(before));
    assert Paths(before) * Paths(after) == Paths(after) * Paths(before);
  }

  lemma SetDifference<T>(a: set<T>, b: set<T>)
    ensures |a - b| == |a| - |a * b|
  {
  }

  // ---------------------------------------------------------------- one changed byte

  lemma CountTwice(s: seq<FileEntry>, i: nat, j: nat)
    requires i < j < |s| && s[i] == s[j]
    ensures multiset(s)[s[i]] >= 2
  {
    assert s == s[..j] + s[j..];
    assert s[i] in s[..j] && s[j] in s[j..];
  }

  lemma {:induction false} UniqueCount(s: seq<FileEntry>, e: FileEntry)
    requires UniquePaths(s)
    ensures multiset(s)[e] <= 1
  {
    if s == [] {
    } else {
      LastIsNew(s);
      UniqueCount(s[..|s| - 1], e);
    }
  }

  lemma PermutedUnique(s: seq<FileEntry>, t: seq<FileEntry>)
    requires multiset(s) == multiset(t) && UniquePaths(t)
    ensures UniquePaths(s)
  {
    forall i, j | 0 <= i < j < |s|
      ensures s[i].path != s[j].path
    {
      if s[i].path == s[j].path {
        assert s[i] in multiset(t) && s[j] in multiset(t);
        ByPathUnique(t, s[i]);
        ByPathUnique(t, s[j]);
        CountTwice(s, i, j);
        UniqueCount(t, s[i]);
      }
    }
  }

  lemma {:induction false} NoneMissing(entries: seq<FileEntry>, other: Index)
    requires forall e | e in entries :: e.path in other
    ensures Missing(entries, other) == []
  {
    if entries == [] {
    } else {
      NoneMissing(entries[..|entries| - 1], other);
    }
  }

  lemma {:induction false} NoChanges(entries: seq<FileEntry>, previous: Index)
    requires forall e | e in entries :: e.path in previous && SameContents(previous[e.path], e)
    ensures Changes(entries, previous) == []
  {
    if entries == [] {
    } else {
      NoChanges(entries[..|entries| - 1], previous);
    }
  }

  lemma {:induction false} OneChange(entries: seq<FileEntry>, previous: Index, x: FileEntry)
    requires UniquePaths(entries) && x in entries && x.path in previous && !SameContents(previous[x.path], x)
    requires forall e | e in entries && e != x :: e.path in previous && SameContents(previous[e.path], e)
    ensures Changes(entries, previous) == [Change(x.path, previous[x.path], x)]
  {
    var before, last := entries[..|entries| - 1], entries[|entries| - 1];
    assert entries == before + [last];
    if last == x {
      LastIsNew(entries);
      NoChanges(before, previous);
    } else {
      OneChange(before, previous, x);
    }
  }

  /** Two lists of members with the same distinct names, equal except for one byte of member k. */
  ghost predicate OneByteApart(a: seq<Member>, b: seq<Member>, k: nat) {
    && |a| == |b| && k < |a|
    && (forall i, j | 0 <= i < j < |a| :: a[i].name != a[j].name)
    && (forall i | 0 <= i < |a| && i != k :: a[i] == b[i])
    && a[k].name == b[k].name && DifferInOneByte(a[k].data, b[k].data)
  }

  lemma ListedUnique(members: seq<Member>)
    requires AllStorable(members) && forall i, j | 0 <= i < j < |members| :: members[i].name != members[j].name
    ensures UniquePaths(AllListed(members))
  {
  }

  lemma DifferentChecksumNumbers(a: seq<Byte>, b: seq<Byte>)
    requires DifferInOneByte(a, b)
    ensures ChecksumNumber(a) != ChecksumNumber(b)
  {
    SingleByteChangeDetected(a, b);
    BitsOfNumber(Checksum(a));
    BitsOfNumber(Checksum(b));
  }

  /** A permutation of a list with unique paths finds every entry under its path. */
  lemma PermutedIndex(entries: seq<FileEntry>, listed: seq<FileEntry>)
    requires multiset(entries) == multiset(listed) && UniquePaths(listed)
    ensures UniquePaths(entries) && |entries| == |listed|
    ensures forall e :: e in entries <==> e in listed
    ensures forall e | e in listed :: e.path in ByPath(entries) && ByPath(entries)[e.path] == e
  {
    hide ByPath;
    PermutedUnique(entries, listed);
    assert |entries| == |multiset(entries)| && |listed| == |multiset(listed)|;
    forall e
      ensures e in entries <==> e in listed
    {
      assert e in entries <==> e in multiset(entries);
      assert e in listed <==> e in multiset(listed);
    }
    forall e | e in listed
      ensures e.path in ByPath(entries) && ByPath(entries)[e.path] == e
    {
      ByPathUnique(entries, e);
    }
  }

  /** Listings that agree but for the contents of entry k, each in whatever order. */
  lemma OneEntryDiffers(s: seq<FileEntry>, t: seq<FileEntry>, k: nat, before: seq<FileEntry>, after: seq<FileEntry>)
    requires UniquePaths(s) && UniquePaths(t) && |s| == |t| && k < |s|
    requires forall i | 0 <= i < |s| && i != k :: s[i] == t[i]
    requires s[k].path == t[k].path && !SameContents(s[k], t[k])
    requires multiset(before) == multiset(s) && multiset(after) == multiset(t)
    ensures DiffOf(before, after) == Diff([], [], [Change(t[k].path, s[k], t[k])], |s| - 1)
  {
    hide ByPath, UniquePaths, Missing, Changes, Unchanged;
    PermutedIndex(before, s);
    PermutedIndex(after, t);
    var previous := ByPath(before);
    forall e | e in t
      ensures e.path in previous && (e != t[k] ==> SameContents(previous[e.path], e))
    {
      var i :| 0 <= i < |t| && t[i] == e;
      assert s[i] in s && s[i].path == e.path;
    }
    forall d | d in s
      ensures d.path in ByPath(after)
    {
      var i :| 0 <= i < |s| && s[i] == d;
      assert t[i] in t && t[i].path == d.path;
    }
    NoneMissing(after, previous);
    NoneMissing(before, ByPath(after));
    OneChange(after, previous, t[k]);
    AfterCount(after, previous);
  }

  /** Listings of the two exports, in whatever order the reader sorted them, differ in exactly the
      member whose byte changed. */
  lemma OneByteIsOneChange(a: seq<Member>, b: seq<Member>, k: nat, before: seq<FileEntry>, after: seq<FileEntry>)
    requires AllStorable(a) && AllStorable(b) && OneByteApart(a, b, k)
    requires multiset(before) == multiset(AllListed(a)) && multiset(after) == multiset(AllListed(b))
    ensures DiffOf(before, after) == Diff([], [], [Change(a[k].name, Listed(a[k]), Listed(b[k]))], |a| - 1)
  {
    hide ChecksumNumber, DiffOf;
    ListedUnique(a);
    ListedUnique(b);
    DifferentChecksumNumbers(a[k].data, b[k].data);
    OneEntryDiffers(AllListed(a), AllListed(b), k, before, after);
  }

  /** From bytes to report: export both, read both back, compare. */
  lemma SingleByteChangeReported(a: seq<Member>, b: seq<Member>, k: nat, pathBefore: (FileEntry, FileEntry) -> bool)
    requires Fits(a) && Fits(b) && |a| <= 100 && Sanitised(a) && Sanitised(b) && OneByteApart(a, b, k)
    requires LocalsSize(a) < MAX32 && LocalsSize(b) < MAX32
    ensures Listing(Archive(a)).Success? && Listing(Archive(b)).Success?
    ensures DiffOf(StableSort.Sort(pathBefore, Listing(Archive(a)).value), StableSort.Sort(pathBefore, Listing(Archive(b)).value))
         == Diff([], [], [Change(a[k].name, Listed(a[k]), Listed(b[k]))], |a| - 1)
  {
    hide Listing, Locals, DiffOf, StableSort.Sort, Listed;
    ArchiveReadsBack(a);
    ArchiveReadsBack(b);
    StableSort.SortKeeps(pathBefore, AllListed(a));
    StableSort.SortKeeps(pathBefore, AllListed(b));
    OneByteIsOneChange(a, b, k, StableSort.Sort(pathBefore, AllListed(a)), StableSort.Sort(pathBefore, AllListed(b)));
  }
}
