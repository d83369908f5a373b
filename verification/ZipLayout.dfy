/** What an artifact export is (packages/dkrypt/src/artifactZip.ts): the checks on its entries and the layout of
    the archive. A file is the sequence of chunks its read stream delivers; it is read twice, unchanged. Names
    are their UTF-8 bytes. */
module ZipLayout {
  import opened Wrappers
  import opened Words
  import opened Crc32
  import opened ZipFormat

  datatype Entry = Entry(path: string, name: seq<Byte>, size: int)

  datatype ZipError =
    | BadCount
    | TooLarge
    | Unreadable
    | SizeChanged
    | BadFilename
    | DuplicateFilename
    | ArchiveTooLarge

  type Files = map<string, seq<seq<Byte>>>

  // ---------------------------------------------------------------- validation

  const UNDERSCORE: Byte := 0x5f

  predicate Separator(b: Byte) {
    b == 0x5c || b == 0x2f || b == 0
  }

  /** name.replace(/[\\/\0]/g, '_') on the encoded name. */
  function Sanitise(name: seq<Byte>): (clean: seq<Byte>)
    ensures |clean| == |name|
    ensures forall b | b in clean :: !Separator(b)
    ensures forall i | 0 <= i < |name| :: clean[i] == if Separator(name[i]) then UNDERSCORE else name[i]
  {
    if name == [] then []
    else [if Separator(name[0]) then UNDERSCORE else name[0]] + Sanitise(name[1..])
  }

  function EntryProblem(entry: Entry, files: Files, names: set<seq<Byte>>): Option<ZipError> {
    if entry.path !in files then Some(Unreadable)
    else if |Flatten(files[entry.path])| != entry.size then Some(SizeChanged)
    else if |entry.name| > 0xffff then Some(BadFilename)
    else if Sanitise(entry.name) in names then Some(DuplicateFilename)
    else None
  }

  /** The first entry that cannot be exported decides the error. */
  function FirstProblem(entries: seq<Entry>, files: Files, names: set<seq<Byte>>): Option<ZipError> {
    if entries == [] then None
    else match EntryProblem(entries[0], files, names)
      case Some(problem) => Some(problem)
      case None => FirstProblem(entries[1..], files, names + {Sanitise(entries[0].name)})
  }

  function Problem(entries: seq<Entry>, files: Files): Option<ZipError> {
    if |entries| == 0 || |entries| > 100 then Some(BadCount)
    else if exists e | e in entries :: e.size < 0 || e.size > MAX32 then Some(TooLarge)
    else FirstProblem(entries, files, {})
  }

  predicate Readable(entry: Entry, files: Files) {
    entry.path in files && |Flatten(files[entry.path])| == entry.size && |entry.name| <= 0xffff
  }

  predicate DistinctNames(entries: seq<Entry>) {
    forall i, j | 0 <= i < j < |entries| :: Sanitise(entries[i].name) != Sanitise(entries[j].name)
  }

  /** What an export needs, said without any order of checks. */
  predicate Exportable(entries: seq<Entry>, files: Files) {
    && 1 <= |entries| <= 100
    && (forall i | 0 <= i < |entries| :: 0 <= entries[i].size <= MAX32 && Readable(entries[i], files))
    && DistinctNames(entries)
  }

  lemma {:induction false} FirstProblemMeaning(entries: seq<Entry>, files: Files, names: set<seq<Byte>>)
    ensures FirstProblem(entries, files, names).None? <==>
            && (forall i | 0 <= i < |entries| :: Readable(entries[i], files) && Sanitise(entries[i].name) !in names)
            && DistinctNames(entries)
  {
    if entries == [] {
    } else {
      var first, rest := entries[0], entries[1..];
      assert forall i | 0 < i < |entries| :: entries[i] == rest[i - 1];
      FirstProblemMeaning(rest, files, names + {Sanitise(first.name)});
      DistinctSplit(entries);
    }
  }

  lemma DistinctSplit(entries: seq<Entry>)
    requires entries != []
    ensures DistinctNames(entries) <==>
            && DistinctNames(entries[1..])
            && forall i | 0 <= i < |entries[1..]| :: Sanitise(entries[1..][i].name) != Sanitise(entries[0].name)
  {
    var rest := entries[1..];
    assert forall i | 0 < i < |entries| :: entries[i] == rest[i - 1];
    if DistinctNames(entries) {
      forall i | 0 <= i < |rest|
        ensures Sanitise(rest[i].name) != Sanitise(entries[0].name)
      {
        assert rest[i] == entries[i + 1];
      }
      forall i, j | 0 <= i < j < |rest|
        ensures Sanitise(rest[i].name) != Sanitise(rest[j].name)
      {
        assert rest[i] == entries[i + 1] && rest[j] == entries[j + 1];
      }
    }
  }

  lemma ValidMeansExportable(entries: seq<Entry>, files: Files)
    ensures Problem(entries, files).None? <==> Exportable(entries, files)
  {
    FirstProblemMeaning(entries, files, {});
    assert forall i | 0 <= i < |entries| :: entries[i] in entries;
  }

  // ---------------------------------------------------------------- layout

  predicate Storable(m: Member) {
    |m.name| <= 0xffff && |m.data| <= MAX32
  }

  /** A local header and the contents after it. */
  function Local(m: Member): (b: seq<Byte>)
    requires Storable(m)
    ensures |b| == 30 + |m.name| + |m.data|
  {
    LocalHeader(m.name, ChecksumNumber(m.data), |m.data|) + m.data
  }

  predicate AllStorable(members: seq<Member>) {
    forall i | 0 <= i < |members| :: Storable(members[i])
  }

  function Joined(blocks: seq<seq<Byte>>): seq<Byte> {
    if blocks == [] then [] else Joined(blocks[..|blocks| - 1]) + blocks[|blocks| - 1]
  }

  function LocalBlocks(members: seq<Member>): (blocks: seq<seq<Byte>>)
    requires AllStorable(members)
    ensures |blocks| == |members|
  {
    if members == [] then []
    else LocalBlocks(members[..|members| - 1]) + [Local(members[|members| - 1])]
  }

  /** The size of the members with their headers. */
  function LocalsSize(members: seq<Member>): nat {
    if members == [] then 0
    else
      var m := members[|members| - 1];
      LocalsSize(members[..|members| - 1]) + 30 + |m.name| + |m.data|
  }

  lemma LocalsAreSized(members: seq<Member>)
    requires AllStorable(members)
    ensures |Joined(LocalBlocks(members))| == LocalsSize(members)
  {
    if members == [] {
    } else {
      var m, before := members[|members| - 1], members[..|members| - 1];
      LocalsAreSized(before);
      JoinedAppend(LocalBlocks(before), Local(m));
    }
  }

  function Locals(members: seq<Member>): (b: seq<Byte>)
    requires AllStorable(members)
    ensures |b| == LocalsSize(members)
  {
    LocalsAreSized(members);
    Joined(LocalBlocks(members))
  }

  predicate Fits(members: seq<Member>) {
    AllStorable(members) && LocalsSize(members) <= MAX32
  }

  /** The directory records; each points at where its member's region starts. */
  function CentralBlocks(members: seq<Member>): (blocks: seq<seq<Byte>>)
    requires Fits(members)
    ensures |blocks| == |members|
  {
    if members == [] then []
    else
      var m, before := members[|members| - 1], members[..|members| - 1];
      LocalsOneMore(members);
      CentralBlocks(before) + [CentralHeader(m.name, ChecksumNumber(m.data), |m.data|, |Locals(before)|)]
  }

  function Directory(members: seq<Member>): seq<Byte>
    requires Fits(members)
  {
    Joined(CentralBlocks(members))
  }

  lemma JoinedAppend(blocks: seq<seq<Byte>>, last: seq<Byte>)
    ensures Joined(blocks + [last]) == Joined(blocks) + last
  {
    assert (blocks + [last])[..|blocks|] == blocks;
  }

  lemma LocalsOneMore(members: seq<Member>)
    requires AllStorable(members) && members != []
    ensures var before := members[..|members| - 1];
            Locals(members) == Locals(before) + Local(members[|members| - 1])
  {
    JoinedAppend(LocalBlocks(members[..|members| - 1]), Local(members[|members| - 1]));
  }

  lemma {:induction false} DirectorySize(members: seq<Member>)
    requires Fits(members)
    ensures |Directory(members)| <= 65581 * |members|
  {
    if members == [] {
    } else {
      var m, before := members[|members| - 1], members[..|members| - 1];
      LocalsOneMore(members);
      JoinedAppend(CentralBlocks(before), CentralHeader(m.name, ChecksumNumber(m.data), |m.data|, |Locals(before)|));
      DirectorySize(before);
    }
  }

  function Archive(members: seq<Member>): (file: seq<Byte>)
    requires Fits(members) && |members| <= 100
    ensures |file| == |Locals(members)| + |Directory(members)| + 22
  {
    DirectorySize(members);
    Locals(members) + Directory(members) + EndRecord(|members|, |Directory(members)|, |Locals(members)|)
  }

  function MemberOf(entry: Entry, files: Files): Member
    requires entry.path in files
  {
    Member(Sanitise(entry.name), Flatten(files[entry.path]))
  }

  function MembersOf(entries: seq<Entry>, files: Files): (members: seq<Member>)
    requires forall i | 0 <= i < |entries| :: entries[i].path in files
    ensures |members| == |entries|
    ensures forall i | 0 <= i < |entries| :: members[i] == MemberOf(entries[i], files)
  {
    if entries == [] then []
    else MembersOf(entries[..|entries| - 1], files) + [MemberOf(entries[|entries| - 1], files)]
  }

  /** Whether the export ends normally: the input is valid and every offset fits 32 bits. */
  predicate Exports(entries: seq<Entry>, files: Files) {
    Exportable(entries, files) && Fits(MembersOf(entries, files))
  }

  lemma {:induction false} LocalsPrefix(members: seq<Member>, i: nat)
    requires i <= |members| && AllStorable(members)
    ensures |Locals(members[..i])| <= |Locals(members)|
    decreases |members|
  {
    if i == |members| {
      assert members[..i] == members;
    } else {
      var before := members[..|members| - 1];
      assert before[..i] == members[..i];
      LocalsPrefix(before, i);
      LocalsOneMore(members);
    }
  }

  lemma PrefixOneMore(members: seq<Member>, i: nat)
    requires i < |members| && AllStorable(members[..i]) && Storable(members[i])
    ensures var prefix := members[..i + 1];
            AllStorable(prefix) && prefix[..|prefix| - 1] == members[..i] && prefix[|prefix| - 1] == members[i]
    ensures Locals(members[..i + 1]) == Locals(members[..i]) + Local(members[i])
  {
    var prefix := members[..i + 1];
    forall j | 0 <= j < |prefix|
      ensures Storable(prefix[j])
    {
      assert j < i ==> prefix[j] == members[..i][j];
    }
    assert prefix[..|prefix| - 1] == members[..i];
    LocalsOneMore(prefix);
  }
}
