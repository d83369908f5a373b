/** The artifact exporter (packages/dkrypt/src/artifactZip.ts): validation, in-place header buffers,
    and the stream that emits local headers, contents and the central directory. */
module ZipWriter {
  import opened Wrappers
  import opened Words
  import opened Crc32
  import opened ZipFormat
  import opened ZipLayout

  // ---------------------------------------------------------------- header buffers

  method WriteUInt16LE(buffer: array<Byte>, value: Half, at: nat)
    requires at + 2 <= buffer.Length
    modifies buffer
    ensures buffer[..at + 2] == old(buffer[..at]) + Le16(value)
    ensures forall i | at + 2 <= i < buffer.Length :: buffer[i] == old(buffer[i])
  {
    buffer[at] := value % 0x100;
    buffer[at + 1] := value / 0x100;
  }

  method WriteUInt32LE(buffer: array<Byte>, value: Full, at: nat)
    requires at + 4 <= buffer.Length
    modifies buffer
    ensures buffer[..at + 4] == old(buffer[..at]) + Le32(value)
    ensures forall i | at + 4 <= i < buffer.Length :: buffer[i] == old(buffer[i])
  {
    WriteUInt16LE(buffer, value % 0x1_0000, at);
    WriteUInt16LE(buffer, value / 0x1_0000, at + 2);
  }

  /** name.copy(buffer, at), where the name fills the rest of the buffer. */
  method CopyName(buffer: array<Byte>, name: seq<Byte>, at: nat)
    requires at + |name| == buffer.Length
    modifies buffer
    ensures buffer[..] == old(buffer[..at]) + name
  {
    for i := 0 to |name|
      invariant buffer[..at + i] == old(buffer[..at]) + name[..i]
    {
      buffer[at + i] := name[i];
    }
  }

  method BuildLocalHeader(name: seq<Byte>, checksum: Full, size: Full) returns (header: array<Byte>)
    requires |name| < 0x1_0000
    ensures fresh(header) && header[..] == LocalHeader(name, checksum, size)
  {
    header := new Byte[30 + |name|](_ => 0);
    WriteUInt32LE(header, LOCAL_SIGNATURE, 0);
    assert header[..4] == Le32(LOCAL_SIGNATURE);
    WriteUInt16LE(header, 20, 4);
    WriteUInt16LE(header, 0x0800, 6);
    WriteUInt16LE(header, 0, 8);
    WriteUInt32LE(header, 0, 10);
    WriteUInt32LE(header, checksum, 14);
    WriteUInt32LE(header, size, 18);
    WriteUInt32LE(header, size, 22);
    WriteUInt16LE(header, |name|, 26);
    WriteUInt16LE(header, 0, 28);
    CopyName(header, name, 30);
  }

  method BuildCentralHeader(name: seq<Byte>, checksum: Full, size: Full, offset: Full) returns (header: array<Byte>)
    requires |name| < 0x1_0000
    ensures fresh(header) && header[..] == CentralHeader(name, checksum, size, offset)
  {
    header := new Byte[46 + |name|](_ => 0);
    WriteUInt32LE(header, CENTRAL_SIGNATURE, 0);
    assert header[..4] == Le32(CENTRAL_SIGNATURE);
    WriteUInt16LE(header, 20, 4);
    WriteUInt16LE(header, 20, 6);
    WriteUInt16LE(header, 0x0800, 8);
    WriteUInt16LE(header, 0, 10);
    WriteUInt32LE(header, 0, 12);
    WriteUInt32LE(header, checksum, 16);
    WriteUInt32LE(header, size, 20);
    WriteUInt32LE(header, size, 24);
    WriteUInt16LE(header, |name|, 28);
    WriteUInt16LE(header, 0, 30);
    WriteUInt16LE(header, 0, 32);
    WriteUInt16LE(header, 0, 34);
    WriteUInt16LE(header, 0, 36);
    WriteUInt32LE(header, 0, 38);
    WriteUInt32LE(header, offset, 42);
    CopyName(header, name, 46);
  }

  method BuildEndRecord(count: Half, directorySize: Full, directoryOffset: Full) returns (end: array<Byte>)
    ensures fresh(end) && end[..] == EndRecord(count, directorySize, directoryOffset)
  {
    end := new Byte[22](_ => 0);
    WriteUInt32LE(end, END_SIGNATURE, 0);
    assert end[..4] == Le32(END_SIGNATURE);
    WriteUInt16LE(end, 0, 4);
    WriteUInt16LE(end, 0, 6);
    WriteUInt16LE(end, count, 8);
    WriteUInt16LE(end, count, 10);
    WriteUInt32LE(end, directorySize, 12);
    WriteUInt32LE(end, directoryOffset, 16);
    WriteUInt16LE(end, 0, 20);
    assert end[..] == end[..22];
  }

  // ---------------------------------------------------------------- validation

  method ValidateArtifactZipEntries(entries: seq<Entry>, files: Files) returns (problem: Option<ZipError>)
    ensures problem == Problem(entries, files)
  {
    if |entries| == 0 || |entries| > 100 {
      return Some(BadCount);
    }
    if exists e | e in entries :: e.size < 0 || e.size > MAX32 {
      return Some(TooLarge);
    }
    var names: set<seq<Byte>> := {};
    assert entries[0..] == entries;
    for i := 0 to |entries|
      invariant FirstProblem(entries[i..], files, names) == FirstProblem(entries, files, {})
    {
      var entry := entries[i];
      assert entries[i..][0] == entry && entries[i..][1..] == entries[i + 1..];
      if entry.path !in files {
        return Some(Unreadable);
      }
      if |Flatten(files[entry.path])| != entry.size {
        return Some(SizeChanged);
      }
      var name := Sanitise(entry.name);
      if |name| > 0xffff {
        return Some(BadFilename);
      }
      if name in names {
        return Some(DuplicateFilename);
      }
      names := names + {name};
    }
    problem := None;
  }

  // ---------------------------------------------------------------- the stream

  method StreamArtifactZip(entries: seq<Entry>, files: Files) returns (r: Result<seq<Byte>, ZipError>)
    ensures r.Success? <==> Exports(entries, files)
    ensures r.Success? ==> r.value == Archive(MembersOf(entries, files))
    ensures Problem(entries, files).Some? ==> r == Failure(Problem(entries, files).value)
    ensures r.Failure? && Problem(entries, files).None? ==> r.error == ArchiveTooLarge
  {
    hide Problem, Locals, CentralBlocks, Joined, EndRecord, MembersOf, DistinctNames, MemberOf;
    var problem := ValidateArtifactZipEntries(entries, files);
    ValidMeansExportable(entries, files);
    if problem.Some? {
      return Failure(problem.value);
    }
    var locals, centralRecords, complete := StreamLocals(entries, files);
    if !complete {
      return Failure(ArchiveTooLarge);
    }
    DirectorySize(MembersOf(entries, files));
    var ending := StreamEnding(|entries|, |locals|, centralRecords);
    r := Success(locals + ending);
    assert r.value == Archive(MembersOf(entries, files));
  }

  /** The directory, gathered from the kept records, and the end record. */
  method StreamEnding(count: Half, centralOffset: Full, centralRecords: seq<seq<Byte>>) returns (ending: seq<Byte>)
    requires |Joined(centralRecords)| <= MAX32
    ensures ending == Joined(centralRecords) + EndRecord(count, |Joined(centralRecords)|, centralOffset)
  {
    ending := [];
    var offset := centralOffset;
    for i := 0 to |centralRecords|
      invariant ending == Joined(centralRecords[..i]) && offset == centralOffset + |ending|
    {
      JoinedAppend(centralRecords[..i], centralRecords[i]);
      assert centralRecords[..i + 1] == centralRecords[..i] + [centralRecords[i]];
      ending := ending + centralRecords[i];
      offset := offset + |centralRecords[i]|;
    }
    assert centralRecords[..|centralRecords|] == centralRecords;
    var centralSize := offset - centralOffset;
    var end := BuildEndRecord(count, centralSize, centralOffset);
    ending := ending + end[..];
  }

  /** What has been sent after the entries of `members`, and the records kept for them. */
  ghost predicate Streamed(members: seq<Member>, out: seq<Byte>, centralRecords: seq<seq<Byte>>) {
    Fits(members) && out == Locals(members) && centralRecords == CentralBlocks(members)
  }

  /** The first loop of the stream; it stops when an offset would no longer fit. */
  method StreamLocals(entries: seq<Entry>, files: Files)
    returns (out: seq<Byte>, centralRecords: seq<seq<Byte>>, complete: bool)
    requires Exportable(entries, files)
    ensures complete <==> Fits(MembersOf(entries, files))
    ensures complete ==> Streamed(MembersOf(entries, files), out, centralRecords)
  {
    hide Local, CentralHeader, ChecksumNumber, Sanitise;
    ghost var members := MembersOf(entries, files);
    out, centralRecords := [], [];
    var offset := 0;
    for i := 0 to |entries|
      invariant Streamed(members[..i], out, centralRecords) && offset == |out|
    {
      var entry := entries[i];
      if offset + 30 + |entry.name| + entry.size > MAX32 {
        LimitReached(members, i);
        return out, centralRecords, false;
      }
      var region, central := StreamEntry(entry, files[entry.path], offset);
      StreamedOneMore(members, i, out, centralRecords);
      out := out + region;
      offset := offset + |region|;
      centralRecords := centralRecords + [central];
    }
    assert members[..|entries|] == members;
    complete := true;
  }

  lemma StreamedOneMore(members: seq<Member>, i: nat, out: seq<Byte>, centralRecords: seq<seq<Byte>>)
    requires i < |members| && Streamed(members[..i], out, centralRecords)
    requires Storable(members[i]) && |out| + 30 + |members[i].name| + |members[i].data| <= MAX32
    ensures var m := members[i];
            Streamed(members[..i + 1], out + Local(m),
                     centralRecords + [CentralHeader(m.name, ChecksumNumber(m.data), |m.data|, |out|)])
  {
    PrefixOneMore(members, i);
  }

  lemma LimitReached(members: seq<Member>, i: nat)
    requires i < |members| && AllStorable(members)
    requires |Locals(members[..i])| + 30 + |members[i].name| + |members[i].data| > MAX32
    ensures !Fits(members)
  {
    PrefixOneMore(members, i);
    LocalsPrefix(members, i + 1);
  }

  /** The part of the stream one entry contributes, and the record kept for the directory. */
  method StreamEntry(entry: Entry, chunks: seq<seq<Byte>>, start: nat) returns (region: seq<Byte>, central: seq<Byte>)
    requires |entry.name| <= 0xffff && |Flatten(chunks)| == entry.size && start + 30 + |entry.name| + entry.size <= MAX32
    ensures var m := Member(Sanitise(entry.name), Flatten(chunks));
            && region == Local(m)
            && central == CentralHeader(m.name, ChecksumNumber(m.data), |m.data|, start)
  {
    hide LocalHeader, CentralHeader, NumberOf, Checksum, Flatten, Sanitise;
    var name := Sanitise(entry.name);
    var word := FileChecksum(chunks);
    ChecksumFits(Flatten(chunks));
    var checksum := NumberOf(word);
    var header := BuildLocalHeader(name, checksum, entry.size);
    var contents := StreamFile(chunks);
    region := header[..] + contents;
    var offset := start + header.Length + |contents|;
    var record := BuildCentralHeader(name, checksum, entry.size, offset - entry.size - header.Length);
    central := record[..];
  }

  method StreamFile(chunks: seq<seq<Byte>>) returns (contents: seq<Byte>)
    ensures contents == Flatten(chunks)
  {
    contents := [];
    for i := 0 to |chunks|
      invariant contents == Flatten(chunks[..i])
    {
      FlattenAppend(chunks[..i], chunks[i]);
      assert chunks[..i + 1] == chunks[..i] + [chunks[i]];
      contents := contents + chunks[i];
    }
    assert chunks[..|chunks|] == chunks;
  }
}
