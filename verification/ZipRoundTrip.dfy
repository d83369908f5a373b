/** What the exporter writes, the reader reads back; and each offset it records leads to that
    entry's own header and contents. */
module ZipRoundTrip {
  import opened Wrappers
  import opened Words
  import opened Crc32
  import opened ZipFormat
  import opened ZipLayout
  import opened IpaReader

  /** The listing a reader should produce for one exported member. */
  function Listed(m: Member): FileEntry
    requires Storable(m)
  {
    FileEntry(m.name, |m.data|, |m.data|, ChecksumNumber(m.data))
  }

  function AllListed(members: seq<Member>): (r: seq<FileEntry>)
    requires AllStorable(members)
    ensures |r| == |members|
    ensures forall i | 0 <= i < |members| :: r[i] == Listed(members[i])
  {
    if members == [] then [] else [Listed(members[0])] + AllListed(members[1..])
  }

  /** Names an exporter produces: no separators left. */
  predicate Sanitised(members: seq<Member>) {
    forall i | 0 <= i < |members| :: forall b | b in members[i].name :: !Separator(b)
  }

  // ---------------------------------------------------------------- blocks laid end to end

  /** Block i sits between the lengths of what comes before it and what ends with it. */
  lemma {:induction false} JoinedRegion(blocks: seq<seq<Byte>>, i: nat)
    requires i < |blocks|
    ensures |Joined(blocks[..i + 1])| == |Joined(blocks[..i])| + |blocks[i]| <= |Joined(blocks)|
    ensures Joined(blocks)[|Joined(blocks[..i])|..|Joined(blocks[..i + 1])|] == blocks[i]
    decreases |blocks|
  {
    var before := blocks[..|blocks| - 1];
    assert blocks[..i + 1][..i] == blocks[..i];
    if i == |before| {
      assert blocks[..i + 1] == blocks;
    } else {
      assert before[..i] == blocks[..i] && before[..i + 1] == blocks[..i + 1];
      JoinedRegion(before, i);
    }
  }

  lemma ReadShifted(b: seq<Byte>, from: nat, h: seq<Byte>, at: nat)
    requires from + |h| <= |b| && b[from..from + |h|] == h
    ensures at + 2 <= |h| ==> Read16(b, from + at) == Read16(h, at)
    ensures at + 4 <= |h| ==> Read32(b, from + at) == Read32(h, at)
  {
  }

  // ---------------------------------------------------------------- the directory reads back

  /** A directory record that lists `entry` and records `start`. */
  predicate Records(block: seq<Byte>, entry: FileEntry, start: Full) {
    && IsCentral(block, entry.path, entry.crc32, entry.compressedSize, start)
    && entry.uncompressedSize == entry.compressedSize
    && !IsFolder(entry.path)
  }

  lemma RecordReads(directory: seq<Byte>, offset: nat, block: seq<Byte>, entry: FileEntry, start: Full)
    requires Records(block, entry, start)
    requires offset + |block| <= |directory| && directory[offset..offset + |block|] == block
    ensures RecordAt(directory, offset) == Success(Record(entry, offset + |block|)) && |block| >= 46
    ensures Read32(directory, offset + 42) == start
  {
  }

  lemma RecordParses(directory: seq<Byte>, offset: nat, count: nat, end: nat, entry: FileEntry)
    requires count > 0 && RecordAt(directory, offset) == Success(Record(entry, end)) && !IsFolder(entry.path)
    ensures ParseEntries(directory, offset, count) == Prepend([entry], ParseEntries(directory, end, count - 1))
  {
  }

  lemma {:induction false} DirectoryParses(blocks: seq<seq<Byte>>, entries: seq<FileEntry>, starts: seq<Full>, i: nat)
    requires |blocks| == |entries| == |starts| && i <= |blocks|
    requires forall k | 0 <= k < |blocks| :: Records(blocks[k], entries[k], starts[k])
    ensures ParseEntries(Joined(blocks), |Joined(blocks[..i])|, |blocks| - i) == Success(entries[i..])
    decreases |blocks| - i
  {
    hide RecordAt, IsCentral, Joined;
    if i >= |blocks| {
    } else {
      JoinedRegion(blocks, i);
      RecordReads(Joined(blocks), |Joined(blocks[..i])|, blocks[i], entries[i], starts[i]);
      RecordParses(Joined(blocks), |Joined(blocks[..i])|, |blocks| - i, |Joined(blocks[..i + 1])|, entries[i]);
      DirectoryParses(blocks, entries, starts, i + 1);
      assert [entries[i]] + entries[i + 1..] == entries[i..];
    }
  }

  // ---------------------------------------------------------------- locating the directory

  lemma EndRecordFound(front: seq<Byte>, end: seq<Byte>, count: Half, size: Full, offset: Full)
    requires IsEnd(end, count, size, offset)
    requires count <= 100 && size <= 100 * 65581 && size + offset == |front|
    ensures Locate(front + end) == if offset == MAX32 then Failure(Zip64) else Success((count, size, offset))
  {
    var file := front + end;
    var tail := Tail(file);
    assert tail[|tail| - 22..|tail| - 22 + |end|] == end;
    ReadShifted(tail, |tail| - 22, end, 0);
    ReadShifted(tail, |tail| - 22, end, 10);
    ReadShifted(tail, |tail| - 22, end, 12);
    ReadShifted(tail, |tail| - 22, end, 16);
  }

  /** None of the reader's limits can fire on an exported archive, except the ZIP64 marker, which
      fires exactly when the directory starts at offset 0xffffffff. */
  lemma ArchiveLocates(members: seq<Member>)
    requires Fits(members) && |members| <= 100
    ensures Locate(Archive(members)) ==
            if |Locals(members)| == MAX32 then Failure(Zip64)
            else Success((|members|, |Directory(members)|, |Locals(members)|))
  {
    DirectorySize(members);
    EndRecordFields(|members|, |Directory(members)|, |Locals(members)|);
    EndRecordFound(Locals(members) + Directory(members), EndRecord(|members|, |Directory(members)|, |Locals(members)|),
                   |members|, |Directory(members)|, |Locals(members)|);
  }

  // ---------------------------------------------------------------- the archive's blocks

  lemma {:induction false} LocalBlockAt(members: seq<Member>, i: nat)
    requires AllStorable(members) && i < |members|
    ensures LocalBlocks(members)[i] == Local(members[i])
    ensures AllStorable(members[..i]) && LocalBlocks(members)[..i] == LocalBlocks(members[..i])
    decreases |members|
  {
    hide Local;
    var before := members[..|members| - 1];
    if i >= |before| {
    } else {
      assert before[..i] == members[..i];
      LocalBlockAt(before, i);
    }
  }

  lemma {:induction false} CentralBlockAt(members: seq<Member>, i: nat)
    requires Fits(members) && i < |members|
    ensures Fits(members[..i])
    ensures CentralBlocks(members)[i]
         == CentralHeader(members[i].name, ChecksumNumber(members[i].data), |members[i].data|, |Locals(members[..i])|)
    decreases |members|
  {
    hide CentralHeader, Local, ChecksumNumber;
    var before := members[..|members| - 1];
    LocalsPrefix(members, i);
    LocalsPrefix(members, |before|);
    if i >= |before| {
    } else {
      assert before[..i] == members[..i];
      CentralBlockAt(before, i);
    }
  }

  /** Where member i's region starts. */
  function Start(members: seq<Member>, i: nat): Full
    requires Fits(members) && i <= |members|
  {
    LocalsPrefix(members, i);
    |Locals(members[..i])|
  }

  lemma BlockRecords(members: seq<Member>, i: nat)
    requires Fits(members) && Sanitised(members) && i < |members|
    ensures Records(CentralBlocks(members)[i], Listed(members[i]), Start(members, i))
  {
    hide IsCentral, CentralHeader, ChecksumNumber, Locals;
    var m := members[i];
    CentralBlockAt(members, i);
    CentralHeaderFields(m.name, ChecksumNumber(m.data), |m.data|, |Locals(members[..i])|);
    assert m.name != [] ==> m.name[|m.name| - 1] in m.name;
  }

  // ---------------------------------------------------------------- the file reads back

  lemma AllBlocksRecord(members: seq<Member>) returns (starts: seq<Full>)
    requires Fits(members) && Sanitised(members)
    ensures |starts| == |members|
    ensures forall k | 0 <= k < |members| :: Records(CentralBlocks(members)[k], AllListed(members)[k], starts[k])
  {
    hide Records, CentralBlocks, LocalBlocks, Locals, LocalsSize, Joined, Listed, Sanitised;
    starts := seq(|members|, i requires 0 <= i < |members| => Start(members, i));
    forall k | 0 <= k < |members|
      ensures Records(CentralBlocks(members)[k], AllListed(members)[k], starts[k])
    {
      BlockRecords(members, k);
    }
  }

  /** The directory alone reads as the entries listed. */
  lemma DirectoryReads(members: seq<Member>)
    requires Fits(members) && |members| <= 100 && Sanitised(members)
    ensures ParseEntries(Directory(members), 0, |members|) == Success(AllListed(members))
  {
    hide Records, ParseEntries, CentralBlocks, LocalBlocks, Locals, LocalsSize, Joined, Listed, Sanitised, AllStorable;
    var starts := AllBlocksRecord(members);
    var blocks, entries := CentralBlocks(members), AllListed(members);
    DirectoryParses(blocks, entries, starts, 0);
    assert entries[0..] == entries && blocks[..0] == [];
    NothingJoined();
  }

  lemma NothingJoined()
    ensures Joined([]) == []
  {
  }

  /** Reading back an archive yields every entry, its checksum and both sizes; or, when the directory
      starts at 0xffffffff, a refusal. */
  lemma ArchiveReadsBack(members: seq<Member>)
    requires Fits(members) && |members| <= 100 && Sanitised(members)
    ensures Listing(Archive(members)) ==
            if |Locals(members)| == MAX32 then Failure(Zip64) else Success(AllListed(members))
  {
    ArchiveLocates(members);
    DirectoryReads(members);
    DirectorySlice(members);
    hide Locate, ParseEntries, Directory, LocalsSize, Archive, AllListed;
  }

  lemma DirectorySlice(members: seq<Member>)
    requires Fits(members) && |members| <= 100
    ensures Archive(members)[..|Locals(members)|] == Locals(members)
    ensures Archive(members)[|Locals(members)|..|Locals(members)| + |Directory(members)|] == Directory(members)
  {
  }

  lemma MembersSanitised(entries: seq<Entry>, files: Files)
    requires forall i | 0 <= i < |entries| :: entries[i].path in files
    ensures Sanitised(MembersOf(entries, files))
  {
  }

  /** The round trip from the exporter's input: the reader accepts the export if and only if the
      central directory starts below 0xffffffff, and then lists exactly the entries. */
  lemma ExportReadsBack(entries: seq<Entry>, files: Files)
    requires Exports(entries, files)
    ensures var members := MembersOf(entries, files);
            && (Listing(Archive(members)).Success? <==> |Locals(members)| < MAX32)
            && (Listing(Archive(members)).Success? ==> Listing(Archive(members)).value == AllListed(members))
  {
    MembersSanitised(entries, files);
    ArchiveReadsBack(MembersOf(entries, files));
  }

  // ---------------------------------------------------------------- extraction by recorded offset

  /** An independent decoder for section 4.3.7: the member stored at an offset, if its header is
      sound and its checksum matches. */
  function ExtractAt(file: seq<Byte>, at: nat): Option<Member> {
    if at + 30 > |file| || Read32(file, at) != LOCAL_SIGNATURE || Read16(file, at + 8) != 0 then None
    else
      var nameEnd := at + 30 + Read16(file, at + 26);
      var dataStart := nameEnd + Read16(file, at + 28);
      var dataEnd := dataStart + Read32(file, at + 18);
      if dataEnd > |file| then None
      else
        var data := file[dataStart..dataEnd];
        if ChecksumNumber(data) != Read32(file, at + 14) || |data| != Read32(file, at + 22) then None
        else Some(Member(file[at + 30..nameEnd], data))
  }

  lemma LocalExtracts(file: seq<Byte>, at: nat, h: seq<Byte>, m: Member)
    requires |m.data| <= MAX32 && IsLocal(h, m.name, ChecksumNumber(m.data), |m.data|)
    requires at + |h| + |m.data| <= |file| && file[at..at + |h| + |m.data|] == h + m.data
    ensures ExtractAt(file, at) == Some(m)
  {
    hide ChecksumNumber;
    assert file[at..at + |h|] == file[at..at + |h| + |m.data|][..|h|] == h;
    ReadShifted(file, at, h, 0);
    ReadShifted(file, at, h, 8);
    ReadShifted(file, at, h, 14);
    ReadShifted(file, at, h, 18);
    ReadShifted(file, at, h, 22);
    ReadShifted(file, at, h, 26);
    ReadShifted(file, at, h, 28);
    assert file[at + 30..at + |h|] == file[at..at + |h|][30..] == m.name;
    assert file[at + |h|..at + |h| + |m.data|] == file[at..at + |h| + |m.data|][|h|..] == m.data;
  }

  /** Member i's region holds its header and contents, and ends where the next one starts. */
  lemma RegionBytes(members: seq<Member>, i: nat)
    requires Fits(members) && |members| <= 100 && i < |members|
    ensures Start(members, i + 1) == Start(members, i) + |Local(members[i])| <= |Locals(members)|
    ensures Archive(members)[Start(members, i)..Start(members, i + 1)] == Local(members[i])
  {
    hide Local, Archive, LocalBlocks, Joined;
    var blocks := LocalBlocks(members);
    LocalBlockAt(members, i);
    JoinedRegion(blocks, i);
    PrefixOneMore(members, i);
    LocalsPrefix(members, i);
    LocalsPrefix(members, i + 1);
    if i + 1 < |members| {
      LocalBlockAt(members, i + 1);
    } else {
      assert members[..i + 1] == members && blocks[..i + 1] == blocks;
    }
    DirectorySlice(members);
    SliceOfPrefix(Archive(members), |Locals(members)|, Start(members, i), Start(members, i + 1));
  }

  lemma SliceOfPrefix(file: seq<Byte>, n: nat, from: nat, to: nat)
    requires from <= to <= n <= |file|
    ensures file[..n][from..to] == file[from..to]
  {
  }

  lemma RegionExtracts(members: seq<Member>, i: nat)
    requires Fits(members) && |members| <= 100 && i < |members|
    ensures ExtractAt(Archive(members), Start(members, i)) == Some(members[i])
  {
    hide ExtractAt, IsLocal, LocalHeader, ChecksumNumber, Archive, Start;
    var m := members[i];
    RegionBytes(members, i);
    LocalHeaderFields(m.name, ChecksumNumber(m.data), |m.data|);
    LocalExtracts(Archive(members), Start(members, i), LocalHeader(m.name, ChecksumNumber(m.data), |m.data|), m);
  }

  lemma BlockOffset(blocks: seq<seq<Byte>>, i: nat, entry: FileEntry, start: Full)
    requires i < |blocks| && Records(blocks[i], entry, start)
    ensures var from := |Joined(blocks[..i])|;
            from + 46 <= |Joined(blocks)| && Read32(Joined(blocks), from + 42) == start
  {
    hide Records, RecordAt, Joined, Read32, Read16;
    JoinedRegion(blocks, i);
    RecordReads(Joined(blocks), |Joined(blocks[..i])|, blocks[i], entry, start);
  }

  lemma DirectoryOffset(members: seq<Member>, i: nat)
    requires Fits(members) && |members| <= 100 && Sanitised(members) && i < |members|
    ensures var from := |Joined(CentralBlocks(members)[..i])|;
            from + 46 <= |Directory(members)| && Read32(Directory(members), from + 42) == Start(members, i)
  {
    hide Records, Joined, CentralBlocks, LocalBlocks, Read32, Read16, Listed;
    BlockRecords(members, i);
    BlockOffset(CentralBlocks(members), i, Listed(members[i]), Start(members, i));
  }

  lemma RecordedOffset(members: seq<Member>, i: nat)
    requires Fits(members) && |members| <= 100 && Sanitised(members) && i < |members|
    ensures var record := |Locals(members)| + |Joined(CentralBlocks(members)[..i])|;
            record + 46 <= |Archive(members)| && Read32(Archive(members), record + 42) == Start(members, i)
  {
    hide CentralBlocks, Joined, LocalBlocks, Archive, Start, Read32, Read16;
    DirectoryOffset(members, i);
    DirectorySlice(members);
    ReadShifted(Archive(members), |Locals(members)|, Directory(members), |Joined(CentralBlocks(members)[..i])| + 42);
  }

  /** The offset in directory record i leads to entry i: its header, its name and its contents. The
      regions start at 0, follow each other without gaps and end where the directory starts. */
  lemma RecordedOffsetsLeadToEntries(members: seq<Member>, i: nat)
    requires Fits(members) && |members| <= 100 && Sanitised(members) && i < |members|
    ensures var file, record := Archive(members), |Locals(members)| + |Joined(CentralBlocks(members)[..i])|;
            && record + 46 <= |file|
            && Read32(file, record + 42) == Start(members, i)
            && ExtractAt(file, Read32(file, record + 42)) == Some(members[i])
    ensures Start(members, 0) == 0 && Start(members, |members|) == |Locals(members)|
    ensures Start(members, i + 1) == Start(members, i) + 30 + |members[i].name| + |members[i].data|
  {
    RegionExtracts(members, i);
    RegionBytes(members, i);
    RecordedOffset(members, i);
    hide *;
    assert Start(members, 0) == 0 && Start(members, |members|) == |Locals(members)| by {
      StartEnds(members);
    }
  }

  lemma StartEnds(members: seq<Member>)
    requires Fits(members)
    ensures Start(members, 0) == 0 && Start(members, |members|) == |Locals(members)|
  {
    assert members[..|members|] == members;
  }
}
