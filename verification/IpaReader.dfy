/** The central-directory reader (packages/dkrypt/src/ipaStructure.ts:24-68). It was written
    separately from the exporter and accepts any file, so every check and its order is kept.

    Names are raw bytes; whether flag bit 11 asks for UTF-8 or Latin-1 only changes their display. */
module IpaReader {
  import opened Wrappers
  import opened Words
  import opened ZipFormat
  import StableSort

  datatype FileEntry = FileEntry(path: seq<Byte>, compressedSize: Full, uncompressedSize: Full, crc32: Full)

  datatype ReadError =
    | TooSmall
    | NoDirectory
    | Zip64
    | BeyondLimits
    | InvalidEntry
    | TruncatedEntry

  const SLASH: Byte := 0x2f
  const MAX_DIRECTORY := 64 * 1024 * 1024

  /** The last place, not above `at`, where the end record's signature stands. */
  function LastEnd(tail: seq<Byte>, at: int): (r: Option<nat>)
    requires -1 <= at && at + 22 <= |tail|
    ensures r.Some? ==> r.value <= at && Read32(tail, r.value) == END_SIGNATURE
    ensures forall i | (if r.Some? then r.value + 1 else 0) <= i <= at :: Read32(tail, i) != END_SIGNATURE
    decreases at + 1
  {
    if at < 0 then None
    else if Read32(tail, at) == END_SIGNATURE then Some(at)
    else LastEnd(tail, at - 1)
  }

  /** One directory record and where the next one starts. */
  datatype Record = Record(entry: FileEntry, end: nat)

  function RecordAt(directory: seq<Byte>, offset: nat): (r: Result<Record, ReadError>)
    ensures r.Success? ==> offset < r.value.end <= |directory|
  {
    if offset + 46 > |directory| || Read32(directory, offset) != CENTRAL_SIGNATURE then Failure(InvalidEntry)
    else
      var nameEnd := offset + 46 + Read16(directory, offset + 28);
      var end := nameEnd + Read16(directory, offset + 30) + Read16(directory, offset + 32);
      if end > |directory| then Failure(TruncatedEntry)
      else Success(Record(FileEntry(directory[offset + 46..nameEnd], Read32(directory, offset + 20),
                                    Read32(directory, offset + 24), Read32(directory, offset + 16)), end))
  }

  predicate IsFolder(path: seq<Byte>) {
    path != [] && path[|path| - 1] == SLASH
  }

  function Prepend(entries: seq<FileEntry>, rest: Result<seq<FileEntry>, ReadError>): Result<seq<FileEntry>, ReadError> {
    match rest
    case Success(more) => Success(entries + more)
    case Failure(e) => Failure(e)
  }

  /** `count` directory records starting at `offset`; folders are left out. */
  function ParseEntries(directory: seq<Byte>, offset: nat, count: nat): Result<seq<FileEntry>, ReadError>
    decreases count
  {
    if count == 0 then Success([])
    else match RecordAt(directory, offset)
      case Failure(e) => Failure(e)
      case Success(Record(entry, end)) =>
        Prepend(if IsFolder(entry.path) then [] else [entry], ParseEntries(directory, end, count - 1))
  }

  /** Where the directory lies: its entry count, size and offset. */
  function Locate(file: seq<Byte>): (r: Result<(nat, nat, nat), ReadError>)
    ensures r.Success? ==> r.value.2 + r.value.1 <= |file|
  {
    if |file| < 22 then Failure(TooSmall)
    else
      var tail := Tail(file);
      match LastEnd(tail, |tail| - 22)
      case None => Failure(NoDirectory)
      case Some(end) =>
        var count, size, offset := Read16(tail, end + 10), Read32(tail, end + 12), Read32(tail, end + 16);
        if count == 0xffff || size == MAX32 || offset == MAX32 then Failure(Zip64)
        else if count > 100_000 || size > MAX_DIRECTORY || offset + size > |file| then Failure(BeyondLimits)
        else Success((count, size, offset))
  }

  /** The end record and the longest comment that may follow it. */
  function Tail(file: seq<Byte>): (tail: seq<Byte>)
    ensures |file| >= 22 ==> |tail| >= 22
  {
    if |file| < 22 + 0xffff then file else file[|file| - (22 + 0xffff)..]
  }

  /** What a file's directory lists, in directory order. */
  function Listing(file: seq<Byte>): Result<seq<FileEntry>, ReadError> {
    match Locate(file)
    case Failure(e) => Failure(e)
    case Success((count, size, offset)) =>
      ParseEntries(file[offset..offset + size], 0, count)
  }

  method ReadIpaStructure(file: seq<Byte>, pathBefore: (FileEntry, FileEntry) -> bool)
    returns (r: Result<seq<FileEntry>, ReadError>)
    ensures Listing(file).Failure? ==> r == Listing(file)
    ensures Listing(file).Success? ==> r == Success(StableSort.Sort(pathBefore, Listing(file).value))
  {
    hide Locate, ParseEntries, StableSort.Sort;
    var located := FindDirectory(file);
    match located {
      case Failure(e) =>
        r := Failure(e);
      case Success((entryCount, directorySize, directoryOffset)) =>
        var directory := file[directoryOffset..directoryOffset + directorySize];
        var entries := ReadEntries(directory, entryCount);
        assert entries == Listing(file);
        if entries.Failure? {
          return entries;
        }
        r := Success(StableSort.Sort(pathBefore, entries.value));
    }
  }

  method FindDirectory(file: seq<Byte>) returns (r: Result<(nat, nat, nat), ReadError>)
    ensures r == Locate(file)
  {
    var fileSize := |file|;
    if fileSize < 22 {
      return Failure(TooSmall);
    }
    var tail := ReadTail(file);
    var endOffset := FindEnd(tail);
    if endOffset < 0 {
      return Failure(NoDirectory);
    }
    var entryCount := Read16(tail, endOffset + 10);
    var directorySize := Read32(tail, endOffset + 12);
    var directoryOffset := Read32(tail, endOffset + 16);
    if entryCount == 0xffff || directorySize == MAX32 || directoryOffset == MAX32 {
      return Failure(Zip64);
    }
    if entryCount > 100_000 || directorySize > MAX_DIRECTORY || directoryOffset + directorySize > fileSize {
      return Failure(BeyondLimits);
    }
    r := Success((entryCount, directorySize, directoryOffset));
  }

  method ReadTail(file: seq<Byte>) returns (tail: seq<Byte>)
    ensures tail == Tail(file)
  {
    var tailSize := if |file| < 22 + 0xffff then |file| else 22 + 0xffff;
    var tailOffset := |file| - tailSize;
    tail := file[tailOffset..tailOffset + tailSize];
  }

  /** Scans backwards for the end record; -1 when there is none. */
  method FindEnd(tail: seq<Byte>) returns (endOffset: int)
    requires |tail| >= 22
    ensures endOffset == match LastEnd(tail, |tail| - 22) case Some(end) => end case None => -1
  {
    endOffset := -1;
    var index := |tail| - 22;
    while index >= 0
      invariant -1 <= index <= |tail| - 22 && endOffset == -1
      invariant LastEnd(tail, index) == LastEnd(tail, |tail| - 22)
    {
      if Read32(tail, index) == END_SIGNATURE {
        endOffset := index;
        break;
      }
      index := index - 1;
    }
  }

  method ReadEntries(directory: seq<Byte>, entryCount: nat) returns (r: Result<seq<FileEntry>, ReadError>)
    ensures r == ParseEntries(directory, 0, entryCount)
  {
    var entries: seq<FileEntry> := [];
    var offset: nat := 0;
    PrependNothing(ParseEntries(directory, 0, entryCount));
    for index := 0 to entryCount
      invariant Prepend(entries, ParseEntries(directory, offset, entryCount - index)) == ParseEntries(directory, 0, entryCount)
    {
      var record := ReadRecord(directory, offset);
      if record.Failure? {
        return Failure(record.error);
      }
      var entry, entryEnd := record.value.entry, record.value.end;
      PrependTwice(entries, entry, ParseEntries(directory, entryEnd, entryCount - index - 1));
      if !IsFolder(entry.path) {
        entries := entries + [entry];
      }
      offset := entryEnd;
    }
    assert entries + [] == entries;
    r := Success(entries);
  }

  method ReadRecord(directory: seq<Byte>, offset: nat) returns (r: Result<Record, ReadError>)
    ensures r == RecordAt(directory, offset)
  {
    if offset + 46 > |directory| || Read32(directory, offset) != CENTRAL_SIGNATURE {
      return Failure(InvalidEntry);
    }
    var crc32 := Read32(directory, offset + 16);
    var compressedSize := Read32(directory, offset + 20);
    var uncompressedSize := Read32(directory, offset + 24);
    var nameLength := Read16(directory, offset + 28);
    var extraLength := Read16(directory, offset + 30);
    var commentLength := Read16(directory, offset + 32);
    var entryEnd := offset + 46 + nameLength + extraLength + commentLength;
    if entryEnd > |directory| {
      return Failure(TruncatedEntry);
    }
    var fileName := directory[offset + 46..offset + 46 + nameLength];
    r := Success(Record(FileEntry(fileName, compressedSize, uncompressedSize, crc32), entryEnd));
  }

  lemma PrependNothing(rest: Result<seq<FileEntry>, ReadError>)
    ensures Prepend([], rest) == rest
  {
    if rest.Success? {
      assert [] + rest.value == rest.value;
    }
  }

  lemma PrependTwice(entries: seq<FileEntry>, entry: FileEntry, rest: Result<seq<FileEntry>, ReadError>)
    ensures Prepend(entries, Prepend([entry], rest)) == Prepend(entries + [entry], rest)
    ensures Prepend(entries, Prepend([], rest)) == Prepend(entries, rest)
  {
    if rest.Success? {
      assert entries + ([entry] + rest.value) == entries + [entry] + rest.value;
      assert [] + rest.value == rest.value;
    }
  }
}
