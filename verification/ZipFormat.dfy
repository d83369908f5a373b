/** The records of a stored (uncompressed) ZIP archive, in the layout of PKWARE APPNOTE.TXT sections
    4.3.7, 4.3.12 and 4.3.16, with exactly the constants the artifact exporter writes. */
module ZipFormat {
  import opened Words
  import opened Crc32

  const LOCAL_SIGNATURE := 0x04034b50
  const CENTRAL_SIGNATURE := 0x02014b50
  const END_SIGNATURE := 0x06054b50
  const MAX32 := 0xffffffff

  type Half = n: nat | n < 0x1_0000
  type Full = n: nat | n < 0x1_0000_0000

  /** One stored file: its name bytes and its contents. */
  datatype Member = Member(name: seq<Byte>, data: seq<Byte>)

  function Le16(n: Half): (b: seq<Byte>)
    ensures |b| == 2
  {
    [n % 0x100, n / 0x100]
  }

  function Le32(n: Full): (b: seq<Byte>)
    ensures |b| == 4
  {
    Le16(n % 0x1_0000) + Le16(n / 0x1_0000)
  }

  function Read16(b: seq<Byte>, at: nat): Half
    requires at + 2 <= |b|
  {
    (b[at] as int) + 0x100 * (b[at + 1] as int)
  }

  function Read32(b: seq<Byte>, at: nat): Full
    requires at + 4 <= |b|
  {
    (Read16(b, at) as int) + 0x1_0000 * (Read16(b, at + 2) as int)
  }

  lemma ReadLe16(b: seq<Byte>, at: nat, n: Half)
    requires at + 2 <= |b| && b[at..at + 2] == Le16(n)
    ensures Read16(b, at) == n
  {
  }

  lemma ReadLe32(b: seq<Byte>, at: nat, n: Full)
    requires at + 4 <= |b| && b[at..at + 4] == Le32(n)
    ensures Read32(b, at) == n
  {
  }

  /** The checksum as the number that goes into the headers. */
  function ChecksumNumber(data: seq<Byte>): Full {
    ChecksumFits(data);
    NumberOf(Checksum(data))
  }

  lemma ChecksumFits(data: seq<Byte>)
    ensures NumberOf(Checksum(data)) < 0x1_0000_0000
  {
    NumberBound(Checksum(data));
    Pow2Of32();
  }

  function LocalHeader(name: seq<Byte>, checksum: Full, size: Full): (h: seq<Byte>)
    requires |name| < 0x1_0000
    ensures |h| == 30 + |name|
  {
    Le32(LOCAL_SIGNATURE) + Le16(20) + Le16(0x0800) + Le16(0) + Le32(0) + Le32(checksum) + Le32(size) + Le32(size)
    + Le16(|name|) + Le16(0) + name
  }

  function CentralHeader(name: seq<Byte>, checksum: Full, size: Full, offset: Full): (h: seq<Byte>)
    requires |name| < 0x1_0000
    ensures |h| == 46 + |name|
  {
    Le32(CENTRAL_SIGNATURE) + Le16(20) + Le16(20) + Le16(0x0800) + Le16(0) + Le32(0) + Le32(checksum) + Le32(size)
    + Le32(size) + Le16(|name|) + Le16(0) + Le16(0) + Le16(0) + Le16(0) + Le32(0) + Le32(offset) + name
  }

  function EndRecord(count: Half, directorySize: Full, directoryOffset: Full): (h: seq<Byte>)
    ensures |h| == 22
  {
    Le32(END_SIGNATURE) + Le16(0) + Le16(0) + Le16(count) + Le16(count) + Le32(directorySize) + Le32(directoryOffset)
    + Le16(0)
  }

  /** What a decoder finds at the APPNOTE offsets of a local header for a stored file. */
  predicate IsLocal(h: seq<Byte>, name: seq<Byte>, checksum: Full, size: Full) {
    && |h| == 30 + |name| && |name| <= 0xffff
    && Read32(h, 0) == LOCAL_SIGNATURE && Read16(h, 6) == 0x0800 && Read16(h, 8) == 0
    && Read32(h, 14) == checksum && Read32(h, 18) == size && Read32(h, 22) == size
    && Read16(h, 26) == |name| && Read16(h, 28) == 0 && h[30..] == name
  }

  predicate IsCentral(h: seq<Byte>, name: seq<Byte>, checksum: Full, size: Full, offset: Full) {
    && |h| == 46 + |name| && |name| <= 0xffff
    && Read32(h, 0) == CENTRAL_SIGNATURE && Read16(h, 8) == 0x0800 && Read16(h, 10) == 0
    && Read32(h, 16) == checksum && Read32(h, 20) == size && Read32(h, 24) == size
    && Read16(h, 28) == |name| && Read16(h, 30) == 0 && Read16(h, 32) == 0
    && Read32(h, 42) == offset && h[46..] == name
  }

  predicate IsEnd(h: seq<Byte>, count: Half, directorySize: Full, directoryOffset: Full) {
    && |h| == 22
    && Read32(h, 0) == END_SIGNATURE && Read16(h, 8) == count && Read16(h, 10) == count
    && Read32(h, 12) == directorySize && Read32(h, 16) == directoryOffset && Read16(h, 20) == 0
  }

  lemma LocalHeaderFields(name: seq<Byte>, checksum: Full, size: Full)
    requires |name| < 0x1_0000
    ensures IsLocal(LocalHeader(name, checksum, size), name, checksum, size)
  {
  }

  lemma CentralHeaderFields(name: seq<Byte>, checksum: Full, size: Full, offset: Full)
    requires |name| < 0x1_0000
    ensures IsCentral(CentralHeader(name, checksum, size, offset), name, checksum, size, offset)
  {
    var h := CentralHeader(name, checksum, size, offset);
    ReadLe32(h, 0, CENTRAL_SIGNATURE);
    ReadLe16(h, 8, 0x0800);
    ReadLe16(h, 10, 0);
    ReadLe32(h, 16, checksum);
    ReadLe32(h, 20, size);
    ReadLe32(h, 24, size);
    ReadLe16(h, 28, |name|);
    ReadLe16(h, 30, 0);
    ReadLe16(h, 32, 0);
    ReadLe32(h, 42, offset);
  }

  lemma EndRecordFields(count: Half, directorySize: Full, directoryOffset: Full)
    ensures IsEnd(EndRecord(count, directorySize, directoryOffset), count, directorySize, directoryOffset)
  {
  }
}
