/** CRC-32 as the artifact ZIP writer computes it: a 256-entry table, one lookup per byte, over a
    file that arrives in chunks. Compared with RFC 1952, section 8: complement, divide the message
    polynomial by the generator of ISO 3309, complement. */
module Crc32 {
  import opened Words
  import opened CrcRegister

  /** 0xedb88320, byte by byte from the lowest; see PolynomialValue. */
  const POLYNOMIAL: Word := BitsOf(0x20, 8) + (BitsOf(0x83, 8) + (BitsOf(0xb8, 8) + BitsOf(0xed, 8)))

  function Checksum(bytes: seq<Byte>): Word {
    Xor(UpdateAll(POLYNOMIAL, Ones(32), bytes), Ones(32))
  }

  function Flatten(chunks: seq<seq<Byte>>): seq<Byte> {
    if chunks == [] then [] else chunks[0] + Flatten(chunks[1..])
  }

  /** The table of 256 words; it is never written again once it is built. */
  method BuildTable(poly: Word) returns (table: seq<Word>)
    ensures |table| == 256
    ensures forall i | 0 <= i < 256 :: table[i] == ShiftSteps(poly, BitsOf(i, 32), 8)
  {
    table := [];
    for index := 0 to 256
      invariant |table| == index
      invariant forall i | 0 <= i < index :: table[i] == ShiftSteps(poly, BitsOf(i, 32), 8)
    {
      var value: Word := BitsOf(index, 32);
      for bit := 0 to 8
        invariant ShiftSteps(poly, value, 8 - bit) == ShiftSteps(poly, BitsOf(index, 32), 8)
      {
        if value[0] {
          value := Xor(poly, value[1..] + [false]);
        } else {
          value := value[1..] + [false];
        }
      }
      table := table + [value];
    }
  }

  /** Absorbs one chunk of the stream, a table lookup per byte. */
  method AbsorbChunk(poly: Word, table: seq<Word>, register: Word, chunk: seq<Byte>) returns (checksum: Word)
    requires |table| == 256 && forall i | 0 <= i < 256 :: table[i] == ShiftSteps(poly, BitsOf(i, 32), 8)
    ensures checksum == UpdateAll(poly, register, chunk)
  {
    hide UpdateAll, Update, ShiftSteps, NumberOf, BitsOf, Xor;
    checksum := register;
    NothingRead(poly, register);
    assert chunk[..0] == [];
    for j := 0 to |chunk|
      invariant checksum == UpdateAll(poly, register, chunk[..j])
    {
      UpdateAllLast(poly, register, chunk[..j + 1]);
      assert chunk[..j + 1][..j] == chunk[..j];
      TableLookup(poly, checksum, chunk[j]);
      var index := NumberOf(Xor(checksum, BitsOf(chunk[j], 32))[..8]);
      checksum := Xor(table[index], checksum[8..] + Zeros(8));
    }
    assert chunk[..|chunk|] == chunk;
  }

  lemma UpdateAllLast(poly: Word, register: Word, bytes: seq<Byte>)
    requires bytes != []
    ensures UpdateAll(poly, register, bytes)
         == Update(poly, UpdateAll(poly, register, bytes[..|bytes| - 1]), bytes[|bytes| - 1])
  {
    UpdateAllAt(poly, register, bytes, |bytes| - 1);
  }

  lemma NothingRead(poly: Word, register: Word)
    ensures Flatten([]) == [] && UpdateAll(poly, register, []) == register
  {
  }

  /** The checksum depends on the bytes of the file and not on how the stream chunks them. */
  method FileChecksum(chunks: seq<seq<Byte>>) returns (checksum: Word)
    ensures checksum == Checksum(Flatten(chunks))
  {
    hide UpdateAll, Flatten, Update, ShiftSteps, NumberOf, BitsOf;
    var poly := POLYNOMIAL;
    var table := BuildTable(poly);
    checksum := Ones(32);
    NothingRead(poly, Ones(32));
    assert chunks[..0] == [];
    for i := 0 to |chunks|
      invariant checksum == UpdateAll(poly, Ones(32), Flatten(chunks[..i]))
    {
      checksum := AbsorbChunk(poly, table, checksum, chunks[i]);
      FlattenAppend(chunks[..i], chunks[i]);
      UpdateAllAppend(poly, Ones(32), Flatten(chunks[..i]), chunks[i]);
      assert chunks[..i + 1] == chunks[..i] + [chunks[i]];
    }
    assert chunks[..|chunks|] == chunks;
    checksum := Xor(checksum, Ones(32));
  }

  lemma {:induction false} FlattenAppend(chunks: seq<seq<Byte>>, last: seq<Byte>)
    ensures Flatten(chunks + [last]) == Flatten(chunks) + last
  {
    if chunks == [] {
      assert Flatten([last]) == last + Flatten([]);
    } else {
      assert (chunks + [last])[1..] == chunks[1..] + [last];
      FlattenAppend(chunks[1..], last);
    }
  }

  // ---------------------------------------------------------------- the reference

  /** ISO 3309's generator: x^32 + x^26 + x^23 + ... + x + 1. */
  const EXPONENTS: set<int> := {32, 26, 23, 22, 16, 12, 11, 10, 8, 7, 5, 4, 2, 1, 0}

  /** RFC 1952: complement the first 32 coefficients, multiply by x^32, divide, complement. */
  function ReferenceChecksum(poly: Word, bytes: seq<Byte>): (r: seq<bool>)
    ensures |r| == 32
  {
    Xor(Remainder(poly, Dividend(Ones(32), MessageBits(bytes))), Ones(32))
  }

  lemma PolynomialHalves()
    ensures forall i | 0 <= i < 8 :: BitsOf(0x20, 8)[i] <==> 31 - i in EXPONENTS
    ensures forall i | 0 <= i < 8 :: BitsOf(0x83, 8)[i] <==> 23 - i in EXPONENTS
  {
  }

  lemma PolynomialOtherHalves()
    ensures forall i | 0 <= i < 8 :: BitsOf(0xb8, 8)[i] <==> 15 - i in EXPONENTS
    ensures forall i | 0 <= i < 8 :: BitsOf(0xed, 8)[i] <==> 7 - i in EXPONENTS
  {
  }

  /** The source's constant is the reflected ISO 3309 generator without its leading term. */
  lemma PolynomialIsGenerator()
    ensures 32 in EXPONENTS
    ensures forall i | 0 <= i < 32 :: POLYNOMIAL[i] <==> 31 - i in EXPONENTS
  {
    PolynomialHalves();
    PolynomialOtherHalves();
  }

  function Doubled(x: nat, times: nat): nat {
    if times == 0 then x else 2 * Doubled(x, times - 1)
  }

  lemma {:induction false} NumberOfConcat(low: seq<bool>, high: seq<bool>)
    ensures NumberOf(low + high) == NumberOf(low) + Doubled(NumberOf(high), |low|)
  {
    if low == [] {
      assert low + high == high;
    } else {
      assert (low + high)[1..] == low[1..] + high;
      NumberOfConcat(low[1..], high);
    }
  }

  lemma DoubledEightTimes(x: nat)
    ensures Doubled(x, 8) == 256 * x
  {
    assert Doubled(x, 1) == 2 * x;
    assert Doubled(x, 2) == 4 * x;
    assert Doubled(x, 3) == 8 * x;
    assert Doubled(x, 4) == 16 * x;
    assert Doubled(x, 5) == 32 * x;
    assert Doubled(x, 6) == 64 * x;
    assert Doubled(x, 7) == 128 * x;
  }

  lemma ByteBelow(b: Byte, high: seq<bool>)
    ensures NumberOf(BitsOf(b, 8) + high) == b + 256 * NumberOf(high)
  {
    ByteBits(b);
    NumberOfConcat(BitsOf(b, 8), high);
    DoubledEightTimes(NumberOf(high));
  }

  lemma FourBytes(a: Byte, b: Byte, c: Byte, d: Byte)
    ensures NumberOf(BitsOf(a, 8) + (BitsOf(b, 8) + (BitsOf(c, 8) + BitsOf(d, 8)))) == a + 0x100 * b + 0x1_0000 * c + 0x100_0000 * d
  {
    ByteBits(d);
    ByteBelow(c, BitsOf(d, 8));
    ByteBelow(b, BitsOf(c, 8) + BitsOf(d, 8));
    ByteBelow(a, BitsOf(b, 8) + (BitsOf(c, 8) + BitsOf(d, 8)));
  }

  lemma PolynomialValue()
    ensures NumberOf(POLYNOMIAL) == 0xedb88320
  {
    FourBytes(0x20, 0x83, 0xb8, 0xed);
  }

  /** The table-driven checksum is the remainder of the message polynomial, for every file. */
  lemma ChecksumIsPolynomialRemainder(bytes: seq<Byte>)
    ensures Checksum(bytes) == ReferenceChecksum(POLYNOMIAL, bytes)
  {
    UpdateAllFeeds(POLYNOMIAL, Ones(32), bytes);
    RegisterIsRemainder(POLYNOMIAL, Ones(32), MessageBits(bytes));
  }

  /** Changing a single byte always changes the checksum. */
  lemma SingleByteChangeDetected(a: seq<Byte>, b: seq<Byte>)
    requires DifferInOneByte(a, b)
    ensures Checksum(a) != Checksum(b)
  {
    PolynomialIsGenerator();
    SingleByteChange(POLYNOMIAL, Ones(32), a, b);
    XorTwice(UpdateAll(POLYNOMIAL, Ones(32), a), Ones(32));
    XorTwice(UpdateAll(POLYNOMIAL, Ones(32), b), Ones(32));
  }
}
