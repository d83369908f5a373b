/** The shift register behind a reflected CRC-32, for any polynomial, and the long division of
    polynomials over GF(2) that it implements.

    Register bit 0 is the highest degree. `poly` holds the generator's coefficients below x^32. */
module CrcRegister {
  import opened Words

  function ShiftRight(v: Word): Word {
    v[1..] + [false]
  }

  /** One round of the loop that fills the lookup table. */
  function ShiftStep(poly: Word, v: Word): Word {
    if v[0] then Xor(poly, ShiftRight(v)) else ShiftRight(v)
  }

  function ShiftSteps(poly: Word, v: Word, n: nat): Word
    decreases n
  {
    if n == 0 then v else ShiftSteps(poly, ShiftStep(poly, v), n - 1)
  }

  /** The register after one more byte. */
  function Update(poly: Word, register: Word, b: Byte): Word {
    ShiftSteps(poly, Xor(register, BitsOf(b, 32)), 8)
  }

  function UpdateAll(poly: Word, register: Word, bytes: seq<Byte>): Word
    decreases |bytes|
  {
    if bytes == [] then register else UpdateAll(poly, Update(poly, register, bytes[0]), bytes[1..])
  }

  lemma {:induction false} UpdateAllAppend(poly: Word, register: Word, a: seq<Byte>, b: seq<Byte>)
    ensures UpdateAll(poly, register, a + b) == UpdateAll(poly, UpdateAll(poly, register, a), b)
    decreases |a|
  {
    if a == [] {
      assert a + b == b;
    } else {
      assert (a + b)[1..] == a[1..] + b;
      UpdateAllAppend(poly, Update(poly, register, a[0]), a[1..], b);
    }
  }

  // ---------------------------------------------------------------- one lookup per byte

  lemma ShiftStepLinear(poly: Word, x: Word, y: Word)
    ensures ShiftStep(poly, Xor(x, y)) == Xor(ShiftStep(poly, x), ShiftStep(poly, y))
  {
  }

  lemma {:induction false} ShiftStepsLinear(poly: Word, x: Word, y: Word, n: nat)
    ensures ShiftSteps(poly, Xor(x, y), n) == Xor(ShiftSteps(poly, x, n), ShiftSteps(poly, y, n))
    decreases n
  {
    if n == 0 {
    } else {
      ShiftStepLinear(poly, x, y);
      ShiftStepsLinear(poly, ShiftStep(poly, x), ShiftStep(poly, y), n - 1);
    }
  }

  /** Bits that are not reached yet only move down. */
  lemma {:induction false} HighBitsShift(poly: Word, v: Word, n: nat)
    requires n <= 32 && forall i | 0 <= i < n :: !v[i]
    ensures ShiftSteps(poly, v, n) == v[n..] + Zeros(n)
    decreases n
  {
    if n == 0 {
    } else {
      HighBitsShift(poly, ShiftStep(poly, v), n - 1);
    }
  }

  /** Splitting a word: the upper bits pass through eight steps unchanged. */
  lemma EightSteps(poly: Word, x: Word)
    ensures ShiftSteps(poly, x, 8) == Xor(ShiftSteps(poly, x[..8] + Zeros(24), 8), x[8..] + Zeros(8))
  {
    var low: Word, high: Word := x[..8] + Zeros(24), Zeros(8) + x[8..];
    assert x == Xor(low, high);
    ShiftStepsLinear(poly, low, high, 8);
    HighBitsShift(poly, high, 8);
    assert high[8..] == x[8..];
  }

  lemma LowByte(x: Word)
    ensures NumberOf(x[..8]) < 256
    ensures BitsOf(NumberOf(x[..8]), 32) == x[..8] + Zeros(24)
  {
    ByteBits(0);
    NumberBound(x[..8]);
    BitsOfNumber(x[..8]);
    ByteBits(NumberOf(x[..8]));
  }

  /** One table lookup stands for eight bit steps. */
  lemma TableLookup(poly: Word, register: Word, b: Byte)
    ensures var index := NumberOf(Xor(register, BitsOf(b, 32))[..8]);
            && index < 256
            && Update(poly, register, b) == Xor(ShiftSteps(poly, BitsOf(index, 32), 8), register[8..] + Zeros(8))
  {
    hide ShiftSteps, BitsOf, NumberOf;
    var x: Word := Xor(register, BitsOf(b, 32));
    LowByte(x);
    EightSteps(poly, x);
    ByteBits(b);
    assert x[8..] == register[8..];
  }

  lemma ByteBits(b: Byte)
    ensures BitsOf(b, 32) == BitsOf(b, 8) + Zeros(24)
    ensures Pow2(8) == 256
    ensures NumberOf(BitsOf(b, 8)) == b
  {
    assert Pow2(8) == 256;
    BitsOfWider(b, 8, 32);
    NumberOfBits(b, 8);
  }

  // ---------------------------------------------------------------- polynomial division

  /** Schoolbook long division, coefficients from the highest degree down: subtract the generator
      x^32 + poly whenever the leading coefficient is one. */
  function Remainder(poly: Word, p: seq<bool>): (r: seq<bool>)
    requires |p| >= 32
    ensures |r| == 32
    decreases |p|
  {
    if |p| == 32 then p
    else Remainder(poly, (if p[0] then Xor(p[1..33], poly) else p[1..33]) + p[33..])
  }

  /** The message polynomial: bytes in order, each byte's lowest bit at the higher degree. */
  function MessageBits(bytes: seq<Byte>): (bits: seq<bool>)
    ensures |bits| == 8 * |bytes|
  {
    if bytes == [] then [] else BitsOf(bytes[0], 8) + MessageBits(bytes[1..])
  }

  /** The register after one message bit. */
  function Feed(poly: Word, register: Word, bit: bool): Word {
    ShiftStep(poly, register[0 := register[0] != bit])
  }

  function FeedAll(poly: Word, register: Word, bits: seq<bool>): Word
    decreases |bits|
  {
    if bits == [] then register else FeedAll(poly, Feed(poly, register, bits[0]), bits[1..])
  }

  lemma {:induction false} FeedAllAppend(poly: Word, register: Word, a: seq<bool>, b: seq<bool>)
    ensures FeedAll(poly, register, a + b) == FeedAll(poly, FeedAll(poly, register, a), b)
    decreases |a|
  {
    if a == [] {
      assert a + b == b;
    } else {
      assert (a + b)[1..] == a[1..] + b;
      FeedAllAppend(poly, Feed(poly, register, a[0]), a[1..], b);
    }
  }

  /** Xoring bits in ahead of time and shifting equals feeding them one at a time. */
  lemma {:induction false} ShiftStepsFeed(poly: Word, register: Word, bits: seq<bool>)
    requires |bits| <= 32
    ensures ShiftSteps(poly, Xor(register, bits + Zeros(32 - |bits|)), |bits|) == FeedAll(poly, register, bits)
    decreases |bits|
  {
    if bits == [] {
      assert Xor(register, Zeros(32)) == register;
    } else {
      var x: Word := Xor(register, bits + Zeros(32 - |bits|));
      assert ShiftStep(poly, x) == Xor(Feed(poly, register, bits[0]), bits[1..] + Zeros(32 - |bits[1..]|));
      ShiftStepsFeed(poly, Feed(poly, register, bits[0]), bits[1..]);
    }
  }

  lemma {:induction false} UpdateAllFeeds(poly: Word, register: Word, bytes: seq<Byte>)
    ensures UpdateAll(poly, register, bytes) == FeedAll(poly, register, MessageBits(bytes))
    decreases |bytes|
  {
    if bytes == [] {
    } else {
      var b := bytes[0];
      ByteBits(b);
      ShiftStepsFeed(poly, register, BitsOf(b, 8));
      UpdateAllFeeds(poly, Update(poly, register, b), bytes[1..]);
      FeedAllAppend(poly, register, BitsOf(b, 8), MessageBits(bytes[1..]));
    }
  }

  /** The dividend that remains once the register has absorbed everything before `bits`. */
  function Dividend(register: Word, bits: seq<bool>): (p: seq<bool>)
    ensures |p| == 32 + |bits|
  {
    Xor(register + Zeros(|bits|), bits + Zeros(32))
  }

  lemma DivisionStep(poly: Word, register: Word, bits: seq<bool>)
    requires bits != []
    ensures Remainder(poly, Dividend(register, bits)) == Remainder(poly, Dividend(Feed(poly, register, bits[0]), bits[1..]))
  {
    var p := Dividend(register, bits);
    var q := (if p[0] then Xor(p[1..33], poly) else p[1..33]) + p[33..];
    var next := Feed(poly, register, bits[0]);
    assert |q| == |Dividend(next, bits[1..])|;
    forall i | 0 <= i < |q|
      ensures q[i] == Dividend(next, bits[1..])[i]
    {
      if i < 31 {
        assert p[1..33][i] == p[i + 1];
      }
    }
    assert q == Dividend(next, bits[1..]);
  }

  /** The register is always the remainder of what has been fed so far. */
  lemma {:induction false} RegisterIsRemainder(poly: Word, register: Word, bits: seq<bool>)
    ensures Remainder(poly, Dividend(register, bits)) == FeedAll(poly, register, bits)
    decreases |bits|
  {
    if bits == [] {
      assert Dividend(register, bits) == register;
    } else {
      DivisionStep(poly, register, bits);
      RegisterIsRemainder(poly, Feed(poly, register, bits[0]), bits[1..]);
    }
  }

  // ---------------------------------------------------------------- the update is a bijection

  /** Undoes one shift step: the top bit of the result tells whether the polynomial went in. */
  function UnshiftStep(poly: Word, v: Word): Word {
    [v[31]] + (if v[31] then Xor(poly, v) else v)[..31]
  }

  function UnshiftSteps(poly: Word, v: Word, n: nat): Word
    decreases n
  {
    if n == 0 then v else UnshiftStep(poly, UnshiftSteps(poly, v, n - 1))
  }

  lemma UnshiftInverse(poly: Word, v: Word)
    requires poly[31]
    ensures UnshiftStep(poly, ShiftStep(poly, v)) == v
    ensures ShiftStep(poly, UnshiftStep(poly, v)) == v
  {
  }

  lemma {:induction false} UnshiftUndoesShift(poly: Word, v: Word, n: nat)
    requires poly[31]
    ensures UnshiftSteps(poly, ShiftSteps(poly, v, n), n) == v
    decreases n
  {
    hide ShiftStep, UnshiftStep;
    if n == 0 {
    } else {
      UnshiftUndoesShift(poly, ShiftStep(poly, v), n - 1);
      UnshiftInverse(poly, v);
    }
  }

  lemma {:induction false} ShiftUndoesUnshift(poly: Word, v: Word, n: nat)
    requires poly[31]
    ensures ShiftSteps(poly, UnshiftSteps(poly, v, n), n) == v
    decreases n
  {
    hide ShiftStep, UnshiftStep;
    if n == 0 {
    } else {
      ShiftUndoesUnshift(poly, v, n - 1);
      UnshiftInverse(poly, UnshiftSteps(poly, v, n - 1));
    }
  }

  lemma XorTwice(x: Word, mask: Word)
    ensures Xor(Xor(x, mask), mask) == x
  {
  }

  lemma XorCancels(mask: Word, x: Word, y: Word)
    requires Xor(mask, x) == Xor(mask, y)
    ensures x == y
  {
    forall i | 0 <= i < 32
      ensures x[i] == y[i]
    {
      assert Xor(mask, x)[i] == Xor(mask, y)[i];
    }
  }

  /** For a fixed byte the register update is a bijection of the 32-bit words. */
  lemma UpdateIsBijection(poly: Word, b: Byte, x: Word, y: Word)
    requires poly[31]
    ensures Update(poly, x, b) == Update(poly, y, b) ==> x == y
    ensures exists source: Word :: Update(poly, source, b) == y
  {
    var mask := BitsOf(b, 32);
    UnshiftUndoesShift(poly, Xor(x, mask), 8);
    UnshiftUndoesShift(poly, Xor(y, mask), 8);
    XorTwice(x, mask);
    XorTwice(y, mask);
    ShiftUndoesUnshift(poly, y, 8);
    XorTwice(UnshiftSteps(poly, y, 8), mask);
    assert Update(poly, Xor(UnshiftSteps(poly, y, 8), mask), b) == y;
  }

  /** For a fixed register different bytes lead to different registers. */
  lemma UpdateSeparatesBytes(poly: Word, register: Word, b: Byte, c: Byte)
    requires poly[31] && Update(poly, register, b) == Update(poly, register, c)
    ensures b == c
  {
    var x: Word, y: Word := BitsOf(b, 32), BitsOf(c, 32);
    UnshiftUndoesShift(poly, Xor(register, x), 8);
    UnshiftUndoesShift(poly, Xor(register, y), 8);
    XorCancels(register, x, y);
    ByteBits(b);
    ByteBits(c);
    assert x[..8] == BitsOf(b, 8) && y[..8] == BitsOf(c, 8);
  }

  lemma {:induction false} UpdateAllInjective(poly: Word, x: Word, y: Word, bytes: seq<Byte>)
    requires poly[31] && UpdateAll(poly, x, bytes) == UpdateAll(poly, y, bytes)
    ensures x == y
    decreases |bytes|
  {
    if bytes == [] {
    } else {
      UpdateAllInjective(poly, Update(poly, x, bytes[0]), Update(poly, y, bytes[0]), bytes[1..]);
      UpdateIsBijection(poly, bytes[0], x, y);
    }
  }

  ghost predicate DifferInOneByte(a: seq<Byte>, b: seq<Byte>) {
    |a| == |b| && exists i | 0 <= i < |a| :: a[i] != b[i] && b == a[i := b[i]]
  }

  lemma UpdateAllAt(poly: Word, register: Word, s: seq<Byte>, i: nat)
    requires i < |s|
    ensures UpdateAll(poly, register, s) == UpdateAll(poly, Update(poly, UpdateAll(poly, register, s[..i]), s[i]), s[i + 1..])
  {
    assert s == s[..i] + s[i..] && s[i..][1..] == s[i + 1..];
    UpdateAllAppend(poly, register, s[..i], s[i..]);
  }

  /** Changing a single byte always changes the final register. */
  lemma SingleByteChange(poly: Word, register: Word, a: seq<Byte>, b: seq<Byte>)
    requires poly[31] && DifferInOneByte(a, b)
    ensures UpdateAll(poly, register, a) != UpdateAll(poly, register, b)
  {
    var i :| 0 <= i < |a| && a[i] != b[i] && b == a[i := b[i]];
    assert b[..i] == a[..i] && b[i + 1..] == a[i + 1..];
    var start := UpdateAll(poly, register, a[..i]);
    UpdateAllAt(poly, register, a, i);
    UpdateAllAt(poly, register, b, i);
    if UpdateAll(poly, register, a) == UpdateAll(poly, register, b) {
      UpdateAllInjective(poly, Update(poly, start, a[i]), Update(poly, start, b[i]), a[i + 1..]);
      UpdateSeparatesBytes(poly, start, a[i], b[i]);
    }
  }
}
