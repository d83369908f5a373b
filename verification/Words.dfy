/** Machine words as sequences of bits, least significant bit first, and bytes as small numbers.
    The bit operators of the source are pointwise on these sequences. */
module Words {
  type Byte = b: int | 0 <= b < 256
  type Word = w: seq<bool> | |w| == 32 witness seq(32, _ => false)

  /** The lowest `width` bits of n. */
  function BitsOf(n: nat, width: nat): (bits: seq<bool>)
    ensures |bits| == width
  {
    if width == 0 then [] else [n % 2 == 1] + BitsOf(n / 2, width - 1)
  }

  function NumberOf(bits: seq<bool>): nat {
    if bits == [] then 0 else (if bits[0] then 1 else 0) + 2 * NumberOf(bits[1..])
  }

  function Pow2(n: nat): nat {
    if n == 0 then 1 else 2 * Pow2(n - 1)
  }

  function Zeros(n: nat): seq<bool> {
    seq(n, _ => false)
  }

  function Ones(n: nat): seq<bool> {
    seq(n, _ => true)
  }

  function Xor(a: seq<bool>, b: seq<bool>): (r: seq<bool>)
    requires |a| == |b|
    ensures |r| == |a|
  {
    seq(|a|, i requires 0 <= i < |a| => a[i] != b[i])
  }

  lemma {:induction false} NumberBound(bits: seq<bool>)
    ensures NumberOf(bits) < Pow2(|bits|)
  {
    if bits == [] {
    } else {
      NumberBound(bits[1..]);
    }
  }

  lemma {:induction false} BitsOfNumber(bits: seq<bool>)
    ensures BitsOf(NumberOf(bits), |bits|) == bits
  {
    if bits == [] {
    } else {
      BitsOfNumber(bits[1..]);
      assert NumberOf(bits) / 2 == NumberOf(bits[1..]);
    }
  }

  lemma {:induction false} NumberOfBits(n: nat, width: nat)
    requires n < Pow2(width)
    ensures NumberOf(BitsOf(n, width)) == n
  {
    if width == 0 {
    } else {
      NumberOfBits(n / 2, width - 1);
      assert BitsOf(n, width)[1..] == BitsOf(n / 2, width - 1);
    }
  }

  /** A number that fits in fewer bits has zeros above them. */
  lemma {:induction false} BitsOfWider(n: nat, width: nat, wider: nat)
    requires width <= wider && n < Pow2(width)
    ensures BitsOf(n, wider) == BitsOf(n, width) + Zeros(wider - width)
  {
    if width == 0 {
      BitsOfZero(wider);
    } else {
      BitsOfWider(n / 2, width - 1, wider - 1);
    }
  }

  lemma {:induction false} BitsOfZero(width: nat)
    ensures BitsOf(0, width) == Zeros(width)
  {
    if width == 0 {
    } else {
      BitsOfZero(width - 1);
    }
  }

  lemma {:induction false} Pow2Sum(a: nat, b: nat)
    ensures Pow2(a + b) == Pow2(a) * Pow2(b)
  {
    if a == 0 {
    } else {
      Pow2Sum(a - 1, b);
    }
  }

  lemma Pow2Of32()
    ensures Pow2(32) == 0x1_0000_0000
  {
    assert Pow2(8) == 0x100;
    Pow2Sum(8, 8);
    Pow2Sum(16, 16);
  }
}
