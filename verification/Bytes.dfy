/** Bytes as the integers below 256, the xor of two bytes, and fixed-width integers in both byte orders. */
module Bytes {
  type byte = b: int | 0 <= b < 256

  function Pow2(n: nat): (r: nat)
    ensures r > 0
  {
    if n == 0 then 1 else 2 * Pow2(n - 1)
  }

  function Pow256(n: nat): (r: nat)
    ensures r > 0
  {
    if n == 0 then 1 else 256 * Pow256(n - 1)
  }

  /** Bitwise exclusive or. */
  function XorNat(a: nat, b: nat): nat
    decreases a + b
  {
    if a == 0 && b == 0 then 0 else 2 * XorNat(a / 2, b / 2) + (a + b) % 2
  }

  lemma {:induction false} XorBound(a: nat, b: nat, width: nat)
    requires a < Pow2(width) && b < Pow2(width)
    ensures XorNat(a, b) < Pow2(width)
    decreases width
  {
    if a != 0 || b != 0 {
      XorBound(a / 2, b / 2, width - 1);
    }
  }

  function Xor(a: byte, b: byte): byte {
    assert XorNat(a, b) < 256 by {
      assert Pow2(8) == 256;
      XorBound(a, b, 8);
    }
    XorNat(a, b)
  }

  lemma LastBit(a: nat, b: nat, half: nat)
    ensures var x := 2 * half + (a + b) % 2; x / 2 == half && (x + b) % 2 == a % 2
  {
    var i, j := a / 2, b / 2;
    if a % 2 == b % 2 {
      assert a + b == 2 * (i + j + b % 2);
    } else {
      assert a + b == 2 * (i + j) + 1;
    }
  }

  lemma {:induction false} XorNatUndo(a: nat, b: nat)
    ensures XorNat(XorNat(a, b), b) == a
    decreases a + b
  {
    if a != 0 || b != 0 {
      XorNatUndo(a / 2, b / 2);
      LastBit(a, b, XorNat(a / 2, b / 2));
    }
  }

  /** Applying the same mask byte twice gives the byte back. */
  lemma XorUndo(a: byte, b: byte)
    ensures Xor(Xor(a, b), b) == a
  {
    XorNatUndo(a, b);
  }

  /** Network byte order: the last byte is the least significant. */
  function BigEndian(bytes: seq<byte>): nat {
    if |bytes| == 0 then 0 else 256 * BigEndian(bytes[..|bytes| - 1]) + bytes[|bytes| - 1]
  }

  function ToBigEndian(n: nat, width: nat): (bytes: seq<byte>)
    ensures |bytes| == width
  {
    if width == 0 then [] else ToBigEndian(n / 256, width - 1) + [n % 256]
  }

  lemma {:induction false} BigEndianBound(bytes: seq<byte>)
    ensures BigEndian(bytes) < Pow256(|bytes|)
  {
    if |bytes| > 0 {
      BigEndianBound(bytes[..|bytes| - 1]);
    }
  }

  lemma {:induction false} BigEndianRead(n: nat, width: nat)
    requires n < Pow256(width)
    ensures BigEndian(ToBigEndian(n, width)) == n
  {
    if width > 0 {
      BigEndianRead(n / 256, width - 1);
      assert ToBigEndian(n, width)[..width - 1] == ToBigEndian(n / 256, width - 1);
    }
  }

  lemma {:induction false} BigEndianWrite(bytes: seq<byte>)
    ensures ToBigEndian(BigEndian(bytes), |bytes|) == bytes
  {
    if |bytes| > 0 {
      var front := bytes[..|bytes| - 1];
      BigEndianWrite(front);
      var n := BigEndian(bytes);
      assert n / 256 == BigEndian(front) && n % 256 == bytes[|bytes| - 1];
      assert bytes == front + [bytes[|bytes| - 1]];
    }
  }

  /** Little endian: the first byte is the least significant. */
  function LittleEndian(bytes: seq<byte>): nat {
    if |bytes| == 0 then 0 else bytes[0] + 256 * LittleEndian(bytes[1..])
  }

  function ToLittleEndian(n: nat, width: nat): (bytes: seq<byte>)
    ensures |bytes| == width
  {
    if width == 0 then [] else [n % 256] + ToLittleEndian(n / 256, width - 1)
  }

  lemma {:induction false} LittleEndianRead(n: nat, width: nat)
    requires n < Pow256(width)
    ensures LittleEndian(ToLittleEndian(n, width)) == n
  {
    if width > 0 {
      LittleEndianRead(n / 256, width - 1);
      assert ToLittleEndian(n, width)[1..] == ToLittleEndian(n / 256, width - 1);
    }
  }

  lemma {:induction false} LittleEndianBound(bytes: seq<byte>)
    ensures LittleEndian(bytes) < Pow256(|bytes|)
  {
    if |bytes| > 0 {
      LittleEndianBound(bytes[1..]);
    }
  }
}
