/** The bytes of a binary index key: the version, the FNV-1a hash of the camera id and the time. */
module KeyLayout {
  import opened Common
  import opened KeyOrder
  import opened Index

  /** A key is 17 bytes, begins with version two, and is shared by two cameras or times only if
      their hashes are equal and the times are the same as int64. */
  lemma KeyLayoutExactly(c: Bytes, s: int, d: Bytes, t: int)
    ensures |MakeBinaryKey(c, s)| == 17 && MakeBinaryKey(c, s)[0] == 2
    ensures MakeBinaryKey(c, s) == MakeBinaryKey(d, t)
       <==> HashCameraId(c) == HashCameraId(d) && s % TWO_64 == t % TWO_64
  {
    hide Digits;
    assert Pow(256, 8) == TWO_64;
    var k, l := MakeBinaryKey(c, s), MakeBinaryKey(d, t);
    if k == l {
      WordsOf(c, s);
      WordsOf(d, t);
      DigitsOrder(HashCameraId(c), HashCameraId(d), 256, 0, 8);
      DigitsOrder(Unsigned64(s), Unsigned64(t), 256, 0, 8);
    }
  }

  lemma WordsOf(c: Bytes, s: int)
    ensures MakeBinaryKey(c, s)[1..9] == Digits(HashCameraId(c), 256, 0, 8)
    ensures MakeBinaryKey(c, s)[9..] == Digits(Unsigned64(s), 256, 0, 8)
  {
    hide Digits;
  }

  // ---------------------------------------------------------------------------
  // The hash
  // ---------------------------------------------------------------------------

  const PRIME: nat := 0x100_0000_01b3
  const INVERSE: nat := 0xce96_5057_aff6_957b

  /** One byte of FNV-1a, as its authors define it. */
  function HashStep(h: nat, b: byte): nat {
    (Mixed(h, b) * PRIME) % TWO_64
  }

  lemma HashAppend(c: Bytes, b: byte)
    ensures HashCameraId(c + [b]) == HashStep(HashCameraId(c), b)
    ensures HashCameraId([]) == 0xcbf2_9ce4_8422_2325
  {
    assert (c + [b])[..|c|] == c;
  }

  /** The same exclusive or twice changes nothing. */
  lemma {:induction false} XorTwice(a: nat, b: nat, bits: nat)
    requires a < Pow(2, bits)
    ensures XorBits(XorBits(a, b, bits), b, bits) == a
  {
    if bits > 0 {
      XorTwice(a / 2, b / 2, bits - 1);
      LowBit(XorBits(a / 2, b / 2, bits - 1), a, b);
    }
  }

  lemma LowBit(half: nat, a: nat, b: nat)
    ensures var r := 2 * half + (a + b) % 2; r / 2 == half && (r + b) % 2 == a % 2
  {
  }

  lemma {:induction false} XorSymmetric(a: nat, b: nat, bits: nat)
    ensures XorBits(a, b, bits) == XorBits(b, a, bits)
  {
    if bits > 0 {
      XorSymmetric(a / 2, b / 2, bits - 1);
    }
  }

  lemma XorBack(a: byte, b: byte)
    ensures Xor(Xor(a, b), b) == a && Xor(a, b) == Xor(b, a)
  {
    hide XorBits;
    assert Pow(2, 8) == 256;
    XorTwice(a as nat, b as nat, 8);
    XorSymmetric(a as nat, b as nat, 8);
  }

  lemma XorInjective(a: byte, x: byte, y: byte)
    ensures Xor(a, x) == Xor(a, y) ==> x == y
  {
    hide Xor;
    XorBack(x, a);
    XorBack(y, a);
    XorBack(a, x);
    XorBack(a, y);
  }

  /** Multiplying by the odd prime can be undone. */
  lemma TimesPrime(x: nat, y: nat)
    requires x < TWO_64 && y < TWO_64
    ensures (x * PRIME) % TWO_64 == (y * PRIME) % TWO_64 ==> x == y
  {
    Undo(x);
    Undo(y);
  }

  lemma Undo(x: nat)
    requires x < TWO_64
    ensures (x * PRIME) % TWO_64 * INVERSE % TWO_64 == x
  {
    var q := x * PRIME / TWO_64;
    assert (x * PRIME) % TWO_64 == x * PRIME - q * TWO_64;
    assert PRIME * INVERSE == 1 + (PRIME * INVERSE / TWO_64) * TWO_64;
    assert (x * PRIME - q * TWO_64) * INVERSE
        == x + (x * (PRIME * INVERSE / TWO_64) - q * INVERSE) * TWO_64;
    Remainder(x, x * (PRIME * INVERSE / TWO_64) - q * INVERSE);
  }

  lemma Remainder(x: nat, k: int)
    requires x < TWO_64
    ensures (x + k * TWO_64) % TWO_64 == x
  {
  }

  /** The hash with its lowest byte combined with the next one of the text. */
  function Mixed(h: nat, b: byte): nat {
    h - h % 256 + Xor((h % 256) as byte, b) as int
  }

  lemma MixedInjective(g: nat, h: nat, a: byte, b: byte)
    ensures Mixed(g, a) == Mixed(h, b) ==> (g == h <==> a == b)
  {
    hide Xor;
    LowByte(g - g % 256, Xor((g % 256) as byte, a));
    LowByte(h - h % 256, Xor((h % 256) as byte, b));
    XorInjective((g % 256) as byte, a, b);
    XorBack((g % 256) as byte, a);
    XorBack((h % 256) as byte, a);
  }

  lemma MixedBound(h: nat, b: byte)
    requires h < TWO_64
    ensures Mixed(h, b) < TWO_64
  {
    hide Xor;
  }

  lemma StepInjective(g: nat, h: nat, a: byte, b: byte)
    requires g < TWO_64 && h < TWO_64
    ensures HashStep(g, a) == HashStep(h, b) ==> (g == h <==> a == b)
  {
    hide Mixed;
    MixedBound(g, a);
    MixedBound(h, b);
    TimesPrime(Mixed(g, a), Mixed(h, b));
    MixedInjective(g, h, a, b);
  }

  lemma LowByte(high: int, low: byte)
    requires high % 256 == 0
    ensures (high + low as int) % 256 == low as int
  {
  }

  /** Camera ids that differ in exactly one byte never share a hash, so their binary keys
      differ. */
  lemma {:induction false} OneByteApart(c: Bytes, a: byte, b: byte, rest: Bytes)
    ensures HashCameraId(c + [a] + rest) == HashCameraId(c + [b] + rest) <==> a == b
  {
    hide HashCameraId, HashStep;
    if rest == [] {
      assert c + [a] + rest == c + [a] && c + [b] + rest == c + [b];
      HashAppend(c, a);
      HashAppend(c, b);
      StepInjective(HashCameraId(c), HashCameraId(c), a, b);
    } else {
      var n := |rest| - 1;
      var x, y := c + [a] + rest[..n], c + [b] + rest[..n];
      assert c + [a] + rest == x + [rest[n]] && c + [b] + rest == y + [rest[n]];
      OneByteApart(c, a, b, rest[..n]);
      HashAppend(x, rest[n]);
      HashAppend(y, rest[n]);
      StepInjective(HashCameraId(x), HashCameraId(y), rest[n], rest[n]);
    }
  }

  lemma XorExample()
    ensures Xor(0x25, 97) == 0x44
  {
    assert XorBits(2, 6, 4) == 4 && XorBits(0x25, 0x61, 8) == 16 * XorBits(2, 6, 4) + 4;
  }

  /** The published hash of the text "a". */
  lemma HashOfA()
    ensures HashCameraId([97]) == 0xaf63_dc4c_8601_ec8c
  {
    hide HashCameraId, Xor;
    HashAppend([], 97);
    XorExample();
    assert [] + [97 as byte] == [97];
  }
}
