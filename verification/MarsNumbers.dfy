/** The expansion function of MARS in numbers: which key word is added, which one multiplies, and why the second kind
    must be odd. */
module MarsNumbers {
  import opened Arithmetic
  import opened Bits
  import opened Counter
  import opened MarsKeys
  import opened MarsSpec
  import opened Numbers
  import opened Quads
  import opened RotatedBits
  import opened Rotates

  // ---------------------------------------------------------------- low bits of a word and of its number

  /** The two low bytes. */
  lemma LowParts(w: Word)
    ensures Number(w) % 0x10000 == 256 * ByteValue(StoreWord32(w)[2]) + ByteValue(StoreWord32(w)[3])
  {
    hide ByteValue, StoreWord32;
    var b := StoreWord32(w);
    var u, p, q := Value(b[..2]), ByteValue(b[2]), ByteValue(b[3]);
    assert b[..3][..2] == b[..2];
    assert Value(b[..3]) == 256 * u + p;
    assert Value(b) == 256 * (256 * u + p) + q;
    ByteRange(b[2]);
    ByteRange(b[3]);
    assert Number(w) == 0x10000 * u + (256 * p + q);
  }

  function NinthBit(w: Word): bool { w & 0x100 != 0 }

  lemma NineParts(w: Word)
    ensures Low9(w) == (if NinthBit(w) then 256 else 0) + ByteValue(LowByte(w))
  {}

  lemma NinthOdd(w: Word)
    ensures NinthBit(w) <==> ByteValue(StoreWord32(w)[2]) % 2 == 1
  {}

  lemma Mod512(n: nat, p: nat, q: nat)
    requires n % 0x10000 == 256 * p + q && q < 256
    ensures n % 512 == 256 * (p % 2) + q
  {
    var u := n / 0x10000;
    Division(n, 128 * u + p / 2, 256 * (p % 2) + q, 512);
  }

  lemma NineBits(w: Word)
    ensures Low9(w) == Number(w) % 512
  {
    hide Low9, ByteValue, StoreWord32, NinthBit, LowByte, Number;
    var p, q := ByteValue(StoreWord32(w)[2]), ByteValue(StoreWord32(w)[3]);
    LowParts(w);
    NineParts(w);
    NinthOdd(w);
    StoredBytes(w);
    ByteRange(LowByte(w));
    Mod512(Number(w), p, q);
  }

  lemma LowBit(w: Word)
    ensures Low(w) <==> ByteValue(StoreWord32(w)[3]) % 2 == 1
  {}

  lemma OddNumber(w: Word)
    ensures Low(w) <==> Number(w) % 2 == 1
  {
    hide Low, ByteValue, StoreWord32, Number;
    var p, q := ByteValue(StoreWord32(w)[2]), ByteValue(StoreWord32(w)[3]);
    LowParts(w);
    LowBit(w);
    Mod2(Number(w), p, q);
  }

  lemma Mod2(n: nat, p: nat, q: nat)
    requires n % 0x10000 == 256 * p + q
    ensures n % 2 == q % 2
  {
    var u := n / 0x10000;
    Division(n, 0x8000 * u + 128 * p + q / 2, q % 2, 2);
  }

  // ---------------------------------------------------------------- the expansion function

  lemma TurnTwice(w: Word)
    ensures RotateRight(RotateLeft(RotateLeft(w, 5), 5), 10) == w
  {
    calc {
      RotateRight(RotateLeft(RotateLeft(w, 5), 5), 10);
      RotateRight(RotateLeft((w << 5) | (w >> 27), 5), 10);
      RotateRight((((w << 5) | (w >> 27)) << 5) | (((w << 5) | (w >> 27)) >> 27), 10);
      (((((w << 5) | (w >> 27)) << 5) | (((w << 5) | (w >> 27)) >> 27)) >> 10)
      | (((((w << 5) | (w >> 27)) << 5) | (((w << 5) | (w >> 27)) >> 27)) << 22);
      w;
    }
  }

  /** What the expansion function multiplies, adds and looks up: the product of the word rotated by 13 and the second
      key, the sum of the word and the first key, and the box entry at the low nine bits of that sum. */
  lemma ExpansionNumbers(s: Box, x: Word, k1: Word, k2: Word)
    ensures var e := E(s, x, k1, k2);
            var sum := (Number(x) + Number(k1)) % TWO32;
            var u := RotateRight(e.r, 5);
            && Number(RotateRight(e.r, 10)) == Number(RotateLeft(x, 13)) * Number(k2) % TWO32
            && e.m == RotateLeft(Of(sum), Low5(u))
            && e.l == RotateLeft(Xor(Xor(s[sum % 512], u), e.r), Low5(e.r))
  {
    hide Number, Of, Add, Times, Xor, RotateLeft, RotateRight, Low5, Low9;
    var m := Add(x, k1);
    var t := Times(RotateLeft(x, 13), k2);
    Products(RotateLeft(x, 13), k2);
    Sums(x, k1);
    OfNumber(m);
    NineBits(m);
    TurnTwice(t);
    Turn5(RotateLeft(t, 5));
  }

  // ---------------------------------------------------------------- odd multipliers

  function Power2(j: nat): (n: nat)
    ensures n > 0
  {
    if j == 0 then 1 else 2 * Power2(j - 1)
  }

  lemma HalfProduct(e: nat, k: nat, p: nat, q: nat)
    requires (2 * e) * k == (2 * p) * q
    ensures e * k == p * q
  {
    assert (2 * e) * k == 2 * (e * k) && (2 * p) * q == 2 * (p * q);
  }

  lemma OddFactor(d: nat, k: nat, n: nat)
    requires k % 2 == 1 && d * k == 2 * n
    ensures d % 2 == 0
  {
    var h := k / 2;
    assert d * k == d * (2 * h + 1) == 2 * (d * h) + d;
  }

  /** An odd factor does not help a number to be divisible by a power of two. */
  lemma {:induction false} OddCancels(d: nat, k: nat, j: nat, q: nat) returns (s: nat)
    requires k % 2 == 1 && d * k == Power2(j) * q
    ensures d == Power2(j) * s
  {
    if j == 0 {
      s := d;
    } else {
      var p := Power2(j - 1);
      assert Power2(j) * q == 2 * (p * q);
      OddFactor(d, k, p * q);
      var e := d / 2;
      assert d == 2 * e;
      assert Power2(j) == 2 * p;
      HalfProduct(e, k, p, q);
      s := OddCancels(e, k, j - 1, q);
      assert 2 * (p * s) == (2 * p) * s;
    }
  }

  lemma PowerIs()
    ensures Power2(32) == TWO32
  {
    assert Power2(8) == 0x100;
    assert Power2(16) == 0x10000;
    assert Power2(24) == 0x1000000;
  }

  lemma SameResidue(a: nat, b: nat, k: nat)
    requires b <= a < TWO32 && k % 2 == 1 && (a * k) % TWO32 == (b * k) % TWO32
    ensures a == b
  {
    PowerIs();
    var d := a - b;
    assert a * k == b * k + d * k;
    var q := a * k / TWO32 - b * k / TWO32;
    assert d * k == TWO32 * q;
    assert d * k >= 0;
    assert q >= 0;
    var s := OddCancels(d, k, 32, q);
    assert d == TWO32 * s;
  }

  lemma ProductInjective(a: Word, b: Word, k: Word)
    requires Low(k) && Times(a, k) == Times(b, k)
    ensures a == b
  {
    hide Number, Times, Low;
    Products(a, k);
    Products(b, k);
    OddNumber(k);
    if Number(b) <= Number(a) {
      SameResidue(Number(a), Number(b), Number(k));
    } else {
      SameResidue(Number(b), Number(a), Number(k));
    }
    NumberInjective(a, b);
  }

  /** With a multiplication key the third word determines the input: that is what the last two bits of the key are
      for. */
  lemma ExpansionInjective(s: Box, x: Word, y: Word, k1: Word, w: Word, before: Word)
    requires E(s, x, k1, Multiplier(w, before)).r == E(s, y, k1, Multiplier(w, before)).r
    ensures x == y
  {
    hide Add, Times, Xor, RotateLeft, RotateRight, Low5, Low9, Multiplier, Low;
    var k := Multiplier(w, before);
    var t, u := Times(RotateLeft(x, 13), k), Times(RotateLeft(y, 13), k);
    TurnTwice(t);
    TurnTwice(u);
    MultiplierEnds(w, before);
    assert Low(k);
    ProductInjective(RotateLeft(x, 13), RotateLeft(y, 13), k);
    Turn13(x);
    Turn13(y);
  }

  // ---------------------------------------------------------------- blocks

  /** The words of a block are little-endian: each has the number of its bytes backwards. */
  lemma LittleEndian(b: seq<bv8>, o: nat)
    requires o + 4 <= |b|
    ensures Number(LoadLe(b, o))
         == ByteValue(b[o]) + 0x100 * ByteValue(b[o + 1]) + 0x10000 * ByteValue(b[o + 2])
            + 0x1000000 * ByteValue(b[o + 3])
  {
    hide ByteValue, LoadWord32, Number;
    var r := [b[o + 3], b[o + 2], b[o + 1], b[o]];
    BigEndian(r);
    FourBytes(r);
  }

  lemma FourBytes(b: seq<bv8>)
    requires |b| == 4
    ensures Value(b) == 0x1000000 * ByteValue(b[0]) + 0x10000 * ByteValue(b[1]) + 0x100 * ByteValue(b[2])
                        + ByteValue(b[3])
  {
    hide ByteValue;
    assert b[..3][..2][..1][..0] == [];
    assert b[..3][..2][..1] == [b[0]] && b[..3][..2] == [b[0], b[1]] && b[..3] == [b[0], b[1], b[2]];
    assert Value(b[..3][..2][..1]) == ByteValue(b[0]);
    assert Value(b[..3][..2]) == 256 * ByteValue(b[0]) + ByteValue(b[1]);
    assert Value(b[..3]) == 256 * (256 * ByteValue(b[0]) + ByteValue(b[1])) + ByteValue(b[2]);
  }

  // ---------------------------------------------------------------- the mixing steps

  function Low8(w: Word): nat { (w & 0xff) as nat }

  lemma Low8Is(w: Word)
    ensures Low8(w) == ByteValue(LowByte(w))
  {}

  lemma LowBytes(w: Word)
    ensures GetByte(w, 0) == Low8(w) && GetByte(w, 1) == Low8(Down8(w))
  {}

  lemma ThirdByte(w: Word)
    ensures GetByte(w, 2) == Low8(Down8(Down8(w)))
  {
    calc {
      Low8(Down8(Down8(w)));
      Low8(Down8(w >> 8));
      Low8((w >> 8) >> 8);
      Low8(w >> 16);
      GetByte(w, 2);
    }
  }

  lemma TopByte(w: Word)
    ensures GetByte(w, 3) == Low8(Down8(Down8(Down8(w))))
  {
    calc {
      Low8(Down8(Down8(Down8(w))));
      Low8(Down8(Down8(w >> 8)));
      Low8(Down8((w >> 8) >> 8));
      Low8(((w >> 8) >> 8) >> 8);
      Low8(w >> 24);
      GetByte(w, 3);
    }
  }

  /** The bytes that are looked up are the four bytes of the word. */
  lemma ByteIs(w: Word, n: nat)
    requires n < 4
    ensures GetByte(w, n) == ByteValue(StoreWord32(w)[3 - n])
  {
    hide GetByte, Low8, LowByte, Down8, StoreWord32, ByteValue;
    LowBytes(w);
    ThirdByte(w);
    TopByte(w);
    StoredBytes(w);
    UpperStored(w);
    TopStored(w);
    Low8Is(w);
    Low8Is(Down8(w));
    Low8Is(Down8(Down8(w)));
    Low8Is(Down8(Down8(Down8(w))));
  }

  /** Digit n of a number to the base 256. */
  function Digit(v: nat, n: nat): (d: nat)
    requires n < 4
    ensures d < 256
  {
    v / [1, 0x100, 0x10000, 0x1000000][n] % 256
  }

  /** Byte n of a word is digit n of its number to the base 256. */
  lemma Digits(w: Word, n: nat)
    requires n < 4
    ensures GetByte(w, n) == Digit(Number(w), n)
  {
    hide GetByte, StoreWord32, ByteValue;
    ByteIs(w, n);
    var b := StoreWord32(w);
    ByteRange(b[0]);
    ByteRange(b[1]);
    ByteRange(b[2]);
    ByteRange(b[3]);
    FourBytes(b);
    FourDigits(ByteValue(b[0]), ByteValue(b[1]), ByteValue(b[2]), ByteValue(b[3]));
  }

  lemma FourDigits(a: nat, b: nat, c: nat, d: nat)
    requires a < 256 && b < 256 && c < 256 && d < 256
    ensures var n := 256 * (256 * (256 * a + b) + c) + d;
            n % 256 == d && n / 0x100 % 256 == c && n / 0x10000 % 256 == b && n / 0x1000000 % 256 == a
  {}

  lemma Differences(a: Word, b: Word)
    ensures Number(Sub(a, b)) == (Number(a) + TWO32 - Number(b)) % TWO32
  {
    hide Number, Add, Sub;
    AddSub(a, b);
    Sums(Sub(a, b), b);
  }

  /** The forward mixing step in numbers: which half of the box each byte of the first word looks up, and what is added
      where. */
  lemma ForwardNumbers(s: Box, q: Quad)
    ensures var y, v := ForwardMix(s, q), Number(q.a);
            && Number(y.b) == (Number(Xor(q.b, s[Digit(v, 0)])) + Number(s[256 + Digit(v, 1)])) % TWO32
            && Number(y.c) == (Number(q.c) + Number(s[Digit(v, 2)])) % TWO32
            && y.d == Xor(q.d, s[256 + Digit(v, 3)])
            && RotateLeft(y.a, 24) == q.a
  {
    hide GetByte, Number, Add, Xor, RotateLeft, RotateRight;
    Digits(q.a, 0);
    Digits(q.a, 1);
    Digits(q.a, 2);
    Digits(q.a, 3);
    Turn24(q.a);
    Sums(Xor(q.b, s[GetByte(q.a, 0)]), s[256 + GetByte(q.a, 1)]);
    Sums(q.c, s[GetByte(q.a, 2)]);
  }

  /** The backward one. */
  lemma ReverseNumbers(s: Box, q: Quad)
    ensures var y, v := ReverseMix(s, q), Number(q.a);
            && y.b == Xor(q.b, s[256 + Digit(v, 0)])
            && Number(y.c) == (Number(q.c) + TWO32 - Number(s[Digit(v, 3)])) % TWO32
            && Number(Xor(y.d, s[Digit(v, 1)])) == (Number(q.d) + TWO32 - Number(s[256 + Digit(v, 2)])) % TWO32
            && RotateRight(y.a, 24) == q.a
  {
    hide GetByte, Number, Add, Sub, Xor, RotateLeft, RotateRight;
    Digits(q.a, 0);
    Digits(q.a, 1);
    Digits(q.a, 2);
    Digits(q.a, 3);
    Turn24(q.a);
    Differences(q.c, s[GetByte(q.a, 3)]);
    Differences(q.d, s[256 + GetByte(q.a, 2)]);
    XorTwice(Sub(q.d, s[256 + GetByte(q.a, 2)]), s[GetByte(q.a, 1)]);
  }
}
