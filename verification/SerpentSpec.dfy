/** Serpent on values (impl/block/serpent/serpent-impl.cc). */
module SerpentSpec {
  import opened Bits
  import opened Numbers
  import opened Quads
  import opened Rotates
  import opened SerpentBoxes

  function Up3(w: Word): Word { w << 3 }
  function Up7(w: Word): Word { w << 7 }

  function XorQuad(x: Quad, y: Quad): Quad {
    Quad(Xor(x.a, y.a), Xor(x.b, y.b), Xor(x.c, y.c), Xor(x.d, y.d))
  }

  lemma XorQuadTwice(x: Quad, y: Quad)
    ensures XorQuad(XorQuad(x, y), y) == x
  {
    hide Xor;
    XorTwice(x.a, y.a);
    XorTwice(x.b, y.b);
    XorTwice(x.c, y.c);
    XorTwice(x.d, y.d);
  }

  // ---------------------------------------------------------------- the linear transformation

  function Mix(x: Quad): Quad {
    var a := RotateLeft(x.a, 13);
    var c := RotateLeft(x.c, 3);
    var b := RotateLeft(Xor(Xor(x.b, c), a), 1);
    var d := RotateLeft(Xor(Xor(x.d, c), Up3(a)), 7);
    Quad(RotateLeft(Xor(Xor(a, d), b), 5), b, RotateLeft(Xor(Xor(c, d), Up7(b)), 22), d)
  }

  function Unmix(x: Quad): Quad {
    var c := Xor(RotateRight(x.c, 22), Xor(x.d, Up7(x.b)));
    var a := Xor(RotateRight(x.a, 5), Xor(x.b, x.d));
    var d := Xor(RotateRight(x.d, 7), Xor(c, Up3(a)));
    var b := Xor(RotateRight(x.b, 1), Xor(a, c));
    Quad(RotateRight(a, 13), b, RotateRight(c, 3), d)
  }

  lemma XorPair(a: Word, b: Word, c: Word)
    ensures Xor(Xor(Xor(a, b), c), Xor(b, c)) == a
    ensures Xor(Xor(Xor(a, b), c), Xor(c, b)) == a
  {
    calc {
      Xor(Xor(Xor(a, b), c), Xor(b, c));
      Xor(Xor(a ^ b, c), b ^ c);
      Xor((a ^ b) ^ c, b ^ c);
      ((a ^ b) ^ c) ^ (b ^ c);
      a;
    }
    calc {
      Xor(Xor(Xor(a, b), c), Xor(c, b));
      Xor(Xor(a ^ b, c), c ^ b);
      Xor((a ^ b) ^ c, c ^ b);
      ((a ^ b) ^ c) ^ (c ^ b);
      a;
    }
  }

  lemma UnmixMix(x: Quad)
    ensures Unmix(Mix(x)) == x
  {
    hide Xor, RotateLeft, RotateRight, Up3, Up7;
    var a := RotateLeft(x.a, 13);
    var c := RotateLeft(x.c, 3);
    var b0 := Xor(Xor(x.b, c), a);
    var d0 := Xor(Xor(x.d, c), Up3(a));
    var b, d := RotateLeft(b0, 1), RotateLeft(d0, 7);
    Turn22(Xor(Xor(c, d), Up7(b)));
    XorPair(c, d, Up7(b));
    Turn5(Xor(Xor(a, d), b));
    XorPair(a, d, b);
    Turn7(d0);
    XorPair(x.d, c, Up3(a));
    Turn1(b0);
    XorPair(x.b, c, a);
    Turn13(x.a);
    Turn3(x.c);
  }

  // ---------------------------------------------------------------- rounds

  /** Quad j of the round keys. */
  function KeyAt(k: seq<Word>, j: nat): Quad
    requires 4 * j + 4 <= |k|
  {
    Quad(k[4 * j], k[4 * j + 1], k[4 * j + 2], k[4 * j + 3])
  }

  function Mod8(j: nat): (n: nat)
    ensures n < 8
  {
    j % 8
  }

  /** eround with box j % 8. */
  function Round(x: Quad, key: Quad, n: nat): Quad
    requires n < 8
  {
    Mix(Box(n, XorQuad(x, key)))
  }

  /** dround. */
  function InvRound(x: Quad, key: Quad, n: nat): Quad
    requires n < 8
  {
    XorQuad(InvBox(n, Unmix(x)), key)
  }

  lemma RoundInverse(x: Quad, key: Quad, n: nat)
    requires n < 8
    ensures InvRound(Round(x, key, n), key, n) == x
  {
    hide Mix, Unmix, Box, InvBox, XorQuad;
    UnmixMix(Box(n, XorQuad(x, key)));
    BoxInverse(n, XorQuad(x, key));
    XorQuadTwice(x, key);
  }

  /** The first j rounds. */
  function Rounds(x: Quad, k: seq<Word>, j: nat): Quad
    requires 4 * j <= |k|
  {
    if j == 0 then x else Round(Rounds(x, k, j - 1), KeyAt(k, j - 1), Mod8(j - 1))
  }

  /** The inverses of rounds j - 1, j - 2, ..., 0. */
  function InvRounds(x: Quad, k: seq<Word>, j: nat): Quad
    requires 4 * j <= |k|
    decreases j
  {
    if j == 0 then x else InvRounds(InvRound(x, KeyAt(k, j - 1), Mod8(j - 1)), k, j - 1)
  }

  lemma {:induction false} RoundsInverse(x: Quad, k: seq<Word>, j: nat)
    requires 4 * j <= |k|
    ensures InvRounds(Rounds(x, k, j), k, j) == x
    decreases j
  {
    hide Round, InvRound, KeyAt, Mod8;
    if j > 0 {
      RoundInverse(Rounds(x, k, j - 1), KeyAt(k, j - 1), Mod8(j - 1));
      RoundsInverse(x, k, j - 1);
    }
  }

  /** The last round has no linear transformation and a second key. */
  function Sealed(x: Quad, k: seq<Word>): Quad
    requires |k| >= 132
  {
    XorQuad(Box(7, XorQuad(Rounds(x, k, 31), KeyAt(k, 31))), KeyAt(k, 32))
  }

  function Opened(x: Quad, k: seq<Word>): Quad
    requires |k| >= 132
  {
    InvRounds(XorQuad(InvBox(7, XorQuad(x, KeyAt(k, 32))), KeyAt(k, 31)), k, 31)
  }

  /** Decryption undoes encryption, for any round keys. */
  lemma SealedOpens(x: Quad, k: seq<Word>)
    requires |k| >= 132
    ensures Opened(Sealed(x, k), k) == x
  {
    hide XorQuad, Box, InvBox, Rounds, InvRounds, KeyAt;
    var y := Rounds(x, k, 31);
    XorQuadTwice(Box(7, XorQuad(y, KeyAt(k, 31))), KeyAt(k, 32));
    BoxInverse(7, XorQuad(y, KeyAt(k, 31)));
    XorQuadTwice(y, KeyAt(k, 31));
    RoundsInverse(x, k, 31);
  }

  // ---------------------------------------------------------------- the key schedule

  function OneByte(n: nat): bv8 { if n == 0 then 1 else 0 }

  /** The key with a one after it, then zeros; a full key is taken as it is. */
  function Padded(key: Bytes): (b: Bytes)
    requires |key| <= 32
    ensures |b| == 32
  {
    seq(32, i requires 0 <= i < 32 => if i < |key| then key[i] else OneByte(i - |key|))
  }

  /** Prekey word n, the eight words of the key first. */
  function Prekey(key: Bytes, n: nat): Word
    requires |key| <= 32
  {
    if n < 8 then LoadLe(Padded(key), 4 * n)
    else Next(Prekey(key, n - 8), Prekey(key, n - 5), Prekey(key, n - 3), Prekey(key, n - 1), n - 8)
  }

  const PHI: Word := 0x9e3779b9

  function Next(w8: Word, w5: Word, w3: Word, w1: Word, i: nat): Word {
    RotateLeft(Xor(Xor(Xor(Xor(Xor(w8, w5), w3), w1), PHI), Of(i)), 11)
  }

  /** Prekey words 4 j to 4 j + 3 past the key. */
  function PrekeyQuad(key: Bytes, j: nat): Quad
    requires |key| <= 32
  {
    Quad(Prekey(key, 4 * j + 8), Prekey(key, 4 * j + 9), Prekey(key, 4 * j + 10), Prekey(key, 4 * j + 11))
  }

  /** Round key j: the prekeys through the boxes in descending order, from box 3. */
  function RoundKey(key: Bytes, j: nat): Quad
    requires |key| <= 32 && j < 33
  {
    Box(Mod8(35 - j), PrekeyQuad(key, j))
  }
}
