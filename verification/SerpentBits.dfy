/** Serpent bit by bit: the linear transformation and the prekeys. */
module SerpentBits {
  import opened Bits
  import opened Numbers
  import opened Quads
  import opened RotatedBits
  import opened Rotates
  import opened SerpentSpec
  import Counter
  import Words

  /** Bit n of a word, modulo its width. */
  function At(w: Word, n: int): bool { Bit(w, n % 32) }

  /** The sum of three bits. */
  function Sum(a: bool, b: bool, c: bool): bool { (a != b) != c }

  lemma AtTurned(w: Word, m: nat, n: int)
    requires m < 32
    ensures At(RotateLeft(w, m), n) == At(w, n - m)
  {
    hide Bit, RotateLeft;
    BitRotateLeft(w, m, n % 32);
    assert (n % 32 + 32 - m) % 32 == (n - m) % 32;
  }

  lemma AtXor(a: Word, b: Word, n: int)
    ensures At(Xor(a, b), n) == (At(a, n) != At(b, n))
  {
    hide Bit, Xor;
    BitXor(a, b, n % 32);
  }

  // ---------------------------------------------------------------- shifts

  /** n doublings. */
  function Doubles(w: Word, n: nat): Word {
    if n == 0 then w else Double(Doubles(w, n - 1))
  }

  lemma {:induction false} BitDoubles(w: Word, n: nat, k: nat)
    requires k < 32
    ensures Bit(Doubles(w, n), k) == (k >= n && Bit(w, k - n))
    decreases n
  {
    hide Bit, Double;
    if n > 0 {
      BitDouble(Doubles(w, n - 1), k);
      if k > 0 {
        BitDoubles(w, n - 1, k - 1);
      }
    }
  }

  lemma Up3Is(w: Word)
    ensures Doubles(w, 3) == Up3(w)
  {
    ThreeDoubles(w);
    calc {
      Double(Double(Double(w)));
      Double(Double(w << 1));
      Double((w << 1) << 1);
      ((w << 1) << 1) << 1;
      w << 3;
      Up3(w);
    }
  }

  lemma ThreeDoubles(w: Word)
    ensures Doubles(w, 3) == Double(Double(Double(w)))
  {
    hide Double;
    assert Doubles(w, 1) == Double(w);
    assert Doubles(w, 2) == Double(Double(w));
  }

  lemma Up7Is(w: Word)
    ensures Doubles(w, 7) == Up7(w)
  {
    calc {
      Doubles(w, 7);
      { DoublesMore(w, 3, 4); Up3Is(w); }
      Doubles(w << 3, 4);
      Double(Doubles(w << 3, 3));
      { Up3Is(w << 3); }
      Double((w << 3) << 3);
      ((w << 3) << 3) << 1;
      w << 7;
    }
  }

  lemma {:induction false} DoublesMore(w: Word, m: nat, n: nat)
    ensures Doubles(Doubles(w, m), n) == Doubles(w, m + n)
    decreases n
  {
    hide Double;
    if n > 0 {
      DoublesMore(w, m, n - 1);
    }
  }

  lemma AtUp(w: Word, n: int)
    ensures At(Up3(w), n) == (n % 32 >= 3 && At(w, n - 3))
    ensures At(Up7(w), n) == (n % 32 >= 7 && At(w, n - 7))
  {
    hide Bit, Up3, Up7, Doubles;
    var k := n % 32;
    Up3Is(w);
    Up7Is(w);
    BitDoubles(w, 3, k);
    BitDoubles(w, 7, k);
    assert k >= 3 ==> (n - 3) % 32 == k - 3;
    assert k >= 7 ==> (n - 7) % 32 == k - 7;
  }

  // ---------------------------------------------------------------- the linear transformation

  lemma MixB(x: Quad, n: int)
    ensures At(Mix(x).b, n) == Sum(At(x.b, n - 1), At(x.c, n - 4), At(x.a, n - 14))
  {
    hide At, Xor, RotateLeft, Up3, Up7;
    var a, c := RotateLeft(x.a, 13), RotateLeft(x.c, 3);
    AtTurned(Xor(Xor(x.b, c), a), 1, n);
    AtXor(Xor(x.b, c), a, n - 1);
    AtXor(x.b, c, n - 1);
    AtTurned(x.c, 3, n - 1);
    AtTurned(x.a, 13, n - 1);
  }

  lemma MixD(x: Quad, n: int)
    ensures At(Mix(x).d, n) == Sum(At(x.d, n - 7), At(x.c, n - 10), (n - 7) % 32 >= 3 && At(x.a, n - 23))
  {
    hide At, Xor, RotateLeft, Up3, Up7;
    var a, c := RotateLeft(x.a, 13), RotateLeft(x.c, 3);
    AtTurned(Xor(Xor(x.d, c), Up3(a)), 7, n);
    AtXor(Xor(x.d, c), Up3(a), n - 7);
    AtXor(x.d, c, n - 7);
    AtTurned(x.c, 3, n - 7);
    AtUp(a, n - 7);
    AtTurned(x.a, 13, n - 10);
  }

  lemma MixA(x: Quad, n: int)
    ensures At(Mix(x).a, n) == Sum(At(x.a, n - 18), At(Mix(x).d, n - 5), At(Mix(x).b, n - 5))
  {
    hide At, Xor, RotateLeft, Up3, Up7;
    var a, y := RotateLeft(x.a, 13), Mix(x);
    AtTurned(Xor(Xor(a, y.d), y.b), 5, n);
    AtXor(Xor(a, y.d), y.b, n - 5);
    AtXor(a, y.d, n - 5);
    AtTurned(x.a, 13, n - 5);
  }

  lemma MixC(x: Quad, n: int)
    ensures var y := Mix(x);
            At(y.c, n) == Sum(At(x.c, n - 25), At(y.d, n - 22), (n - 22) % 32 >= 7 && At(y.b, n - 29))
  {
    hide At, Xor, RotateLeft, Up3, Up7;
    var c, y := RotateLeft(x.c, 3), Mix(x);
    AtTurned(Xor(Xor(c, y.d), Up7(y.b)), 22, n);
    AtXor(Xor(c, y.d), Up7(y.b), n - 22);
    AtXor(c, y.d, n - 22);
    AtTurned(x.c, 3, n - 22);
    AtUp(y.b, n - 22);
  }

  /** Every bit of the linear transformation, as a sum of bits of the four words before it. The bits of the second and
      the fourth word, which come first, are used again in the other two. */
  lemma MixBits(x: Quad, n: int)
    ensures var y := Mix(x);
            && At(y.b, n) == Sum(At(x.b, n - 1), At(x.c, n - 4), At(x.a, n - 14))
            && At(y.d, n) == Sum(At(x.d, n - 7), At(x.c, n - 10), (n - 7) % 32 >= 3 && At(x.a, n - 23))
            && At(y.a, n) == Sum(At(x.a, n - 18), At(y.d, n - 5), At(y.b, n - 5))
            && At(y.c, n) == Sum(At(x.c, n - 25), At(y.d, n - 22), (n - 22) % 32 >= 7 && At(y.b, n - 29))
  {
    hide *;
    MixB(x, n);
    MixD(x, n);
    MixA(x, n);
    MixC(x, n);
  }

  // ---------------------------------------------------------------- the prekeys

  /** The constant of the prekeys is the whole part of 2^32 times (the root of 5 minus 1) / 2. */
  lemma GoldenRatio()
    ensures var n := Number(PHI);
            (2 * n + TWO32) * (2 * n + TWO32) <= 5 * TWO32 * TWO32 < (2 * (n + 1) + TWO32) * (2 * (n + 1) + TWO32)
  {
    NumberOfPhi();
    hide Number;
  }

  lemma NumberOfPhi()
    ensures Number(PHI) == 0x9e3779b9
  {
    assert Counter.StoreWord32(PHI) == [0x9e, 0x37, 0x79, 0xb9];
    var b: seq<bv8> := [0x9e, 0x37, 0x79, 0xb9];
    assert b[..3][..2][..1] == [0x9e] && b[..3][..2] == [0x9e, 0x37] && b[..3] == [0x9e, 0x37, 0x79];
    assert Counter.Value(b[..3][..2][..1]) == 0x9e;
    assert Counter.Value(b[..3][..2]) == 0x9e37;
    assert Counter.Value(b[..3]) == 0x9e3779;
  }

  lemma PrekeyIs(key: Words.Bytes, i: nat)
    requires |key| <= 32
    ensures Prekey(key, i + 8)
         == Next(Prekey(key, i), Prekey(key, i + 3), Prekey(key, i + 5), Prekey(key, i + 7), i)
  {
    hide Next, LoadLe;
  }

  /** Every bit of a prekey past the key: the bits eleven places down of four earlier prekeys, of the constant and of
      the index. */
  lemma PrekeyBits(key: Words.Bytes, i: nat, n: int)
    requires |key| <= 32
    ensures Number(Of(i)) == i % TWO32
    ensures At(Prekey(key, i + 8), n)
         == Sum(Sum(At(Prekey(key, i), n - 11), At(Prekey(key, i + 3), n - 11), At(Prekey(key, i + 5), n - 11)),
                At(Prekey(key, i + 7), n - 11), At(PHI, n - 11) != At(Of(i), n - 11))
  {
    hide At, Xor, RotateLeft, Of, PHI, Prekey;
    var w8, w5, w3, w1 := Prekey(key, i), Prekey(key, i + 3), Prekey(key, i + 5), Prekey(key, i + 7);
    NumberOf(i);
    PrekeyIs(key, i);
    var m := n - 11;
    AtTurned(Xor(Xor(Xor(Xor(Xor(w8, w5), w3), w1), PHI), Of(i)), 11, n);
    AtXor(Xor(Xor(Xor(Xor(w8, w5), w3), w1), PHI), Of(i), m);
    AtXor(Xor(Xor(Xor(w8, w5), w3), w1), PHI, m);
    AtXor(Xor(Xor(w8, w5), w3), w1, m);
    AtXor(Xor(w8, w5), w3, m);
    AtXor(w8, w5, m);
  }
}
