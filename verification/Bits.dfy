/** The bits of a 32-bit word. */
module Bits {
  type Word = bv32

  function And(a: Word, b: Word): Word { a & b }
  function Or(a: Word, b: Word): Word { a | b }
  function Xor(a: Word, b: Word): Word { a ^ b }
  function Not(a: Word): Word { !a }
  function Low(a: Word): bool { a & 1 != 0 }
  function Half(a: Word): Word { a >> 1 }
  function Double(a: Word): Word { a << 1 }

  lemma XorAssoc(a: Word, b: Word, c: Word)
    ensures Xor(Xor(a, b), c) == Xor(a, Xor(b, c))
  {
    calc {
      Xor(Xor(a, b), c);
      Xor(a ^ b, c);
      Xor(a, b ^ c);
      Xor(a, Xor(b, c));
    }
  }

  lemma XorUnit(a: Word)
    ensures Xor(a, a) == 0 && Xor(a, 0) == a && Xor(0, a) == a
  {}

  lemma XorComm(a: Word, b: Word)
    ensures Xor(a, b) == Xor(b, a)
  {}

  lemma XorTwice(a: Word, w: Word)
    ensures Xor(Xor(a, w), w) == a
  {
    hide Xor;
    XorAssoc(a, w, w);
    XorUnit(w);
    XorUnit(a);
  }

  /** Bit n, counted from the least significant one. */
  function Bit(a: Word, n: nat): bool
    decreases n
  {
    if n == 0 then Low(a) else Bit(Half(a), n - 1)
  }

  lemma AndParts(a: Word, b: Word)
    ensures Low(And(a, b)) == (Low(a) && Low(b)) && Half(And(a, b)) == And(Half(a), Half(b))
  {
    calc {
      Low(And(a, b));
      Low(a & b);
      (a & b) & 1 != 0;
      a & 1 != 0 && b & 1 != 0;
    }
    calc {
      Half(And(a, b));
      Half(a & b);
      And(a >> 1, b >> 1);
    }
  }

  lemma OrParts(a: Word, b: Word)
    ensures Low(Or(a, b)) == (Low(a) || Low(b)) && Half(Or(a, b)) == Or(Half(a), Half(b))
  {
    calc {
      Low(Or(a, b));
      Low(a | b);
      (a | b) & 1 != 0;
      a & 1 != 0 || b & 1 != 0;
    }
    calc {
      Half(Or(a, b));
      Half(a | b);
      Or(a >> 1, b >> 1);
    }
  }

  lemma {:induction false} BitAnd(a: Word, b: Word, n: nat)
    ensures Bit(And(a, b), n) == (Bit(a, n) && Bit(b, n))
    decreases n
  {
    hide And, Low, Half;
    AndParts(a, b);
    if n > 0 {
      BitAnd(Half(a), Half(b), n - 1);
    }
  }

  lemma {:induction false} BitOr(a: Word, b: Word, n: nat)
    ensures Bit(Or(a, b), n) == (Bit(a, n) || Bit(b, n))
    decreases n
  {
    hide Or, Low, Half;
    OrParts(a, b);
    if n > 0 {
      BitOr(Half(a), Half(b), n - 1);
    }
  }

  lemma XorLow(a: Word, b: Word)
    ensures Low(Xor(a, b)) == (Low(a) != Low(b))
  {
    calc {
      Low(Xor(a, b));
      Low(a ^ b);
      (a ^ b) & 1 != 0;
      (a & 1 != 0) != (b & 1 != 0);
    }
  }

  lemma XorHalf(a: Word, b: Word)
    ensures Half(Xor(a, b)) == Xor(Half(a), Half(b))
  {
    calc {
      Half(Xor(a, b));
      Half(a ^ b);
      Xor(a >> 1, b >> 1);
    }
  }

  lemma {:induction false} BitXor(a: Word, b: Word, n: nat)
    ensures Bit(Xor(a, b), n) == (Bit(a, n) != Bit(b, n))
    decreases n
  {
    hide Xor, Low, Half;
    XorLow(a, b);
    XorHalf(a, b);
    if n > 0 {
      BitXor(Half(a), Half(b), n - 1);
    }
  }

  lemma Parts31(a: Word)
    ensures Half(Double(a)) == And(a, 0x7fffffff) && !Low(Double(a))
  {
    calc {
      Half(Double(a));
      Half(a << 1);
      (a << 1) >> 1;
      a & 0x7fffffff;
      And(a, 0x7fffffff);
    }
    EvenDouble(a);
  }

  lemma EvenDouble(a: Word)
    ensures !Low(Double(a))
  {
    assert (a << 1) & 1 == 0;
  }

  /** The word whose bits below k are set. */
  function Ones(k: nat): Word {
    if k == 0 then 0 else Or(Double(Ones(k - 1)), 1)
  }

  lemma OnesParts(a: Word)
    ensures Low(Or(Double(a), 1)) && Half(Or(Double(a), 1)) == And(a, 0x7fffffff)
  {
    calc {
      Low(Or(Double(a), 1));
      Low((a << 1) | 1);
      true;
    }
    calc {
      Half(Or(Double(a), 1));
      Half((a << 1) | 1);
      ((a << 1) | 1) >> 1;
      a & 0x7fffffff;
      And(a, 0x7fffffff);
    }
  }

  /** Ones, as literals. */
  lemma OnesAre()
    ensures Ones(0) == 0x0 && Ones(1) == 0x1 && Ones(2) == 0x3 && Ones(3) == 0x7
    ensures Ones(4) == 0xf && Ones(5) == 0x1f && Ones(6) == 0x3f && Ones(7) == 0x7f
    ensures Ones(8) == 0xff && Ones(9) == 0x1ff && Ones(10) == 0x3ff && Ones(11) == 0x7ff
    ensures Ones(12) == 0xfff && Ones(13) == 0x1fff && Ones(14) == 0x3fff && Ones(15) == 0x7fff
    ensures Ones(16) == 0xffff && Ones(17) == 0x1ffff && Ones(18) == 0x3ffff && Ones(19) == 0x7ffff
    ensures Ones(20) == 0xfffff && Ones(21) == 0x1fffff && Ones(22) == 0x3fffff && Ones(23) == 0x7fffff
    ensures Ones(24) == 0xffffff && Ones(25) == 0x1ffffff && Ones(26) == 0x3ffffff && Ones(27) == 0x7ffffff
    ensures Ones(28) == 0xfffffff && Ones(29) == 0x1fffffff && Ones(30) == 0x3fffffff && Ones(31) == 0x7fffffff
  {
    hide Or, Double;
    OnesNext(0, 0x0, 0x1);
    OnesNext(1, 0x1, 0x3);
    OnesNext(2, 0x3, 0x7);
    OnesNext(3, 0x7, 0xf);
    OnesNext(4, 0xf, 0x1f);
    OnesNext(5, 0x1f, 0x3f);
    OnesNext(6, 0x3f, 0x7f);
    OnesNext(7, 0x7f, 0xff);
    OnesNext(8, 0xff, 0x1ff);
    OnesNext(9, 0x1ff, 0x3ff);
    OnesNext(10, 0x3ff, 0x7ff);
    OnesNext(11, 0x7ff, 0xfff);
    OnesNext(12, 0xfff, 0x1fff);
    OnesNext(13, 0x1fff, 0x3fff);
    OnesNext(14, 0x3fff, 0x7fff);
    OnesNext(15, 0x7fff, 0xffff);
    OnesNext(16, 0xffff, 0x1ffff);
    OnesNext(17, 0x1ffff, 0x3ffff);
    OnesNext(18, 0x3ffff, 0x7ffff);
    OnesNext(19, 0x7ffff, 0xfffff);
    OnesNext(20, 0xfffff, 0x1fffff);
    OnesNext(21, 0x1fffff, 0x3fffff);
    OnesNext(22, 0x3fffff, 0x7fffff);
    OnesNext(23, 0x7fffff, 0xffffff);
    OnesNext(24, 0xffffff, 0x1ffffff);
    OnesNext(25, 0x1ffffff, 0x3ffffff);
    OnesNext(26, 0x3ffffff, 0x7ffffff);
    OnesNext(27, 0x7ffffff, 0xfffffff);
    OnesNext(28, 0xfffffff, 0x1fffffff);
    OnesNext(29, 0x1fffffff, 0x3fffffff);
    OnesNext(30, 0x3fffffff, 0x7fffffff);
  }

  lemma OnesNext(k: nat, m: Word, n: Word)
    requires Ones(k) == m && n == (m << 1) | 1
    ensures Ones(k + 1) == n
  {
    calc {
      Ones(k + 1);
      Or(Double(m), 1);
      Or(m << 1, 1);
      n;
    }
  }

  lemma {:induction false} OnesSmall(k: nat)
    requires k <= 31
    ensures And(Ones(k), 0x7fffffff) == Ones(k)
  {
    OnesAre();
  }

  lemma {:induction false} NoBits(n: nat)
    ensures !Bit(0, n)
    decreases n
  {
    if n > 0 {
      assert Half(0) == 0;
      NoBits(n - 1);
    }
  }

  lemma {:induction false} BitOnes(k: nat, n: nat)
    requires k <= 31
    ensures Bit(Ones(k), n) == (n < k)
    decreases n
  {
    hide And, Or, Low, Half, Double;
    if k == 0 {
      NoBits(n);
    } else {
      OnesParts(Ones(k - 1));
      OnesSmall(k - 1);
      if n > 0 {
        BitOnes(k - 1, n - 1);
      }
    }
  }

  lemma Literal31()
    ensures Ones(31) == 0x7fffffff
  {
    OnesAre();
  }

  /** The bits that are the same in both words. */
  function Same(a: Word, b: Word): Word { Xor(Not(a), b) }

  lemma SameLow(a: Word, b: Word)
    ensures Low(Same(a, b)) == (Low(a) == Low(b))
  {
    calc {
      Low(Same(a, b));
      Low(Xor(!a, b));
      Low(!a ^ b);
      (!a ^ b) & 1 != 0;
      (a & 1 != 0) == (b & 1 != 0);
    }
  }

  lemma SameHalf(a: Word, b: Word)
    ensures Half(Same(a, b)) == And(Same(Half(a), Half(b)), 0x7fffffff)
  {
    calc {
      And(Same(Half(a), Half(b)), 0x7fffffff);
      And(Xor(!(a >> 1), b >> 1), 0x7fffffff);
      And(!(a >> 1) ^ (b >> 1), 0x7fffffff);
      (!(a >> 1) ^ (b >> 1)) & 0x7fffffff;
      (!a ^ b) >> 1;
      Half(!a ^ b);
      Half(Xor(!a, b));
      Half(Same(a, b));
    }
  }

  lemma {:induction false} BitSame(a: Word, b: Word, n: nat)
    requires n < 32
    ensures Bit(Same(a, b), n) == (Bit(a, n) == Bit(b, n))
    decreases n
  {
    hide And, Same, Low, Half, Ones;
    SameLow(a, b);
    SameHalf(a, b);
    if n > 0 {
      BitAnd(Same(Half(a), Half(b)), 0x7fffffff, n - 1);
      Literal31();
      BitOnes(31, n - 1);
      BitSame(Half(a), Half(b), n - 1);
    }
  }

  lemma BitDouble(a: Word, n: nat)
    requires n < 32
    ensures Bit(Double(a), n) == (n > 0 && Bit(a, n - 1))
  {
    hide And, Low, Half, Double, Ones;
    Parts31(a);
    if n > 0 {
      BitAnd(a, 0x7fffffff, n - 1);
      Literal31();
      BitOnes(31, n - 1);
    }
  }

  lemma BitHalf(a: Word, n: nat)
    ensures Bit(Half(a), n) == Bit(a, n + 1)
  {}

  lemma BitNot(a: Word, n: nat)
    requires n < 32
    ensures Bit(Not(a), n) == !Bit(a, n)
  {
    hide Bit, Not;
    BitSame(a, 0, n);
    NoBits(n);
    assert Same(a, 0) == Not(a);
  }

  // ---------------------------------------------------------------- all bits

  function Halves(a: Word, k: nat): Word {
    if k == 0 then a else Halves(Half(a), k - 1)
  }

  lemma {:induction false} ZeroBits(a: Word, k: nat)
    requires Halves(a, k) == 0 && forall n :: 0 <= n < k ==> !Bit(a, n)
    ensures a == 0
    decreases k
  {
    hide Half, Low;
    if k > 0 {
      assert !Bit(a, 0);
      forall n | 0 <= n < k - 1
        ensures !Bit(Half(a), n)
      {
        assert !Bit(a, n + 1);
      }
      ZeroBits(Half(a), k - 1);
      ZeroParts(a);
    }
  }

  lemma ZeroParts(a: Word)
    requires Half(a) == 0 && !Low(a)
    ensures a == 0
  {}

  lemma HalvesMore(a: Word, j: nat, k: nat)
    ensures Halves(a, j + k) == Halves(Halves(a, j), k)
    decreases j
  {
    hide Half;
    if j > 0 {
      HalvesMore(Half(a), j - 1, k);
    }
  }

  function Down4(a: Word): Word { a >> 4 }
  function Down16(a: Word): Word { a >> 16 }

  lemma Halves4(a: Word)
    ensures Halves(a, 4) == Down4(a)
  {
    calc {
      Halves(a, 4);
      Halves(a >> 1, 3);
      Halves((a >> 1) >> 1, 2);
      Halves(((a >> 1) >> 1) >> 1, 1);
      Halves((((a >> 1) >> 1) >> 1) >> 1, 0);
      (((a >> 1) >> 1) >> 1) >> 1;
      a >> 4;
    }
  }

  lemma Down4Four(a: Word)
    ensures Down4(Down4(Down4(Down4(a)))) == Down16(a)
  {
    calc {
      Down4(Down4(Down4(Down4(a))));
      Down4(Down4(Down4(a >> 4)));
      Down4(Down4((a >> 4) >> 4));
      Down4(((a >> 4) >> 4) >> 4);
      (((a >> 4) >> 4) >> 4) >> 4;
      a >> 16;
    }
  }

  lemma Halves16(a: Word)
    ensures Halves(a, 16) == Down16(a)
  {
    hide Halves, Down4, Down16;
    var b := Down4(a);
    HalvesMore(a, 4, 12);
    Halves4(a);
    HalvesMore(b, 4, 8);
    Halves4(b);
    HalvesMore(Down4(b), 4, 4);
    Halves4(Down4(b));
    Halves4(Down4(Down4(b)));
    Down4Four(a);
  }

  lemma Down16Twice(a: Word)
    ensures Down16(Down16(a)) == 0
  {
    calc {
      Down16(Down16(a));
      Down16(a >> 16);
      (a >> 16) >> 16;
      0;
    }
  }

  lemma NoHalves(a: Word)
    ensures Halves(a, 32) == 0
  {
    hide Halves, Down16;
    HalvesMore(a, 16, 16);
    Halves16(a);
    Halves16(Down16(a));
    Down16Twice(a);
  }

  /** Words with the same bits are equal. */
  lemma SameBits(a: Word, b: Word)
    requires forall n :: 0 <= n < 32 ==> Bit(a, n) == Bit(b, n)
    ensures a == b
  {
    hide Bit, Xor, Halves;
    forall n | 0 <= n < 32
      ensures !Bit(Xor(a, b), n)
    {
      BitXor(a, b, n);
    }
    NoHalves(Xor(a, b));
    ZeroBits(Xor(a, b), 32);
    XorZeroSame(a, b);
  }

  lemma XorZeroSame(a: Word, b: Word)
    requires Xor(a, b) == 0
    ensures a == b
  {}
}
