/** The numbers that 64-bit words stand for, and the 128-bit number of two of them. */
module LongNumbers {
  import opened Words
  import opened Counter

  /** A count as a 64-bit size_t: reduced modulo 2^64. */
  function Size(n: nat): bv64 {
    if n == 0 then 0 else AddWord(Size(n - 1), 1)
  }

  lemma SizeZero()
    ensures Size(0) == 0
  {}

  function AddWord(a: bv64, b: bv64): bv64 { a + b }

  lemma {:induction false} SizeAdd(m: nat, n: nat)
    ensures Size(m + n) == AddWord(Size(m), Size(n))
  {
    hide AddWord;
    if n == 0 {
      AddWordUnit(Size(m));
    } else {
      SizeAdd(m, n - 1);
      AddWordAssoc(Size(m), Size(n - 1), 1);
    }
  }

  lemma AddWordUnit(a: bv64)
    ensures AddWord(a, 0) == a
  {}

  lemma AddWordAssoc(a: bv64, b: bv64, c: bv64)
    ensures AddWord(AddWord(a, b), c) == AddWord(a, AddWord(b, c))
  {
    calc {
      AddWord(AddWord(a, b), c);
      AddWord(a + b, c);
      AddWord(a, b + c);
      AddWord(a, AddWord(b, c));
    }
  }

  function UpperHalf(w: bv64): bv32 { (w >> 32) as bv32 }
  function LowerHalf(w: bv64): bv32 { (w & 0xffffffff) as bv32 }

  lemma UpperBytes(w: bv64)
    ensures StoreWord32(UpperHalf(w))
         == [(w >> 56) as bv8, ((w >> 48) & 0xff) as bv8, ((w >> 40) & 0xff) as bv8, ((w >> 32) & 0xff) as bv8]
  {
    calc {
      StoreWord32(UpperHalf(w));
      StoreWord32((w >> 32) as bv32);
      [(((w >> 32) as bv32) >> 24) as bv8, ((((w >> 32) as bv32) >> 16) & 0xff) as bv8,
       ((((w >> 32) as bv32) >> 8) & 0xff) as bv8, (((w >> 32) as bv32) & 0xff) as bv8];
      [(w >> 56) as bv8, ((w >> 48) & 0xff) as bv8, ((w >> 40) & 0xff) as bv8, ((w >> 32) & 0xff) as bv8];
    }
  }

  lemma LowerBytes(w: bv64)
    ensures StoreWord32(LowerHalf(w))
         == [((w >> 24) & 0xff) as bv8, ((w >> 16) & 0xff) as bv8, ((w >> 8) & 0xff) as bv8, (w & 0xff) as bv8]
  {
    calc {
      StoreWord32(LowerHalf(w));
      StoreWord32((w & 0xffffffff) as bv32);
      [(((w & 0xffffffff) as bv32) >> 24) as bv8, ((((w & 0xffffffff) as bv32) >> 16) & 0xff) as bv8,
       ((((w & 0xffffffff) as bv32) >> 8) & 0xff) as bv8, (((w & 0xffffffff) as bv32) & 0xff) as bv8];
      [((w >> 24) & 0xff) as bv8, ((w >> 16) & 0xff) as bv8, ((w >> 8) & 0xff) as bv8, (w & 0xff) as bv8];
    }
  }

  lemma StoreHalves(w: bv64)
    ensures StoreWord(w) == StoreWord32(UpperHalf(w)) + StoreWord32(LowerHalf(w))
  {
    hide StoreWord32, UpperHalf, LowerHalf;
    UpperBytes(w);
    LowerBytes(w);
  }

  lemma NextLower(w: bv64)
    ensures LowerHalf(AddWord(w, 1)) == NextWord(LowerHalf(w))
  {
    calc {
      LowerHalf(AddWord(w, 1));
      LowerHalf(w + 1);
      ((w + 1) & 0xffffffff) as bv32;
      ((w & 0xffffffff) as bv32) + 1;
      NextWord((w & 0xffffffff) as bv32);
      NextWord(LowerHalf(w));
    }
  }

  /** The carry into the upper half. */
  lemma NextUpper(w: bv64)
    ensures UpperHalf(AddWord(w, 1)) == if LowerHalf(w) == 0xffffffff then NextWord(UpperHalf(w)) else UpperHalf(w)
  {}

  lemma StoreNext(w: bv64)
    ensures StoreWord(AddWord(w, 1)) == Next(StoreWord(w))
  {
    hide StoreWord, StoreWord32, Next, NextWord, UpperHalf, LowerHalf, AddWord;
    var u, l := UpperHalf(w), LowerHalf(w);
    StoreHalves(w);
    StoreHalves(AddWord(w, 1));
    NextLower(w);
    NextUpper(w);
    NextWord32(u);
    NextWord32(l);
    NextAppend(StoreWord32(u), StoreWord32(l));
    LastWord(l);
    if l != 0xffffffff {
      assert exists j :: 0 <= j < 4 && StoreWord32(l)[j] != 0xff;
    }
  }

  lemma LastWord(w: bv32)
    ensures w == 0xffffffff ==> StoreWord32(w) == [0xff, 0xff, 0xff, 0xff]
    ensures w != 0xffffffff ==> exists j :: 0 <= j < 4 && StoreWord32(w)[j] != 0xff
  {
    var b := StoreWord32(w);
    if b[0] == 0xff && b[1] == 0xff && b[2] == 0xff && b[3] == 0xff {
      LoadStore32(w);
    }
  }

  /** A size_t holds the number modulo 2^64. */
  lemma {:induction false} SizeValue(n: nat)
    ensures Value(StoreWord(Size(n))) == n % 0x1_0000_0000_0000_0000
  {
    hide StoreWord, AddWord, Value, Pow256;
    if n == 0 {
      ZeroWord();
    } else {
      SizeValue(n - 1);
      StoreNext(Size(n - 1));
      NextAddsOne(StoreWord(Size(n - 1)));
      PowEight();
    }
  }

  lemma ZeroWord()
    ensures Value(StoreWord(0)) == 0
  {
    assert StoreWord(0) == Zeros(8);
    NoValue(8);
  }

  lemma {:induction false} NoValue(n: nat)
    ensures Value(Zeros(n)) == 0
  {
    if n > 0 {
      NoValue(n - 1);
      assert Zeros(n)[..n - 1] == Zeros(n - 1);
    }
  }

  lemma PowEight()
    ensures Pow256(8) == 0x1_0000_0000_0000_0000
  {
    PowFour();
    assert Pow256(6) == 0x1_0000_0000_0000;
  }

  // ---------------------------------------------------------------- numbers of words

  const TWO64 := 0x1_0000_0000_0000_0000

  /** The number of a word, from its bytes. */
  function Long(w: bv64): (n: nat)
    ensures n < TWO64
  {
    ValueBound(StoreWord(w));
    PowEight();
    Value(StoreWord(w))
  }

  lemma LongInjective(a: bv64, b: bv64)
    requires Long(a) == Long(b)
    ensures a == b
  {
    hide StoreWord, LoadWord, Value;
    ValueInjective(StoreWord(a), StoreWord(b));
    LoadStoreWord(a);
    LoadStoreWord(b);
  }

  lemma SizeOfLong(w: bv64)
    ensures Size(Long(w)) == w
  {
    hide Long, Size;
    LongOfSize(Long(w));
    LongInjective(Size(Long(w)), w);
  }

  lemma LongOfSize(n: nat)
    ensures Long(Size(n)) == n % TWO64
  {
    hide StoreWord, Value, Size;
    SizeValue(n);
  }

  /** Addition of words is that of their numbers modulo 2^64. */
  lemma LongSums(a: bv64, b: bv64)
    ensures Long(AddWord(a, b)) == (Long(a) + Long(b)) % TWO64
  {
    hide Long, Size, AddWord;
    SizeOfLong(a);
    SizeOfLong(b);
    SizeAdd(Long(a), Long(b));
    LongOfSize(Long(a) + Long(b));
  }

  // ---------------------------------------------------------------- the most significant bit

  function HighBit(w: bv64): bv64 { w >> 63 }

  lemma {:induction false} TopDigit(b: Bytes)
    requires b != []
    ensures ByteValue(b[0]) * Pow256(|b| - 1) <= Value(b) < (ByteValue(b[0]) + 1) * Pow256(|b| - 1)
    decreases |b|
  {
    hide ByteValue, Pow256;
    var m, x := |b| - 1, ByteValue(b[0]);
    PowNext(m);
    if m > 0 {
      var c := b[..m];
      TopDigit(c);
      ByteRange(b[m]);
      var p := Pow256(m - 1);
      Scaled(x, p, Pow256(m));
      Scaled(x + 1, p, Pow256(m));
      DigitBounds(x * p, (x + 1) * p, Value(c), ByteValue(b[m]));
    } else {
      assert b == [b[0]] && b[..0] == [];
    }
  }

  lemma PowNext(m: nat)
    ensures Pow256(0) == 1 && (m > 0 ==> Pow256(m) == 256 * Pow256(m - 1))
  {}

  lemma Scaled(x: nat, p: nat, q: nat)
    requires q == 256 * p
    ensures x * q == 256 * (x * p)
  {}

  lemma DigitBounds(low: nat, high: nat, v: nat, d: nat)
    requires low <= v < high && d < 256
    ensures 256 * low <= 256 * v + d < 256 * high
  {}

  lemma TopOfByte(w: bv64)
    ensures HighBit(w) == if ByteValue(StoreWord(w)[0]) >= 128 then 1 else 0
  {}

  lemma HighBitIs(w: bv64)
    ensures HighBit(w) == if Long(w) >= 0x8000_0000_0000_0000 then 1 else 0
  {
    hide HighBit, StoreWord, ByteValue, Value;
    var b := StoreWord(w);
    TopOfByte(w);
    TopDigit(b);
    ByteRange(b[0]);
    SevenBytes();
  }

  lemma SevenBytes()
    ensures Pow256(7) == 0x100_0000_0000_0000
  {
    PowFour();
    assert Pow256(6) == 0x1_0000_0000_0000;
  }
}
