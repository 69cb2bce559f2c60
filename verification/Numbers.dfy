/** The numbers that 32-bit words stand for: sums and products modulo 2^32. */
module Numbers {
  import opened Bits
  import opened Counter

  function Add(a: Word, b: Word): Word { a + b }
  function Sub(a: Word, b: Word): Word { a - b }
  function Times(a: Word, b: Word): Word { a * b }

  const TWO32 := 0x1_0000_0000

  /** The number of a word, from its bytes. */
  function Number(w: Word): (n: nat)
    ensures n < TWO32
  {
    ValueBound(StoreWord32(w));
    PowFour();
    Value(StoreWord32(w))
  }

  /** n ones added up. */
  function Of(n: nat): Word {
    if n == 0 then 0 else NextWord(Of(n - 1))
  }

  lemma NumberNext(w: Word)
    ensures Number(NextWord(w)) == if Number(w) + 1 == TWO32 then 0 else Number(w) + 1
  {
    hide NextWord, StoreWord32, Value, Next, Pow256;
    NextWord32(w);
    NextAddsOne(StoreWord32(w));
    PowFour();
  }

  lemma NumberZero()
    ensures Number(0) == 0
  {
    assert StoreWord32(0) == [0, 0, 0, 0];
    assert ByteValue(0) == 0;
    hide ByteValue;
    var b: seq<bv8> := [0, 0, 0, 0];
    assert b[..3][..2][..1] == [0] && b[..3][..2] == [0, 0] && b[..3] == [0, 0, 0];
    assert Value(b[..3][..2][..1]) == 0;
    assert Value(b[..3][..2]) == 0;
    assert Value(b[..3]) == 0;
  }

  lemma {:induction false} NumberOf(n: nat)
    ensures Number(Of(n)) == n % TWO32
  {
    hide Number, NextWord;
    if n == 0 {
      NumberZero();
    } else {
      NumberOf(n - 1);
      NumberNext(Of(n - 1));
    }
  }

  lemma NumberInjective(a: Word, b: Word)
    requires Number(a) == Number(b)
    ensures a == b
  {
    hide StoreWord32, LoadWord32, Value;
    ValueInjective(StoreWord32(a), StoreWord32(b));
    LoadStore32(a);
    LoadStore32(b);
  }

  lemma OfNumber(w: Word)
    ensures Of(Number(w)) == w
  {
    hide Number, Of;
    NumberOf(Number(w));
    NumberInjective(Of(Number(w)), w);
  }

  lemma AddNext(a: Word, b: Word)
    ensures Add(a, NextWord(b)) == NextWord(Add(a, b)) && Add(a, 0) == a
  {
    calc {
      Add(a, NextWord(b));
      Add(a, b + 1);
      a + (b + 1);
      (a + b) + 1;
      NextWord(a + b);
      NextWord(Add(a, b));
    }
  }

  lemma TimesNext(a: Word, b: Word)
    ensures Times(a, NextWord(b)) == Add(Times(a, b), a) && Times(a, 0) == 0
  {
    calc {
      Times(a, NextWord(b));
      Times(a, b + 1);
      a * (b + 1);
      a * b + a;
      Add(a * b, a);
      Add(Times(a, b), a);
    }
  }

  lemma {:induction false} OfAdd(m: nat, n: nat)
    ensures Of(m + n) == Add(Of(m), Of(n))
    decreases n
  {
    hide Add, NextWord;
    if n == 0 {
      AddNext(Of(m), 0);
    } else {
      OfAdd(m, n - 1);
      AddNext(Of(m), Of(n - 1));
      assert m + n - 1 == m + (n - 1);
    }
  }

  lemma {:induction false} OfTimes(m: nat, n: nat)
    ensures m * n >= 0 && Of(m * n) == Times(Of(m), Of(n))
    decreases n
  {
    hide Add, Times, NextWord;
    if n == 0 {
      TimesNext(Of(m), 0);
    } else {
      OfTimes(m, n - 1);
      TimesNext(Of(m), Of(n - 1));
      OfAdd(m * (n - 1), m);
      assert m * n == m * (n - 1) + m;
    }
  }

  /** Addition and multiplication of words are those of their numbers modulo 2^32. */
  lemma Sums(a: Word, b: Word)
    ensures Number(Add(a, b)) == (Number(a) + Number(b)) % TWO32
  {
    hide Number, Of, Add;
    OfNumber(a);
    OfNumber(b);
    OfAdd(Number(a), Number(b));
    NumberOf(Number(a) + Number(b));
  }

  lemma Products(a: Word, b: Word)
    ensures Number(a) * Number(b) >= 0 && Number(Times(a, b)) == (Number(a) * Number(b)) % TWO32
  {
    hide Number, Of, Times;
    OfNumber(a);
    OfNumber(b);
    OfTimes(Number(a), Number(b));
    NumberOf(Number(a) * Number(b));
  }

  /** The number of a word in memory. */
  lemma BigEndian(b: seq<bv8>)
    requires |b| == 4
    ensures Number(LoadWord32(b)) == Value(b)
  {
    hide Value, LoadWord32, StoreWord32;
    StoreLoadWord32(b);
  }
}
