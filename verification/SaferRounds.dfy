/** The rounds of SAFER in numbers: powers of 45 modulo 257, sums modulo 256, and the weights of the three-level
    pseudo-Hadamard transform. */
module SaferRounds {
  import opened Arithmetic
  import opened Counter
  import opened Endian
  import opened SaferSpec
  import opened SaferTables
  import opened Words

  // ---------------------------------------------------------------- sums of bytes

  /** n ones added up. */
  function Of(n: nat): bv8 {
    if n == 0 then 0 else NextByte(Of(n - 1))
  }

  lemma NumberNext(b: bv8)
    ensures ByteValue(NextByte(b)) == (ByteValue(b) + 1) % 256
  {
    hide ByteValue, NextByte;
    NextByteValue(b);
    WrapByte(b);
    ZeroByte();
  }

  lemma ZeroByte()
    ensures ByteValue(0) == 0
  {}

  lemma {:induction false} NumberOf(n: nat)
    ensures ByteValue(Of(n)) == n % 256
  {
    hide ByteValue, NextByte;
    if n == 0 {
      ZeroByte();
    } else {
      NumberOf(n - 1);
      NumberNext(Of(n - 1));
    }
  }

  lemma OfNumber(b: bv8)
    ensures Of(ByteValue(b)) == b
  {
    hide ByteValue, Of;
    ByteRange(b);
    NumberOf(ByteValue(b));
    SameByte(Of(ByteValue(b)), b);
  }

  lemma AddNext(a: bv8, b: bv8)
    ensures AddByte(a, NextByte(b)) == NextByte(AddByte(a, b)) && AddByte(a, 0) == a
  {}

  lemma {:induction false} OfAdd(m: nat, n: nat)
    ensures Of(m + n) == AddByte(Of(m), Of(n))
    decreases n
  {
    hide AddByte, NextByte;
    if n == 0 {
      AddNext(Of(m), 0);
    } else {
      OfAdd(m, n - 1);
      AddNext(Of(m), Of(n - 1));
      assert m + n - 1 == m + (n - 1);
    }
  }

  lemma Sums(a: bv8, b: bv8)
    ensures ByteValue(AddByte(a, b)) == (ByteValue(a) + ByteValue(b)) % 256
  {
    hide ByteValue, Of, AddByte;
    OfNumber(a);
    OfNumber(b);
    OfAdd(ByteValue(a), ByteValue(b));
    NumberOf(ByteValue(a) + ByteValue(b));
  }

  // ---------------------------------------------------------------- the transform

  lemma FIs(l: bv8, r: bv8)
    ensures F0(l, r) == AddByte(AddByte(l, l), r) && F1(l, r) == AddByte(l, r)
  {
    calc {
      AddByte(AddByte(l, l), r);
      AddByte(l + l, r);
      (l + l) + r;
      (l << 1) + r;
      F0(l, r);
    }
  }

  /** A byte that is a number modulo 256. */
  predicate Is(b: bv8, n: nat) { ByteValue(b) == n % 256 }

  lemma FNumbers(l: bv8, r: bv8, m: nat, n: nat)
    requires Is(l, m) && Is(r, n)
    ensures Is(F0(l, r), 2 * m + n) && Is(F1(l, r), m + n)
  {
    hide ByteValue, AddByte, F0, F1;
    FIs(l, r);
    Sums(l, l);
    Sums(AddByte(l, l), r);
    Sums(l, r);
    ModSum(m, n);
  }

  lemma ModSum(m: nat, n: nat)
    ensures ((m % 256 + m % 256) % 256 + n % 256) % 256 == (2 * m + n) % 256
    ensures (m % 256 + n % 256) % 256 == (m + n) % 256
  {
    ModAddBoth(m, m);
    ModAddBoth(m, n);
    ModAddBoth(2 * m, n);
  }

  lemma ModAddBoth(m: nat, n: nat)
    ensures (m % 256 + n % 256) % 256 == (m + n) % 256
  {
    SumDivMod(m, n, 256);
    SumDivMod(n, m % 256, 256);
  }

  /** The weight of byte j in byte i. */
  function Weight(i: nat, j: nat): nat
    requires i < 8 && j < 8
  {
    [[8, 4, 4, 2, 4, 2, 2, 1],
     [4, 2, 2, 1, 4, 2, 2, 1],
     [4, 4, 2, 2, 2, 2, 1, 1],
     [2, 2, 1, 1, 2, 2, 1, 1],
     [4, 2, 4, 2, 2, 1, 2, 1],
     [2, 1, 2, 1, 2, 1, 2, 1],
     [2, 2, 2, 2, 1, 1, 1, 1],
     [1, 1, 1, 1, 1, 1, 1, 1]][i][j]
  }

  /** The first n numbers with their weights in byte i, added up. */
  function Weighted(v: seq<nat>, i: nat, n: nat): nat
    requires |v| == 8 && i < 8 && n <= 8
  {
    if n == 0 then 0 else Weighted(v, i, n - 1) + Weight(i, n - 1) * v[n - 1]
  }

  lemma WeightedIs(v: seq<nat>, i: nat)
    requires |v| == 8 && i < 8
    ensures Weighted(v, i, 8)
         == Weight(i, 0) * v[0] + Weight(i, 1) * v[1] + Weight(i, 2) * v[2] + Weight(i, 3) * v[3]
            + Weight(i, 4) * v[4] + Weight(i, 5) * v[5] + Weight(i, 6) * v[6] + Weight(i, 7) * v[7]
  {
    hide Weight;
    assert Weighted(v, i, 1) == Weight(i, 0) * v[0];
    assert Weighted(v, i, 2) == Weighted(v, i, 1) + Weight(i, 1) * v[1];
    assert Weighted(v, i, 3) == Weighted(v, i, 2) + Weight(i, 2) * v[2];
    assert Weighted(v, i, 4) == Weighted(v, i, 3) + Weight(i, 3) * v[3];
    assert Weighted(v, i, 5) == Weighted(v, i, 4) + Weight(i, 4) * v[4];
    assert Weighted(v, i, 6) == Weighted(v, i, 5) + Weight(i, 5) * v[5];
    assert Weighted(v, i, 7) == Weighted(v, i, 6) + Weight(i, 6) * v[6];
  }

  /** The weights, level by level. */
  lemma LevelsLow(v: seq<nat>, a: seq<nat>, b: seq<nat>, i: nat)
    requires |v| == 8 && i < 4
    requires a == [2 * v[0] + v[1], v[0] + v[1], 2 * v[2] + v[3], v[2] + v[3],
                   2 * v[4] + v[5], v[4] + v[5], 2 * v[6] + v[7], v[6] + v[7]]
    requires b == [2 * a[0] + a[2], a[0] + a[2], 2 * a[4] + a[6], a[4] + a[6],
                   2 * a[1] + a[3], a[1] + a[3], 2 * a[5] + a[7], a[5] + a[7]]
    ensures Weighted(v, i, 8) == [2 * b[0] + b[2], b[0] + b[2], 2 * b[4] + b[6], b[4] + b[6],
                                  2 * b[1] + b[3], b[1] + b[3], 2 * b[5] + b[7], b[5] + b[7]][i]
  {
    hide Weighted;
    WeightedIs(v, i);
  }

  lemma LevelsHigh(v: seq<nat>, a: seq<nat>, b: seq<nat>, i: nat)
    requires |v| == 8 && 4 <= i < 8
    requires a == [2 * v[0] + v[1], v[0] + v[1], 2 * v[2] + v[3], v[2] + v[3],
                   2 * v[4] + v[5], v[4] + v[5], 2 * v[6] + v[7], v[6] + v[7]]
    requires b == [2 * a[0] + a[2], a[0] + a[2], 2 * a[4] + a[6], a[4] + a[6],
                   2 * a[1] + a[3], a[1] + a[3], 2 * a[5] + a[7], a[5] + a[7]]
    ensures Weighted(v, i, 8) == [2 * b[0] + b[2], b[0] + b[2], 2 * b[4] + b[6], b[4] + b[6],
                                  2 * b[1] + b[3], b[1] + b[3], 2 * b[5] + b[7], b[5] + b[7]][i]
  {
    hide Weighted;
    WeightedIs(v, i);
  }

  lemma Levels(v: seq<nat>, a: seq<nat>, b: seq<nat>, i: nat)
    requires |v| == 8 && i < 8
    requires a == [2 * v[0] + v[1], v[0] + v[1], 2 * v[2] + v[3], v[2] + v[3],
                   2 * v[4] + v[5], v[4] + v[5], 2 * v[6] + v[7], v[6] + v[7]]
    requires b == [2 * a[0] + a[2], a[0] + a[2], 2 * a[4] + a[6], a[4] + a[6],
                   2 * a[1] + a[3], a[1] + a[3], 2 * a[5] + a[7], a[5] + a[7]]
    ensures Weighted(v, i, 8) == [2 * b[0] + b[2], b[0] + b[2], 2 * b[4] + b[6], b[4] + b[6],
                                  2 * b[1] + b[3], b[1] + b[3], 2 * b[5] + b[7], b[5] + b[7]][i]
  {
    hide Weighted;
    if i < 4 {
      LevelsLow(v, a, b, i);
    } else {
      LevelsHigh(v, a, b, i);
    }
  }

  /** The numbers of a block. */
  predicate Are(x: Block8, v: seq<nat>) { |v| == 8 && forall j :: 0 <= j < 8 ==> Is(x[j], v[j]) }

  lemma PairedNumbers(x: Block8, v: seq<nat>)
    requires Are(x, v)
    ensures Are(Paired(x), [2 * v[0] + v[1], v[0] + v[1], 2 * v[2] + v[3], v[2] + v[3],
                            2 * v[4] + v[5], v[4] + v[5], 2 * v[6] + v[7], v[6] + v[7]])
  {
    hide Is, F0, F1;
    FNumbers(x[0], x[1], v[0], v[1]);
    FNumbers(x[2], x[3], v[2], v[3]);
    FNumbers(x[4], x[5], v[4], v[5]);
    FNumbers(x[6], x[7], v[6], v[7]);
  }

  lemma CrossedNumbers(x: Block8, v: seq<nat>)
    requires Are(x, v)
    ensures Are(Crossed(x), [2 * v[0] + v[2], v[0] + v[2], 2 * v[4] + v[6], v[4] + v[6],
                             2 * v[1] + v[3], v[1] + v[3], 2 * v[5] + v[7], v[5] + v[7]])
  {
    hide Is, F0, F1;
    FNumbers(x[0], x[2], v[0], v[2]);
    FNumbers(x[4], x[6], v[4], v[6]);
    FNumbers(x[1], x[3], v[1], v[3]);
    FNumbers(x[5], x[7], v[5], v[7]);
  }

  /** The three levels together multiply by the matrix of weights, modulo 256. */
  lemma TransformConforms(x: Block8, v: seq<nat>, i: nat)
    requires Are(x, v) && i < 8
    ensures Is(Crossed(Crossed(Paired(x)))[i], Weighted(v, i, 8))
  {
    hide Is, Paired, Crossed, Weighted;
    PairedNumbers(x, v);
    var a := [2 * v[0] + v[1], v[0] + v[1], 2 * v[2] + v[3], v[2] + v[3],
              2 * v[4] + v[5], v[4] + v[5], 2 * v[6] + v[7], v[6] + v[7]];
    CrossedNumbers(Paired(x), a);
    var b := [2 * a[0] + a[2], a[0] + a[2], 2 * a[4] + a[6], a[4] + a[6],
              2 * a[1] + a[3], a[1] + a[3], 2 * a[5] + a[7], a[5] + a[7]];
    CrossedNumbers(Crossed(Paired(x)), b);
    Levels(v, a, b, i);
  }

  // ---------------------------------------------------------------- a round

  /** What a byte is before the transform: 45 to the power of it and the first key, and the second key added; or the
      sum of it and the first key as a power of 45, the exponent and the second key combined. */
  ghost function Middle(outer: bool, x: bv8, a: bv8, b: bv8): nat {
    if outer then Power(ByteValue(XorByte(x, a))) + ByteValue(b)
    else ByteValue(XorByte(ToByte(Log((ByteValue(x) + ByteValue(a)) % 256)), b))
  }

  lemma OuterIs(x: bv8, a: bv8, b: bv8)
    ensures Is(AddByte(S(XorByte(x, a)), b), Power(ByteValue(XorByte(x, a))) + ByteValue(b))
  {
    hide ByteValue, AddByte, XorByte, ToByte, Power;
    var k := XorByte(x, a);
    ToByteOf(Exp(ByteValue(k)));
    Sums(S(k), b);
    SumDivMod(Power(ByteValue(k)), ByteValue(b), 256);
  }

  lemma InnerIs(x: bv8, a: bv8, b: bv8)
    ensures Is(XorByte(SInv(AddByte(x, a)), b),
               ByteValue(XorByte(ToByte(Log((ByteValue(x) + ByteValue(a)) % 256)), b)))
  {
    hide ByteValue, AddByte, XorByte, ToByte, Log;
    Sums(x, a);
    ByteRange(XorByte(SInv(AddByte(x, a)), b));
  }

  lemma MiddleIs(outer: bool, x: bv8, a: bv8, b: bv8)
    ensures Is(KeyByte(!outer, Box(outer, KeyByte(outer, x, a)), b), Middle(outer, x, a, b))
  {
    hide Is, S, SInv, ByteValue, AddByte, XorByte, ToByte, Power, Log;
    if outer {
      OuterIs(x, a, b);
    } else {
      InnerIs(x, a, b);
    }
  }

  /** A round of SAFER: byte i is the sum, modulo 256, of what the eight bytes give, with the weights of the
      transform. */
  lemma RoundConforms(x: Block8, a: Block8, b: Block8, i: nat)
    requires i < 8
    ensures ByteValue(Round(x, a, b)[i])
         == Weighted(seq(8, j requires 0 <= j < 8 => Middle(Outer(j), x[j], a[j], b[j])), i, 8) % 256
  {
    hide ByteValue, Power, Log, Paired, Crossed, KeyByte, Box, Outer, Middle, Weighted;
    var v := seq(8, j requires 0 <= j < 8 => Middle(Outer(j), x[j], a[j], b[j]));
    var y := Keyed(Boxed(Keyed(x, a, true), true), b, false);
    forall j | 0 <= j < 8
      ensures Is(y[j], v[j])
    {
      MiddleIs(Outer(j), x[j], a[j], b[j]);
    }
    TransformConforms(y, v, i);
  }

  /** The bias of byte j of key i is 45 to the power 45 to the power 9 (i + 1) + j + 1. */
  lemma BiasConforms(i: nat, j: nat, past: nat -> bv8)
    requires 9 * (i + 1) + j + 1 < 256
    ensures ByteValue(Bias(i, j, past)) == Power(Power(9 * (i + 1) + j + 1) % 256) % 256
  {
    hide ByteValue, ToByte, Power;
    ToByteOf(Exp(Exp(9 * (i + 1) + j + 1)));
  }
}
