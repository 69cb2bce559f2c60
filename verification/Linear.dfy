/** Sums of selected bytes: exclusive or as linear algebra over GF(2), with a bit mask for the selection. */
module Linear {
  import opened Words

  type Mask = bv16

  function XorMask(m: Mask, k: Mask): Mask { m ^ k }

  function Low(m: Mask): bool { m & 1 != 0 }

  function Half(m: Mask): Mask { m >> 1 }

  function HasBit(m: Mask, i: nat): bool
    decreases i
  {
    if i == 0 then Low(m) else HasBit(Half(m), i - 1)
  }

  /** Bit i alone. */
  function Bit(i: nat): Mask
    requires i < 16
  {
    match i
    case 0 => 0x0001 case 1 => 0x0002 case 2 => 0x0004 case 3 => 0x0008
    case 4 => 0x0010 case 5 => 0x0020 case 6 => 0x0040 case 7 => 0x0080
    case 8 => 0x0100 case 9 => 0x0200 case 10 => 0x0400 case 11 => 0x0800
    case 12 => 0x1000 case 13 => 0x2000 case 14 => 0x4000 case _ => 0x8000
  }

  function Term(x: Bytes, m: Mask, i: nat): bv8
    requires i < |x| && i < 16
  {
    if HasBit(m, i) then x[i] else 0
  }

  /** The sum of the first n bytes of x that m selects. */
  function Sum(x: Bytes, m: Mask, n: nat): bv8
    requires n <= |x| && n <= 16
  {
    if n == 0 then 0 else XorByte(Sum(x, m, n - 1), Term(x, m, n - 1))
  }

  lemma LowXor(m: Mask, k: Mask)
    ensures Low(XorMask(m, k)) == (Low(m) != Low(k))
  {
    calc {
      Low(XorMask(m, k));
      Low(m ^ k);
      (m ^ k) & 1 != 0;
      (m & 1 != 0) != (k & 1 != 0);
      Low(m) != Low(k);
    }
  }

  lemma HalfXor(m: Mask, k: Mask)
    ensures Half(XorMask(m, k)) == XorMask(Half(m), Half(k))
  {
    calc {
      Half(XorMask(m, k));
      Half(m ^ k);
      XorMask(m >> 1, k >> 1);
      XorMask(Half(m), Half(k));
    }
  }

  lemma {:induction false} BitXor(m: Mask, k: Mask, i: nat)
    ensures HasBit(XorMask(m, k), i) == (HasBit(m, i) != HasBit(k, i))
    decreases i
  {
    hide Low, Half, XorMask;
    if i == 0 {
      LowXor(m, k);
    } else {
      HalfXor(m, k);
      BitXor(Half(m), Half(k), i - 1);
    }
  }

  lemma {:induction false} NoBit(i: nat)
    ensures !HasBit(0, i)
  {
    if i > 0 {
      NoBit(i - 1);
    }
  }

  lemma {:induction false} BitIs(i: nat, j: nat)
    requires i < 16 && j < 16
    ensures HasBit(Bit(i), j) == (i == j)
  {
    if j > 0 {
      if i == 0 {
        assert Half(1) == 0;
        NoBit(j - 1);
      } else {
        HalfBit(i);
        BitIs(i - 1, j - 1);
      }
    }
  }

  lemma HalfBit(i: nat)
    requires 0 < i < 16
    ensures Half(Bit(i)) == Bit(i - 1)
  {}

  /** Adding two sums adds the selections. */
  lemma {:induction false} SumXor(x: Bytes, m: Mask, k: Mask, n: nat)
    requires n <= |x| && n <= 16
    ensures XorByte(Sum(x, m, n), Sum(x, k, n)) == Sum(x, XorMask(m, k), n)
  {
    hide HasBit, XorMask, XorByte;
    XorByteUnit(0);
    if n > 0 {
      var i := n - 1;
      SumXor(x, m, k, i);
      BitXor(m, k, i);
      XorByteSwap(Sum(x, m, i), Term(x, m, i), Sum(x, k, i), Term(x, k, i));
      XorByteUnit(x[i]);
    }
  }

  lemma {:induction false} SumBit(x: Bytes, i: nat, n: nat)
    requires n <= |x| && n <= 16 && i < 16
    ensures Sum(x, Bit(i), n) == if i < n then x[i] else 0
  {
    hide HasBit, Bit, XorByte;
    XorByteUnit(0);
    if n > 0 {
      SumBit(x, i, n - 1);
      BitIs(i, n - 1);
      XorByteUnit(Sum(x, Bit(i), n - 1));
      XorByteUnit(x[n - 1]);
    }
  }

  /** Sums of a sum of two blocks. */
  lemma {:induction false} SumOfXor(x: Bytes, y: Bytes, z: Bytes, m: Mask, n: nat)
    requires n <= |x| == |y| == |z| && n <= 16 && forall i :: 0 <= i < |x| ==> z[i] == XorByte(x[i], y[i])
    ensures Sum(z, m, n) == XorByte(Sum(x, m, n), Sum(y, m, n))
  {
    hide HasBit, XorByte;
    XorByteUnit(0);
    if n > 0 {
      var i := n - 1;
      SumOfXor(x, y, z, m, i);
      XorByteSwap(Sum(x, m, i), Sum(y, m, i), Term(x, m, i), Term(y, m, i));
    }
  }

  /** p and q are the sums that m and k select; p + q is the sum that r selects. */
  lemma Add(x: Bytes, n: nat, p: bv8, m: Mask, q: bv8, k: Mask, r: Mask)
    requires n <= |x| && n <= 16 && p == Sum(x, m, n) && q == Sum(x, k, n) && m ^ k == r
    ensures XorByte(p, q) == Sum(x, r, n)
  {
    hide Sum, XorByte;
    SumXor(x, m, k, n);
  }

  lemma {:induction false} SumNone(x: Bytes, n: nat)
    requires n <= |x| && n <= 16
    ensures Sum(x, 0, n) == 0
  {
    if n > 0 {
      SumNone(x, n - 1);
      XorByteUnit(0);
      NoBit(n - 1);
    }
  }
}
