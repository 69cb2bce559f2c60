/** The field GF(2^128) of NIST SP 800-38D, section 6.3, on pairs of 64-bit words: multiplication by x, powers, and the
    product, with its algebra. */
module GF128 {
  import opened Words

  /** The element 1: bits are counted from the most significant one. */
  const ONE := Block(0x8000000000000000, 0)

  // ---------------------------------------------------------------- multiplication by x

  /** The constant R when the bit shifted out is set. */
  function Fold(lo: bv64): bv64 {
    if lo & 1 == 0 then 0 else 0xe1 << 56
  }

  function CarryIn(hi: bv64, lo: bv64): bv64 { (lo >> 1) | (hi << 63) }

  function Half(hi: bv64): bv64 { hi >> 1 }

  function MulX(v: Block): Block {
    Block(XorWord(Half(v.hi), Fold(v.lo)), CarryIn(v.hi, v.lo))
  }

  lemma FoldXor(a: bv64, b: bv64)
    ensures Fold(XorWord(a, b)) == XorWord(Fold(a), Fold(b))
  {
    LowBitXor(a, b);
    assert a & 1 == 0 || a & 1 == 1;
    assert b & 1 == 0 || b & 1 == 1;
  }

  lemma LowBitXor(a: bv64, b: bv64)
    ensures XorWord(a, b) & 1 == XorWord(a & 1, b & 1)
  {}

  lemma HalfXor(a: bv64, b: bv64)
    ensures Half(XorWord(a, b)) == XorWord(Half(a), Half(b))
  {
    calc {
      Half(XorWord(a, b));
      Half(a ^ b);
      (a ^ b) >> 1;
      (a >> 1) ^ (b >> 1);
      XorWord(a >> 1, b >> 1);
    }
  }

  lemma CarryInXor(ah: bv64, al: bv64, bh: bv64, bl: bv64)
    ensures CarryIn(XorWord(ah, bh), XorWord(al, bl)) == XorWord(CarryIn(ah, al), CarryIn(bh, bl))
  {
    calc {
      CarryIn(XorWord(ah, bh), XorWord(al, bl));
      CarryIn(ah ^ bh, al ^ bl);
      ((al ^ bl) >> 1) | ((ah ^ bh) << 63);
      ((al >> 1) | (ah << 63)) ^ ((bl >> 1) | (bh << 63));
      XorWord((al >> 1) | (ah << 63), (bl >> 1) | (bh << 63));
      XorWord(CarryIn(ah, al), CarryIn(bh, bl));
    }
  }

  lemma MulXXor(a: Block, b: Block)
    ensures MulX(Xor(a, b)) == Xor(MulX(a), MulX(b))
  {
    FoldXor(a.lo, b.lo);
    CarryInXor(a.hi, a.lo, b.hi, b.lo);
    HalfXor(a.hi, b.hi);
    XorWordSwap(Half(a.hi), Half(b.hi), Fold(a.lo), Fold(b.lo));
  }

  /** x^n v. */
  function Pow(n: nat, v: Block): Block {
    if n == 0 then v else MulX(Pow(n - 1, v))
  }

  lemma {:induction false} PowXor(n: nat, a: Block, b: Block)
    ensures Pow(n, Xor(a, b)) == Xor(Pow(n, a), Pow(n, b))
  {
    if n > 0 {
      PowXor(n - 1, a, b);
      MulXXor(Pow(n - 1, a), Pow(n - 1, b));
    }
  }

  lemma {:induction false} PowAdd(m: nat, n: nat, v: Block)
    ensures Pow(m + n, v) == Pow(m, Pow(n, v))
  {
    if m > 0 {
      PowAdd(m - 1, n, v);
    }
  }

  function Keep(c: bv8, m: bv8): bv8 { c & m }

  function HalfByte(c: bv8): bv8 { c >> 1 }

  /** The bit mask after j steps of the loop `for (j = 0x80; j; j >>= 1)`. */
  function Mask(j: nat): bv8
    requires j <= 8
  {
    match j
    case 0 => 0x80
    case 1 => 0x40
    case 2 => 0x20
    case 3 => 0x10
    case 4 => 0x08
    case 5 => 0x04
    case 6 => 0x02
    case 7 => 0x01
    case 8 => 0
  }

  lemma MaskHalf(j: nat)
    requires j < 8
    ensures Mask(j) != 0 && HalfByte(Mask(j)) == Mask(j + 1)
  {}

  predicate BitAt(c: bv8, j: nat)
    requires j < 8
  {
    Keep(c, Mask(j)) != 0
  }

  /** The term x^j v, present when bit j of c is set. */
  function Term(v: Block, c: bv8, j: nat): Block
    requires j < 8
  {
    if BitAt(c, j) then Pow(j, v) else ZERO
  }

  /** The sum of x^j v over the first n bits j of byte c, most significant bit first. */
  function ByteSum(v: Block, c: bv8, n: nat): Block
    requires n <= 8
  {
    if n == 0 then ZERO else Xor(ByteSum(v, c, n - 1), Term(v, c, n - 1))
  }

  function Prod(v: Block, h: Bytes, n: nat): Block
    requires n <= |h|
  {
    if n == 0 then ZERO
    else Xor(Prod(v, h, n - 1), ByteSum(Pow(8 * (n - 1), v), h[n - 1], 8))
  }

  lemma {:induction false} ByteSumXor(a: Block, b: Block, c: bv8, n: nat)
    requires n <= 8
    ensures ByteSum(Xor(a, b), c, n) == Xor(ByteSum(a, c, n), ByteSum(b, c, n))
  {
    hide Xor, Pow, BitAt;
    XorUnit(ZERO);
    if n > 0 {
      ByteSumXor(a, b, c, n - 1);
      PowXor(n - 1, a, b);
      XorSwap(ByteSum(a, c, n - 1), ByteSum(b, c, n - 1), Term(a, c, n - 1), Term(b, c, n - 1));
    }
  }

  lemma {:induction false} ByteSumZero(c: bv8, n: nat)
    requires n <= 8
    ensures ByteSum(ZERO, c, n) == ZERO
  {
    if n > 0 {
      ByteSumZero(c, n - 1);
      PowZero(n - 1);
      XorUnit(ZERO);
    }
  }

  lemma {:induction false} PowZero(n: nat)
    ensures Pow(n, ZERO) == ZERO
  {
    if n > 0 {
      PowZero(n - 1);
      MulXZero();
    }
  }
  lemma MulXZero() ensures MulX(ZERO) == ZERO { XorWordUnit(0); }

  lemma {:induction false} ProdXor(a: Block, b: Block, h: Bytes, n: nat)
    requires n <= |h|
    ensures Prod(Xor(a, b), h, n) == Xor(Prod(a, h, n), Prod(b, h, n))
  {
    hide Xor, Pow, ByteSum;
    if n == 0 {
      XorUnit(ZERO);
    } else {
      ProdXor(a, b, h, n - 1);
      var p, q := Pow(8 * (n - 1), a), Pow(8 * (n - 1), b);
      PowXor(8 * (n - 1), a, b);
      ByteSumXor(p, q, h[n - 1], 8);
      XorSwap(Prod(a, h, n - 1), Prod(b, h, n - 1), ByteSum(p, h[n - 1], 8), ByteSum(q, h[n - 1], 8));
    }
  }

  lemma {:induction false} ByteSumMulX(v: Block, c: bv8, n: nat)
    requires n <= 8
    ensures ByteSum(MulX(v), c, n) == MulX(ByteSum(v, c, n))
  {
    MulXZero();
    if n > 0 {
      ByteSumMulX(v, c, n - 1);
      PowMulX(n - 1, v);
      MulXXor(ByteSum(v, c, n - 1), Term(v, c, n - 1));
    }
  }

  lemma {:induction false} PowMulX(n: nat, v: Block)
    ensures Pow(n, MulX(v)) == MulX(Pow(n, v))
  {
    if n > 0 {
      PowMulX(n - 1, v);
    }
  }

  lemma {:induction false} ProdMulX(v: Block, h: Bytes, n: nat)
    requires n <= |h|
    ensures Prod(MulX(v), h, n) == MulX(Prod(v, h, n))
  {
    if n == 0 {
      MulXZero();
    } else {
      ProdMulX(v, h, n - 1);
      var m := 8 * (n - 1);
      PowMulX(m, v);
      ByteSumMulX(Pow(m, v), h[n - 1], 8);
      MulXXor(Prod(v, h, n - 1), ByteSum(Pow(m, v), h[n - 1], 8));
    }
  }

  lemma {:induction false} ProdPow(m: nat, v: Block, h: Bytes, n: nat)
    requires n <= |h|
    ensures Prod(Pow(m, v), h, n) == Pow(m, Prod(v, h, n))
  {
    if m > 0 {
      ProdPow(m - 1, v, h, n);
      ProdMulX(Pow(m - 1, v), h, n);
    }
  }

  lemma {:induction false} ProdZero(h: Bytes, n: nat)
    requires n <= |h|
    ensures Prod(ZERO, h, n) == ZERO
  {
    if n > 0 {
      ProdZero(h, n - 1);
      PowZero(8 * (n - 1));
      ByteSumZero(h[n - 1], 8);
      XorUnit(ZERO);
    }
  }

  lemma {:induction false} ProdOfByteSum(v: Block, c: bv8, j: nat, h: Bytes, n: nat)
    requires j <= 8 && n <= |h|
    ensures Prod(ByteSum(v, c, j), h, n) == ByteSum(Prod(v, h, n), c, j)
  {
    ProdZero(h, n);
    if j > 0 {
      ProdOfByteSum(v, c, j - 1, h, n);
      ProdPow(j - 1, v, h, n);
      ProdXor(ByteSum(v, c, j - 1), Term(v, c, j - 1), h, n);
    }
  }

  /** Multiplying by two block values commutes: (u g) h == (u h) g. */
  lemma {:induction false} ProdSwap(u: Block, g: Bytes, m: nat, h: Bytes, n: nat)
    requires m <= |g| && n <= |h|
    ensures Prod(Prod(u, g, m), h, n) == Prod(Prod(u, h, n), g, m)
  {
    if m == 0 {
      ProdZero(h, n);
    } else {
      ProdSwap(u, g, m - 1, h, n);
      var p := Pow(8 * (m - 1), u);
      ProdPow(8 * (m - 1), u, h, n);
      ProdOfByteSum(p, g[m - 1], 8, h, n);
      ProdXor(Prod(u, g, m - 1), ByteSum(p, g[m - 1], 8), h, n);
    }
  }


  /** Byte c in the leading position of an otherwise zero block. */
  function Lead(c: bv8): Block { Block(c as bv64 << 56, 0) }

  /** The low n bits of a block are zero, for n one of 1, 2, 4, 8. */
  predicate LowClear(n: nat, v: Block) {
    if n == 1 then v.lo & 1 == 0
    else if n == 2 then v.lo & 3 == 0
    else if n == 4 then v.lo & 15 == 0
    else v.lo & 255 == 0
  }

  function ShrHi(n: nat, hi: bv64): bv64 {
    if n == 1 then hi >> 1 else if n == 2 then hi >> 2 else if n == 4 then hi >> 4 else hi >> 8
  }

  function ShrLo(n: nat, hi: bv64, lo: bv64): bv64 {
    if n == 1 then (lo >> 1) | (hi << 63)
    else if n == 2 then (lo >> 2) | (hi << 62)
    else if n == 4 then (lo >> 4) | (hi << 60)
    else (lo >> 8) | (hi << 56)
  }

  /** A plain right shift of the 128-bit block by n, for n one of 1, 2, 4, 8. */
  function Shr(n: nat, v: Block): Block {
    Block(ShrHi(n, v.hi), ShrLo(n, v.hi, v.lo))
  }

  lemma ShrTwice1(hi: bv64, lo: bv64)
    ensures ShrHi(1, ShrHi(1, hi)) == ShrHi(2, hi)
    ensures ShrLo(1, ShrHi(1, hi), ShrLo(1, hi, lo)) == ShrLo(2, hi, lo)
  {
    calc {
      ShrHi(1, ShrHi(1, hi));
      ShrHi(1, hi >> 1);
      (hi >> 1) >> 1;
    }
    calc {
      ShrLo(1, ShrHi(1, hi), ShrLo(1, hi, lo));
      ShrLo(1, hi >> 1, (lo >> 1) | (hi << 63));
      (((lo >> 1) | (hi << 63)) >> 1) | ((hi >> 1) << 63);
      (lo >> 2) | (hi << 62);
    }
  }

  lemma ShrTwice2(hi: bv64, lo: bv64)
    ensures ShrHi(2, ShrHi(2, hi)) == ShrHi(4, hi)
    ensures ShrLo(2, ShrHi(2, hi), ShrLo(2, hi, lo)) == ShrLo(4, hi, lo)
  {
    calc {
      ShrHi(2, ShrHi(2, hi));
      ShrHi(2, hi >> 2);
      (hi >> 2) >> 2;
    }
    calc {
      ShrLo(2, ShrHi(2, hi), ShrLo(2, hi, lo));
      ShrLo(2, hi >> 2, (lo >> 2) | (hi << 62));
      (((lo >> 2) | (hi << 62)) >> 2) | ((hi >> 2) << 62);
      (lo >> 4) | (hi << 60);
    }
  }

  lemma ShrTwice4(hi: bv64, lo: bv64)
    ensures ShrHi(4, ShrHi(4, hi)) == ShrHi(8, hi)
    ensures ShrLo(4, ShrHi(4, hi), ShrLo(4, hi, lo)) == ShrLo(8, hi, lo)
  {
    calc {
      ShrHi(4, ShrHi(4, hi));
      ShrHi(4, hi >> 4);
      (hi >> 4) >> 4;
    }
    calc {
      ShrLo(4, ShrHi(4, hi), ShrLo(4, hi, lo));
      ShrLo(4, hi >> 4, (lo >> 4) | (hi << 60));
      (((lo >> 4) | (hi << 60)) >> 4) | ((hi >> 4) << 60);
      (lo >> 8) | (hi << 56);
    }
  }

  lemma LowClearShr(v: Block)
    ensures LowClear(2, v) ==> LowClear(1, v) && LowClear(1, Shr(1, v))
    ensures LowClear(4, v) ==> LowClear(2, v) && LowClear(2, Shr(2, v))
    ensures LowClear(8, v) ==> LowClear(4, v) && LowClear(4, Shr(4, v))
  {}

  lemma MulXShr(v: Block)
    requires LowClear(1, v)
    ensures MulX(v) == Shr(1, v)
  {
    XorWordUnit(Half(v.hi));
  }

  lemma {:induction false} PowShr(n: nat, v: Block)
    requires n == 1 || n == 2 || n == 4 || n == 8
    requires LowClear(n, v)
    ensures Pow(n, v) == Shr(n, v)
  {
    LowClearShr(v);
    if n == 1 {
      MulXShr(v);
      assert Pow(0, v) == v;
    } else {
      var m := n / 2;
      ShrTwice1(v.hi, v.lo);
      ShrTwice2(v.hi, v.lo);
      ShrTwice4(v.hi, v.lo);
      PowShr(m, v);
      PowShr(m, Shr(m, v));
      PowAdd(m, m, v);
    }
  }

  lemma LeadXor(a: bv8, b: bv8)
    ensures Xor(Lead(a), Lead(b)) == Lead(XorByte(a, b))
  {
    XorWordUnit(0);
    calc {
      Xor(Lead(a), Lead(b));
      Block(XorWord(a as bv64 << 56, b as bv64 << 56), 0);
      Block((a as bv64 << 56) ^ (b as bv64 << 56), 0);
      Block((a ^ b) as bv64 << 56, 0);
      Lead(a ^ b);
    }
  }

  lemma PowOne(j: nat)
    requires j < 8
    ensures Pow(j, ONE) == Lead(Mask(j))
  {
    assert Lead(0x80) == ONE;
    assert MulX(Lead(0x80)) == Lead(0x40);
    assert MulX(Lead(0x40)) == Lead(0x20);
    assert MulX(Lead(0x20)) == Lead(0x10);
    assert MulX(Lead(0x10)) == Lead(0x08);
    assert MulX(Lead(0x08)) == Lead(0x04);
    assert MulX(Lead(0x04)) == Lead(0x02);
    assert MulX(Lead(0x02)) == Lead(0x01);
  }

  lemma KeepMask(c: bv8, j: nat)
    requires j < 8
    ensures if BitAt(c, j) then Keep(c, Mask(j)) == Mask(j) else Keep(c, Mask(j)) == 0
  {
  }

  lemma TermOne(c: bv8, j: nat)
    requires j < 8
    ensures Term(ONE, c, j) == Lead(Keep(c, Mask(j)))
  {
    KeepMask(c, j);
    PowOne(j);
    assert Lead(0) == ZERO;
  }

  lemma ByteSumOneStep(c: bv8, j: nat, a: bv8)
    requires j < 8
    requires ByteSum(ONE, c, j) == Lead(a)
    ensures ByteSum(ONE, c, j + 1) == Lead(XorByte(a, Keep(c, Mask(j))))
  {
    TermOne(c, j);
    LeadXor(a, Keep(c, Mask(j)));
  }

  function Upper(c: bv8, j: nat): bv8
    requires j <= 8
  {
    if j == 0 then 0 else XorByte(Upper(c, j - 1), Keep(c, Mask(j - 1)))
  }

  lemma UpperAll(c: bv8)
    ensures Upper(c, 8) == c
  {
    assert Upper(c, 2) == XorByte(Upper(c, 1), Keep(c, 0x40));
    assert Upper(c, 4) == XorByte(Upper(c, 3), Keep(c, 0x10));
    assert Upper(c, 6) == XorByte(Upper(c, 5), Keep(c, 0x04));
  }

  lemma {:induction false} ByteSumOne(c: bv8, j: nat)
    requires j <= 8
    ensures ByteSum(ONE, c, j) == Lead(Upper(c, j))
  {
    if j == 0 {
      assert Lead(0) == ZERO;
    } else {
      ByteSumOne(c, j - 1);
      ByteSumOneStep(c, j - 1, Upper(c, j - 1));
    }
  }

  lemma ComposeShift(c: bv8, b0: bv8, b1: bv8, b2: bv8, b3: bv8, b4: bv8, b5: bv8, b6: bv8, b7: bv8)
    ensures Compose(c, b0, b1, b2, b3, b4, b5, b6)
         == XorWord(Lead(c).hi, ShrHi(8, Compose(b0, b1, b2, b3, b4, b5, b6, b7)))
  {}

  lemma ComposeCarry(h0: bv8, h1: bv8, h2: bv8, h3: bv8, h4: bv8, h5: bv8, h6: bv8, h7: bv8,
                     b0: bv8, b1: bv8, b2: bv8, b3: bv8, b4: bv8, b5: bv8, b6: bv8)
    ensures var v := Block(Compose(h0, h1, h2, h3, h4, h5, h6, h7), Compose(b0, b1, b2, b3, b4, b5, b6, 0));
            LowClear(8, v) && Compose(h7, b0, b1, b2, b3, b4, b5, b6) == Shr(8, v).lo
  {}

  lemma LoadShift(c: bv8, t: Bytes16)
    requires t[15] == 0
    ensures Load([c] + t[..15]) == Xor(Lead(c), Pow(8, Load(t)))
  {
    ComposeShift(c, t[0], t[1], t[2], t[3], t[4], t[5], t[6], t[7]);
    ComposeCarry(t[0], t[1], t[2], t[3], t[4], t[5], t[6], t[7], t[8], t[9], t[10], t[11], t[12], t[13], t[14]);
    PowShr(8, Load(t));
    XorWordUnit(Shr(8, Load(t)).lo);
  }

  lemma {:induction false} ProdCons(v: Block, c: bv8, t: Bytes, n: nat)
    requires 0 < n <= |t| + 1
    ensures Prod(v, [c] + t, n) == Xor(ByteSum(v, c, 8), Pow(8, Prod(v, t, n - 1)))
  {
    hide Xor, MulX, ByteSum;
    var u := [c] + t;
    if n == 1 {
      PowZero(8);
      XorUnit(ByteSum(v, c, 8));
      assert Prod(v, u, 1) == Xor(Prod(v, u, 0), ByteSum(Pow(0, v), u[0], 8));
    } else {
      var m := n - 2;
      var s, p, d := ByteSum(v, c, 8), Prod(v, t, m), ByteSum(Pow(8 * m, v), t[m], 8);
      calc {
        Prod(v, u, n);
        { assert u[n - 1] == t[m]; assert 8 * (n - 1) == 8 + 8 * m; }
        Xor(Prod(v, u, n - 1), ByteSum(Pow(8 + 8 * m, v), t[m], 8));
        { ProdCons(v, c, t, n - 1); }
        Xor(Xor(s, Pow(8, p)), ByteSum(Pow(8 + 8 * m, v), t[m], 8));
        { PowAdd(8, 8 * m, v); PowOfByteSum(8, Pow(8 * m, v), t[m]); }
        Xor(Xor(s, Pow(8, p)), Pow(8, d));
        { XorAssoc(s, Pow(8, p), Pow(8, d)); }
        Xor(s, Xor(Pow(8, p), Pow(8, d)));
        { PowXor(8, p, d); }
        Xor(s, Pow(8, Xor(p, d)));
      }
    }
  }

  lemma {:induction false} PowOfByteSum(m: nat, v: Block, c: bv8)
    ensures ByteSum(Pow(m, v), c, 8) == Pow(m, ByteSum(v, c, 8))
  {
    if m > 0 {
      PowOfByteSum(m - 1, v, c);
      ByteSumMulX(Pow(m - 1, v), c, 8);
    }
  }

  lemma {:induction false} ByteSumClear(v: Block, n: nat)
    requires n <= 8
    ensures ByteSum(v, 0, n) == ZERO
  {
    if n > 0 {
      ByteSumClear(v, n - 1);
      XorUnit(ZERO);
      assert !BitAt(0, n - 1);
    }
  }

  lemma {:induction false} ProdOfZeros(v: Block, t: Bytes, n: nat)
    requires n <= |t| && forall i :: 0 <= i < n ==> t[i] == 0
    ensures Prod(v, t, n) == ZERO
  {
    if n > 0 {
      ProdOfZeros(v, t, n - 1);
      ByteSumClear(Pow(8 * (n - 1), v), 8);
      XorUnit(ZERO);
    }
  }

  lemma {:induction false} ProdPrefix(v: Block, t: Bytes, u: Bytes, n: nat)
    requires n <= |t| && n <= |u| && t[..n] == u[..n]
    ensures Prod(v, t, n) == Prod(v, u, n)
  {
    if n > 0 {
      assert t[..n - 1] == t[..n][..n - 1] == u[..n][..n - 1] == u[..n - 1];
      assert t[n - 1] == t[..n][n - 1] == u[..n][n - 1];
      ProdPrefix(v, t, u, n - 1);
    }
  }

  /** Appending a zero byte adds nothing. */
  lemma ProdLastZero(v: Block, u: Bytes16)
    requires u[15] == 0
    ensures Prod(v, u, 16) == Prod(v, u[..15], 15)
  {
    ProdPrefix(v, u[..15], u, 15);
    ByteSumClear(Pow(120, v), 8);
    XorUnit(Prod(v, u, 15));
  }

  lemma ProdOneStep(c: bv8, u: Bytes16)
    requires u[15] == 0 && Prod(ONE, u, 16) == Load(u)
    ensures var t := [c] + u[..15]; |t| == 16 && Prod(ONE, t, 16) == Load(t)
  {
    hide Prod, ByteSum, Pow, Xor, Load, Lead;
    var t := [c] + u[..15];
    calc {
      Prod(ONE, t, 16);
      { ProdCons(ONE, c, u[..15], 16); }
      Xor(ByteSum(ONE, c, 8), Pow(8, Prod(ONE, u[..15], 15)));
      { ProdLastZero(ONE, u); }
      Xor(ByteSum(ONE, c, 8), Pow(8, Load(u)));
      { ByteSumOne(c, 8); UpperAll(c); }
      Xor(Lead(c), Pow(8, Load(u)));
      { LoadShift(c, u); }
      Load(t);
    }
  }

  lemma LoadZeros(t: Bytes16)
    requires forall i :: 0 <= i < 16 ==> t[i] == 0
    ensures Load(t) == ZERO
  {
    assert Compose(0, 0, 0, 0, 0, 0, 0, 0) == 0;
  }

  lemma TailStep(b: Bytes16, k: nat)
    requires k < 16
    ensures var u := b[k + 1..] + Zeros(k + 1);
            |u| == 16 && u[15] == 0 && b[k..] + Zeros(k) == [b[k]] + u[..15]
  {}

  lemma {:induction false} ProdOneFrom(b: Bytes16, k: nat)
    requires k <= 16
    ensures Prod(ONE, b[k..] + Zeros(k), 16) == Load(b[k..] + Zeros(k))
    decreases 16 - k
  {
    if k == 16 {
      ProdOfZeros(ONE, b[k..] + Zeros(k), 16);
      LoadZeros(b[k..] + Zeros(k));
    } else {
      TailStep(b, k);
      ProdOneFrom(b, k + 1);
      ProdOneStep(b[k], b[k + 1..] + Zeros(k + 1));
    }
  }

  /** ONE is the unit: summing x^i over the set bits of b gives b itself. */
  lemma ProdOne(b: Bytes16)
    ensures Prod(ONE, b, 16) == Load(b)
  {
    assert b == b[0..] + Zeros(0);
    ProdOneFrom(b, 0);
  }

  /** Multiplication in GF(2^128), section 6.3 of NIST SP 800-38D. */
  function Mul(a: Block, b: Block): Block {
    Prod(a, Store(b), 16)
  }

  lemma MulComm(a: Block, b: Block)
    ensures Mul(a, b) == Mul(b, a)
  {
    LoadStore(a);
    LoadStore(b);
    ProdOne(Store(a));
    ProdOne(Store(b));
    ProdSwap(ONE, Store(a), 16, Store(b), 16);
  }

  lemma MulAssoc(a: Block, b: Block, c: Block)
    ensures Mul(Mul(a, b), c) == Mul(a, Mul(b, c))
  {
    MulComm(a, b);
    ProdSwap(b, Store(a), 16, Store(c), 16);
    MulComm(Mul(b, c), a);
  }

  lemma MulXor(a: Block, b: Block, c: Block)
    ensures Mul(Xor(a, b), c) == Xor(Mul(a, c), Mul(b, c))
    ensures Mul(c, Xor(a, b)) == Xor(Mul(c, a), Mul(c, b))
  {
    ProdXor(a, b, Store(c), 16);
    MulComm(c, Xor(a, b));
    MulComm(c, a);
    MulComm(c, b);
  }

  lemma MulUnit(a: Block)
    ensures Mul(a, ONE) == a && Mul(ONE, a) == a
    ensures Mul(a, ZERO) == ZERO && Mul(ZERO, a) == ZERO
  {
    LoadStore(a);
    ProdOne(Store(a));
    MulComm(a, ONE);
    ProdZero(Store(a), 16);
    MulComm(a, ZERO);
  }

  /** x^(8 k), a single bit in byte k. */
  function Top(k: nat): Block
    requires k < 16
  {
    match k
    case 0 => Block(0x8000000000000000, 0)
    case 1 => Block(0x0080000000000000, 0)
    case 2 => Block(0x0000800000000000, 0)
    case 3 => Block(0x0000008000000000, 0)
    case 4 => Block(0x0000000080000000, 0)
    case 5 => Block(0x0000000000800000, 0)
    case 6 => Block(0x0000000000008000, 0)
    case 7 => Block(0x0000000000000080, 0)
    case 8 => Block(0, 0x8000000000000000)
    case 9 => Block(0, 0x0080000000000000)
    case 10 => Block(0, 0x0000800000000000)
    case 11 => Block(0, 0x0000008000000000)
    case 12 => Block(0, 0x0000000080000000)
    case 13 => Block(0, 0x0000000000800000)
    case 14 => Block(0, 0x0000000000008000)
    case _ => Block(0, 0x0000000000000080)
  }

  lemma TopNext(j: nat, k: nat)
    requires j < 15 && k == j + 1
    ensures LowClear(8, Top(j)) && Shr(8, Top(j)) == Top(k)
  {}

  lemma PowTopStep(j: nat, k: nat)
    requires j < 15 && k == j + 1
    requires Pow(8 * j, ONE) == Top(j)
    ensures Pow(8 * k, ONE) == Top(k)
  {
    TopNext(j, k);
    PowAdd(8, 8 * j, ONE);
    PowShr(8, Top(j));
  }

  lemma {:induction false} PowTop(k: nat)
    requires k < 16
    ensures Pow(8 * k, ONE) == Top(k)
  {
    if k > 0 {
      var j := k - 1;
      PowTop(j);
      PowTopStep(j, k);
    }
  }

  lemma PowLast()
    ensures Pow(8, Top(15)) == Lead(0xe1)
  {
    assert MulX(Block(0, 0x80)) == Block(0, 0x40);
    assert MulX(Block(0, 0x40)) == Block(0, 0x20);
    assert MulX(Block(0, 0x20)) == Block(0, 0x10);
    assert MulX(Block(0, 0x10)) == Block(0, 0x08);
    assert MulX(Block(0, 0x08)) == Block(0, 0x04);
    assert MulX(Block(0, 0x04)) == Block(0, 0x02);
    assert MulX(Block(0, 0x02)) == Block(0, 0x01);
    assert MulX(Block(0, 0x01)) == Lead(0xe1);
    assert Pow(2, Block(0, 0x80)) == Block(0, 0x20);
    PowAdd(2, 2, Block(0, 0x80));
    assert Pow(2, Block(0, 0x20)) == Block(0, 0x08);
    PowAdd(4, 4, Block(0, 0x80));
    PowAdd(2, 2, Block(0, 0x08));
    assert Pow(2, Block(0, 0x08)) == Block(0, 0x02);
    assert Pow(2, Block(0, 0x02)) == Lead(0xe1);
  }

  /** x is a root of the field polynomial: x^128 = x^7 + x^2 + x + 1. */
  lemma Reduction()
    ensures Pow(128, ONE) == Xor(Xor(Pow(7, ONE), Pow(2, ONE)), Xor(Pow(1, ONE), ONE))
  {
    PowTop(15);
    PowAdd(8, 120, ONE);
    PowLast();
    PowOne(7);
    PowOne(2);
    PowOne(1);
    PowOne(0);
    LeadXor(0x01, 0x20);
    LeadXor(0x40, 0x80);
    LeadXor(XorByte(0x01, 0x20), XorByte(0x40, 0x80));
    assert XorByte(XorByte(0x01, 0x20), XorByte(0x40, 0x80)) == 0xe1;
  }
}
