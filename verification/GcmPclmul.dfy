/** The carry-less-multiply version of the GCM multiplier (impl/mode/gcm-pclmulqdq.cc). */
module GcmPclmul {
  import opened Words
  import opened GF128
  import GcmTables

  // ---------------------------------------------------------------- instructions

  // Each 32-bit lane of a word shifted on its own.
  function Lsl1(w: bv64): bv64 { (w << 1) & 0xfffffffefffffffe }
  function Lsl25(w: bv64): bv64 { (w << 25) & 0xfe000000fe000000 }
  function Lsl30(w: bv64): bv64 { (w << 30) & 0xc0000000c0000000 }
  function Lsl31(w: bv64): bv64 { (w << 31) & 0x8000000080000000 }
  function Lsr1(w: bv64): bv64 { (w >> 1) & 0x7fffffff7fffffff }
  function Lsr2(w: bv64): bv64 { (w >> 2) & 0x3fffffff3fffffff }
  function Lsr7(w: bv64): bv64 { (w >> 7) & 0x01ffffff01ffffff }
  function Lsr31(w: bv64): bv64 { (w >> 31) & 0x0000000100000001 }

  /** pslldi128: each 32-bit lane shifted left by n, for n one of 1, 25, 30, 31. */
  function LaneShl(v: Block, n: nat): Block {
    if n == 1 then Block(Lsl1(v.hi), Lsl1(v.lo))
    else if n == 25 then Block(Lsl25(v.hi), Lsl25(v.lo))
    else if n == 30 then Block(Lsl30(v.hi), Lsl30(v.lo))
    else Block(Lsl31(v.hi), Lsl31(v.lo))
  }

  /** psrldi128: each 32-bit lane shifted right by n, for n one of 1, 2, 7, 31. */
  function LaneShr(v: Block, n: nat): Block {
    if n == 1 then Block(Lsr1(v.hi), Lsr1(v.lo))
    else if n == 2 then Block(Lsr2(v.hi), Lsr2(v.lo))
    else if n == 7 then Block(Lsr7(v.hi), Lsr7(v.lo))
    else Block(Lsr31(v.hi), Lsr31(v.lo))
  }

  function Up(w: bv64): bv64 { w << 32 }
  function Down(w: bv64): bv64 { w >> 32 }
  function OrWord(a: bv64, b: bv64): bv64 { a | b }
  function Or(a: Block, b: Block): Block { Block(OrWord(a.hi, b.hi), OrWord(a.lo, b.lo)) }

  /** pslldqi128: the whole register shifted left by n bytes, for n one of 4, 8, 12. */
  function ByteShl(v: Block, n: nat): Block {
    if n == 8 then Block(v.lo, 0)
    else if n == 12 then Block(Up(v.lo), 0)
    else Block(OrWord(Up(v.hi), Down(v.lo)), Up(v.lo))
  }

  /** psrldqi128: the whole register shifted right by n bytes, for n one of 4, 8, 12. */
  function ByteShr(v: Block, n: nat): Block {
    if n == 8 then Block(0, v.hi)
    else if n == 12 then Block(0, Down(v.hi))
    else Block(Down(v.hi), OrWord(Down(v.lo), Up(v.hi)))
  }

  function HalfWord(p: bv64): bv64 { p >> 1 }
  function KeepWord(a: bv64, p: bv64): bv64 { a & p }

  function ClmulFrom(a: bv64, p: bv64, s: Block): Block
    decreases p
  {
    if p == 0 then ZERO
    else Xor(if KeepWord(a, p) != 0 then s else ZERO, ClmulFrom(a, HalfWord(p), Shr(1, s)))
  }

  /** pclmulqdq: the product of two 64-bit polynomials; bit k of a contributes b shifted left by k. */
  function Clmul(a: bv64, b: bv64): Block {
    ClmulFrom(a, TOP, Start(b))
  }

  const TOP: bv64 := 0x8000000000000000

  /** b shifted left by 63 bits. */
  function Start(b: bv64): Block { Block(b >> 1, b << 63) }

  // ---------------------------------------------------------------- the reduction as a linear map

  function Tail3(w: bv64): bv64 {
    XorWord(XorWord(Lsl31(w), Lsl30(w)), Lsl25(w))
  }

  function Head3(w: bv64): bv64 {
    XorWord(XorWord(Lsr1(w), Lsr2(w)), Lsr7(w))
  }

  function FoldTop(hi: bv64, lo: bv64): bv64 { XorWord(hi, Up(Tail3(lo))) }
  function FoldHi(top: bv64, hi: bv64): bv64 { XorWord(top, XorWord(Head3(top), Down(Tail3(hi)))) }
  function FoldLo(hi: bv64, lo: bv64): bv64 {
    XorWord(lo, XorWord(Head3(lo), XorWord(Down(Tail3(lo)), Up(Tail3(hi)))))
  }

  function Q(v: Block): Block {
    Block(FoldHi(FoldTop(v.hi, v.lo), v.hi), FoldLo(v.hi, v.lo))
  }

  lemma Lsl25Xor(a: bv64, b: bv64)
    ensures Lsl25(XorWord(a, b)) == XorWord(Lsl25(a), Lsl25(b))
  {
    calc {
      Lsl25(XorWord(a, b));
      Lsl25(a ^ b);
      ((a ^ b) << 25) & 0xfe000000fe000000;
      ((a << 25) & 0xfe000000fe000000) ^ ((b << 25) & 0xfe000000fe000000);
      XorWord((a << 25) & 0xfe000000fe000000, (b << 25) & 0xfe000000fe000000);
      XorWord(Lsl25(a), Lsl25(b));
    }
  }

  lemma Lsl30Xor(a: bv64, b: bv64)
    ensures Lsl30(XorWord(a, b)) == XorWord(Lsl30(a), Lsl30(b))
  {
    calc {
      Lsl30(XorWord(a, b));
      Lsl30(a ^ b);
      ((a ^ b) << 30) & 0xc0000000c0000000;
      ((a << 30) & 0xc0000000c0000000) ^ ((b << 30) & 0xc0000000c0000000);
      XorWord((a << 30) & 0xc0000000c0000000, (b << 30) & 0xc0000000c0000000);
      XorWord(Lsl30(a), Lsl30(b));
    }
  }

  lemma Lsl31Xor(a: bv64, b: bv64)
    ensures Lsl31(XorWord(a, b)) == XorWord(Lsl31(a), Lsl31(b))
  {
    calc {
      Lsl31(XorWord(a, b));
      Lsl31(a ^ b);
      ((a ^ b) << 31) & 0x8000000080000000;
      ((a << 31) & 0x8000000080000000) ^ ((b << 31) & 0x8000000080000000);
      XorWord((a << 31) & 0x8000000080000000, (b << 31) & 0x8000000080000000);
      XorWord(Lsl31(a), Lsl31(b));
    }
  }

  lemma Lsr1Xor(a: bv64, b: bv64)
    ensures Lsr1(XorWord(a, b)) == XorWord(Lsr1(a), Lsr1(b))
  {
    calc {
      Lsr1(XorWord(a, b));
      Lsr1(a ^ b);
      ((a ^ b) >> 1) & 0x7fffffff7fffffff;
      ((a >> 1) & 0x7fffffff7fffffff) ^ ((b >> 1) & 0x7fffffff7fffffff);
      XorWord((a >> 1) & 0x7fffffff7fffffff, (b >> 1) & 0x7fffffff7fffffff);
      XorWord(Lsr1(a), Lsr1(b));
    }
  }

  lemma Lsr2Xor(a: bv64, b: bv64)
    ensures Lsr2(XorWord(a, b)) == XorWord(Lsr2(a), Lsr2(b))
  {
    calc {
      Lsr2(XorWord(a, b));
      Lsr2(a ^ b);
      ((a ^ b) >> 2) & 0x3fffffff3fffffff;
      ((a >> 2) & 0x3fffffff3fffffff) ^ ((b >> 2) & 0x3fffffff3fffffff);
      XorWord((a >> 2) & 0x3fffffff3fffffff, (b >> 2) & 0x3fffffff3fffffff);
      XorWord(Lsr2(a), Lsr2(b));
    }
  }

  lemma Lsr7Xor(a: bv64, b: bv64)
    ensures Lsr7(XorWord(a, b)) == XorWord(Lsr7(a), Lsr7(b))
  {
    calc {
      Lsr7(XorWord(a, b));
      Lsr7(a ^ b);
      ((a ^ b) >> 7) & 0x01ffffff01ffffff;
      ((a >> 7) & 0x01ffffff01ffffff) ^ ((b >> 7) & 0x01ffffff01ffffff);
      XorWord((a >> 7) & 0x01ffffff01ffffff, (b >> 7) & 0x01ffffff01ffffff);
      XorWord(Lsr7(a), Lsr7(b));
    }
  }

  lemma Tail3Xor(a: bv64, b: bv64)
    ensures Tail3(XorWord(a, b)) == XorWord(Tail3(a), Tail3(b))
  {
    hide Lsl25, Lsl30, Lsl31, XorWord;
    Lsl25Xor(a, b);
    Lsl30Xor(a, b);
    Lsl31Xor(a, b);
    XorWordSwap(Lsl31(a), Lsl31(b), Lsl30(a), Lsl30(b));
    XorWordSwap(XorWord(Lsl31(a), Lsl30(a)), XorWord(Lsl31(b), Lsl30(b)),
                Lsl25(a), Lsl25(b));
  }

  lemma Head3Xor(a: bv64, b: bv64)
    ensures Head3(XorWord(a, b)) == XorWord(Head3(a), Head3(b))
  {
    hide Lsr1, Lsr2, Lsr7, XorWord;
    Lsr1Xor(a, b);
    Lsr2Xor(a, b);
    Lsr7Xor(a, b);
    XorWordSwap(Lsr1(a), Lsr1(b), Lsr2(a), Lsr2(b));
    XorWordSwap(XorWord(Lsr1(a), Lsr2(a)), XorWord(Lsr1(b), Lsr2(b)),
                Lsr7(a), Lsr7(b));
  }

  lemma UpDownXor(a: bv64, b: bv64)
    ensures Up(XorWord(a, b)) == XorWord(Up(a), Up(b)) && Down(XorWord(a, b)) == XorWord(Down(a), Down(b))
  {
    calc {
      Up(XorWord(a, b));
      Up(a ^ b);
      Up(a) ^ Up(b);
    }
    calc {
      Down(XorWord(a, b));
      Down(a ^ b);
      Down(a) ^ Down(b);
    }
  }
  lemma FoldTopXor(a: bv64, b: bv64, c: bv64, d: bv64)
    ensures FoldTop(XorWord(a, b), XorWord(c, d)) == XorWord(FoldTop(a, c), FoldTop(b, d))
  {
    Tail3Xor(c, d);
    UpDownXor(Tail3(c), Tail3(d));
    XorWordSwap(a, b, Up(Tail3(c)), Up(Tail3(d)));
  }
  lemma FoldHiXor(a: bv64, b: bv64, c: bv64, d: bv64)
    ensures FoldHi(XorWord(a, b), XorWord(c, d)) == XorWord(FoldHi(a, c), FoldHi(b, d))
  {
    Tail3Xor(c, d);
    Head3Xor(a, b);
    UpDownXor(Tail3(c), Tail3(d));
    XorWordSwap(Head3(a), Head3(b), Down(Tail3(c)), Down(Tail3(d)));
    XorWordSwap(a, b, XorWord(Head3(a), Down(Tail3(c))), XorWord(Head3(b), Down(Tail3(d))));
  }
  lemma FoldLoXor(a: bv64, b: bv64, c: bv64, d: bv64)
    ensures FoldLo(XorWord(a, b), XorWord(c, d)) == XorWord(FoldLo(a, c), FoldLo(b, d))
  {
    Tail3Xor(a, b);
    Tail3Xor(c, d);
    Head3Xor(c, d);
    UpDownXor(Tail3(a), Tail3(b));
    UpDownXor(Tail3(c), Tail3(d));
    var x, y := XorWord(Down(Tail3(c)), Up(Tail3(a))), XorWord(Down(Tail3(d)), Up(Tail3(b)));
    XorWordSwap(Down(Tail3(c)), Down(Tail3(d)), Up(Tail3(a)), Up(Tail3(b)));
    XorWordSwap(Head3(c), Head3(d), x, y);
    XorWordSwap(c, d, XorWord(Head3(c), x), XorWord(Head3(d), y));
  }
  lemma QXor(v: Block, w: Block)
    ensures Q(Xor(v, w)) == Xor(Q(v), Q(w))
  {
    FoldTopXor(v.hi, w.hi, v.lo, w.lo);
    FoldHiXor(FoldTop(v.hi, v.lo), FoldTop(w.hi, w.lo), v.hi, w.hi);
    FoldLoXor(v.hi, w.hi, v.lo, w.lo);
  }

  /** (1 + x + x^2 + x^7) v. */
  function Poly(v: Block): Block {
    Xor(Xor(v, Pow(1, v)), Xor(Pow(2, v), Pow(7, v)))
  }

  lemma PolyIs(v: Block)
    ensures Poly(v) == Xor(Xor(v, Pow(1, v)), Xor(Pow(2, v), Pow(7, v)))
  {}

  lemma PolyXor(v: Block, w: Block)
    ensures Poly(Xor(v, w)) == Xor(Poly(v), Poly(w))
  {
    PowXor(1, v, w);
    PowXor(2, v, w);
    PowXor(7, v, w);
    XorSwap(v, w, Pow(1, v), Pow(1, w));
    XorSwap(Pow(2, v), Pow(2, w), Pow(7, v), Pow(7, w));
    XorSwap(Xor(v, Pow(1, v)), Xor(w, Pow(1, w)), Xor(Pow(2, v), Pow(7, v)), Xor(Pow(2, w), Pow(7, w)));
  }

  lemma PolyMulX(v: Block)
    ensures Poly(MulX(v)) == MulX(Poly(v))
  {
    PowMulX(1, v);
    PowMulX(2, v);
    PowMulX(7, v);
    MulXXor(v, Pow(1, v));
    MulXXor(Pow(2, v), Pow(7, v));
    MulXXor(Xor(v, Pow(1, v)), Xor(Pow(2, v), Pow(7, v)));
  }

  // The words of v, x v, x^2 v and x^7 v when the low seven bits of v are clear.
  function Down1(hi: bv64, lo: bv64): bv64 { (lo >> 1) | (hi << 63) }
  function Down2(hi: bv64, lo: bv64): bv64 { (lo >> 2) | (hi << 62) }
  function Down7(hi: bv64, lo: bv64): bv64 { (lo >> 7) | (hi << 57) }
  function Hi1(hi: bv64): bv64 { hi >> 1 }
  function Hi2(hi: bv64): bv64 { hi >> 2 }
  function Hi7(hi: bv64): bv64 { hi >> 7 }

  lemma Shr7Words(hi: bv64, lo: bv64)
    ensures ShrHi(1, hi) == Hi1(hi) && ShrLo(1, hi, lo) == Down1(hi, lo)
    ensures ShrHi(2, hi) == Hi2(hi) && ShrLo(2, hi, lo) == Down2(hi, lo)
    ensures ShrHi(4, ShrHi(2, ShrHi(1, hi))) == Hi7(hi)
  {
    calc {
      ShrHi(4, ShrHi(2, ShrHi(1, hi)));
      ShrHi(4, ShrHi(2, hi >> 1));
      ShrHi(4, (hi >> 1) >> 2);
      hi >> 7;
    }
  }

  lemma Shr7Low(hi: bv64, lo: bv64)
    ensures ShrLo(4, ShrHi(2, ShrHi(1, hi)), ShrLo(2, ShrHi(1, hi), ShrLo(1, hi, lo))) == Down7(hi, lo)
  {
    calc {
      ShrLo(4, ShrHi(2, ShrHi(1, hi)), ShrLo(2, ShrHi(1, hi), ShrLo(1, hi, lo)));
      ShrLo(4, ShrHi(2, hi >> 1), ShrLo(2, hi >> 1, (lo >> 1) | (hi << 63)));
      ShrLo(4, (hi >> 1) >> 2, (((lo >> 1) | (hi << 63)) >> 2) | ((hi >> 1) << 62));
      (lo >> 7) | (hi << 57);
    }
  }

  lemma LowClear7(v: Block)
    requires v.lo & 127 == 0
    ensures LowClear(1, v) && LowClear(2, v) && LowClear(2, Shr(1, v)) && LowClear(4, Shr(2, Shr(1, v)))
  {}

  lemma Pow7(v: Block)
    ensures Pow(7, v) == Pow(4, Pow(2, Pow(1, v)))
  {
    PowAdd(2, 1, v);
    PowAdd(4, 3, v);
  }

  /** The words of x v, x^2 v and x^7 v when the low seven bits of v are clear. */
  lemma PowPlain(v: Block)
    requires v.lo & 127 == 0
    ensures Pow(1, v) == Block(Hi1(v.hi), Down1(v.hi, v.lo))
    ensures Pow(2, v) == Block(Hi2(v.hi), Down2(v.hi, v.lo))
    ensures Pow(7, v) == Block(Hi7(v.hi), Down7(v.hi, v.lo))
  {
    LowClear7(v);
    hide Pow, LowClear, ShrHi, ShrLo;
    PowShr(1, v);
    PowShr(2, v);
    PowShr(2, Shr(1, v));
    PowShr(4, Shr(2, Shr(1, v)));
    Pow7(v);
    Shr7Words(v.hi, v.lo);
    Shr7Low(v.hi, v.lo);
  }

  function Clear7(lo: bv64): bv64 { (lo >> 7) << 7 }

  lemma Clear7Low(lo: bv64)
    ensures Clear7(lo) & 127 == 0
  {}

  lemma TailZero(lo: bv64)
    ensures Up(Tail3(Clear7(lo))) == 0
  {
    calc {
      Up(Tail3(Clear7(lo)));
      Up(Tail3((lo >> 7) << 7));
      Up(XorWord(XorWord(Lsl31((lo >> 7) << 7), Lsl30((lo >> 7) << 7)), Lsl25((lo >> 7) << 7)));
      Up(XorWord(XorWord((((lo >> 7) << 7) << 31) & 0x8000000080000000, (((lo >> 7) << 7) << 30) & 0xc0000000c0000000),
                 (((lo >> 7) << 7) << 25) & 0xfe000000fe000000));
      Up(XorWord(((((lo >> 7) << 7) << 31) & 0x8000000080000000) ^ ((((lo >> 7) << 7) << 30) & 0xc0000000c0000000),
                 (((lo >> 7) << 7) << 25) & 0xfe000000fe000000));
      Up(((((lo >> 7) << 7) << 31) & 0x8000000080000000) ^ ((((lo >> 7) << 7) << 30) & 0xc0000000c0000000)
         ^ ((((lo >> 7) << 7) << 25) & 0xfe000000fe000000));
      (((((lo >> 7) << 7) << 31) & 0x8000000080000000) ^ ((((lo >> 7) << 7) << 30) & 0xc0000000c0000000)
         ^ ((((lo >> 7) << 7) << 25) & 0xfe000000fe000000)) << 32;
      0;
    }
  }

  lemma FoldHiSame(hi: bv64)
    ensures FoldHi(hi, hi) == XorWord(XorWord(hi, Hi1(hi)), XorWord(Hi2(hi), Hi7(hi)))
  {
    Tail3Raw(hi);
    Head3Raw(hi);
    calc {
      FoldHi(hi, hi);
      XorWord(hi, XorWord(Head3(hi), Down(Tail3(hi))));
      XorWord(hi,
              XorWord(((hi >> 1) & 0x7fffffff7fffffff) ^ ((hi >> 2) & 0x3fffffff3fffffff)
                ^ ((hi >> 7) & 0x01ffffff01ffffff),
        Down(((hi << 31) & 0x8000000080000000) ^ ((hi << 30) & 0xc0000000c0000000)
          ^ ((hi << 25) & 0xfe000000fe000000))));
      XorWord(hi,
              XorWord(((hi >> 1) & 0x7fffffff7fffffff) ^ ((hi >> 2) & 0x3fffffff3fffffff)
                ^ ((hi >> 7) & 0x01ffffff01ffffff),
        (((hi << 31) & 0x8000000080000000) ^ ((hi << 30) & 0xc0000000c0000000)
          ^ ((hi << 25) & 0xfe000000fe000000)) >> 32));
      XorWord(hi, (hi >> 1) ^ (hi >> 2) ^ (hi >> 7));
      hi ^ (hi >> 1) ^ (hi >> 2) ^ (hi >> 7);
      XorWord(hi ^ (hi >> 1), (hi >> 2) ^ (hi >> 7));
      XorWord(XorWord(hi, hi >> 1), XorWord(hi >> 2, hi >> 7));
    }
  }
  lemma Tail3Raw(w: bv64)
    ensures Tail3(w) == ((w << 31) & 0x8000000080000000) ^ ((w << 30) & 0xc0000000c0000000)
      ^ ((w << 25) & 0xfe000000fe000000)
  {
    calc {
      Tail3(w);
      XorWord(XorWord((w << 31) & 0x8000000080000000, (w << 30) & 0xc0000000c0000000), (w << 25) & 0xfe000000fe000000);
      XorWord(((w << 31) & 0x8000000080000000) ^ ((w << 30) & 0xc0000000c0000000), (w << 25) & 0xfe000000fe000000);
    }
  }
  lemma Head3Raw(w: bv64)
    ensures Head3(w) == ((w >> 1) & 0x7fffffff7fffffff) ^ ((w >> 2) & 0x3fffffff3fffffff)
      ^ ((w >> 7) & 0x01ffffff01ffffff)
  {
    calc {
      Head3(w);
      XorWord(XorWord((w >> 1) & 0x7fffffff7fffffff, (w >> 2) & 0x3fffffff3fffffff), (w >> 7) & 0x01ffffff01ffffff);
      XorWord(((w >> 1) & 0x7fffffff7fffffff) ^ ((w >> 2) & 0x3fffffff3fffffff), (w >> 7) & 0x01ffffff01ffffff);
    }
  }

  lemma FoldLoPlain(hi: bv64, lo: bv64)
    ensures FoldLo(hi, lo) == XorWord(XorWord(lo, Down1(hi, lo)), XorWord(Down2(hi, lo), Down7(hi, lo)))
  {
    Tail3Raw(hi);
    Tail3Raw(lo);
    Head3Raw(lo);
    calc {
      FoldLo(hi, lo);
      XorWord(lo,
              XorWord(((lo >> 1) & 0x7fffffff7fffffff) ^ ((lo >> 2) & 0x3fffffff3fffffff)
                ^ ((lo >> 7) & 0x01ffffff01ffffff),
        XorWord(Down(((lo << 31) & 0x8000000080000000) ^ ((lo << 30) & 0xc0000000c0000000)
          ^ ((lo << 25) & 0xfe000000fe000000)),
          Up(((hi << 31) & 0x8000000080000000) ^ ((hi << 30) & 0xc0000000c0000000)
            ^ ((hi << 25) & 0xfe000000fe000000)))));
      XorWord(lo,
              XorWord(((lo >> 1) & 0x7fffffff7fffffff) ^ ((lo >> 2) & 0x3fffffff3fffffff)
                ^ ((lo >> 7) & 0x01ffffff01ffffff),
        XorWord((((lo << 31) & 0x8000000080000000) ^ ((lo << 30) & 0xc0000000c0000000)
          ^ ((lo << 25) & 0xfe000000fe000000)) >> 32,
          (((hi << 31) & 0x8000000080000000) ^ ((hi << 30) & 0xc0000000c0000000)
            ^ ((hi << 25) & 0xfe000000fe000000)) << 32)));
      XorWord(lo,
              XorWord(((lo >> 1) & 0x7fffffff7fffffff) ^ ((lo >> 2) & 0x3fffffff3fffffff)
                ^ ((lo >> 7) & 0x01ffffff01ffffff),
        ((((lo << 31) & 0x8000000080000000) ^ ((lo << 30) & 0xc0000000c0000000)
          ^ ((lo << 25) & 0xfe000000fe000000)) >> 32)
          ^ ((((hi << 31) & 0x8000000080000000) ^ ((hi << 30) & 0xc0000000c0000000)
            ^ ((hi << 25) & 0xfe000000fe000000)) << 32)));
      XorWord(lo,
              (((lo >> 1) & 0x7fffffff7fffffff) ^ ((lo >> 2) & 0x3fffffff3fffffff) ^ ((lo >> 7) & 0x01ffffff01ffffff))
        ^ ((((lo << 31) & 0x8000000080000000) ^ ((lo << 30) & 0xc0000000c0000000)
          ^ ((lo << 25) & 0xfe000000fe000000)) >> 32)
          ^ ((((hi << 31) & 0x8000000080000000) ^ ((hi << 30) & 0xc0000000c0000000)
            ^ ((hi << 25) & 0xfe000000fe000000)) << 32));
      lo ^ (((lo >> 1) & 0x7fffffff7fffffff) ^ ((lo >> 2) & 0x3fffffff3fffffff) ^ ((lo >> 7) & 0x01ffffff01ffffff))
        ^ ((((lo << 31) & 0x8000000080000000) ^ ((lo << 30) & 0xc0000000c0000000)
          ^ ((lo << 25) & 0xfe000000fe000000)) >> 32)
          ^ ((((hi << 31) & 0x8000000080000000) ^ ((hi << 30) & 0xc0000000c0000000)
            ^ ((hi << 25) & 0xfe000000fe000000)) << 32);
      (lo ^ ((lo >> 1) | (hi << 63))) ^ (((lo >> 2) | (hi << 62)) ^ ((lo >> 7) | (hi << 57)));
      XorWord(lo ^ ((lo >> 1) | (hi << 63)), ((lo >> 2) | (hi << 62)) ^ ((lo >> 7) | (hi << 57)));
      XorWord(XorWord(lo, (lo >> 1) | (hi << 63)), XorWord((lo >> 2) | (hi << 62), (lo >> 7) | (hi << 57)));
    }
  }

  lemma QPlain(hi: bv64, lo: bv64)
    ensures Q(Block(hi, Clear7(lo))) == Poly(Block(hi, Clear7(lo)))
  {
    Clear7Low(lo);
    TailZero(lo);
    XorWordUnit(hi);
    hide Clear7, FoldHi, FoldLo, Up, Tail3, Pow, Hi1, Hi2, Hi7, Down1, Down2, Down7;
    FoldHiSame(hi);
    FoldLoPlain(hi, Clear7(lo));
    PowPlain(Block(hi, Clear7(lo)));
  }

  lemma TopBitClear()
    ensures Clear7(0x80) == 0x80
  {}

  lemma BitSteps()
    ensures MulX(Block(0, 0x80)) == Block(0, 0x40) && MulX(Block(0, 0x40)) == Block(0, 0x20)
    ensures MulX(Block(0, 0x20)) == Block(0, 0x10) && MulX(Block(0, 0x10)) == Block(0, 0x08)
    ensures MulX(Block(0, 0x08)) == Block(0, 0x04) && MulX(Block(0, 0x04)) == Block(0, 0x02)
    ensures MulX(Block(0, 0x02)) == Block(0, 0x01)
  {}

  lemma QBitSteps1()
    ensures MulX(Q(Block(0, 0x80))) == Q(Block(0, 0x40)) && MulX(Q(Block(0, 0x40))) == Q(Block(0, 0x20))
    ensures MulX(Q(Block(0, 0x20))) == Q(Block(0, 0x10))
  {}

  lemma QBitSteps2()
    ensures MulX(Q(Block(0, 0x10))) == Q(Block(0, 0x08)) && MulX(Q(Block(0, 0x08))) == Q(Block(0, 0x04))
    ensures MulX(Q(Block(0, 0x04))) == Q(Block(0, 0x02)) && MulX(Q(Block(0, 0x02))) == Q(Block(0, 0x01))
  {}

  lemma QBits()
    ensures Q(Block(0, 0x40)) == Poly(Block(0, 0x40)) && Q(Block(0, 0x20)) == Poly(Block(0, 0x20))
    ensures Q(Block(0, 0x10)) == Poly(Block(0, 0x10)) && Q(Block(0, 0x08)) == Poly(Block(0, 0x08))
    ensures Q(Block(0, 0x04)) == Poly(Block(0, 0x04)) && Q(Block(0, 0x02)) == Poly(Block(0, 0x02))
    ensures Q(Block(0, 0x01)) == Poly(Block(0, 0x01))
  {
    hide Q, Poly, MulX, Clear7;
    QPlain(0, 0x80);
    TopBitClear();
    BitSteps();
    QBitSteps1();
    QBitSteps2();
    PolyMulX(Block(0, 0x80));
    PolyMulX(Block(0, 0x40));
    PolyMulX(Block(0, 0x20));
    PolyMulX(Block(0, 0x10));
    PolyMulX(Block(0, 0x08));
    PolyMulX(Block(0, 0x04));
    PolyMulX(Block(0, 0x02));
  }

  /** Bits b of the low word, as a block. */
  function LowPart(lo: bv64, m: bv64): Block { Block(0, KeepWord(lo, m)) }

  lemma QPolyBit(w: Block, lo: bv64, m: bv64)
    requires Q(w) == Poly(w)
    requires Q(Block(0, m)) == Poly(Block(0, m))
    requires KeepWord(lo, m) == 0 || KeepWord(lo, m) == m
    ensures Q(Xor(w, LowPart(lo, m))) == Poly(Xor(w, LowPart(lo, m)))
  {
    QXor(w, LowPart(lo, m));
    PolyXor(w, LowPart(lo, m));
    XorUnit(w);
    hide Q, Poly;
    if KeepWord(lo, m) == 0 {
      assert LowPart(lo, m) == ZERO;
      assert Xor(w, LowPart(lo, m)) == w;
    } else {
      assert LowPart(lo, m) == Block(0, m);
    }
  }

  lemma OneBit(lo: bv64)
    ensures KeepWord(lo, 0x40) == 0 || KeepWord(lo, 0x40) == 0x40
    ensures KeepWord(lo, 0x20) == 0 || KeepWord(lo, 0x20) == 0x20
    ensures KeepWord(lo, 0x10) == 0 || KeepWord(lo, 0x10) == 0x10
    ensures KeepWord(lo, 0x08) == 0 || KeepWord(lo, 0x08) == 0x08
    ensures KeepWord(lo, 0x04) == 0 || KeepWord(lo, 0x04) == 0x04
    ensures KeepWord(lo, 0x02) == 0 || KeepWord(lo, 0x02) == 0x02
    ensures KeepWord(lo, 0x01) == 0 || KeepWord(lo, 0x01) == 0x01
  {}

  lemma SplitLow(lo: bv64)
    ensures lo == XorWord(XorWord(XorWord(XorWord(XorWord(XorWord(XorWord(Clear7(lo),
      KeepWord(lo, 0x40)), KeepWord(lo, 0x20)), KeepWord(lo, 0x10)), KeepWord(lo, 0x08)),
      KeepWord(lo, 0x04)), KeepWord(lo, 0x02)), KeepWord(lo, 0x01))
  {
    calc {
      XorWord(XorWord(XorWord(XorWord(XorWord(XorWord(XorWord((lo >> 7) << 7, lo & 0x40), lo & 0x20), lo & 0x10),
                                      lo & 0x08), lo & 0x04), lo & 0x02), lo & 0x01);
      XorWord(XorWord(XorWord(XorWord(XorWord(XorWord(((lo >> 7) << 7) ^ (lo & 0x40), lo & 0x20), lo & 0x10),
                                      lo & 0x08), lo & 0x04), lo & 0x02), lo & 0x01);
      XorWord(XorWord(XorWord(XorWord(XorWord(((lo >> 7) << 7) ^ (lo & 0x40) ^ (lo & 0x20), lo & 0x10), lo & 0x08),
                              lo & 0x04), lo & 0x02), lo & 0x01);
      XorWord(XorWord(XorWord(XorWord(((lo >> 7) << 7) ^ (lo & 0x40) ^ (lo & 0x20) ^ (lo & 0x10), lo & 0x08),
                              lo & 0x04), lo & 0x02), lo & 0x01);
      XorWord(XorWord(XorWord(((lo >> 7) << 7) ^ (lo & 0x40) ^ (lo & 0x20) ^ (lo & 0x10) ^ (lo & 0x08), lo & 0x04),
                      lo & 0x02), lo & 0x01);
      XorWord(XorWord(((lo >> 7) << 7) ^ (lo & 0x40) ^ (lo & 0x20) ^ (lo & 0x10) ^ (lo & 0x08) ^ (lo & 0x04),
                      lo & 0x02), lo & 0x01);
      XorWord(((lo >> 7) << 7) ^ (lo & 0x40) ^ (lo & 0x20) ^ (lo & 0x10) ^ (lo & 0x08) ^ (lo & 0x04) ^ (lo & 0x02),
              lo & 0x01);
      ((lo >> 7) << 7) ^ (lo & 0x40) ^ (lo & 0x20) ^ (lo & 0x10) ^ (lo & 0x08) ^ (lo & 0x04) ^ (lo & 0x02)
        ^ (lo & 0x01);
      lo;
    }
  }

  lemma SplitBlock(v: Block)
    ensures v == Xor(Xor(Xor(Xor(Xor(Xor(Xor(Block(v.hi, Clear7(v.lo)), LowPart(v.lo, 0x40)), LowPart(v.lo, 0x20)),
                   LowPart(v.lo, 0x10)), LowPart(v.lo, 0x08)), LowPart(v.lo, 0x04)), LowPart(v.lo, 0x02)),
                   LowPart(v.lo, 0x01))
  {
    hide Clear7, KeepWord, XorWord;
    SplitLow(v.lo);
    XorWordUnit(v.hi);
  }

  /** The two-phase reduction multiplies by 1 + x + x^2 + x^7. */
  lemma QPoly(v: Block)
    ensures Q(v) == Poly(v)
  {
    var lo := v.lo;
    var w0 := Block(v.hi, Clear7(lo));
    var w1 := Xor(w0, LowPart(lo, 0x40));
    var w2 := Xor(w1, LowPart(lo, 0x20));
    var w3 := Xor(w2, LowPart(lo, 0x10));
    var w4 := Xor(w3, LowPart(lo, 0x08));
    var w5 := Xor(w4, LowPart(lo, 0x04));
    var w6 := Xor(w5, LowPart(lo, 0x02));
    hide Clear7, Q, Poly, Xor, LowPart, KeepWord;
    SplitBlock(v);
    QPlain(v.hi, lo);
    OneBit(lo);
    QBits();
    QPolyBit(w0, lo, 0x40);
    QPolyBit(w1, lo, 0x20);
    QPolyBit(w2, lo, 0x10);
    QPolyBit(w3, lo, 0x08);
    QPolyBit(w4, lo, 0x04);
    QPolyBit(w5, lo, 0x02);
    QPolyBit(w6, lo, 0x01);
  }

  // ---------------------------------------------------------------- the 255-bit product as a field element

  function Sl(x: bv64, y: bv64): bv64 { (x << 1) | (y >> 63) }
  function Dbl(x: bv64): bv64 { x << 1 }

  /** The upper and lower half of the 256-bit value (hi, lo) shifted left by one. */
  function ShlHi(hi: Block, lo: Block): Block { Block(Sl(hi.hi, hi.lo), Sl(hi.lo, lo.hi)) }
  function ShlLo(lo: Block): Block { Block(Sl(lo.hi, lo.lo), Dbl(lo.lo)) }

  /** What the multiplier makes of a 255-bit product held in two registers. */
  function Field(hi: Block, lo: Block): Block {
    Xor(ShlHi(hi, lo), Q(ShlLo(lo)))
  }

  lemma SlXor(a: bv64, b: bv64, c: bv64, d: bv64)
    ensures Sl(XorWord(a, b), XorWord(c, d)) == XorWord(Sl(a, c), Sl(b, d))
    ensures Dbl(XorWord(a, b)) == XorWord(Dbl(a), Dbl(b))
  {
    calc {
      Sl(XorWord(a, b), XorWord(c, d));
      Sl(a ^ b, c ^ d);
      ((a ^ b) << 1) | ((c ^ d) >> 63);
      ((a << 1) | (c >> 63)) ^ ((b << 1) | (d >> 63));
      XorWord((a << 1) | (c >> 63), (b << 1) | (d >> 63));
      XorWord(Sl(a, c), Sl(b, d));
    }
    calc {
      Dbl(XorWord(a, b));
      Dbl(a ^ b);
      (a << 1) ^ (b << 1);
      XorWord(a << 1, b << 1);
      XorWord(Dbl(a), Dbl(b));
    }
  }

  lemma FieldXor(hi: Block, lo: Block, hj: Block, lj: Block)
    ensures Field(Xor(hi, hj), Xor(lo, lj)) == Xor(Field(hi, lo), Field(hj, lj))
  {
    SlXor(hi.hi, hj.hi, hi.lo, hj.lo);
    SlXor(hi.lo, hj.lo, lo.hi, lj.hi);
    SlXor(lo.hi, lj.hi, lo.lo, lj.lo);
    SlXor(lo.lo, lj.lo, lo.lo, lj.lo);
    hide Sl, Dbl, Q;
    assert ShlHi(Xor(hi, hj), Xor(lo, lj)) == Xor(ShlHi(hi, lo), ShlHi(hj, lj));
    assert ShlLo(Xor(lo, lj)) == Xor(ShlLo(lo), ShlLo(lj));
    hide Xor, ShlHi, ShlLo;
    QXor(ShlLo(lo), ShlLo(lj));
    XorSwap(ShlHi(hi, lo), ShlHi(hj, lj), Q(ShlLo(lo)), Q(ShlLo(lj)));
  }

  /** A 128-bit partial product t enters at word position k: 2 for hi*hi, 1 for the middle ones, 0 for lo*lo. */
  function UpperPart(k: nat, t: Block): Block {
    if k == 2 then t else if k == 1 then Block(0, t.hi) else ZERO
  }
  function LowerPart(k: nat, t: Block): Block {
    if k == 2 then ZERO else if k == 1 then Block(t.lo, 0) else t
  }
  function At(k: nat, t: Block): Block { Field(UpperPart(k, t), LowerPart(k, t)) }

  lemma AtXor(k: nat, t: Block, u: Block)
    ensures At(k, Xor(t, u)) == Xor(At(k, t), At(k, u))
  {
    XorUnit(ZERO);
    XorWordUnit(0);
    hide XorWord;
    assert UpperPart(k, Xor(t, u)) == Xor(UpperPart(k, t), UpperPart(k, u));
    assert LowerPart(k, Xor(t, u)) == Xor(LowerPart(k, t), LowerPart(k, u));
    hide Xor, UpperPart, LowerPart, Field;
    FieldXor(UpperPart(k, t), LowerPart(k, t), UpperPart(k, u), LowerPart(k, u));
  }

  predicate TopClear(t: Block) { t.hi & 0x8000000000000000 == 0 }

  lemma SlZero(x: bv64)
    ensures Sl(x, 0) == Dbl(x) && Dbl(0) == 0
    ensures x & 0x8000000000000000 == 0 ==> Sl(0, x) == 0
  {}

  /** Where each partial product ends up, given that it has at most 127 bits. */
  lemma AtShape(t: Block)
    requires TopClear(t)
    ensures var u := ShlLo(t);
            At(2, t) == u && At(1, t) == Xor(Block(0, u.hi), Q(Block(u.lo, 0))) && At(0, t) == Q(u)
  {
    SlZero(t.hi);
    SlZero(t.lo);
    SlZero(0);
    assert Q(ZERO) == ZERO;
    var u := ShlLo(t);
    hide Q, Sl, Dbl;
    assert ShlLo(ZERO) == ZERO;
    XorUnit(u);
    XorUnit(Q(u));
  }

  function ClearTop(w: bv64): bv64 { (w << 1) >> 1 }
  function ClearLow(w: bv64): bv64 { (w >> 1) << 1 }

  lemma ShlShrWords(hi: bv64, lo: bv64)
    ensures Sl(ShrHi(1, hi), ShrLo(1, hi, lo)) == hi && ShrHi(1, Sl(hi, lo)) == ClearTop(hi)
    ensures Dbl(ShrLo(1, hi, lo)) == ClearLow(lo) && ShrLo(1, Sl(hi, lo), Dbl(lo)) == lo
  {
    hide Sl, Dbl, ShrHi, ShrLo, ClearTop, ClearLow;
    ShlShrHigh(hi, lo);
    ShrShlHigh(hi, lo);
    ShlShrLow(hi, lo);
    ShrShlLow(hi, lo);
  }

  lemma ShlShrHigh(hi: bv64, lo: bv64)
    ensures Sl(ShrHi(1, hi), ShrLo(1, hi, lo)) == hi
  {
    calc {
      Sl(ShrHi(1, hi), ShrLo(1, hi, lo));
      Sl(hi >> 1, (lo >> 1) | (hi << 63));
      ((hi >> 1) << 1) | (((lo >> 1) | (hi << 63)) >> 63);
      hi;
    }
  }

  lemma ShrShlHigh(hi: bv64, lo: bv64)
    ensures ShrHi(1, Sl(hi, lo)) == ClearTop(hi)
  {
    calc {
      ShrHi(1, Sl(hi, lo));
      ShrHi(1, (hi << 1) | (lo >> 63));
      ((hi << 1) | (lo >> 63)) >> 1;
      (hi << 1) >> 1;
    }
  }

  lemma ShlShrLow(hi: bv64, lo: bv64)
    ensures Dbl(ShrLo(1, hi, lo)) == ClearLow(lo)
  {
    calc {
      Dbl(ShrLo(1, hi, lo));
      Dbl((lo >> 1) | (hi << 63));
      ((lo >> 1) | (hi << 63)) << 1;
      (lo >> 1) << 1;
    }
  }

  lemma ShrShlLow(hi: bv64, lo: bv64)
    ensures ShrLo(1, Sl(hi, lo), Dbl(lo)) == lo
  {
    calc {
      ShrLo(1, Sl(hi, lo), Dbl(lo));
      ShrLo(1, (hi << 1) | (lo >> 63), lo << 1);
      ((lo << 1) >> 1) | (((hi << 1) | (lo >> 63)) << 63);
      lo;
    }
  }

  lemma ClearNothing(w: bv64)
    ensures w & 0x8000000000000000 == 0 ==> ClearTop(w) == w
    ensures w & 1 == 0 ==> ClearLow(w) == w
    ensures Dbl(w) & 1 == 0 && ShrHi(1, w) & 0x8000000000000000 == 0
  {}

  lemma ShlShr(t: Block)
    requires TopClear(t) && LowClear(1, t)
    ensures TopClear(Shr(1, t)) && ShlLo(Shr(1, t)) == Shr(1, ShlLo(t)) && LowClear(1, ShlLo(t))
  {
    ClearNothing(t.hi);
    ClearNothing(t.lo);
    hide Sl, Dbl, ShrHi, ShrLo, ClearTop, ClearLow;
    ShlShrWords(t.hi, t.lo);
  }

  lemma MulXHigh(l: bv64)
    requires l & 1 == 0
    ensures MulX(Block(l, 0)) == Block(Half(l), CarryIn(l, 0))
  {
    XorWordUnit(Half(l));
  }

  function Top63(h: bv64): bv64 { h << 63 }

  /** The bit x^127 folds to the image of x^128 under the reduction. */
  lemma FoldIsQ(h: bv64)
    ensures Block(Fold(h), 0) == Q(Block(Top63(h), 0))
  {
    assert h << 63 == 0 || h << 63 == 0x8000000000000000;
    assert Q(Block(0x8000000000000000, 0)) == Block(0xe100000000000000, 0);
    assert Q(ZERO) == ZERO;
    assert h & 1 == 0 <==> Top63(h) == 0;
  }

  lemma MulXLow(h: bv64)
    ensures MulX(Block(0, h)) == Xor(Block(0, Half(h)), Q(Block(Top63(h), 0)))
  {
    FoldIsQ(h);
    XorWordUnit(Half(0));
    XorWordUnit(Fold(h));
    XorWordUnit(Half(h));
    assert Half(0) == 0 && CarryIn(0, h) == Half(h);
  }

  /** Shifting a partial product right is multiplication by x, wherever it enters. */
  lemma AtShr(k: nat, t: Block)
    requires k <= 2 && TopClear(t) && LowClear(1, t)
    ensures At(k, Shr(1, t)) == MulX(At(k, t))
  {
    var u := ShlLo(t);
    hide TopClear, LowClear, ShlLo, Q, Poly, At, MulX, Shr;
    ShlShr(t);
    AtShape(t);
    AtShape(Shr(1, t));
    if k == 2 {
      MulXShr(u);
    } else if k == 0 {
      MulXShr(u);
      QPoly(u);
      QPoly(MulX(u));
      PolyMulX(u);
    } else {
      AtShrMiddle(u);
    }
  }

  lemma AtShrMiddle(u: Block)
    requires LowClear(1, u)
    ensures var w := Shr(1, u);
            MulX(Xor(Block(0, u.hi), Q(Block(u.lo, 0)))) == Xor(Block(0, w.hi), Q(Block(w.lo, 0)))
  {
    var h, l := u.hi, u.lo;
    var e, f := Block(Top63(h), 0), Block(Half(l), 0);
    MulXHigh(l);
    assert CarryIn(l, 0) == 0 by { assert (0 as bv64) >> 1 == 0; assert l << 63 == 0; }
    ShrIsXor(h, l);
    XorWordUnit(0);
    hide Q, MulX, XorWord, Top63, Half, ShrHi, ShrLo;
    calc {
      MulX(Xor(Block(0, h), Q(Block(l, 0))));
      { MulXXor(Block(0, h), Q(Block(l, 0))); MulXLow(h); }
      Xor(Xor(Block(0, Half(h)), Q(e)), MulX(Q(Block(l, 0))));
      { QPoly(Block(l, 0)); PolyMulX(Block(l, 0)); QPoly(MulX(Block(l, 0))); }
      Xor(Xor(Block(0, Half(h)), Q(e)), Q(f));
      { XorAssoc(Block(0, Half(h)), Q(e), Q(f)); }
      Xor(Block(0, Half(h)), Xor(Q(e), Q(f)));
      { QXor(e, f); }
      Xor(Block(0, Half(h)), Q(Xor(e, f)));
    }
  }

  lemma ShrIsXor(h: bv64, l: bv64)
    ensures ShrHi(1, h) == Half(h) && ShrLo(1, h, l) == XorWord(Top63(h), Half(l))
  {
    calc {
      XorWord(Top63(h), Half(l));
      XorWord(h << 63, l >> 1);
      (h << 63) ^ (l >> 1);
      (l >> 1) | (h << 63);
    }
  }

  // ---------------------------------------------------------------- sums over the bits of a word

  predicate Single(p: bv64) { p & (p - 1) == 0 }
  predicate ClearBelow(w: bv64, p: bv64) { w & (p - 1) == 0 }

  /** The sum of x^j v over the set bits of a, the first bit being p. */
  function WordSum(a: bv64, p: bv64, v: Block): Block
    decreases p
  {
    if p == 0 then ZERO
    else Xor(if KeepWord(a, p) != 0 then v else ZERO, WordSum(a, HalfWord(p), MulX(v)))
  }

  lemma SingleHalf(p: bv64)
    requires Single(p)
    ensures Single(HalfWord(p))
  {}

  lemma ShrClear(p: bv64, s: Block)
    requires Single(p) && HalfWord(p) != 0 && ClearBelow(s.lo, p)
    ensures LowClear(1, s) && ClearBelow(Shr(1, s).lo, HalfWord(p))
  {}

  lemma {:induction false} AtZero(k: nat)
    ensures At(k, ZERO) == ZERO
  {
    AtXor(k, ZERO, ZERO);
    XorUnit(ZERO);
    XorUnit(At(k, ZERO));
  }

  lemma {:induction false} AtClmulFrom(k: nat, a: bv64, p: bv64, s: Block)
    requires k <= 2 && Single(p) && TopClear(s) && ClearBelow(s.lo, p)
    ensures At(k, ClmulFrom(a, p, s)) == WordSum(a, p, At(k, s))
    decreases p
  {
    hide At, Xor, Shr, MulX, LowClear, KeepWord, Single, ClearBelow, TopClear;
    AtZero(k);
    if p != 0 {
      var q := HalfWord(p);
      SingleHalf(p);
      var r := ClmulFrom(a, q, Shr(1, s));
      AtXor(k, if KeepWord(a, p) != 0 then s else ZERO, r);
      if q != 0 {
        ShrClear(p, s);
        ShrTop(s);
        AtShr(k, s);
        AtClmulFrom(k, a, q, Shr(1, s));
      }
    }
  }

  lemma ShrTop(s: Block)
    ensures TopClear(Shr(1, s))
  {}

  lemma {:induction false} WordSumXor(a: bv64, p: bv64, v: Block, w: Block)
    ensures WordSum(a, p, Xor(v, w)) == Xor(WordSum(a, p, v), WordSum(a, p, w))
    decreases p
  {
    hide Xor, MulX, KeepWord;
    XorUnit(ZERO);
    if p != 0 {
      var q := HalfWord(p);
      WordSumXor(a, q, MulX(v), MulX(w));
      MulXXor(v, w);
      var c := KeepWord(a, p) != 0;
      XorSwap(if c then v else ZERO, if c then w else ZERO, WordSum(a, q, MulX(v)), WordSum(a, q, MulX(w)));
    }
  }

  lemma {:induction false} ProdWordSum(a: bv64, p: bv64, v: Block, h: Bytes16)
    ensures Prod(WordSum(a, p, v), h, 16) == WordSum(a, p, Prod(v, h, 16))
    decreases p
  {
    hide Xor, MulX, KeepWord;
    ProdZero(h, 16);
    if p != 0 {
      var q := HalfWord(p);
      ProdWordSum(a, q, MulX(v), h);
      ProdMulX(v, h, 16);
      ProdXor(if KeepWord(a, p) != 0 then v else ZERO, WordSum(a, q, MulX(v)), h, 16);
    }
  }

  /** The bits below the single bit p, and with p itself. */
  function BelowBit(p: bv64): bv64 { p - 1 }
  function UptoBit(p: bv64): bv64 { p | (p - 1) }

  lemma OneOfTwo(a: bv64, p: bv64)
    requires Single(p) && p != 0
    ensures KeepWord(a, p) == 0 || KeepWord(a, p) == p
  {}

  lemma HighAndBelow(a: bv64, p: bv64)
    requires Single(p) && p != 0
    ensures XorWord(KeepWord(a, p), KeepWord(a, BelowBit(p))) == KeepWord(a, UptoBit(p))
  {}

  lemma HalfBelow(p: bv64)
    requires Single(p) && p != 0
    ensures HalfWord(p) != 0 ==> UptoBit(HalfWord(p)) == BelowBit(p)
    ensures HalfWord(p) == 0 ==> BelowBit(p) == 0
    ensures HalfWord(p) < p
  {}

  lemma KeepNone(a: bv64)
    ensures KeepWord(a, 0) == 0
  {}

  lemma MulXWordHi(p: bv64)
    requires Single(p) && HalfWord(p) != 0
    ensures MulX(Block(p, 0)) == Block(HalfWord(p), 0)
  {
    XorWordUnit(Half(p));
    assert p & 1 == 0;
  }

  lemma MulXWordLo(p: bv64)
    requires Single(p) && HalfWord(p) != 0
    ensures MulX(Block(0, p)) == Block(0, HalfWord(p))
  {
    XorWordUnit(Half(0));
    assert p & 1 == 0;
  }

  /** The number of bits from p down. */
  function Order(p: bv64): nat
    decreases p
  {
    if p == 0 then 0 else 1 + Order(HalfWord(p))
  }

  lemma WordSumStep(a: bv64, p: bv64, v: Block)
    ensures WordSum(a, p, v) == if p == 0 then ZERO
              else Xor(if KeepWord(a, p) != 0 then v else ZERO, WordSum(a, HalfWord(p), MulX(v)))
  {
    hide Xor, MulX, KeepWord, HalfWord;
  }

  /** The bit p and the bits below it. */
  lemma KeepStep(a: bv64, p: bv64)
    requires Single(p) && p != 0
    ensures Single(HalfWord(p))
    ensures KeepWord(a, UptoBit(p))
         == XorWord(if KeepWord(a, p) != 0 then p else 0,
                    if HalfWord(p) == 0 then 0 else KeepWord(a, UptoBit(HalfWord(p))))
  {
    hide Single, KeepWord, XorWord, UptoBit, BelowBit, HalfWord;
    OneOfTwo(a, p);
    HighAndBelow(a, p);
    HalfBelow(p);
    SingleHalf(p);
    KeepNone(a);
  }

  /** The bits of a word below and including p, summed from x^0 or from x^64, give the word back. */
  lemma {:induction false} WordSumHi(a: bv64, p: bv64)
    requires Single(p) && p != 0
    ensures WordSum(a, p, Block(p, 0)) == Block(KeepWord(a, UptoBit(p)), 0)
    decreases Order(p)
  {
    hide Single, KeepWord, XorWord, MulX, UptoBit, HalfWord, WordSum;
    var q := HalfWord(p);
    WordSumStep(a, p, Block(p, 0));
    KeepStep(a, p);
    XorWordUnit(0);
    if q != 0 {
      WordSumHi(a, q);
      MulXWordHi(p);
    } else {
      WordSumStep(a, q, MulX(Block(p, 0)));
    }
  }

  lemma {:induction false} WordSumLo(a: bv64, p: bv64)
    requires Single(p) && p != 0
    ensures WordSum(a, p, Block(0, p)) == Block(0, KeepWord(a, UptoBit(p)))
    decreases Order(p)
  {
    hide Single, KeepWord, XorWord, MulX, UptoBit, HalfWord, WordSum;
    var q := HalfWord(p);
    WordSumStep(a, p, Block(0, p));
    KeepStep(a, p);
    XorWordUnit(0);
    if q != 0 {
      WordSumLo(a, q);
      MulXWordLo(p);
    } else {
      WordSumStep(a, q, MulX(Block(0, p)));
    }
  }

  /** x^(8 k) times a block whose low word is zero. */
  function Slide(k: nat, x: bv64): Block {
    match k
    case 0 => Block(x, 0)
    case 1 => Block(x >> 8, x << 56)
    case 2 => Block(x >> 16, x << 48)
    case 3 => Block(x >> 24, x << 40)
    case 4 => Block(x >> 32, x << 32)
    case 5 => Block(x >> 40, x << 24)
    case 6 => Block(x >> 48, x << 16)
    case 7 => Block(x >> 56, x << 8)
    case _ => Block(0, x)
  }

  lemma SlideStep(j: nat, k: nat, x: bv64)
    requires j < 8 && k == j + 1
    ensures Pow(8, Slide(j, x)) == Slide(k, x)
  {
    match j
    case 0 => PowShr(8, Block(x, 0));
    case 1 => PowShr(8, Block(x >> 8, x << 56));
    case 2 => PowShr(8, Block(x >> 16, x << 48));
    case 3 => PowShr(8, Block(x >> 24, x << 40));
    case 4 => PowShr(8, Block(x >> 32, x << 32));
    case 5 => PowShr(8, Block(x >> 40, x << 24));
    case 6 => PowShr(8, Block(x >> 48, x << 16));
    case 7 => PowShr(8, Block(x >> 56, x << 8));
  }

  lemma {:induction false} SlidePow(k: nat, x: bv64)
    requires k <= 8
    ensures Pow(8 * k, Block(x, 0)) == Slide(k, x)
  {
    if k > 0 {
      var j := k - 1;
      SlidePow(j, x);
      SlideStep(j, k, x);
      PowAdd(8, 8 * j, Block(x, 0));
    }
  }

  lemma PowNone(v: Block)
    ensures Pow(0, v) == v
  {}

  /** The reduction multiplies by x^128. */
  lemma QIsPow128(v: Block)
    ensures Q(v) == Pow(128, v)
  {
    hide *;
    var h := Store(v);
    QPoly(v);
    LoadStore(v);
    ProdOne(h);
    Reduction();
    PowNone(ONE);
    calc {
      Pow(128, v);
      { ProdPow(128, ONE, h, 16); }
      Prod(Pow(128, ONE), h, 16);
      Prod(Xor(Xor(Pow(7, ONE), Pow(2, ONE)), Xor(Pow(1, ONE), ONE)), h, 16);
      { ProdXor(Xor(Pow(7, ONE), Pow(2, ONE)), Xor(Pow(1, ONE), ONE), h, 16); }
      Xor(Prod(Xor(Pow(7, ONE), Pow(2, ONE)), h, 16), Prod(Xor(Pow(1, ONE), ONE), h, 16));
      {
        ProdXor(Pow(7, ONE), Pow(2, ONE), h, 16);
        ProdXor(Pow(1, ONE), ONE, h, 16);
        ProdPow(7, ONE, h, 16);
        ProdPow(2, ONE, h, 16);
        ProdPow(1, ONE, h, 16);
      }
      Xor(Xor(Pow(7, v), Pow(2, v)), Xor(Pow(1, v), v));
      {
        PolyIs(v);
        XorComm(Pow(7, v), Pow(2, v));
        XorComm(Pow(1, v), v);
        XorComm(Xor(Pow(2, v), Pow(7, v)), Xor(v, Pow(1, v)));
      }
      Poly(v);
    }
  }

  /** One partial product: the polynomial product of two words, at its place, in the field. */
  lemma AtClmul(k: nat, a: bv64, b: bv64)
    requires k <= 2
    ensures At(k, Clmul(a, b)) == WordSum(a, TOP,
                                          if k == 2 then Block(b, 0) else if k == 1 then Block(0, b) else Pow(64,
                                              Block(0, b)))
  {
    hide At, ClmulFrom, WordSum, Start, Pow, Q, Single, TopClear, ClearBelow;
    StartClear(b);
    AtClmulFrom(k, a, TOP, Start(b));
    AtStart(b);
    LowWord(b);
  }

  lemma StartClear(b: bv64)
    ensures Single(TOP) && TopClear(Start(b)) && ClearBelow(Start(b).lo, TOP)
  {}

  lemma LowWord(b: bv64)
    ensures Pow(64, Block(b, 0)) == Block(0, b) && Q(Block(b, 0)) == Pow(64, Block(0, b))
  {
    SlidePow(8, b);
    QIsPow128(Block(b, 0));
    PowAdd(64, 64, Block(b, 0));
  }

  lemma AtStart(b: bv64)
    ensures At(2, Start(b)) == Block(b, 0) && At(1, Start(b)) == Block(0, b) && At(0, Start(b)) == Q(Block(b, 0))
  {
    StartClear(b);
    AtShape(Start(b));
    assert Sl(b >> 1, b << 63) == b;
    assert Dbl(b << 63) == 0;
    assert Q(ZERO) == ZERO;
    XorUnit(Block(0, b));
  }

  /** x^0 to x^127 summed over the set bits of a, starting from v. */
  function BlockSum(a: Block, v: Block): Block {
    Xor(WordSum(a.hi, TOP, v), WordSum(a.lo, TOP, Pow(64, v)))
  }

  lemma KeepAll(w: bv64)
    ensures KeepWord(w, UptoBit(TOP)) == w && XorWord(w, 0) == w && XorWord(0, w) == w
  {}

  lemma BlockSumOne(a: Block)
    ensures BlockSum(a, ONE) == a
  {
    StartClear(0);
    KeepAll(a.hi);
    KeepAll(a.lo);
    hide KeepWord, XorWord, UptoBit, Pow, WordSum, Single;
    LowWord(TOP);
    WordSumHi(a.hi, TOP);
    WordSumLo(a.lo, TOP);
  }

  lemma BlockSumIsMul(a: Block, v: Block)
    ensures BlockSum(a, v) == Mul(a, v)
  {
    var h := Store(v);
    LoadStore(v);
    ProdOne(h);
    BlockSumOne(a);
    hide WordSum, Xor, Prod, Pow;
    ProdXor(WordSum(a.hi, TOP, ONE), WordSum(a.lo, TOP, Pow(64, ONE)), h, 16);
    ProdWordSum(a.hi, TOP, ONE, h);
    ProdWordSum(a.lo, TOP, Pow(64, ONE), h);
    ProdPow(64, ONE, h, 16);
  }

  /** The four partial products, gathered as the code does, give the field product. */
  lemma FourProducts(a: Block, b: Block)
    ensures var mid := Xor(Clmul(a.hi, b.lo), Clmul(a.lo, b.hi));
            Field(Xor(Clmul(a.hi, b.hi), Block(0, mid.hi)), Xor(Clmul(a.lo, b.lo), Block(mid.lo, 0))) == Mul(a, b)
  {
    hide Clmul, Field, Xor, WordSum, Pow, BlockSum;
    var hh, hl, lh, ll := Clmul(a.hi, b.hi), Clmul(a.hi, b.lo), Clmul(a.lo, b.hi), Clmul(a.lo, b.lo);
    var mid := Xor(hl, lh);
    XorComm(ll, Block(mid.lo, 0));
    FieldGather(hh, mid, ll);
    AtXor(1, hl, lh);
    AtClmul(2, a.hi, b.hi);
    AtClmul(1, a.hi, b.lo);
    AtClmul(1, a.lo, b.hi);
    AtClmul(0, a.lo, b.lo);
    FourSums(a, b);
    BlockSumIsMul(a, b);
  }

  lemma FourSums(a: Block, b: Block)
    ensures Xor(WordSum(a.hi, TOP, Block(b.hi, 0)),
                Xor(Xor(WordSum(a.hi, TOP, Block(0, b.lo)), WordSum(a.lo, TOP, Block(0, b.hi))),
                    WordSum(a.lo, TOP, Pow(64, Block(0, b.lo)))))
         == BlockSum(a, b)
  {
    var bh, bl := Block(b.hi, 0), Block(0, b.lo);
    XorWordUnit(b.hi);
    XorWordUnit(b.lo);
    assert Xor(bh, bl) == b;
    hide Xor, WordSum, Pow;
    LowWord(b.hi);
    var u2, u1a, u1b, u0 := WordSum(a.hi, TOP, bh), WordSum(a.hi, TOP, bl), WordSum(a.lo, TOP, Block(0, b.hi)),
                            WordSum(a.lo, TOP, Pow(64, bl));
    XorAssoc(u1a, u1b, u0);
    XorAssoc(u2, u1a, Xor(u1b, u0));
    WordSumXor(a.hi, TOP, bh, bl);
    WordSumXor(a.lo, TOP, Pow(64, bh), Pow(64, bl));
    PowXor(64, bh, bl);
  }

  lemma FieldGather(hh: Block, mid: Block, ll: Block)
    ensures Field(Xor(hh, Block(0, mid.hi)), Xor(Block(mid.lo, 0), ll)) == Xor(At(2, hh), Xor(At(1, mid), At(0, ll)))
  {
    hide Field, Xor;
    var z := Block(0, mid.hi);
    var w := Block(mid.lo, 0);
    XorUnit(ll);
    XorUnit(z);
    XorUnit(Xor(w, ll));
    FieldXor(z, w, ZERO, ll);
    FieldXor(hh, ZERO, z, Xor(w, ll));
  }

  // ---------------------------------------------------------------- the instruction sequence

  /** The lanes shifted left by one, with the bit that crosses the lanes. */
  lemma LanesDouble(w: bv64)
    ensures OrWord(Lsl1(w), Up(Lsr31(w))) == Dbl(w)
  {
    calc {
      OrWord(Lsl1(w), Up(Lsr31(w)));
      OrWord((w << 1) & 0xfffffffefffffffe, Up((w >> 31) & 0x0000000100000001));
      OrWord((w << 1) & 0xfffffffefffffffe, ((w >> 31) & 0x0000000100000001) << 32);
      ((w << 1) & 0xfffffffefffffffe) | (((w >> 31) & 0x0000000100000001) << 32);
      w << 1;
      Dbl(w);
    }
  }

  function TopBit(w: bv64): bv64 { w >> 63 }

  /** The bit that leaves the low word. */
  lemma LanesCarry(w: bv64)
    ensures Down(Lsr31(w)) == TopBit(w)
  {
    calc {
      Down(Lsr31(w));
      Down((w >> 31) & 0x0000000100000001);
      ((w >> 31) & 0x0000000100000001) >> 32;
      w >> 63;
      TopBit(w);
    }
  }

  lemma SlParts(hi: bv64, lo: bv64)
    ensures Sl(hi, lo) == OrWord(Dbl(hi), TopBit(lo))
  {
    calc {
      Sl(hi, lo);
      (hi << 1) | (lo >> 63);
      OrWord(hi << 1, lo >> 63);
      OrWord(Dbl(hi), TopBit(lo));
    }
  }

  lemma OrAssoc(a: bv64, b: bv64, c: bv64)
    ensures OrWord(OrWord(a, b), c) == OrWord(a, OrWord(b, c))
  {
    calc {
      OrWord(OrWord(a, b), c);
      OrWord(a | b, c);
      (a | b) | c;
      a | (b | c);
      OrWord(a, b | c);
      OrWord(a, OrWord(b, c));
    }
  }

  /** One word of the 1-bit left shift: the lanes shifted, or'ed with the bits that cross a lane. */
  lemma CrossLane(hi: bv64, lo: bv64)
    ensures OrWord(Lsl1(hi), OrWord(Up(Lsr31(hi)), Down(Lsr31(lo)))) == Sl(hi, lo)
    ensures OrWord(OrWord(Lsl1(hi), Up(Lsr31(hi))), Down(Lsr31(lo))) == Sl(hi, lo)
    ensures OrWord(Lsl1(lo), Up(Lsr31(lo))) == Dbl(lo)
  {
    hide *;
    LanesDouble(hi);
    LanesDouble(lo);
    LanesCarry(lo);
    SlParts(hi, lo);
    OrAssoc(Lsl1(hi), Up(Lsr31(hi)), Down(Lsr31(lo)));
  }

  lemma OrZero(w: bv64)
    ensures OrWord(w, 0) == w
  {}

  lemma ShiftByOne(t3: Block, t6: Block)
    ensures Or(LaneShl(t3, 1), ByteShl(LaneShr(t3, 31), 4)) == ShlLo(t3)
    ensures Or(Or(LaneShl(t6, 1), ByteShl(LaneShr(t6, 31), 4)), ByteShr(LaneShr(t3, 31), 12)) == ShlHi(t6, t3)
  {
    hide OrWord, Up, Down, Sl, Dbl, Lsl1, Lsr31;
    CrossLane(t3.hi, t3.lo);
    CrossLane(t6.hi, t6.lo);
    CrossLane(t6.lo, t3.hi);
    OrZero(Sl(t6.hi, t6.lo));
  }

  lemma DisjointHalves(x: bv64, y: bv64)
    ensures OrWord(Down(x), Up(y)) == XorWord(Down(x), Up(y))
  {
    calc {
      OrWord(Down(x), Up(y));
      OrWord(x >> 32, y << 32);
      (x >> 32) | (y << 32);
      (x >> 32) ^ (y << 32);
      XorWord(x >> 32, y << 32);
      XorWord(Down(x), Up(y));
    }
  }

  /** mul: the straight-line carry-less-multiply sequence. */
  method MulPclmul(hv: Block, buf: array<bv8>)
    requires buf.Length == 16
    modifies buf
    ensures buf[..] == Store(Mul(Load(old(buf[..])), hv))
  {
    hide Clmul, LaneShl, LaneShr, ByteShl, ByteShr, Or, Xor, Mul, Load, Store;
    var a := Load(buf[..]);
    var b := hv;

    var t3 := Clmul(a.lo, b.lo);
    var t4 := Clmul(a.hi, b.lo);
    var t5 := Clmul(a.lo, b.hi);
    var t6 := Clmul(a.hi, b.hi);

    t4 := Xor(t4, t5);
    t5 := t4;
    t4 := ByteShr(t4, 8);
    t5 := ByteShl(t5, 8);
    t3 := Xor(t3, t5);
    t6 := Xor(t6, t4);
    ghost var lo, hi := t3, t6;
    var t7 := t3;
    var t8 := t6;
    t3 := LaneShl(t3, 1);
    t6 := LaneShl(t6, 1);
    t7 := LaneShr(t7, 31);
    t8 := LaneShr(t8, 31);
    var t9 := t7;
    t8 := ByteShl(t8, 4);
    t7 := ByteShl(t7, 4);
    t9 := ByteShr(t9, 12);
    t3 := Or(t3, t7);
    t6 := Or(t6, t8);
    t6 := Or(t6, t9);
    ghost var v := t3;

    t7 := t3;
    t8 := t3;
    t9 := t3;
    t7 := LaneShl(t7, 31);
    t8 := LaneShl(t8, 30);
    t9 := LaneShl(t9, 25);
    t7 := Xor(t7, t8);
    t7 := Xor(t7, t9);
    t8 := t7;
    t7 := ByteShl(t7, 12);
    t8 := ByteShr(t8, 4);
    t3 := Xor(t3, t7);

    var t2 := t3;
    t4 := t3;
    t5 := t3;
    t2 := LaneShr(t2, 1);
    t4 := LaneShr(t4, 2);
    t5 := LaneShr(t5, 7);
    t2 := Xor(t2, t4);
    t2 := Xor(t2, t5);
    t2 := Xor(t2, t8);
    t3 := Xor(t3, t2);
    ReduceSteps(v);
    t6 := Xor(t6, t3);

    ShiftByOne(lo, hi);
    Gathered(a, b);
    GcmTables.StoreBlock(buf, t6);
  }

  /** The reduction as the code performs it. */
  lemma ReduceSteps(v: Block)
    ensures var t := Xor(Xor(LaneShl(v, 31), LaneShl(v, 30)), LaneShl(v, 25));
            var w := Xor(v, ByteShl(t, 12));
            Xor(w, Xor(Xor(Xor(LaneShr(w, 1), LaneShr(w, 2)), LaneShr(w, 7)), ByteShr(t, 4))) == Q(v)
  {
    hide XorWord, OrWord, Up, Down, Lsl25, Lsl30, Lsl31, Lsr1, Lsr2, Lsr7;
    DisjointHalves(Tail3(v.lo), Tail3(v.hi));
    XorWordUnit(v.lo);
  }

  lemma Gathered(a: Block, b: Block)
    ensures var mid := Xor(Clmul(a.hi, b.lo), Clmul(a.lo, b.hi));
            var lo := Xor(Clmul(a.lo, b.lo), ByteShl(mid, 8));
            var hi := Xor(Clmul(a.hi, b.hi), ByteShr(mid, 8));
            Xor(ShlHi(hi, lo), Q(ShlLo(lo))) == Mul(a, b)
  {
    FourProducts(a, b);
  }
}
