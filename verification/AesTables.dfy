/** The fused tables of impl/block/aes/aes.cc and what one round over four words computes with them. */
module AesTables {
  import opened Words
  import opened Sbox
  import opened RijndaelSpec

  // ---------------------------------------------------------------- words of four bytes

  function Byte3(w: bv32): bv8 { (w >> 24) as bv8 }
  function Byte2(w: bv32): bv8 { ((w >> 16) & 0xff) as bv8 }
  function Byte1(w: bv32): bv8 { ((w >> 8) & 0xff) as bv8 }
  function Byte0(w: bv32): bv8 { (w & 0xff) as bv8 }

  function XorW(a: bv32, b: bv32): bv32 { a ^ b }

  /** Four bytes, most significant first. */
  function Pack(a: bv8, b: bv8, c: bv8, d: bv8): bv32 {
    (a as bv32 << 24) | (b as bv32 << 16) | (c as bv32 << 8) | (d as bv32)
  }

  function Split(w: bv32): Col { Col(Byte3(w), Byte2(w), Byte1(w), Byte0(w)) }

  lemma SplitPack(a: bv8, b: bv8, c: bv8, d: bv8)
    ensures Split(Pack(a, b, c, d)) == Col(a, b, c, d)
  {}

  lemma Xor3(v: bv32, w: bv32)
    ensures Byte3(XorW(v, w)) == XorByte(Byte3(v), Byte3(w))
  {
    calc {
      Byte3(XorW(v, w));
      Byte3(v ^ w);
      ((v ^ w) >> 24) as bv8;
      ((v >> 24) as bv8) ^ ((w >> 24) as bv8);
      XorByte((v >> 24) as bv8, (w >> 24) as bv8);
      XorByte(Byte3(v), Byte3(w));
    }
  }

  lemma Xor2(v: bv32, w: bv32)
    ensures Byte2(XorW(v, w)) == XorByte(Byte2(v), Byte2(w))
  {
    calc {
      Byte2(XorW(v, w));
      Byte2(v ^ w);
      (((v ^ w) >> 16) & 0xff) as bv8;
      (((v >> 16) & 0xff) as bv8) ^ (((w >> 16) & 0xff) as bv8);
      XorByte(((v >> 16) & 0xff) as bv8, ((w >> 16) & 0xff) as bv8);
      XorByte(Byte2(v), Byte2(w));
    }
  }

  lemma Xor1(v: bv32, w: bv32)
    ensures Byte1(XorW(v, w)) == XorByte(Byte1(v), Byte1(w))
  {
    calc {
      Byte1(XorW(v, w));
      Byte1(v ^ w);
      (((v ^ w) >> 8) & 0xff) as bv8;
      (((v >> 8) & 0xff) as bv8) ^ (((w >> 8) & 0xff) as bv8);
      XorByte(((v >> 8) & 0xff) as bv8, ((w >> 8) & 0xff) as bv8);
      XorByte(Byte1(v), Byte1(w));
    }
  }

  lemma Xor0(v: bv32, w: bv32)
    ensures Byte0(XorW(v, w)) == XorByte(Byte0(v), Byte0(w))
  {
    calc {
      Byte0(XorW(v, w));
      Byte0(v ^ w);
      ((v ^ w) & 0xff) as bv8;
      ((v & 0xff) as bv8) ^ ((w & 0xff) as bv8);
      XorByte((v & 0xff) as bv8, (w & 0xff) as bv8);
      XorByte(Byte0(v), Byte0(w));
    }
  }

  lemma SplitXor(v: bv32, w: bv32)
    ensures Split(XorW(v, w)) == XorCol(Split(v), Split(w))
  {
    hide XorW, XorByte, Byte3, Byte2, Byte1, Byte0;
    Xor3(v, w);
    Xor2(v, w);
    Xor1(v, w);
    Xor0(v, w);
  }

  // ---------------------------------------------------------------- the tables

  // Te0 to Te3 are SubBytes and a column of MixColumns at once, Td0 to Td3 the inverses of both; Te4 and Td4 hold the
  // substituted byte four times.
  function Te0(x: bv8): bv32 { Pack(Mul2(Sub(x)), Sub(x), Sub(x), Mul3(Sub(x))) }
  function Te1(x: bv8): bv32 { Pack(Mul3(Sub(x)), Mul2(Sub(x)), Sub(x), Sub(x)) }
  function Te2(x: bv8): bv32 { Pack(Sub(x), Mul3(Sub(x)), Mul2(Sub(x)), Sub(x)) }
  function Te3(x: bv8): bv32 { Pack(Sub(x), Sub(x), Mul3(Sub(x)), Mul2(Sub(x))) }
  function Te4(x: bv8): bv32 { Pack(Sub(x), Sub(x), Sub(x), Sub(x)) }
  function Td0(x: bv8): bv32 { Pack(MulE(InvSub(x)), Mul9(InvSub(x)), MulD(InvSub(x)), MulB(InvSub(x))) }
  function Td1(x: bv8): bv32 { Pack(MulB(InvSub(x)), MulE(InvSub(x)), Mul9(InvSub(x)), MulD(InvSub(x))) }
  function Td2(x: bv8): bv32 { Pack(MulD(InvSub(x)), MulB(InvSub(x)), MulE(InvSub(x)), Mul9(InvSub(x))) }
  function Td3(x: bv8): bv32 { Pack(Mul9(InvSub(x)), MulD(InvSub(x)), MulB(InvSub(x)), MulE(InvSub(x))) }
  function Td4(x: bv8): bv32 { Pack(InvSub(x), InvSub(x), InvSub(x), InvSub(x)) }

  function High(w: bv32): bv32 { w & 0xff000000 }
  function Third(w: bv32): bv32 { w & 0x00ff0000 }
  function Second(w: bv32): bv32 { w & 0x0000ff00 }
  function Low(w: bv32): bv32 { w & 0x000000ff }

  function Xor5(a: bv32, b: bv32, c: bv32, d: bv32, e: bv32): bv32 { XorW(XorW(XorW(XorW(a, b), c), d), e) }

  /** One word of EncryptRound and of DecryptRound. */
  function RoundWord(x: bv32, y: bv32, z: bv32, w: bv32, k: bv32): bv32 {
    Xor5(Te0(Byte3(x)), Te1(Byte2(y)), Te2(Byte1(z)), Te3(Byte0(w)), k)
  }

  function InvRoundWord(x: bv32, y: bv32, z: bv32, w: bv32, k: bv32): bv32 {
    Xor5(Td0(Byte3(x)), Td1(Byte2(y)), Td2(Byte1(z)), Td3(Byte0(w)), k)
  }

  /** One word of the last rounds. */
  function LastWord(x: bv32, y: bv32, z: bv32, w: bv32, k: bv32): bv32 {
    Xor5(High(Te4(Byte3(x))), Third(Te4(Byte2(y))), Second(Te4(Byte1(z))), Low(Te4(Byte0(w))), k)
  }

  function InvLastWord(x: bv32, y: bv32, z: bv32, w: bv32, k: bv32): bv32 {
    Xor5(High(Td4(Byte3(x))), Third(Td4(Byte2(y))), Second(Td4(Byte1(z))), Low(Td4(Byte0(w))), k)
  }

  function MixCol(a: bv8, b: bv8, c: bv8, d: bv8): Col {
    Col(Mix(a, b, c, d), Mix(b, c, d, a), Mix(c, d, a, b), Mix(d, a, b, c))
  }

  function InvMixCol(a: bv8, b: bv8, c: bv8, d: bv8): Col {
    Col(InvMix(a, b, c, d), InvMix(b, c, d, a), InvMix(c, d, a, b), InvMix(d, a, b, c))
  }

  /** The sum of four words of a table row is the column of their sums. */
  lemma FourWords(a: Col, b: Col, c: Col, d: Col, v: bv32, w: bv32, x: bv32, y: bv32, k: bv32)
    requires Split(v) == a && Split(w) == b && Split(x) == c && Split(y) == d
    ensures Split(Xor5(v, w, x, y, k))
         == XorCol(Col(Xor4(a.b0, b.b0, c.b0, d.b0), Xor4(a.b1, b.b1, c.b1, d.b1),
                       Xor4(a.b2, b.b2, c.b2, d.b2), Xor4(a.b3, b.b3, c.b3, d.b3)), Split(k))
  {
    hide Split, XorW, XorByte, Xor4;
    SplitXor(v, w);
    SplitXor(XorW(v, w), x);
    SplitXor(XorW(XorW(v, w), x), y);
    SplitXor(XorW(XorW(XorW(v, w), x), y), k);
    Xor4Chain(a.b0, b.b0, c.b0, d.b0);
    Xor4Chain(a.b1, b.b1, c.b1, d.b1);
    Xor4Chain(a.b2, b.b2, c.b2, d.b2);
    Xor4Chain(a.b3, b.b3, c.b3, d.b3);
  }

  lemma RoundWordIs(x: bv32, y: bv32, z: bv32, w: bv32, k: bv32)
    ensures Split(RoundWord(x, y, z, w, k))
         == XorCol(MixCol(Sub(Byte3(x)), Sub(Byte2(y)), Sub(Byte1(z)), Sub(Byte0(w))), Split(k))
  {
    hide Sub, Split, XorCol, Xor4, Mul2, Mul3, Pack, Xor5, Byte3, Byte2, Byte1, Byte0;
    var a, b, c, d := Sub(Byte3(x)), Sub(Byte2(y)), Sub(Byte1(z)), Sub(Byte0(w));
    SplitPack(Mul2(a), a, a, Mul3(a));
    SplitPack(Mul3(b), Mul2(b), b, b);
    SplitPack(c, Mul3(c), Mul2(c), c);
    SplitPack(d, d, Mul3(d), Mul2(d));
    FourWords(Col(Mul2(a), a, a, Mul3(a)), Col(Mul3(b), Mul2(b), b, b), Col(c, Mul3(c), Mul2(c), c),
              Col(d, d, Mul3(d), Mul2(d)), Te0(Byte3(x)), Te1(Byte2(y)), Te2(Byte1(z)), Te3(Byte0(w)), k);
    Xor4Rotate(Mul2(b), Mul3(c), d, a);
    Xor4Rotate(Mul2(c), Mul3(d), a, b);
    Xor4Rotate(Mul2(d), Mul3(a), b, c);
  }

  lemma InvRoundWordIs(x: bv32, y: bv32, z: bv32, w: bv32, k: bv32)
    ensures Split(InvRoundWord(x, y, z, w, k))
         == XorCol(InvMixCol(InvSub(Byte3(x)), InvSub(Byte2(y)), InvSub(Byte1(z)), InvSub(Byte0(w))), Split(k))
  {
    hide InvSub, Split, XorCol, Xor4, MulE, MulB, MulD, Mul9, Pack, Xor5, Byte3, Byte2, Byte1, Byte0;
    var a, b, c, d := InvSub(Byte3(x)), InvSub(Byte2(y)), InvSub(Byte1(z)), InvSub(Byte0(w));
    SplitPack(MulE(a), Mul9(a), MulD(a), MulB(a));
    SplitPack(MulB(b), MulE(b), Mul9(b), MulD(b));
    SplitPack(MulD(c), MulB(c), MulE(c), Mul9(c));
    SplitPack(Mul9(d), MulD(d), MulB(d), MulE(d));
    FourWords(Col(MulE(a), Mul9(a), MulD(a), MulB(a)), Col(MulB(b), MulE(b), Mul9(b), MulD(b)),
              Col(MulD(c), MulB(c), MulE(c), Mul9(c)), Col(Mul9(d), MulD(d), MulB(d), MulE(d)),
              Td0(Byte3(x)), Td1(Byte2(y)), Td2(Byte1(z)), Td3(Byte0(w)), k);
    Xor4Rotate(MulE(b), MulB(c), MulD(d), Mul9(a));
    Xor4Rotate(MulE(c), MulB(d), MulD(a), Mul9(b));
    Xor4Rotate(MulE(d), MulB(a), MulD(b), Mul9(c));
  }

  lemma SplitMasks(a: bv8, b: bv8, c: bv8, d: bv8)
    ensures Split(High(Pack(a, b, c, d))) == Col(a, 0, 0, 0)
    ensures Split(Third(Pack(a, b, c, d))) == Col(0, b, 0, 0)
    ensures Split(Second(Pack(a, b, c, d))) == Col(0, 0, c, 0)
    ensures Split(Low(Pack(a, b, c, d))) == Col(0, 0, 0, d)
  {}

  lemma OnlyOne(a: bv8)
    ensures Xor4(a, 0, 0, 0) == a && Xor4(0, a, 0, 0) == a && Xor4(0, 0, a, 0) == a && Xor4(0, 0, 0, a) == a
  {}

  lemma LastWordIs(x: bv32, y: bv32, z: bv32, w: bv32, k: bv32)
    ensures Split(LastWord(x, y, z, w, k))
         == XorCol(Col(Sub(Byte3(x)), Sub(Byte2(y)), Sub(Byte1(z)), Sub(Byte0(w))), Split(k))
    ensures Split(InvLastWord(x, y, z, w, k))
         == XorCol(Col(InvSub(Byte3(x)), InvSub(Byte2(y)), InvSub(Byte1(z)), InvSub(Byte0(w))), Split(k))
  {
    hide Sub, InvSub, Split, XorCol, Xor4, Pack, Xor5, High, Third, Second, Low, Byte3, Byte2, Byte1, Byte0;
    FourMasked(Sub(Byte3(x)), Sub(Byte2(y)), Sub(Byte1(z)), Sub(Byte0(w)), k);
    FourMasked(InvSub(Byte3(x)), InvSub(Byte2(y)), InvSub(Byte1(z)), InvSub(Byte0(w)), k);
  }

  lemma FourMasked(a: bv8, b: bv8, c: bv8, d: bv8, k: bv32)
    ensures Split(Xor5(High(Pack(a, a, a, a)), Third(Pack(b, b, b, b)), Second(Pack(c, c, c, c)),
                       Low(Pack(d, d, d, d)), k))
         == XorCol(Col(a, b, c, d), Split(k))
  {
    hide Split, XorCol, Xor4, Pack, Xor5, High, Third, Second, Low;
    SplitMasks(a, a, a, a);
    SplitMasks(b, b, b, b);
    SplitMasks(c, c, c, c);
    SplitMasks(d, d, d, d);
    FourWords(Col(a, 0, 0, 0), Col(0, b, 0, 0), Col(0, 0, c, 0), Col(0, 0, 0, d),
              High(Pack(a, a, a, a)), Third(Pack(b, b, b, b)), Second(Pack(c, c, c, c)), Low(Pack(d, d, d, d)), k);
    OnlyOne(a);
    OnlyOne(b);
    OnlyOne(c);
    OnlyOne(d);
  }

  // ---------------------------------------------------------------- rounds on four words

  function Pick<T>(a: T, b: T, c: T, d: T, j: nat): T {
    if j == 0 then a else if j == 1 then b else if j == 2 then c else d
  }

  lemma PickMap<T, U>(f: T -> U, a: T, b: T, c: T, d: T, j: nat)
    ensures Pick(f(a), f(b), f(c), f(d), j) == f(Pick(a, b, c, d, j))
  {}

  /** Row r of column j after the row shifts, and after their inverses. */
  lemma PickDiagonal<T>(a0: T, a1: T, a2: T, a3: T, b0: T, b1: T, b2: T, b3: T,
                        c0: T, c1: T, c2: T, c3: T, d0: T, d1: T, d2: T, d3: T, j: nat, r: nat, k: nat, l: nat)
    requires j < 4 && r < 4 && k == Around(4, j, Offset(4, r)) && l == Around(4, j, 4 - Offset(4, r))
    ensures Pick(Pick(a0, b0, c0, d0, j), Pick(b1, c1, d1, a1, j), Pick(c2, d2, a2, b2, j), Pick(d3, a3, b3, c3, j), r)
         == Pick(Pick(a0, b0, c0, d0, k), Pick(a1, b1, c1, d1, k), Pick(a2, b2, c2, d2, k), Pick(a3, b3, c3, d3, k), r)
    ensures Pick(Pick(a0, b0, c0, d0, j), Pick(d1, a1, b1, c1, j), Pick(c2, d2, a2, b2, j), Pick(b3, c3, d3, a3, j), r)
         == Pick(Pick(a0, b0, c0, d0, l), Pick(a1, b1, c1, d1, l), Pick(a2, b2, c2, d2, l), Pick(a3, b3, c3, d3, l), r)
  {}

  /** Four columns as a block. */
  function Flat(a: Col, b: Col, c: Col, d: Col): (s: Bytes)
    ensures State(s, 4)
  {
    seq(16, i requires 0 <= i < 16 => ColByte(Pick(a, b, c, d, i / 4), i % 4))
  }

  /** Four words as a block: the bytes of each, most significant first. */
  function Block4(w0: bv32, w1: bv32, w2: bv32, w3: bv32): (s: Bytes)
    ensures State(s, 4)
  {
    Flat(Split(w0), Split(w1), Split(w2), Split(w3))
  }

  lemma FlatAt(a: Col, b: Col, c: Col, d: Col, j: nat, r: nat)
    requires j < 4 && r < 4
    ensures At(Flat(a, b, c, d), 4, j, r) == ColByte(Pick(a, b, c, d, j), r)
  {
    hide Pick, ColByte;
    assert (4 * j + r) / 4 == j && (4 * j + r) % 4 == r;
  }

  function InvSubCol(x: Col): Col { Col(InvSub(x.b0), InvSub(x.b1), InvSub(x.b2), InvSub(x.b3)) }

  /** One byte of each of four columns: a column after the row shifts. */
  function Diagonal(a: Col, b: Col, c: Col, d: Col): Col { Col(a.b0, b.b1, c.b2, d.b3) }

  function MixOf(a: Col): Col { MixCol(a.b0, a.b1, a.b2, a.b3) }

  function InvMixOf(a: Col): Col { InvMixCol(a.b0, a.b1, a.b2, a.b3) }

  /** Row r of column j, row by row. */
  lemma PickRows(a: Col, b: Col, c: Col, d: Col, j: nat, r: nat)
    requires r < 4
    ensures ColByte(Pick(a, b, c, d, j), r)
         == Pick(Pick(a.b0, b.b0, c.b0, d.b0, j), Pick(a.b1, b.b1, c.b1, d.b1, j),
                 Pick(a.b2, b.b2, c.b2, d.b2, j), Pick(a.b3, b.b3, c.b3, d.b3, j), r)
  {
    var x := Pick(a, b, c, d, j);
    assert ColByte(x, r) == Pick(x.b0, x.b1, x.b2, x.b3, r);
    hide Pick;
    PickMap((x: Col) => x.b0, a, b, c, d, j);
    PickMap((x: Col) => x.b1, a, b, c, d, j);
    PickMap((x: Col) => x.b2, a, b, c, d, j);
    PickMap((x: Col) => x.b3, a, b, c, d, j);
  }

  lemma SubColByte(x: Col, r: nat)
    requires r < 4
    ensures ColByte(SubCol(x), r) == Sub(ColByte(x, r))
    ensures ColByte(InvSubCol(x), r) == InvSub(ColByte(x, r))
  {
    hide Sub, InvSub;
  }

  lemma FlatSub(a: Col, b: Col, c: Col, d: Col)
    ensures SubBytes(Flat(a, b, c, d)) == Flat(SubCol(a), SubCol(b), SubCol(c), SubCol(d))
    ensures InvSubBytes(Flat(a, b, c, d)) == Flat(InvSubCol(a), InvSubCol(b), InvSubCol(c), InvSubCol(d))
  {
    var s, t := Flat(a, b, c, d), Flat(SubCol(a), SubCol(b), SubCol(c), SubCol(d));
    var u := Flat(InvSubCol(a), InvSubCol(b), InvSubCol(c), InvSubCol(d));
    SubBytesState(s, 4);
    hide *;
    forall j, r | 0 <= j < 4 && 0 <= r < 4
      ensures At(SubBytes(s), 4, j, r) == At(t, 4, j, r)
      ensures At(InvSubBytes(s), 4, j, r) == At(u, 4, j, r)
    {
      SubBytesAt(s, 4, j, r);
      FlatAt(a, b, c, d, j, r);
      FlatAt(SubCol(a), SubCol(b), SubCol(c), SubCol(d), j, r);
      FlatAt(InvSubCol(a), InvSubCol(b), InvSubCol(c), InvSubCol(d), j, r);
      PickMap(SubCol, a, b, c, d, j);
      PickMap(InvSubCol, a, b, c, d, j);
      SubColByte(Pick(a, b, c, d, j), r);
    }
    SameState(SubBytes(s), t, 4);
    SameState(InvSubBytes(s), u, 4);
  }

  lemma FlatShift(a: Col, b: Col, c: Col, d: Col)
    ensures ShiftRows(Flat(a, b, c, d), 4)
         == Flat(Diagonal(a, b, c, d), Diagonal(b, c, d, a), Diagonal(c, d, a, b), Diagonal(d, a, b, c))
    ensures InvShiftRows(Flat(a, b, c, d), 4)
         == Flat(Diagonal(a, d, c, b), Diagonal(b, a, d, c), Diagonal(c, b, a, d), Diagonal(d, c, b, a))
  {
    hide Flat, ShiftRows, InvShiftRows, At, Pick, ColByte, Around, Offset;
    var s := Flat(a, b, c, d);
    var t := Flat(Diagonal(a, b, c, d), Diagonal(b, c, d, a), Diagonal(c, d, a, b), Diagonal(d, a, b, c));
    var u := Flat(Diagonal(a, d, c, b), Diagonal(b, a, d, c), Diagonal(c, b, a, d), Diagonal(d, c, b, a));
    forall j, r | 0 <= j < 4 && 0 <= r < 4
      ensures At(ShiftRows(s, 4), 4, j, r) == At(t, 4, j, r)
      ensures At(InvShiftRows(s, 4), 4, j, r) == At(u, 4, j, r)
    {
      var k, l := Around(4, j, Offset(4, r)), Around(4, j, 4 - Offset(4, r));
      ShiftRowsAt(s, 4, j, r);
      FlatAt(Diagonal(a, b, c, d), Diagonal(b, c, d, a), Diagonal(c, d, a, b), Diagonal(d, a, b, c), j, r);
      FlatAt(Diagonal(a, d, c, b), Diagonal(b, a, d, c), Diagonal(c, b, a, d), Diagonal(d, c, b, a), j, r);
      FlatAt(a, b, c, d, k, r);
      FlatAt(a, b, c, d, l, r);
      PickRows(Diagonal(a, b, c, d), Diagonal(b, c, d, a), Diagonal(c, d, a, b), Diagonal(d, a, b, c), j, r);
      PickRows(Diagonal(a, d, c, b), Diagonal(b, a, d, c), Diagonal(c, b, a, d), Diagonal(d, c, b, a), j, r);
      PickRows(a, b, c, d, k, r);
      PickRows(a, b, c, d, l, r);
      PickDiagonal(a.b0, a.b1, a.b2, a.b3, b.b0, b.b1, b.b2, b.b3, c.b0, c.b1, c.b2, c.b3, d.b0, d.b1, d.b2, d.b3,
                   j, r, k, l);
    }
    SameState(ShiftRows(s, 4), t, 4);
    SameState(InvShiftRows(s, 4), u, 4);
  }

  lemma MixColByte(x: Col, r: nat)
    requires r < 4
    ensures ColByte(MixOf(x), r) == Mix(ColByte(x, r), ColByte(x, Below(r)), ColByte(x, Below(Below(r))),
                                        ColByte(x, Below(Below(Below(r)))))
    ensures ColByte(InvMixOf(x), r) == InvMix(ColByte(x, r), ColByte(x, Below(r)), ColByte(x, Below(Below(r))),
                                              ColByte(x, Below(Below(Below(r)))))
  {
    hide Mix, InvMix, Below;
    PickTurn(Mix, x.b0, x.b1, x.b2, x.b3, r);
    PickTurn(InvMix, x.b0, x.b1, x.b2, x.b3, r);
    PickOf(MixOf(x), r);
    PickOf(InvMixOf(x), r);
    PickOf(x, r);
    PickOf(x, Below(r));
    PickOf(x, Below(Below(r)));
    PickOf(x, Below(Below(Below(r))));
    hide ColByte, Pick;
  }

  lemma PickOf(x: Col, r: nat)
    requires r < 4
    ensures ColByte(x, r) == Pick(x.b0, x.b1, x.b2, x.b3, r)
  {}

  /** A function of the four rows, starting from each in turn. */
  lemma PickTurn<T, U>(f: (T, T, T, T) -> U, a: T, b: T, c: T, d: T, r: nat)
    requires r < 4
    ensures Pick(f(a, b, c, d), f(b, c, d, a), f(c, d, a, b), f(d, a, b, c), r)
         == f(Pick(a, b, c, d, r), Pick(a, b, c, d, Below(r)), Pick(a, b, c, d, Below(Below(r))),
              Pick(a, b, c, d, Below(Below(Below(r)))))
  {}

  lemma FlatMix(a: Col, b: Col, c: Col, d: Col)
    ensures MixColumns(Flat(a, b, c, d), 4) == Flat(MixOf(a), MixOf(b), MixOf(c), MixOf(d))
    ensures InvMixColumns(Flat(a, b, c, d), 4) == Flat(InvMixOf(a), InvMixOf(b), InvMixOf(c), InvMixOf(d))
  {
    hide Mix, InvMix, Flat, MixColumns, InvMixColumns, Pick, At, ColByte, Below, MixCol, InvMixCol, MixOf, InvMixOf;
    var s, t := Flat(a, b, c, d), Flat(MixOf(a), MixOf(b), MixOf(c), MixOf(d));
    var u := Flat(InvMixOf(a), InvMixOf(b), InvMixOf(c), InvMixOf(d));
    forall j, r | 0 <= j < 4 && 0 <= r < 4
      ensures At(MixColumns(s, 4), 4, j, r) == At(t, 4, j, r)
      ensures At(InvMixColumns(s, 4), 4, j, r) == At(u, 4, j, r)
    {
      MixColumnsAt(s, 4, j, r);
      FlatAt(MixOf(a), MixOf(b), MixOf(c), MixOf(d), j, r);
      FlatAt(InvMixOf(a), InvMixOf(b), InvMixOf(c), InvMixOf(d), j, r);
      PickMap(MixOf, a, b, c, d, j);
      PickMap(InvMixOf, a, b, c, d, j);
      MixColByte(Pick(a, b, c, d, j), r);
      FlatAt(a, b, c, d, j, r);
      FlatAt(a, b, c, d, j, Below(r));
      FlatAt(a, b, c, d, j, Below(Below(r)));
      FlatAt(a, b, c, d, j, Below(Below(Below(r))));
    }
    SameState(MixColumns(s, 4), t, 4);
    SameState(InvMixColumns(s, 4), u, 4);
  }

  lemma XorColByte(x: Col, y: Col, r: nat)
    requires r < 4
    ensures ColByte(XorCol(x, y), r) == XorByte(ColByte(x, r), ColByte(y, r))
  {
    hide XorByte;
  }

  lemma PickBoth<T, U>(f: (T, T) -> U, a: T, b: T, c: T, d: T, k: T, l: T, m: T, n: T, j: nat)
    ensures Pick(f(a, k), f(b, l), f(c, m), f(d, n), j) == f(Pick(a, b, c, d, j), Pick(k, l, m, n, j))
  {}

  lemma FlatKey(a: Col, b: Col, c: Col, d: Col, k: Col, l: Col, m: Col, n: Col)
    ensures AddKey(Flat(a, b, c, d), Flat(k, l, m, n)) == Flat(XorCol(a, k), XorCol(b, l), XorCol(c, m), XorCol(d, n))
  {
    var s, t := Flat(a, b, c, d), Flat(k, l, m, n);
    var u := Flat(XorCol(a, k), XorCol(b, l), XorCol(c, m), XorCol(d, n));
    AddKeyState(s, t, 4);
    hide *;
    forall j, r | 0 <= j < 4 && 0 <= r < 4
      ensures At(AddKey(s, t), 4, j, r) == At(u, 4, j, r)
    {
      AddKeyAt(s, t, 4, j, r);
      FlatAt(a, b, c, d, j, r);
      FlatAt(k, l, m, n, j, r);
      FlatAt(XorCol(a, k), XorCol(b, l), XorCol(c, m), XorCol(d, n), j, r);
      PickBoth(XorCol, a, b, c, d, k, l, m, n, j);
      XorColByte(Pick(a, b, c, d, j), Pick(k, l, m, n, j), r);
    }
    SameState(AddKey(s, t), u, 4);
  }

  /** EncryptRound is a round. */
  lemma RoundIs(s0: bv32, s1: bv32, s2: bv32, s3: bv32, k0: bv32, k1: bv32, k2: bv32, k3: bv32)
    ensures Block4(RoundWord(s0, s1, s2, s3, k0), RoundWord(s1, s2, s3, s0, k1),
                   RoundWord(s2, s3, s0, s1, k2), RoundWord(s3, s0, s1, s2, k3))
         == Round(Block4(s0, s1, s2, s3), Block4(k0, k1, k2, k3), 4)
  {
    hide Flat, RoundWord, XorCol, MixCol, AddKey, MixColumns, ShiftRows, SubBytes, Sub, Byte0, Byte1, Byte2, Byte3;
    var a, b, c, d := Split(s0), Split(s1), Split(s2), Split(s3);
    RoundWordIs(s0, s1, s2, s3, k0);
    RoundWordIs(s1, s2, s3, s0, k1);
    RoundWordIs(s2, s3, s0, s1, k2);
    RoundWordIs(s3, s0, s1, s2, k3);
    FlatSub(a, b, c, d);
    var e, f, g, h := SubCol(a), SubCol(b), SubCol(c), SubCol(d);
    FlatShift(e, f, g, h);
    var p, q, r, s := Diagonal(e, f, g, h), Diagonal(f, g, h, e), Diagonal(g, h, e, f), Diagonal(h, e, f, g);
    FlatMix(p, q, r, s);
    FlatKey(MixOf(p), MixOf(q), MixOf(r), MixOf(s), Split(k0), Split(k1), Split(k2), Split(k3));
  }

  /** The last round of Encrypt. */
  lemma LastRoundIs(s0: bv32, s1: bv32, s2: bv32, s3: bv32, k0: bv32, k1: bv32, k2: bv32, k3: bv32)
    ensures Block4(LastWord(s0, s1, s2, s3, k0), LastWord(s1, s2, s3, s0, k1),
                   LastWord(s2, s3, s0, s1, k2), LastWord(s3, s0, s1, s2, k3))
         == AddKey(ShiftRows(SubBytes(Block4(s0, s1, s2, s3)), 4), Block4(k0, k1, k2, k3))
  {
    hide Flat, LastWord, InvLastWord, XorCol, AddKey, ShiftRows, SubBytes, Sub, Byte0, Byte1, Byte2, Byte3;
    var a, b, c, d := Split(s0), Split(s1), Split(s2), Split(s3);
    LastWordIs(s0, s1, s2, s3, k0);
    LastWordIs(s1, s2, s3, s0, k1);
    LastWordIs(s2, s3, s0, s1, k2);
    LastWordIs(s3, s0, s1, s2, k3);
    FlatSub(a, b, c, d);
    var e, f, g, h := SubCol(a), SubCol(b), SubCol(c), SubCol(d);
    FlatShift(e, f, g, h);
    FlatKey(Diagonal(e, f, g, h), Diagonal(f, g, h, e), Diagonal(g, h, e, f), Diagonal(h, e, f, g),
            Split(k0), Split(k1), Split(k2), Split(k3));
  }

  /** DecryptRound: substitution, row shifts and column mixing undone, then a key of the transformed schedule. */
  function EqRound(s: Bytes, k: Bytes): (t: Bytes)
    requires State(s, 4) && State(k, 4)
    ensures State(t, 4)
  {
    AddKey(InvMixColumns(InvShiftRows(InvSubBytes(s), 4), 4), k)
  }

  lemma InvRoundIs(s0: bv32, s1: bv32, s2: bv32, s3: bv32, k0: bv32, k1: bv32, k2: bv32, k3: bv32)
    ensures Block4(InvRoundWord(s0, s3, s2, s1, k0), InvRoundWord(s1, s0, s3, s2, k1),
                   InvRoundWord(s2, s1, s0, s3, k2), InvRoundWord(s3, s2, s1, s0, k3))
         == EqRound(Block4(s0, s1, s2, s3), Block4(k0, k1, k2, k3))
  {
    hide Flat, InvRoundWord, XorCol, InvMixCol, AddKey, InvMixColumns, InvShiftRows, InvSubBytes;
    hide InvSub, Byte0, Byte1, Byte2, Byte3;
    var a, b, c, d := Split(s0), Split(s1), Split(s2), Split(s3);
    InvRoundWordIs(s0, s3, s2, s1, k0);
    InvRoundWordIs(s1, s0, s3, s2, k1);
    InvRoundWordIs(s2, s1, s0, s3, k2);
    InvRoundWordIs(s3, s2, s1, s0, k3);
    FlatSub(a, b, c, d);
    var e, f, g, h := InvSubCol(a), InvSubCol(b), InvSubCol(c), InvSubCol(d);
    FlatShift(e, f, g, h);
    var p, q, r, s := Diagonal(e, h, g, f), Diagonal(f, e, h, g), Diagonal(g, f, e, h), Diagonal(h, g, f, e);
    FlatMix(p, q, r, s);
    FlatKey(InvMixOf(p), InvMixOf(q), InvMixOf(r), InvMixOf(s), Split(k0), Split(k1), Split(k2), Split(k3));
  }

  lemma InvLastRoundIs(s0: bv32, s1: bv32, s2: bv32, s3: bv32, k0: bv32, k1: bv32, k2: bv32, k3: bv32)
    ensures Block4(InvLastWord(s0, s3, s2, s1, k0), InvLastWord(s1, s0, s3, s2, k1),
                   InvLastWord(s2, s1, s0, s3, k2), InvLastWord(s3, s2, s1, s0, k3))
         == AddKey(InvShiftRows(InvSubBytes(Block4(s0, s1, s2, s3)), 4), Block4(k0, k1, k2, k3))
  {
    hide Flat, LastWord, InvLastWord, XorCol, AddKey, InvShiftRows, InvSubBytes, InvSub, Byte0, Byte1, Byte2, Byte3;
    var a, b, c, d := Split(s0), Split(s1), Split(s2), Split(s3);
    LastWordIs(s0, s3, s2, s1, k0);
    LastWordIs(s1, s0, s3, s2, k1);
    LastWordIs(s2, s1, s0, s3, k2);
    LastWordIs(s3, s2, s1, s0, k3);
    FlatSub(a, b, c, d);
    var e, f, g, h := InvSubCol(a), InvSubCol(b), InvSubCol(c), InvSubCol(d);
    FlatShift(e, f, g, h);
    FlatKey(Diagonal(e, h, g, f), Diagonal(f, e, h, g), Diagonal(g, f, e, h), Diagonal(h, g, f, e),
            Split(k0), Split(k1), Split(k2), Split(k3));
  }
}
