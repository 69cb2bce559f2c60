/** Rijndael on bytes, for every block size: the transformations of section 5 of FIPS 197 and their inverses.
    Byte 4 c + r of a state is row r of column c. */
module RijndaelSpec {
  import opened Words
  import opened Arithmetic
  import opened Linear
  import opened Sbox

  // ---------------------------------------------------------------- the field GF(2^8)

  /** The field polynomial puts the top bit back as 0x1b. */
  function Mul2(b: bv8): bv8 { (b << 1) ^ (b >> 7) ^ ((b >> 7) << 1) ^ ((b >> 7) << 3) ^ ((b >> 7) << 4) }
  function Mul3(b: bv8): bv8 { XorByte(Mul2(b), b) }
  function Mul4(b: bv8): bv8 { Mul2(Mul2(b)) }
  function Mul8(b: bv8): bv8 { Mul2(Mul4(b)) }
  function Mul9(b: bv8): bv8 { XorByte(Mul8(b), b) }
  function MulB(b: bv8): bv8 { XorByte(Mul8(b), Mul3(b)) }
  function MulD(b: bv8): bv8 { XorByte(XorByte(Mul8(b), Mul4(b)), b) }
  function MulE(b: bv8): bv8 { XorByte(XorByte(Mul8(b), Mul4(b)), Mul2(b)) }

  function Xor4(a: bv8, b: bv8, c: bv8, d: bv8): bv8 { a ^ b ^ c ^ d }

  /** One byte of MixColumns and of its inverse, from the byte of the same row and the next three. */
  function Mix(a: bv8, b: bv8, c: bv8, d: bv8): bv8 { Xor4(Mul2(a), Mul3(b), c, d) }
  function InvMix(a: bv8, b: bv8, c: bv8, d: bv8): bv8 { Xor4(MulE(a), MulB(b), MulD(c), Mul9(d)) }

  lemma Mul2Linear(a: bv8, b: bv8)
    ensures Mul2(XorByte(a, b)) == XorByte(Mul2(a), Mul2(b))
  {
    calc {
      Mul2(XorByte(a, b));
      Mul2(a ^ b);
      (((a ^ b) << 1) ^ ((a ^ b) >> 7) ^ (((a ^ b) >> 7) << 1) ^ (((a ^ b) >> 7) << 3) ^ (((a ^ b) >> 7) << 4));
      ((a << 1) ^ (a >> 7) ^ ((a >> 7) << 1) ^ ((a >> 7) << 3) ^ ((a >> 7) << 4))
      ^ ((b << 1) ^ (b >> 7) ^ ((b >> 7) << 1) ^ ((b >> 7) << 3) ^ ((b >> 7) << 4));
      XorByte(((a << 1) ^ (a >> 7) ^ ((a >> 7) << 1) ^ ((a >> 7) << 3) ^ ((a >> 7) << 4)),
              ((b << 1) ^ (b >> 7) ^ ((b >> 7) << 1) ^ ((b >> 7) << 3) ^ ((b >> 7) << 4)));
      XorByte(Mul2(a), Mul2(b));
    }
  }

  lemma MulLinear(a: bv8, b: bv8)
    ensures Mul3(XorByte(a, b)) == XorByte(Mul3(a), Mul3(b))
    ensures Mul9(XorByte(a, b)) == XorByte(Mul9(a), Mul9(b))
    ensures MulB(XorByte(a, b)) == XorByte(MulB(a), MulB(b))
    ensures MulD(XorByte(a, b)) == XorByte(MulD(a), MulD(b))
    ensures MulE(XorByte(a, b)) == XorByte(MulE(a), MulE(b))
  {
    hide Mul2, XorByte;
    Mul2Linear(a, b);
    Mul2Linear(Mul2(a), Mul2(b));
    Mul2Linear(Mul4(a), Mul4(b));
    XorByteSwap(Mul2(a), Mul2(b), a, b);
    XorByteSwap(Mul8(a), Mul8(b), a, b);
    XorByteSwap(Mul8(a), Mul8(b), Mul3(a), Mul3(b));
    XorByteSwap(Mul8(a), Mul8(b), Mul4(a), Mul4(b));
    var p, q := XorByte(Mul8(a), Mul4(a)), XorByte(Mul8(b), Mul4(b));
    XorByteSwap(p, q, a, b);
    XorByteSwap(p, q, Mul2(a), Mul2(b));
  }

  /** The products of the two matrices of coefficients: the unit matrix. */
  lemma MulProducts(a: bv8)
    ensures Xor4(MulE(Mul2(a)), MulB(a), MulD(a), Mul9(Mul3(a))) == a
    ensures Xor4(MulE(Mul3(a)), MulB(Mul2(a)), MulD(a), Mul9(a)) == 0
    ensures Xor4(MulE(a), MulB(Mul3(a)), MulD(Mul2(a)), Mul9(a)) == 0
    ensures Xor4(MulE(a), MulB(a), MulD(Mul3(a)), Mul9(Mul2(a))) == 0
  {
    var b, c, d := Mul2(a), Mul4(a), Mul8(a);
    var e := Mul2(d);
    hide Mul2, Xor4, XorByte;
    Mul2Linear(b, a);
    Mul2Linear(c, b);
    Mul2Linear(d, c);
    Product1(a, b, c, d, e);
    Product2(a, b, c, d, e);
    Product3(a, b, c, d, e);
    Product4(a, b, c, d, e);
  }

  /** The five powers as the basis of a space of sums. */
  lemma Powers(a: bv8, b: bv8, c: bv8, d: bv8, e: bv8)
    ensures var v := [a, b, c, d, e];
            && a == Sum(v, 0x01, 5) && b == Sum(v, 0x02, 5) && c == Sum(v, 0x04, 5)
            && d == Sum(v, 0x08, 5) && e == Sum(v, 0x10, 5) && Sum(v, 0x00, 5) == 0
  {
    hide Sum;
    var v := [a, b, c, d, e];
    SumBit(v, 0, 5);
    SumBit(v, 1, 5);
    SumBit(v, 2, 5);
    SumBit(v, 3, 5);
    SumBit(v, 4, 5);
    SumNone(v, 5);
  }

  lemma Product1(a: bv8, b: bv8, c: bv8, d: bv8, e: bv8)
    ensures Xor4(XorByte(XorByte(e, d), c), XorByte(d, XorByte(b, a)),
                 XorByte(XorByte(d, c), a), XorByte(XorByte(e, d), XorByte(b, a))) == a
  {
    hide Sum, XorByte, Xor4;
    var v := [a, b, c, d, e];
    Powers(a, b, c, d, e);
    Add(v, 5, e, 0x10, d, 0x08, 0x18);
    Add(v, 5, XorByte(e, d), 0x18, c, 0x04, 0x1c);
    Add(v, 5, b, 0x02, a, 0x01, 0x03);
    Add(v, 5, d, 0x08, XorByte(b, a), 0x03, 0x0b);
    Add(v, 5, d, 0x08, c, 0x04, 0x0c);
    Add(v, 5, XorByte(d, c), 0x0c, a, 0x01, 0x0d);
    Add(v, 5, XorByte(e, d), 0x18, XorByte(b, a), 0x03, 0x1b);
    Add(v, 5, XorByte(XorByte(e, d), c), 0x1c, XorByte(d, XorByte(b, a)), 0x0b, 0x17);
    Add(v, 5, XorByte(XorByte(XorByte(e, d), c), XorByte(d, XorByte(b, a))), 0x17, XorByte(XorByte(d, c), a), 0x0d,
        0x1a);
    Add(v, 5, XorByte(XorByte(XorByte(XorByte(e, d), c), XorByte(d, XorByte(b, a))), XorByte(XorByte(d, c), a)), 0x1a,
        XorByte(XorByte(e, d), XorByte(b, a)), 0x1b, 0x01);
    Xor4Chain(XorByte(XorByte(e, d), c), XorByte(d, XorByte(b, a)), XorByte(XorByte(d, c), a),
              XorByte(XorByte(e, d), XorByte(b, a)));
  }

  lemma Product2(a: bv8, b: bv8, c: bv8, d: bv8, e: bv8)
    ensures Xor4(XorByte(XorByte(XorByte(e, d), XorByte(d, c)), XorByte(c, b)), XorByte(e, XorByte(c, b)),
                 XorByte(XorByte(d, c), a), XorByte(d, a)) == 0
  {
    hide Sum, XorByte, Xor4;
    var v := [a, b, c, d, e];
    Powers(a, b, c, d, e);
    Add(v, 5, e, 0x10, d, 0x08, 0x18);
    Add(v, 5, d, 0x08, c, 0x04, 0x0c);
    Add(v, 5, XorByte(e, d), 0x18, XorByte(d, c), 0x0c, 0x14);
    Add(v, 5, c, 0x04, b, 0x02, 0x06);
    Add(v, 5, XorByte(XorByte(e, d), XorByte(d, c)), 0x14, XorByte(c, b), 0x06, 0x12);
    Add(v, 5, e, 0x10, XorByte(c, b), 0x06, 0x16);
    Add(v, 5, XorByte(d, c), 0x0c, a, 0x01, 0x0d);
    Add(v, 5, d, 0x08, a, 0x01, 0x09);
    Add(v, 5, XorByte(XorByte(XorByte(e, d), XorByte(d, c)), XorByte(c, b)), 0x12, XorByte(e, XorByte(c, b)), 0x16,
        0x04);
    Add(v, 5, XorByte(XorByte(XorByte(XorByte(e, d), XorByte(d, c)), XorByte(c, b)), XorByte(e, XorByte(c, b))), 0x04,
        XorByte(XorByte(d, c), a), 0x0d, 0x09);
    Add(v, 5,
        XorByte(XorByte(XorByte(XorByte(XorByte(e, d), XorByte(d, c)), XorByte(c, b)), XorByte(e, XorByte(c, b))),
                XorByte(XorByte(d, c), a)), 0x09, XorByte(d, a), 0x09, 0x00);
    Xor4Chain(XorByte(XorByte(XorByte(e, d), XorByte(d, c)), XorByte(c, b)), XorByte(e, XorByte(c, b)),
              XorByte(XorByte(d, c), a), XorByte(d, a));
  }

  lemma Product3(a: bv8, b: bv8, c: bv8, d: bv8, e: bv8)
    ensures Xor4(XorByte(XorByte(d, c), b), XorByte(XorByte(e, d), XorByte(XorByte(c, b), XorByte(b, a))),
                 XorByte(XorByte(e, d), b), XorByte(d, a)) == 0
  {
    hide Sum, XorByte, Xor4;
    var v := [a, b, c, d, e];
    Powers(a, b, c, d, e);
    Add(v, 5, d, 0x08, c, 0x04, 0x0c);
    Add(v, 5, XorByte(d, c), 0x0c, b, 0x02, 0x0e);
    Add(v, 5, e, 0x10, d, 0x08, 0x18);
    Add(v, 5, c, 0x04, b, 0x02, 0x06);
    Add(v, 5, b, 0x02, a, 0x01, 0x03);
    Add(v, 5, XorByte(c, b), 0x06, XorByte(b, a), 0x03, 0x05);
    Add(v, 5, XorByte(e, d), 0x18, XorByte(XorByte(c, b), XorByte(b, a)), 0x05, 0x1d);
    Add(v, 5, XorByte(e, d), 0x18, b, 0x02, 0x1a);
    Add(v, 5, d, 0x08, a, 0x01, 0x09);
    Add(v, 5, XorByte(XorByte(d, c), b), 0x0e, XorByte(XorByte(e, d), XorByte(XorByte(c, b), XorByte(b, a))), 0x1d,
        0x13);
    Add(v, 5, XorByte(XorByte(XorByte(d, c), b), XorByte(XorByte(e, d), XorByte(XorByte(c, b), XorByte(b, a)))), 0x13,
        XorByte(XorByte(e, d), b), 0x1a, 0x09);
    Add(v, 5,
        XorByte(XorByte(XorByte(XorByte(d, c), b), XorByte(XorByte(e, d), XorByte(XorByte(c, b), XorByte(b, a)))),
                XorByte(XorByte(e, d), b)), 0x09, XorByte(d, a), 0x09, 0x00);
    Xor4Chain(XorByte(XorByte(d, c), b), XorByte(XorByte(e, d), XorByte(XorByte(c, b), XorByte(b, a))),
              XorByte(XorByte(e, d), b), XorByte(d, a));
  }

  lemma Product4(a: bv8, b: bv8, c: bv8, d: bv8, e: bv8)
    ensures Xor4(XorByte(XorByte(d, c), b), XorByte(d, XorByte(b, a)),
                 XorByte(XorByte(XorByte(e, d), XorByte(d, c)), XorByte(b, a)), XorByte(e, b)) == 0
  {
    hide Sum, XorByte, Xor4;
    var v := [a, b, c, d, e];
    Powers(a, b, c, d, e);
    Add(v, 5, d, 0x08, c, 0x04, 0x0c);
    Add(v, 5, XorByte(d, c), 0x0c, b, 0x02, 0x0e);
    Add(v, 5, b, 0x02, a, 0x01, 0x03);
    Add(v, 5, d, 0x08, XorByte(b, a), 0x03, 0x0b);
    Add(v, 5, e, 0x10, d, 0x08, 0x18);
    Add(v, 5, XorByte(e, d), 0x18, XorByte(d, c), 0x0c, 0x14);
    Add(v, 5, XorByte(XorByte(e, d), XorByte(d, c)), 0x14, XorByte(b, a), 0x03, 0x17);
    Add(v, 5, e, 0x10, b, 0x02, 0x12);
    Add(v, 5, XorByte(XorByte(d, c), b), 0x0e, XorByte(d, XorByte(b, a)), 0x0b, 0x05);
    Add(v, 5, XorByte(XorByte(XorByte(d, c), b), XorByte(d, XorByte(b, a))), 0x05,
        XorByte(XorByte(XorByte(e, d), XorByte(d, c)), XorByte(b, a)), 0x17, 0x12);
    Add(v, 5,
        XorByte(XorByte(XorByte(XorByte(d, c), b), XorByte(d, XorByte(b, a))),
                XorByte(XorByte(XorByte(e, d), XorByte(d, c)), XorByte(b, a))), 0x12, XorByte(e, b), 0x12, 0x00);
    Xor4Chain(XorByte(XorByte(d, c), b), XorByte(d, XorByte(b, a)),
              XorByte(XorByte(XorByte(e, d), XorByte(d, c)), XorByte(b, a)), XorByte(e, b));
  }

  lemma Xor4Chain(a: bv8, b: bv8, c: bv8, d: bv8)
    ensures XorByte(XorByte(XorByte(a, b), c), d) == Xor4(a, b, c, d)
  {
    calc {
      XorByte(XorByte(XorByte(a, b), c), d);
      XorByte(XorByte(a ^ b, c), d);
      XorByte(a ^ b ^ c, d);
      a ^ b ^ c ^ d;
      Xor4(a, b, c, d);
    }
  }

  lemma Regroup(a0: bv8, a1: bv8, a2: bv8, a3: bv8, b0: bv8, b1: bv8, b2: bv8, b3: bv8,
                c0: bv8, c1: bv8, c2: bv8, c3: bv8, d0: bv8, d1: bv8, d2: bv8, d3: bv8)
    ensures Xor4(Xor4(a0, a1, a2, a3), Xor4(b0, b1, b2, b3), Xor4(c0, c1, c2, c3), Xor4(d0, d1, d2, d3))
         == Xor4(Xor4(a0, b0, c0, d0), Xor4(a1, b1, c1, d1), Xor4(a2, b2, c2, d2), Xor4(a3, b3, c3, d3))
  {
    calc {
      Xor4(Xor4(a0, a1, a2, a3), Xor4(b0, b1, b2, b3), Xor4(c0, c1, c2, c3), Xor4(d0, d1, d2, d3));
      Xor4(a0 ^ a1 ^ a2 ^ a3, b0 ^ b1 ^ b2 ^ b3, c0 ^ c1 ^ c2 ^ c3, d0 ^ d1 ^ d2 ^ d3);
      Xor4(a0 ^ b0 ^ c0 ^ d0, a1 ^ b1 ^ c1 ^ d1, a2 ^ b2 ^ c2 ^ d2, a3 ^ b3 ^ c3 ^ d3);
      Xor4(Xor4(a0, b0, c0, d0), Xor4(a1, b1, c1, d1), Xor4(a2, b2, c2, d2), Xor4(a3, b3, c3, d3));
    }
  }

  lemma Mul4Terms(a: bv8, b: bv8, c: bv8, d: bv8)
    ensures MulE(Xor4(a, b, c, d)) == Xor4(MulE(a), MulE(b), MulE(c), MulE(d))
    ensures MulB(Xor4(a, b, c, d)) == Xor4(MulB(a), MulB(b), MulB(c), MulB(d))
    ensures MulD(Xor4(a, b, c, d)) == Xor4(MulD(a), MulD(b), MulD(c), MulD(d))
    ensures Mul9(Xor4(a, b, c, d)) == Xor4(Mul9(a), Mul9(b), Mul9(c), Mul9(d))
  {
    hide MulE, MulB, MulD, Mul9, Mul3, XorByte;
    hide Xor4;
    MulLinear(a, b);
    MulLinear(c, d);
    MulLinear(XorByte(a, b), XorByte(c, d));
    Xor4Pairs(a, b, c, d);
    Xor4Pairs(MulE(a), MulE(b), MulE(c), MulE(d));
    Xor4Pairs(MulB(a), MulB(b), MulB(c), MulB(d));
    Xor4Pairs(MulD(a), MulD(b), MulD(c), MulD(d));
    Xor4Pairs(Mul9(a), Mul9(b), Mul9(c), Mul9(d));
  }

  lemma Xor4Zero(a: bv8)
    ensures Xor4(a, 0, 0, 0) == a
  {}

  lemma Xor4Rotate(a: bv8, b: bv8, c: bv8, d: bv8)
    ensures Xor4(a, b, c, d) == Xor4(d, a, b, c) == Xor4(c, d, a, b) == Xor4(b, c, d, a)
  {
    calc {
      Xor4(a, b, c, d);
      a ^ b ^ c ^ d;
      d ^ a ^ b ^ c;
      Xor4(d, a, b, c);
    }
    calc {
      Xor4(a, b, c, d);
      a ^ b ^ c ^ d;
      c ^ d ^ a ^ b;
      Xor4(c, d, a, b);
    }
    calc {
      Xor4(a, b, c, d);
      a ^ b ^ c ^ d;
      b ^ c ^ d ^ a;
      Xor4(b, c, d, a);
    }
  }

  lemma Xor4Pairs(a: bv8, b: bv8, c: bv8, d: bv8)
    ensures Xor4(a, b, c, d) == XorByte(XorByte(a, b), XorByte(c, d))
  {
    calc {
      Xor4(a, b, c, d);
      (a ^ b) ^ (c ^ d);
      XorByte(a ^ b, c ^ d);
      XorByte(XorByte(a, b), XorByte(c, d));
    }
  }

  /** InvMixColumns undoes MixColumns on a column. */
  lemma MixInverse(a: bv8, b: bv8, c: bv8, d: bv8)
    ensures InvMix(Mix(a, b, c, d), Mix(b, c, d, a), Mix(c, d, a, b), Mix(d, a, b, c)) == a
  {
    hide MulE, MulB, MulD, Mul9, Mul3, Mul2, XorByte, Xor4;
    var a2, b2, c2, d2 := Mul2(a), Mul2(b), Mul2(c), Mul2(d);
    var a3, b3, c3, d3 := Mul3(a), Mul3(b), Mul3(c), Mul3(d);
    Xor4Rotate(b2, c3, d, a);
    Xor4Rotate(c2, d3, a, b);
    Xor4Rotate(d2, a3, b, c);
    Mul4Terms(a2, b3, c, d);
    Mul4Terms(a, b2, c3, d);
    Mul4Terms(a, b, c2, d3);
    Mul4Terms(a3, b, c, d2);
    Regroup(MulE(a2), MulE(b3), MulE(c), MulE(d), MulB(a), MulB(b2), MulB(c3), MulB(d),
            MulD(a), MulD(b), MulD(c2), MulD(d3), Mul9(a3), Mul9(b), Mul9(c), Mul9(d2));
    MulProducts(a);
    MulProducts(b);
    MulProducts(c);
    MulProducts(d);
    Xor4Zero(a);
  }

  /** InvMixColumns is linear. */
  lemma InvMixLinear(a: bv8, b: bv8, c: bv8, d: bv8, p: bv8, q: bv8, r: bv8, s: bv8)
    ensures InvMix(XorByte(a, p), XorByte(b, q), XorByte(c, r), XorByte(d, s))
         == XorByte(InvMix(a, b, c, d), InvMix(p, q, r, s))
  {
    hide MulE, MulB, MulD, Mul9, Mul3, Mul2, XorByte;
    MulLinear(a, p);
    MulLinear(b, q);
    MulLinear(c, r);
    MulLinear(d, s);
    hide Xor4;
    Xor4Pairs(MulE(a), MulB(b), MulD(c), Mul9(d));
    Xor4Pairs(MulE(p), MulB(q), MulD(r), Mul9(s));
    Xor4Pairs(XorByte(MulE(a), MulE(p)), XorByte(MulB(b), MulB(q)),
              XorByte(MulD(c), MulD(r)), XorByte(Mul9(d), Mul9(s)));
    XorByteSwap(MulE(a), MulE(p), MulB(b), MulB(q));
    XorByteSwap(MulD(c), MulD(r), Mul9(d), Mul9(s));
    XorByteSwap(XorByte(MulE(a), MulB(b)), XorByte(MulE(p), MulB(q)),
                XorByte(MulD(c), Mul9(d)), XorByte(MulD(r), Mul9(s)));
  }

  // ---------------------------------------------------------------- the transformations of a state

  predicate Columns(nb: nat) { 4 <= nb <= 8 }

  /** A block or a round key of nb columns. */
  predicate State(s: Bytes, nb: nat) { Columns(nb) && |s| == 4 * nb }

  /** By how many columns row r is rotated (shifts0 in rijndael.cc, divided by eight). */
  function Offset(nb: nat, r: nat): (o: nat)
    requires r < 4
    ensures o < 5
  {
    if r < 2 then r
    else if nb == 8 then r + 1
    else if nb == 7 && r == 3 then 4
    else r
  }

  /** Column c + o, around. */
  function Around(nb: nat, c: nat, o: nat): (k: nat)
    requires c < nb && o <= nb
    ensures k < nb
  {
    if c + o < nb then c + o else c + o - nb
  }

  function At(s: Bytes, nb: nat, c: nat, r: nat): bv8
    requires State(s, nb) && c < nb && r < 4
  {
    s[4 * c + r]
  }

  function SubBytes(s: Bytes): (t: Bytes)
    ensures |t| == |s|
  {
    seq(|s|, i requires 0 <= i < |s| => Sub(s[i]))
  }

  function InvSubBytes(s: Bytes): (t: Bytes)
    ensures |t| == |s|
  {
    seq(|s|, i requires 0 <= i < |s| => InvSub(s[i]))
  }

  function ShiftRows(s: Bytes, nb: nat): (t: Bytes)
    requires State(s, nb)
    ensures State(t, nb)
  {
    seq(4 * nb, i requires 0 <= i < 4 * nb => At(s, nb, Around(nb, i / 4, Offset(nb, i % 4)), i % 4))
  }

  function InvShiftRows(s: Bytes, nb: nat): (t: Bytes)
    requires State(s, nb)
    ensures State(t, nb)
  {
    seq(4 * nb, i requires 0 <= i < 4 * nb => At(s, nb, Around(nb, i / 4, nb - Offset(nb, i % 4)), i % 4))
  }

  /** The row below, around. */
  function Below(r: nat): (k: nat)
    requires r < 4
    ensures k < 4
  {
    if r == 3 then 0 else r + 1
  }

  function MixAt(s: Bytes, nb: nat, c: nat, r: nat): bv8
    requires State(s, nb) && c < nb && r < 4
  {
    Mix(At(s, nb, c, r), At(s, nb, c, Below(r)), At(s, nb, c, Below(Below(r))), At(s, nb, c, Below(Below(Below(r)))))
  }

  function InvMixAt(s: Bytes, nb: nat, c: nat, r: nat): bv8
    requires State(s, nb) && c < nb && r < 4
  {
    InvMix(At(s, nb, c, r), At(s, nb, c, Below(r)), At(s, nb, c, Below(Below(r))),
           At(s, nb, c, Below(Below(Below(r)))))
  }

  function MixColumns(s: Bytes, nb: nat): (t: Bytes)
    requires State(s, nb)
    ensures State(t, nb)
  {
    seq(4 * nb, i requires 0 <= i < 4 * nb => MixAt(s, nb, i / 4, i % 4))
  }

  function InvMixColumns(s: Bytes, nb: nat): (t: Bytes)
    requires State(s, nb)
    ensures State(t, nb)
  {
    seq(4 * nb, i requires 0 <= i < 4 * nb => InvMixAt(s, nb, i / 4, i % 4))
  }

  lemma MixColumnsAt(s: Bytes, nb: nat, c: nat, r: nat)
    requires State(s, nb) && c < nb && r < 4
    ensures At(MixColumns(s, nb), nb, c, r) == MixAt(s, nb, c, r)
    ensures At(InvMixColumns(s, nb), nb, c, r) == InvMixAt(s, nb, c, r)
  {
    hide MixAt, InvMixAt;
    assert (4 * c + r) / 4 == c && (4 * c + r) % 4 == r;
  }

  lemma ShiftRowsAt(s: Bytes, nb: nat, c: nat, r: nat)
    requires State(s, nb) && c < nb && r < 4
    ensures At(ShiftRows(s, nb), nb, c, r) == At(s, nb, Around(nb, c, Offset(nb, r)), r)
    ensures At(InvShiftRows(s, nb), nb, c, r) == At(s, nb, Around(nb, c, nb - Offset(nb, r)), r)
  {
    hide At, Around, Offset;
    assert (4 * c + r) / 4 == c && (4 * c + r) % 4 == r;
    AtIndex(ShiftRows(s, nb), nb, c, r);
    AtIndex(InvShiftRows(s, nb), nb, c, r);
  }

  lemma AtIndex(s: Bytes, nb: nat, c: nat, r: nat)
    requires State(s, nb) && c < nb && r < 4
    ensures At(s, nb, c, r) == s[4 * c + r]
  {}

  lemma SubBytesAt(s: Bytes, nb: nat, c: nat, r: nat)
    requires State(s, nb) && c < nb && r < 4
    ensures At(SubBytes(s), nb, c, r) == Sub(At(s, nb, c, r))
    ensures At(InvSubBytes(s), nb, c, r) == InvSub(At(s, nb, c, r))
  {
    hide Sub, InvSub;
  }

  lemma SubBytesState(s: Bytes, nb: nat)
    requires State(s, nb)
    ensures State(SubBytes(s), nb) && State(InvSubBytes(s), nb)
  {}

  lemma AddKeyState(s: Bytes, k: Bytes, nb: nat)
    requires State(s, nb) && State(k, nb)
    ensures |s| == |k| && State(AddKey(s, k), nb)
  {}

  /** Two states with the same bytes in every column and row. */
  lemma SameState(s: Bytes, t: Bytes, nb: nat)
    requires State(s, nb) && State(t, nb)
    requires forall c, r :: 0 <= c < nb && 0 <= r < 4 ==> At(s, nb, c, r) == At(t, nb, c, r)
    ensures s == t
  {
    forall i | 0 <= i < 4 * nb
      ensures s[i] == t[i]
    {
      assert At(s, nb, i / 4, i % 4) == At(t, nb, i / 4, i % 4);
    }
  }

  function AddKey(s: Bytes, k: Bytes): (t: Bytes)
    requires |s| == |k|
    ensures |t| == |s|
  {
    seq(|s|, i requires 0 <= i < |s| => XorByte(s[i], k[i]))
  }

  lemma SubBytesInverse(s: Bytes)
    ensures InvSubBytes(SubBytes(s)) == s
  {
    hide Sub, InvSub;
    forall i | 0 <= i < |s|
      ensures InvSubBytes(SubBytes(s))[i] == s[i]
    {
      SubInverse(s[i]);
    }
  }

  lemma AddKeyTwice(s: Bytes, k: Bytes)
    requires |s| == |k|
    ensures AddKey(AddKey(s, k), k) == s
  {
    forall i | 0 <= i < |s|
      ensures AddKey(AddKey(s, k), k)[i] == s[i]
    {
      XorByteTwice(s[i], k[i]);
    }
  }

  lemma ShiftRowsInverse(s: Bytes, nb: nat)
    requires State(s, nb)
    ensures InvShiftRows(ShiftRows(s, nb), nb) == s
  {
    hide At, ShiftRows, InvShiftRows;
    var t := ShiftRows(s, nb);
    forall c, r | 0 <= c < nb && 0 <= r < 4
      ensures At(InvShiftRows(t, nb), nb, c, r) == At(s, nb, c, r)
    {
      var k := Around(nb, c, nb - Offset(nb, r));
      ShiftRowsAt(t, nb, c, r);
      ShiftRowsAt(s, nb, k, r);
    }
    SameState(InvShiftRows(t, nb), s, nb);
  }

  lemma MixColumnsInverse(s: Bytes, nb: nat)
    requires State(s, nb)
    ensures InvMixColumns(MixColumns(s, nb), nb) == s
  {
    hide Mix, InvMix, At, MixColumns, InvMixColumns;
    var m := MixColumns(s, nb);
    forall c, r | 0 <= c < nb && 0 <= r < 4
      ensures At(InvMixColumns(m, nb), nb, c, r) == At(s, nb, c, r)
    {
      MixColumnsAt(m, nb, c, r);
      MixColumnsAt(s, nb, c, 0);
      MixColumnsAt(s, nb, c, 1);
      MixColumnsAt(s, nb, c, 2);
      MixColumnsAt(s, nb, c, 3);
      MixInverse(At(s, nb, c, r), At(s, nb, c, Below(r)), At(s, nb, c, Below(Below(r))),
                 At(s, nb, c, Below(Below(Below(r)))));
    }
    SameState(InvMixColumns(m, nb), s, nb);
  }

  /** InvMixColumns of a state with a key added: the equivalent inverse cipher, section 5.3.5. */
  lemma InvMixColumnsLinear(s: Bytes, k: Bytes, nb: nat)
    requires State(s, nb) && State(k, nb)
    ensures InvMixColumns(AddKey(s, k), nb) == AddKey(InvMixColumns(s, nb), InvMixColumns(k, nb))
  {
    hide XorByte, InvMix, At, InvMixColumns, AddKey, Below;
    var u, v := AddKey(s, k), AddKey(InvMixColumns(s, nb), InvMixColumns(k, nb));
    forall c, r | 0 <= c < nb && 0 <= r < 4
      ensures At(InvMixColumns(u, nb), nb, c, r) == At(v, nb, c, r)
    {
      var r1, r2, r3 := Below(r), Below(Below(r)), Below(Below(Below(r)));
      MixColumnsAt(u, nb, c, r);
      MixColumnsAt(s, nb, c, r);
      MixColumnsAt(k, nb, c, r);
      AddKeyAt(s, k, nb, c, r);
      AddKeyAt(s, k, nb, c, r1);
      AddKeyAt(s, k, nb, c, r2);
      AddKeyAt(s, k, nb, c, r3);
      AddKeyAt(InvMixColumns(s, nb), InvMixColumns(k, nb), nb, c, r);
      InvMixLinear(At(s, nb, c, r), At(s, nb, c, r1), At(s, nb, c, r2), At(s, nb, c, r3),
                   At(k, nb, c, r), At(k, nb, c, r1), At(k, nb, c, r2), At(k, nb, c, r3));
    }
    SameState(InvMixColumns(u, nb), v, nb);
  }

  lemma AddKeyAt(s: Bytes, k: Bytes, nb: nat, c: nat, r: nat)
    requires State(s, nb) && State(k, nb) && c < nb && r < 4
    ensures At(AddKey(s, k), nb, c, r) == XorByte(At(s, nb, c, r), At(k, nb, c, r))
  {
    hide XorByte;
  }

  /** Substitution and row shifts commute. */
  lemma InvSubShift(s: Bytes, nb: nat)
    requires State(s, nb)
    ensures InvSubBytes(InvShiftRows(s, nb)) == InvShiftRows(InvSubBytes(s), nb)
  {
    hide InvSub;
  }

  // ---------------------------------------------------------------- the cipher

  predicate Keys(keys: seq<Bytes>, nb: nat, nr: nat) {
    Columns(nb) && 0 < nr < |keys| && forall i :: 0 <= i < |keys| ==> State(keys[i], nb)
  }

  function Round(s: Bytes, k: Bytes, nb: nat): (t: Bytes)
    requires State(s, nb) && State(k, nb)
    ensures State(t, nb)
  {
    AddKey(MixColumns(ShiftRows(SubBytes(s), nb), nb), k)
  }

  /** The state after the first key and n full rounds. */
  function Rounds(s: Bytes, keys: seq<Bytes>, nb: nat, n: nat): (t: Bytes)
    requires State(s, nb) && n < |keys| && forall i :: 0 <= i < |keys| ==> State(keys[i], nb)
    ensures State(t, nb)
  {
    assert State(keys[0], nb);
    if n == 0 then AddKey(s, keys[0]) else Round(Rounds(s, keys, nb, n - 1), keys[n], nb)
  }

  /** The cipher of section 5.1 with nr rounds. */
  function Encrypt(s: Bytes, keys: seq<Bytes>, nb: nat, nr: nat): (t: Bytes)
    requires State(s, nb) && Keys(keys, nb, nr)
    ensures State(t, nb)
  {
    AddKey(ShiftRows(SubBytes(Rounds(s, keys, nb, nr - 1)), nb), keys[nr])
  }

  function InvRound(s: Bytes, k: Bytes, nb: nat): (t: Bytes)
    requires State(s, nb) && State(k, nb)
    ensures State(t, nb)
  {
    InvSubBytes(InvShiftRows(InvMixColumns(AddKey(s, k), nb), nb))
  }

  /** Undoes rounds n down to 1 and the first key. */
  function InvRounds(s: Bytes, keys: seq<Bytes>, nb: nat, n: nat): (t: Bytes)
    requires State(s, nb) && n < |keys| && forall i :: 0 <= i < |keys| ==> State(keys[i], nb)
    ensures State(t, nb)
    decreases n
  {
    assert State(keys[0], nb);
    if n == 0 then AddKey(s, keys[0]) else InvRounds(InvRound(s, keys[n], nb), keys, nb, n - 1)
  }

  /** The inverse cipher of section 5.3. */
  function Decrypt(s: Bytes, keys: seq<Bytes>, nb: nat, nr: nat): (t: Bytes)
    requires State(s, nb) && Keys(keys, nb, nr)
    ensures State(t, nb)
  {
    InvRounds(InvSubBytes(InvShiftRows(AddKey(s, keys[nr]), nb)), keys, nb, nr - 1)
  }

  lemma RoundInverse(s: Bytes, k: Bytes, nb: nat)
    requires State(s, nb) && State(k, nb)
    ensures InvRound(Round(s, k, nb), k, nb) == s
  {
    hide AddKey, MixColumns, InvMixColumns, ShiftRows, InvShiftRows, SubBytes, InvSubBytes;
    AddKeyTwice(MixColumns(ShiftRows(SubBytes(s), nb), nb), k);
    MixColumnsInverse(ShiftRows(SubBytes(s), nb), nb);
    ShiftRowsInverse(SubBytes(s), nb);
    SubBytesInverse(s);
  }

  lemma {:induction false} RoundsInverse(s: Bytes, keys: seq<Bytes>, nb: nat, n: nat)
    requires State(s, nb) && n < |keys| && forall i :: 0 <= i < |keys| ==> State(keys[i], nb)
    ensures InvRounds(Rounds(s, keys, nb, n), keys, nb, n) == s
  {
    hide Round, InvRound, AddKey;
    if n == 0 {
      AddKeyTwice(s, keys[0]);
    } else {
      RoundInverse(Rounds(s, keys, nb, n - 1), keys[n], nb);
      RoundsInverse(s, keys, nb, n - 1);
    }
  }

  /** Decryption inverts encryption for every block size, number of rounds and sequence of round keys. */
  lemma RoundTrip(s: Bytes, keys: seq<Bytes>, nb: nat, nr: nat)
    requires State(s, nb) && Keys(keys, nb, nr)
    ensures Decrypt(Encrypt(s, keys, nb, nr), keys, nb, nr) == s
  {
    hide Rounds, InvRounds, AddKey, ShiftRows, InvShiftRows, SubBytes, InvSubBytes;
    var t := Rounds(s, keys, nb, nr - 1);
    AddKeyTwice(ShiftRows(SubBytes(t), nb), keys[nr]);
    ShiftRowsInverse(SubBytes(t), nb);
    SubBytesInverse(t);
    RoundsInverse(s, keys, nb, nr - 1);
  }

  // ---------------------------------------------------------------- the key schedule

  /** A word of the key schedule: one column. */
  datatype Col = Col(b0: bv8, b1: bv8, b2: bv8, b3: bv8)

  function XorCol(x: Col, y: Col): Col {
    Col(XorByte(x.b0, y.b0), XorByte(x.b1, y.b1), XorByte(x.b2, y.b2), XorByte(x.b3, y.b3))
  }

  function SubCol(x: Col): Col { Col(Sub(x.b0), Sub(x.b1), Sub(x.b2), Sub(x.b3)) }

  function RotCol(x: Col): Col { Col(x.b1, x.b2, x.b3, x.b0) }

  /** x^(i - 1) in GF(2^8). */
  function Rcon(i: nat): bv8
    requires i > 0
  {
    if i == 1 then 1 else Mul2(Rcon(i - 1))
  }

  /** rcon[i]. */
  function RconTable(i: nat): bv8
    requires i < 30
  {
    match i
    case 0 => 0x01
    case 1 => 0x02
    case 2 => 0x04
    case 3 => 0x08
    case 4 => 0x10
    case 5 => 0x20
    case 6 => 0x40
    case 7 => 0x80
    case 8 => 0x1b
    case 9 => 0x36
    case 10 => 0x6c
    case 11 => 0xd8
    case 12 => 0xab
    case 13 => 0x4d
    case 14 => 0x9a
    case 15 => 0x2f
    case 16 => 0x5e
    case 17 => 0xbc
    case 18 => 0x63
    case 19 => 0xc6
    case 20 => 0x97
    case 21 => 0x35
    case 22 => 0x6a
    case 23 => 0xd4
    case 24 => 0xb3
    case 25 => 0x7d
    case 26 => 0xfa
    case 27 => 0xef
    case 28 => 0xc5
    case _ => 0x91
  }

  lemma RconSteps()
    ensures Mul2(0x01) == 0x02 && Mul2(0x02) == 0x04 && Mul2(0x04) == 0x08
    ensures Mul2(0x08) == 0x10 && Mul2(0x10) == 0x20 && Mul2(0x20) == 0x40
    ensures Mul2(0x40) == 0x80 && Mul2(0x80) == 0x1b && Mul2(0x1b) == 0x36
    ensures Mul2(0x36) == 0x6c && Mul2(0x6c) == 0xd8 && Mul2(0xd8) == 0xab
    ensures Mul2(0xab) == 0x4d && Mul2(0x4d) == 0x9a && Mul2(0x9a) == 0x2f
    ensures Mul2(0x2f) == 0x5e && Mul2(0x5e) == 0xbc && Mul2(0xbc) == 0x63
    ensures Mul2(0x63) == 0xc6 && Mul2(0xc6) == 0x97 && Mul2(0x97) == 0x35
    ensures Mul2(0x35) == 0x6a && Mul2(0x6a) == 0xd4 && Mul2(0xd4) == 0xb3
    ensures Mul2(0xb3) == 0x7d && Mul2(0x7d) == 0xfa && Mul2(0xfa) == 0xef
    ensures Mul2(0xef) == 0xc5 && Mul2(0xc5) == 0x91
  {}

  lemma RconStep(i: nat)
    requires 0 < i < 30
    ensures RconTable(i) == Mul2(RconTable(i - 1))
  {
    hide Mul2;
    RconSteps();
    if i < 10 { } else if i < 20 { } else { }
  }

  /** Table entry i is x^i. */
  lemma {:induction false} RconTableIs(i: nat)
    requires i < 30
    ensures RconTable(i) == Rcon(i + 1)
  {
    hide Mul2;
    if i > 0 {
      RconTableIs(i - 1);
      RconStep(i);
    }
    hide RconTable;
  }

  function RconCol(i: nat): Col
    requires i > 0
  {
    Col(Rcon(i), 0, 0, 0)
  }

  function ColAt(key: Bytes, t: nat): Col
    requires 4 * t + 4 <= |key|
  {
    Col(key[4 * t], key[4 * t + 1], key[4 * t + 2], key[4 * t + 3])
  }

  /** The words of a key of nk words: sizes from 4 to 8 are allowed. */
  predicate Key(key: Bytes, nk: nat) { 4 <= nk <= 8 && |key| == 4 * nk }

  /** Word t of the key expansion of section 5.2. */
  function Word(key: Bytes, nk: nat, t: nat): Col
    requires Key(key, nk)
  {
    if t < nk then ColAt(key, t)
    else XorCol(Word(key, nk, t - nk), Mangled(Word(key, nk, t - 1), nk, t))
  }

  /** What is done to the previous word before word t. */
  function Mangled(x: Col, nk: nat, t: nat): Col
    requires 4 <= nk <= t
  {
    if t % nk == 0 then XorCol(SubCol(RotCol(x)), RconCol(t / nk))
    else if nk > 6 && t % nk == 4 then SubCol(x)
    else x
  }

  function ColByte(x: Col, r: nat): bv8
    requires r < 4
  {
    if r == 0 then x.b0 else if r == 1 then x.b1 else if r == 2 then x.b2 else x.b3
  }

  /** Round key i for blocks of nb columns. */
  function RoundKey(key: Bytes, nk: nat, nb: nat, i: nat): (k: Bytes)
    requires Key(key, nk) && Columns(nb)
    ensures State(k, nb)
  {
    seq(4 * nb, j requires 0 <= j < 4 * nb => ColByte(Word(key, nk, i * nb + j / 4), j % 4))
  }

  lemma RoundKeyAt(key: Bytes, nk: nat, nb: nat, i: nat, j: nat, r: nat)
    requires Key(key, nk) && Columns(nb) && j < nb && r < 4
    ensures At(RoundKey(key, nk, nb, i), nb, j, r) == ColByte(Word(key, nk, i * nb + j), r)
  {
    hide Word, ColByte;
    assert (4 * j + r) / 4 == j && (4 * j + r) % 4 == r;
  }

  function RoundCount(nk: nat, nb: nat): nat { 6 + if nb > nk then nb else nk }

  function RoundKeys(key: Bytes, nk: nat, nb: nat): (keys: seq<Bytes>)
    requires Key(key, nk) && Columns(nb)
    ensures |keys| == RoundCount(nk, nb) + 1 && Keys(keys, nb, RoundCount(nk, nb))
  {
    seq(RoundCount(nk, nb) + 1, i requires 0 <= i < RoundCount(nk, nb) + 1 => RoundKey(key, nk, nb, i))
  }

  /** The word that starts group i + 1 of nk words. */
  lemma FirstWord(key: Bytes, nk: nat, t: nat, i: nat)
    requires Key(key, nk) && t == (i + 1) * nk
    ensures nk <= t
    ensures Word(key, nk, t)
         == XorCol(Word(key, nk, t - nk), XorCol(SubCol(RotCol(Word(key, nk, t - 1))), RconCol(i + 1)))
  {
    hide XorCol, SubCol, RotCol, RconCol, ColAt;
    Multiple(i + 1, nk);
    FirstWordAt(key, nk, t);
  }

  lemma Multiple(n: nat, k: nat)
    requires n > 0 && k > 0
    ensures k <= n * k && n * k % k == 0 && n * k / k == n
  {
    assert n * k == (n - 1) * k + k;
    assert (n - 1) * k >= 0;
    Division(n * k, n, 0, k);
  }

  lemma FirstWordAt(key: Bytes, nk: nat, t: nat)
    requires Key(key, nk) && nk <= t && t % nk == 0 && t / nk > 0
    ensures Word(key, nk, t)
         == XorCol(Word(key, nk, t - nk), XorCol(SubCol(RotCol(Word(key, nk, t - 1))), RconCol(t / nk)))
  {
    hide XorCol, SubCol, RotCol, RconCol, ColAt;
  }

  lemma XorColAssoc(x: Col, y: Col, z: Col)
    ensures XorCol(XorCol(x, y), z) == XorCol(x, XorCol(y, z))
  {
    hide XorByte;
    XorByteAssoc(x.b0, y.b0, z.b0);
    XorByteAssoc(x.b1, y.b1, z.b1);
    XorByteAssoc(x.b2, y.b2, z.b2);
    XorByteAssoc(x.b3, y.b3, z.b3);
  }

  lemma XorByteAssoc(a: bv8, b: bv8, c: bv8)
    ensures XorByte(XorByte(a, b), c) == XorByte(a, XorByte(b, c))
  {
    calc {
      XorByte(XorByte(a, b), c);
      XorByte(a ^ b, c);
      XorByte(a, b ^ c);
      XorByte(a, XorByte(b, c));
    }
  }
}
