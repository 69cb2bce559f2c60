/** The substitution boxes of Rijndael and ARIA as section 5.1.1 of FIPS 197 and section 2.4.2 of RFC 5794 derive them:
    inverses or powers in GF(2^8), then an affine map over the bits. */
module SboxField {
  import opened Words
  import opened Sbox
  import opened AriaSbox
  import opened RijndaelSpec

  // ---------------------------------------------------------------- bits and products

  /** x^n a. */
  function Shifted(a: bv8, n: nat): bv8 {
    if n == 0 then a else Mul2(Shifted(a, n - 1))
  }

  /** The product in GF(2^8), over the first n bits of b. */
  function PartProduct(a: bv8, b: bv8, n: nat): bv8
    requires n <= 8
  {
    if n == 0 then 0 else XorByte(PartProduct(a, b, n - 1), if ByteBit(b, n - 1) then Shifted(a, n - 1) else 0)
  }

  function Product(a: bv8, b: bv8): bv8 { PartProduct(a, b, 8) }

  /** a is the inverse of b; the inverse of zero is taken to be zero. */
  predicate IsInverse(a: bv8, b: bv8) {
    if b == 0 then a == 0 else Product(a, b) == 1
  }

  function Square(b: bv8): bv8 { Product(b, b) }

  function EighthPower(b: bv8): bv8 { Square(Square(Square(b))) }

  function Pick(b: bv8, i: nat, a: bv8): bv8
    requires i < 8
  {
    if ByteBit(b, i) then a else 0
  }

  function Sum8(t0: bv8, t1: bv8, t2: bv8, t3: bv8, t4: bv8, t5: bv8, t6: bv8, t7: bv8): bv8 {
    t0 ^ t1 ^ t2 ^ t3 ^ t4 ^ t5 ^ t6 ^ t7
  }

  /** The same without recursion, from the powers. */
  function FlatOf(b: bv8, a: bv8, a1: bv8, a2: bv8, a3: bv8, a4: bv8, a5: bv8, a6: bv8, a7: bv8): bv8 {
    (if b & 0x01 != 0 then a else 0) ^ (if b & 0x02 != 0 then a1 else 0)
    ^ (if b & 0x04 != 0 then a2 else 0) ^ (if b & 0x08 != 0 then a3 else 0)
    ^ (if b & 0x10 != 0 then a4 else 0) ^ (if b & 0x20 != 0 then a5 else 0)
    ^ (if b & 0x40 != 0 then a6 else 0) ^ (if b & 0x80 != 0 then a7 else 0)
  }

  function Flat(a: bv8, b: bv8): bv8 {
    var a1 := Mul2(a);
    var a2 := Mul2(a1);
    var a3 := Mul2(a2);
    var a4 := Mul2(a3);
    var a5 := Mul2(a4);
    var a6 := Mul2(a5);
    FlatOf(b, a, a1, a2, a3, a4, a5, a6, Mul2(a6))
  }

  lemma FlatTerms(b: bv8, a: bv8, a1: bv8, a2: bv8, a3: bv8, a4: bv8, a5: bv8, a6: bv8, a7: bv8,
                  t0: bv8, t1: bv8, t2: bv8, t3: bv8, t4: bv8, t5: bv8, t6: bv8, t7: bv8)
    requires t0 == if b & 0x01 != 0 then a else 0
    requires t1 == if b & 0x02 != 0 then a1 else 0
    requires t2 == if b & 0x04 != 0 then a2 else 0
    requires t3 == if b & 0x08 != 0 then a3 else 0
    requires t4 == if b & 0x10 != 0 then a4 else 0
    requires t5 == if b & 0x20 != 0 then a5 else 0
    requires t6 == if b & 0x40 != 0 then a6 else 0
    requires t7 == if b & 0x80 != 0 then a7 else 0
    ensures FlatOf(b, a, a1, a2, a3, a4, a5, a6, a7) == Sum8(t0, t1, t2, t3, t4, t5, t6, t7)
  {}

  lemma FlatPicks(b: bv8, a: bv8, a1: bv8, a2: bv8, a3: bv8, a4: bv8, a5: bv8, a6: bv8, a7: bv8)
    ensures FlatOf(b, a, a1, a2, a3, a4, a5, a6, a7)
         == Sum8(Pick(b, 0, a), Pick(b, 1, a1), Pick(b, 2, a2), Pick(b, 3, a3),
                 Pick(b, 4, a4), Pick(b, 5, a5), Pick(b, 6, a6), Pick(b, 7, a7))
  {
    hide FlatOf, Sum8;
    FlatTerms(b, a, a1, a2, a3, a4, a5, a6, a7,
              Pick(b, 0, a), Pick(b, 1, a1), Pick(b, 2, a2), Pick(b, 3, a3),
              Pick(b, 4, a4), Pick(b, 5, a5), Pick(b, 6, a6), Pick(b, 7, a7));
  }

  lemma Nested(t0: bv8, t1: bv8, t2: bv8, t3: bv8, t4: bv8, t5: bv8, t6: bv8, t7: bv8)
    ensures XorByte(XorByte(XorByte(XorByte(XorByte(XorByte(XorByte(XorByte(0, t0), t1), t2), t3), t4), t5), t6), t7)
         == Sum8(t0, t1, t2, t3, t4, t5, t6, t7)
  {}

  lemma Shifts(a: bv8)
    ensures Shifted(a, 0) == a && Shifted(a, 1) == Mul2(a) && Shifted(a, 2) == Mul2(Shifted(a, 1))
    ensures Shifted(a, 3) == Mul2(Shifted(a, 2)) && Shifted(a, 4) == Mul2(Shifted(a, 3))
    ensures Shifted(a, 5) == Mul2(Shifted(a, 4)) && Shifted(a, 6) == Mul2(Shifted(a, 5))
    ensures Shifted(a, 7) == Mul2(Shifted(a, 6))
  {
    hide Mul2;
  }

  lemma NextPart(a: bv8, b: bv8, n: nat)
    requires n < 8
    ensures PartProduct(a, b, 0) == 0
    ensures PartProduct(a, b, n + 1) == XorByte(PartProduct(a, b, n), Pick(b, n, Shifted(a, n)))
  {
    hide XorByte, Shifted, ByteBit;
  }

  lemma FlatIs(a: bv8, b: bv8)
    ensures Product(a, b) == Flat(a, b)
  {
    hide Mul2, XorByte, Sum8, Pick, Shifted, PartProduct, ByteBit, FlatOf;
    FlatPicks(b, a, Shifted(a, 1), Shifted(a, 2), Shifted(a, 3), Shifted(a, 4), Shifted(a, 5), Shifted(a, 6),
              Shifted(a, 7));
    Shifts(a);
    NextPart(a, b, 0);
    NextPart(a, b, 1);
    NextPart(a, b, 2);
    NextPart(a, b, 3);
    NextPart(a, b, 4);
    NextPart(a, b, 5);
    NextPart(a, b, 6);
    NextPart(a, b, 7);
    Nested(Pick(b, 0, a), Pick(b, 1, Shifted(a, 1)), Pick(b, 2, Shifted(a, 2)), Pick(b, 3, Shifted(a, 3)),
           Pick(b, 4, Shifted(a, 4)), Pick(b, 5, Shifted(a, 5)), Pick(b, 6, Shifted(a, 6)), Pick(b, 7, Shifted(a, 7)));
  }

  // ---------------------------------------------------------------- the box of Rijndael

  /** The inverse of the affine map of Sub. */
  function Unaffine(c: bv8): bv8 {
    ((c << 1) | (c >> 7)) ^ ((c << 3) | (c >> 5)) ^ ((c << 6) | (c >> 2)) ^ 0x05
  }

  lemma SubOfInverse(b: bv8)
    requires b != 0
    ensures Flat(Unaffine(Sub(b)), b) == 1
  {}

  lemma SubOfZero()
    ensures Unaffine(Sub(0)) == 0
  {}

  lemma Inverse0(a: bv8, b: bv8)
    requires b != 0 && b < 0x20 && Flat(a, b) == 1
    ensures a == Unaffine(Sub(b))
  {}

  lemma Inverse1(a: bv8, b: bv8)
    requires 0x20 <= b && b < 0x40 && Flat(a, b) == 1
    ensures a == Unaffine(Sub(b))
  {}

  lemma Inverse2(a: bv8, b: bv8)
    requires 0x40 <= b && b < 0x60 && Flat(a, b) == 1
    ensures a == Unaffine(Sub(b))
  {}

  lemma Inverse3(a: bv8, b: bv8)
    requires 0x60 <= b && b < 0x80 && Flat(a, b) == 1
    ensures a == Unaffine(Sub(b))
  {}

  lemma Inverse4(a: bv8, b: bv8)
    requires 0x80 <= b && b < 0xa0 && Flat(a, b) == 1
    ensures a == Unaffine(Sub(b))
  {}

  lemma Inverse5(a: bv8, b: bv8)
    requires 0xa0 <= b && b < 0xc0 && Flat(a, b) == 1
    ensures a == Unaffine(Sub(b))
  {}

  lemma Inverse6(a: bv8, b: bv8)
    requires 0xc0 <= b && b < 0xe0 && Flat(a, b) == 1
    ensures a == Unaffine(Sub(b))
  {}

  lemma Inverse7(a: bv8, b: bv8)
    requires 0xe0 <= b && Flat(a, b) == 1
    ensures a == Unaffine(Sub(b))
  {}

  /** There is one inverse. */
  lemma InverseIs(a: bv8, b: bv8)
    ensures IsInverse(a, b) <==> a == Unaffine(Sub(b))
  {
    hide Flat, Unaffine, Sub, Product;
    FlatIs(a, b);
    SubOfZero();
    if b != 0 {
      SubOfInverse(b);
    }
    if b != 0 && Flat(a, b) == 1 {
      if b < 0x20 {
        Inverse0(a, b);
      } else if b < 0x40 {
        Inverse1(a, b);
      } else if b < 0x60 {
        Inverse2(a, b);
      } else if b < 0x80 {
        Inverse3(a, b);
      } else if b < 0xa0 {
        Inverse4(a, b);
      } else if b < 0xc0 {
        Inverse5(a, b);
      } else if b < 0xe0 {
        Inverse6(a, b);
      } else {
        Inverse7(a, b);
      }
    }
  }

  function Xor(p: bool, q: bool): bool { p != q }

  /** Bit i of the affine map of a. */
  function Affine(a: bv8, i: nat): bool
    requires i < 8
  {
    Xor(Xor(Xor(Xor(Xor(ByteBit(a, i), ByteBit(a, (i + 4) % 8)), ByteBit(a, (i + 5) % 8)), ByteBit(a, (i + 6) % 8)),
            ByteBit(a, (i + 7) % 8)), ByteBit(0x63, i))
  }

  lemma UnaffineBit0(c: bv8)
    ensures ByteBit(c, 0) == Affine(Unaffine(c), 0)
  {}

  lemma UnaffineBit1(c: bv8)
    ensures ByteBit(c, 1) == Affine(Unaffine(c), 1)
  {}

  lemma UnaffineBit2(c: bv8)
    ensures ByteBit(c, 2) == Affine(Unaffine(c), 2)
  {}

  lemma UnaffineBit3(c: bv8)
    ensures ByteBit(c, 3) == Affine(Unaffine(c), 3)
  {}

  lemma UnaffineBit4(c: bv8)
    ensures ByteBit(c, 4) == Affine(Unaffine(c), 4)
  {}

  lemma UnaffineBit5(c: bv8)
    ensures ByteBit(c, 5) == Affine(Unaffine(c), 5)
  {}

  lemma UnaffineBit6(c: bv8)
    ensures ByteBit(c, 6) == Affine(Unaffine(c), 6)
  {}

  lemma UnaffineBit7(c: bv8)
    ensures ByteBit(c, 7) == Affine(Unaffine(c), 7)
  {}

  lemma UnaffineBits(c: bv8, i: nat)
    requires i < 8
    ensures ByteBit(c, i) == Affine(Unaffine(c), i)
  {
    hide *;
    match i {
      case 0 =>
        UnaffineBit0(c);
      case 1 =>
        UnaffineBit1(c);
      case 2 =>
        UnaffineBit2(c);
      case 3 =>
        UnaffineBit3(c);
      case 4 =>
        UnaffineBit4(c);
      case 5 =>
        UnaffineBit5(c);
      case 6 =>
        UnaffineBit6(c);
      case _ =>
        UnaffineBit7(c);
    }
  }

  /** Section 5.1.1 of FIPS 197: bit i of Sub(b) is the sum of bits i, i + 4, i + 5, i + 6 and i + 7 of the inverse of b
      and bit i of 0x63. */
  lemma SubConforms(b: bv8, a: bv8, i: nat)
    requires IsInverse(a, b) && i < 8
    ensures ByteBit(Sub(b), i) == Affine(a, i)
  {
    hide *;
    InverseIs(a, b);
    UnaffineBits(Sub(b), i);
  }

  /** Every byte has an inverse, so that lemma says what Sub is everywhere. */
  lemma InverseExists(b: bv8)
    ensures exists a :: IsInverse(a, b)
  {
    hide *;
    InverseIs(Unaffine(Sub(b)), b);
  }

  // ---------------------------------------------------------------- the second box of ARIA

  /** The inverse of the affine map of Sub2. */
  function Unaffine2(d: bv8): bv8 {
    var c := d ^ 0xe2;
    (if c & 0x1 != 0 then 0x9f else 0) ^ (if c & 0x2 != 0 then 0xc3 else 0)
    ^ (if c & 0x4 != 0 then 0x30 else 0) ^ (if c & 0x8 != 0 then 0xc9 else 0)
    ^ (if c & 0x10 != 0 then 0xc7 else 0) ^ (if c & 0x20 != 0 then 0x17 else 0)
    ^ (if c & 0x40 != 0 then 0x42 else 0) ^ (if c & 0x80 != 0 then 0xef else 0)
  }

  /** The sum of the bits of a that row i of the matrix selects. */
  function Row2(a: bv8, i: nat): bool
    requires i < 8
  {
    match i
    case 0 => Xor(Xor(Xor(Xor(ByteBit(a, 1), ByteBit(a, 3)), ByteBit(a, 4)), ByteBit(a, 5)), ByteBit(a, 6))
    case 1 => Xor(Xor(Xor(Xor(ByteBit(a, 2), ByteBit(a, 3)), ByteBit(a, 4)), ByteBit(a, 5)), ByteBit(a, 7))
    case 2 =>
      Xor(Xor(Xor(Xor(Xor(ByteBit(a, 0), ByteBit(a, 1)), ByteBit(a, 3)), ByteBit(a, 5)), ByteBit(a, 6)), ByteBit(a, 7))
    case 3 => Xor(Xor(Xor(Xor(ByteBit(a, 0), ByteBit(a, 3)), ByteBit(a, 4)), ByteBit(a, 5)), ByteBit(a, 7))
    case 4 => Xor(Xor(ByteBit(a, 2), ByteBit(a, 4)), ByteBit(a, 5))
    case 5 => Xor(ByteBit(a, 0), ByteBit(a, 7))
    case 6 => Xor(Xor(Xor(Xor(ByteBit(a, 1), ByteBit(a, 3)), ByteBit(a, 4)), ByteBit(a, 5)), ByteBit(a, 7))
    case _ => Xor(Xor(Xor(Xor(ByteBit(a, 0), ByteBit(a, 1)), ByteBit(a, 3)), ByteBit(a, 6)), ByteBit(a, 7))
  }

  lemma Unaffine2Bits(d: bv8, i: nat)
    requires i < 8
    ensures ByteBit(d, i) == Xor(Row2(Unaffine2(d), i), ByteBit(0xe2, i))
  {
  }

  function FlatEighth(b: bv8): bv8 {
    var c := Flat(b, b);
    var d := Flat(c, c);
    Flat(d, d)
  }

  lemma EighthIs(b: bv8)
    ensures EighthPower(b) == FlatEighth(b)
  {
    hide Product, Flat;
    var c := Flat(b, b);
    var d := Flat(c, c);
    FlatIs(b, b);
    FlatIs(c, c);
    FlatIs(d, d);
  }

  lemma EighthNotZero(b: bv8)
    ensures FlatEighth(b) == 0 <==> b == 0
  {}

  lemma Sub2OfZero()
    ensures Unaffine2(Sub2(0)) == 0
  {}

  lemma Power0(b: bv8)
    requires b != 0 && b < 0x40
    ensures Flat(Unaffine2(Sub2(b)), FlatEighth(b)) == 1
  {}

  lemma Power1(b: bv8)
    requires 0x40 <= b && b < 0x80
    ensures Flat(Unaffine2(Sub2(b)), FlatEighth(b)) == 1
  {}

  lemma Power2(b: bv8)
    requires 0x80 <= b && b < 0xc0
    ensures Flat(Unaffine2(Sub2(b)), FlatEighth(b)) == 1
  {}

  lemma Power3(b: bv8)
    requires 0xc0 <= b
    ensures Flat(Unaffine2(Sub2(b)), FlatEighth(b)) == 1
  {}

  lemma PowerInverse(b: bv8)
    requires b != 0
    ensures Flat(Unaffine2(Sub2(b)), FlatEighth(b)) == 1
  {
    hide *;
    if b < 0x40 {
      Power0(b);
    } else if b < 0x80 {
      Power1(b);
    } else if b < 0xc0 {
      Power2(b);
    } else {
      Power3(b);
    }
  }

  lemma Power247(b: bv8)
    ensures IsInverse(Unaffine2(Sub2(b)), EighthPower(b))
  {
    hide Flat, FlatEighth, Unaffine2, Sub2, Product, EighthPower;
    EighthIs(b);
    EighthNotZero(b);
    Sub2OfZero();
    FlatIs(Unaffine2(Sub2(b)), FlatEighth(b));
    if b != 0 {
      PowerInverse(b);
    }
  }

  /** Section 2.4.2 of RFC 5794: Sub2 is an affine map of the power 247, the inverse of the eighth power. */
  lemma Sub2Conforms(b: bv8, c: bv8, i: nat)
    requires IsInverse(c, EighthPower(b)) && i < 8
    ensures ByteBit(Sub2(b), i) == Xor(Row2(c, i), ByteBit(0xe2, i))
  {
    hide *;
    Power247(b);
    InverseIs(c, EighthPower(b));
    InverseIs(Unaffine2(Sub2(b)), EighthPower(b));
    Unaffine2Bits(Sub2(b), i);
  }
}
