/** The bitsliced S-boxes of Serpent (impl/block/serpent/serpent-impl.cc). */
module SerpentBoxes {
  import opened Bits
  import opened Quads

  function S0(x: Quad): Quad {
    var r0, r1, r2, r3 := x.a, x.b, x.c, x.d;
    var r3 := Xor(r3, r0);
    var r4 := r1;
    var r1 := And(r1, r3);
    var r4 := Xor(r4, r2);
    var r1 := Xor(r1, r0);
    var r0 := Or(r0, r3);
    var r0 := Xor(r0, r4);
    var r4 := Xor(r4, r3);
    var r3 := Xor(r3, r2);
    var r2 := Or(r2, r1);
    var r2 := Xor(r2, r4);
    var r4 := Not(r4);
    var r4 := Or(r4, r1);
    var r1 := Xor(r1, r3);
    var r1 := Xor(r1, r4);
    var r3 := Or(r3, r0);
    var r1 := Xor(r1, r3);
    var r4 := Xor(r4, r3);
    Quad(r1, r4, r2, r0)
  }

  function S1(x: Quad): Quad {
    var r0, r1, r2, r3 := x.a, x.b, x.c, x.d;
    var r0 := Not(r0);
    var r2 := Not(r2);
    var r4 := r0;
    var r0 := And(r0, r1);
    var r2 := Xor(r2, r0);
    var r0 := Or(r0, r3);
    var r3 := Xor(r3, r2);
    var r1 := Xor(r1, r0);
    var r0 := Xor(r0, r4);
    var r4 := Or(r4, r1);
    var r1 := Xor(r1, r3);
    var r2 := Or(r2, r0);
    var r2 := And(r2, r4);
    var r0 := Xor(r0, r1);
    var r1 := And(r1, r2);
    var r1 := Xor(r1, r0);
    var r0 := And(r0, r2);
    var r0 := Xor(r0, r4);
    Quad(r2, r0, r3, r1)
  }

  function S2(x: Quad): Quad {
    var r0, r1, r2, r3 := x.a, x.b, x.c, x.d;
    var r4 := r0;
    var r0 := And(r0, r2);
    var r0 := Xor(r0, r3);
    var r2 := Xor(r2, r1);
    var r2 := Xor(r2, r0);
    var r3 := Or(r3, r4);
    var r3 := Xor(r3, r1);
    var r4 := Xor(r4, r2);
    var r1 := r3;
    var r3 := Or(r3, r4);
    var r3 := Xor(r3, r0);
    var r0 := And(r0, r1);
    var r4 := Xor(r4, r0);
    var r1 := Xor(r1, r3);
    var r1 := Xor(r1, r4);
    var r4 := Not(r4);
    Quad(r2, r3, r1, r4)
  }

  function S3(x: Quad): Quad {
    var r0, r1, r2, r3 := x.a, x.b, x.c, x.d;
    var r4 := r0;
    var r0 := Or(r0, r3);
    var r3 := Xor(r3, r1);
    var r1 := And(r1, r4);
    var r4 := Xor(r4, r2);
    var r2 := Xor(r2, r3);
    var r3 := And(r3, r0);
    var r4 := Or(r4, r1);
    var r3 := Xor(r3, r4);
    var r0 := Xor(r0, r1);
    var r4 := And(r4, r0);
    var r1 := Xor(r1, r3);
    var r4 := Xor(r4, r2);
    var r1 := Or(r1, r0);
    var r1 := Xor(r1, r2);
    var r0 := Xor(r0, r3);
    var r2 := r1;
    var r1 := Or(r1, r3);
    var r1 := Xor(r1, r0);
    Quad(r1, r2, r3, r4)
  }

  function S4(x: Quad): Quad {
    var r0, r1, r2, r3 := x.a, x.b, x.c, x.d;
    var r1 := Xor(r1, r3);
    var r3 := Not(r3);
    var r2 := Xor(r2, r3);
    var r3 := Xor(r3, r0);
    var r4 := r1;
    var r1 := And(r1, r3);
    var r1 := Xor(r1, r2);
    var r4 := Xor(r4, r3);
    var r0 := Xor(r0, r4);
    var r2 := And(r2, r4);
    var r2 := Xor(r2, r0);
    var r0 := And(r0, r1);
    var r3 := Xor(r3, r0);
    var r4 := Or(r4, r1);
    var r4 := Xor(r4, r0);
    var r0 := Or(r0, r3);
    var r0 := Xor(r0, r2);
    var r2 := And(r2, r3);
    var r0 := Not(r0);
    var r4 := Xor(r4, r2);
    Quad(r1, r4, r0, r3)
  }

  function S5(x: Quad): Quad {
    var r0, r1, r2, r3 := x.a, x.b, x.c, x.d;
    var r0 := Xor(r0, r1);
    var r1 := Xor(r1, r3);
    var r3 := Not(r3);
    var r4 := r1;
    var r1 := And(r1, r0);
    var r2 := Xor(r2, r3);
    var r1 := Xor(r1, r2);
    var r2 := Or(r2, r4);
    var r4 := Xor(r4, r3);
    var r3 := And(r3, r1);
    var r3 := Xor(r3, r0);
    var r4 := Xor(r4, r1);
    var r4 := Xor(r4, r2);
    var r2 := Xor(r2, r0);
    var r0 := And(r0, r3);
    var r2 := Not(r2);
    var r0 := Xor(r0, r4);
    var r4 := Or(r4, r3);
    var r2 := Xor(r2, r4);
    Quad(r1, r3, r0, r2)
  }

  function S6(x: Quad): Quad {
    var r0, r1, r2, r3 := x.a, x.b, x.c, x.d;
    var r2 := Not(r2);
    var r4 := r3;
    var r3 := And(r3, r0);
    var r0 := Xor(r0, r4);
    var r3 := Xor(r3, r2);
    var r2 := Or(r2, r4);
    var r1 := Xor(r1, r3);
    var r2 := Xor(r2, r0);
    var r0 := Or(r0, r1);
    var r2 := Xor(r2, r1);
    var r4 := Xor(r4, r0);
    var r0 := Or(r0, r3);
    var r0 := Xor(r0, r2);
    var r4 := Xor(r4, r3);
    var r4 := Xor(r4, r0);
    var r3 := Not(r3);
    var r2 := And(r2, r4);
    var r2 := Xor(r2, r3);
    Quad(r0, r1, r4, r2)
  }

  function S7(x: Quad): Quad {
    var r0, r1, r2, r3 := x.a, x.b, x.c, x.d;
    var r4 := r1;
    var r1 := Or(r1, r2);
    var r1 := Xor(r1, r3);
    var r4 := Xor(r4, r2);
    var r2 := Xor(r2, r1);
    var r3 := Or(r3, r4);
    var r3 := And(r3, r0);
    var r4 := Xor(r4, r2);
    var r3 := Xor(r3, r1);
    var r1 := Or(r1, r4);
    var r1 := Xor(r1, r0);
    var r0 := Or(r0, r4);
    var r0 := Xor(r0, r2);
    var r1 := Xor(r1, r4);
    var r2 := Xor(r2, r1);
    var r1 := And(r1, r0);
    var r1 := Xor(r1, r4);
    var r2 := Not(r2);
    var r2 := Or(r2, r0);
    var r4 := Xor(r4, r2);
    Quad(r4, r3, r1, r0)
  }

  function Si0(x: Quad): Quad {
    var r0, r1, r2, r3 := x.a, x.b, x.c, x.d;
    var r2 := Not(r2);
    var r4 := r1;
    var r1 := Or(r1, r0);
    var r4 := Not(r4);
    var r1 := Xor(r1, r2);
    var r2 := Or(r2, r4);
    var r1 := Xor(r1, r3);
    var r0 := Xor(r0, r4);
    var r2 := Xor(r2, r0);
    var r0 := And(r0, r3);
    var r4 := Xor(r4, r0);
    var r0 := Or(r0, r1);
    var r0 := Xor(r0, r2);
    var r3 := Xor(r3, r4);
    var r2 := Xor(r2, r1);
    var r3 := Xor(r3, r0);
    var r3 := Xor(r3, r1);
    var r2 := And(r2, r3);
    var r4 := Xor(r4, r2);
    Quad(r0, r4, r1, r3)
  }

  function Si1(x: Quad): Quad {
    var r0, r1, r2, r3 := x.a, x.b, x.c, x.d;
    var r4 := r1;
    var r1 := Xor(r1, r3);
    var r3 := And(r3, r1);
    var r4 := Xor(r4, r2);
    var r3 := Xor(r3, r0);
    var r0 := Or(r0, r1);
    var r2 := Xor(r2, r3);
    var r0 := Xor(r0, r4);
    var r0 := Or(r0, r2);
    var r1 := Xor(r1, r3);
    var r0 := Xor(r0, r1);
    var r1 := Or(r1, r3);
    var r1 := Xor(r1, r0);
    var r4 := Not(r4);
    var r4 := Xor(r4, r1);
    var r1 := Or(r1, r0);
    var r1 := Xor(r1, r0);
    var r1 := Or(r1, r4);
    var r3 := Xor(r3, r1);
    Quad(r4, r0, r3, r2)
  }

  function Si2(x: Quad): Quad {
    var r0, r1, r2, r3 := x.a, x.b, x.c, x.d;
    var r2 := Xor(r2, r3);
    var r3 := Xor(r3, r0);
    var r4 := r3;
    var r3 := And(r3, r2);
    var r3 := Xor(r3, r1);
    var r1 := Or(r1, r2);
    var r1 := Xor(r1, r4);
    var r4 := And(r4, r3);
    var r2 := Xor(r2, r3);
    var r4 := And(r4, r0);
    var r4 := Xor(r4, r2);
    var r2 := And(r2, r1);
    var r2 := Or(r2, r0);
    var r3 := Not(r3);
    var r2 := Xor(r2, r3);
    var r0 := Xor(r0, r3);
    var r0 := And(r0, r1);
    var r3 := Xor(r3, r4);
    var r3 := Xor(r3, r0);
    Quad(r1, r4, r2, r3)
  }

  function Si3(x: Quad): Quad {
    var r0, r1, r2, r3 := x.a, x.b, x.c, x.d;
    var r4 := r2;
    var r2 := Xor(r2, r1);
    var r0 := Xor(r0, r2);
    var r4 := And(r4, r2);
    var r4 := Xor(r4, r0);
    var r0 := And(r0, r1);
    var r1 := Xor(r1, r3);
    var r3 := Or(r3, r4);
    var r2 := Xor(r2, r3);
    var r0 := Xor(r0, r3);
    var r1 := Xor(r1, r4);
    var r3 := And(r3, r2);
    var r3 := Xor(r3, r1);
    var r1 := Xor(r1, r0);
    var r1 := Or(r1, r2);
    var r0 := Xor(r0, r3);
    var r1 := Xor(r1, r4);
    var r0 := Xor(r0, r1);
    Quad(r2, r1, r3, r0)
  }

  function Si4(x: Quad): Quad {
    var r0, r1, r2, r3 := x.a, x.b, x.c, x.d;
    var r4 := r2;
    var r2 := And(r2, r3);
    var r2 := Xor(r2, r1);
    var r1 := Or(r1, r3);
    var r1 := And(r1, r0);
    var r4 := Xor(r4, r2);
    var r4 := Xor(r4, r1);
    var r1 := And(r1, r2);
    var r0 := Not(r0);
    var r3 := Xor(r3, r4);
    var r1 := Xor(r1, r3);
    var r3 := And(r3, r0);
    var r3 := Xor(r3, r2);
    var r0 := Xor(r0, r1);
    var r2 := And(r2, r0);
    var r3 := Xor(r3, r0);
    var r2 := Xor(r2, r4);
    var r2 := Or(r2, r3);
    var r3 := Xor(r3, r0);
    var r2 := Xor(r2, r1);
    Quad(r0, r3, r2, r4)
  }

  function Si5(x: Quad): Quad {
    var r0, r1, r2, r3 := x.a, x.b, x.c, x.d;
    var r1 := Not(r1);
    var r4 := r3;
    var r2 := Xor(r2, r1);
    var r3 := Or(r3, r0);
    var r3 := Xor(r3, r2);
    var r2 := Or(r2, r1);
    var r2 := And(r2, r0);
    var r4 := Xor(r4, r3);
    var r2 := Xor(r2, r4);
    var r4 := Or(r4, r0);
    var r4 := Xor(r4, r1);
    var r1 := And(r1, r2);
    var r1 := Xor(r1, r3);
    var r4 := Xor(r4, r2);
    var r3 := And(r3, r4);
    var r4 := Xor(r4, r1);
    var r3 := Xor(r3, r4);
    var r4 := Not(r4);
    var r3 := Xor(r3, r0);
    Quad(r1, r4, r3, r2)
  }

  function Si6(x: Quad): Quad {
    var r0, r1, r2, r3 := x.a, x.b, x.c, x.d;
    var r0 := Xor(r0, r2);
    var r4 := r2;
    var r2 := And(r2, r0);
    var r4 := Xor(r4, r3);
    var r2 := Not(r2);
    var r3 := Xor(r3, r1);
    var r2 := Xor(r2, r3);
    var r4 := Or(r4, r0);
    var r0 := Xor(r0, r2);
    var r3 := Xor(r3, r4);
    var r4 := Xor(r4, r1);
    var r1 := And(r1, r3);
    var r1 := Xor(r1, r0);
    var r0 := Xor(r0, r3);
    var r0 := Or(r0, r2);
    var r3 := Xor(r3, r1);
    var r4 := Xor(r4, r0);
    Quad(r1, r2, r4, r3)
  }

  function Si7(x: Quad): Quad {
    var r0, r1, r2, r3 := x.a, x.b, x.c, x.d;
    var r4 := r2;
    var r2 := Xor(r2, r0);
    var r0 := And(r0, r3);
    var r4 := Or(r4, r3);
    var r2 := Not(r2);
    var r3 := Xor(r3, r1);
    var r1 := Or(r1, r0);
    var r0 := Xor(r0, r2);
    var r2 := And(r2, r4);
    var r3 := And(r3, r4);
    var r1 := Xor(r1, r2);
    var r2 := Xor(r2, r0);
    var r0 := Or(r0, r2);
    var r4 := Xor(r4, r1);
    var r0 := Xor(r0, r3);
    var r3 := Xor(r3, r4);
    var r4 := Or(r4, r0);
    var r3 := Xor(r3, r2);
    var r4 := Xor(r4, r2);
    Quad(r3, r0, r1, r4)
  }

  // ---------------------------------------------------------------- bits

  /** The four bits at one position of a block. */
  datatype Slice = Slice(a: bool, b: bool, c: bool, d: bool)

  function At(x: Quad, n: nat): Slice {
    Slice(Bit(x.a, n), Bit(x.b, n), Bit(x.c, n), Bit(x.d, n))
  }

  lemma Gates(n: nat)
    requires n < 32
    ensures forall a: Word, b: Word :: Bit(Xor(a, b), n) == (Bit(a, n) != Bit(b, n))
    ensures forall a: Word, b: Word :: Bit(And(a, b), n) == (Bit(a, n) && Bit(b, n))
    ensures forall a: Word, b: Word :: Bit(Or(a, b), n) == (Bit(a, n) || Bit(b, n))
    ensures forall a: Word :: Bit(Not(a), n) == !Bit(a, n)
  {
    hide Bit, Xor, And, Or, Not;
    forall a: Word, b: Word
      ensures Bit(Xor(a, b), n) == (Bit(a, n) != Bit(b, n))
    {
      BitXor(a, b, n);
    }
    forall a: Word, b: Word
      ensures Bit(And(a, b), n) == (Bit(a, n) && Bit(b, n))
    {
      BitAnd(a, b, n);
    }
    forall a: Word, b: Word
      ensures Bit(Or(a, b), n) == (Bit(a, n) || Bit(b, n))
    {
      BitOr(a, b, n);
    }
    forall a: Word
      ensures Bit(Not(a), n) == !Bit(a, n)
    {
      BitNot(a, n);
    }
  }

  /** Blocks with the same bits are equal. */
  lemma SameSlices(x: Quad, y: Quad)
    requires forall n :: 0 <= n < 32 ==> At(x, n) == At(y, n)
    ensures x == y
  {
    hide Bit;
    forall n | 0 <= n < 32
      ensures Bit(x.a, n) == Bit(y.a, n) && Bit(x.b, n) == Bit(y.b, n)
      ensures Bit(x.c, n) == Bit(y.c, n) && Bit(x.d, n) == Bit(y.d, n)
    {
      assert At(x, n) == At(y, n);
    }
    SameBits(x.a, y.a);
    SameBits(x.b, y.b);
    SameBits(x.c, y.c);
    SameBits(x.d, y.d);
  }

  // ---------------------------------------------------------------- the tables

  /** Four bits as a number, the first one the least significant. */
  function Number(s: Slice): (v: nat)
    ensures v < 16
  {
    (if s.a then 1 else 0) + (if s.b then 2 else 0) + (if s.c then 4 else 0) + (if s.d then 8 else 0)
  }

  /** S-box 0 of the Serpent proposal. */
  function Table0(v: nat): nat {
    match v
    case 0 => 3
    case 1 => 8
    case 2 => 15
    case 3 => 1
    case 4 => 10
    case 5 => 6
    case 6 => 5
    case 7 => 11
    case 8 => 14
    case 9 => 13
    case 10 => 4
    case 11 => 2
    case 12 => 7
    case 13 => 0
    case 14 => 9
    case _ => 12
  }

  /** S-box 1 of the Serpent proposal. */
  function Table1(v: nat): nat {
    match v
    case 0 => 15
    case 1 => 12
    case 2 => 2
    case 3 => 7
    case 4 => 9
    case 5 => 0
    case 6 => 5
    case 7 => 10
    case 8 => 1
    case 9 => 11
    case 10 => 14
    case 11 => 8
    case 12 => 6
    case 13 => 13
    case 14 => 3
    case _ => 4
  }

  /** S-box 2 of the Serpent proposal. */
  function Table2(v: nat): nat {
    match v
    case 0 => 8
    case 1 => 6
    case 2 => 7
    case 3 => 9
    case 4 => 3
    case 5 => 12
    case 6 => 10
    case 7 => 15
    case 8 => 13
    case 9 => 1
    case 10 => 14
    case 11 => 4
    case 12 => 0
    case 13 => 11
    case 14 => 5
    case _ => 2
  }

  /** S-box 3 of the Serpent proposal. */
  function Table3(v: nat): nat {
    match v
    case 0 => 0
    case 1 => 15
    case 2 => 11
    case 3 => 8
    case 4 => 12
    case 5 => 9
    case 6 => 6
    case 7 => 3
    case 8 => 13
    case 9 => 1
    case 10 => 2
    case 11 => 4
    case 12 => 10
    case 13 => 7
    case 14 => 5
    case _ => 14
  }

  /** S-box 4 of the Serpent proposal. */
  function Table4(v: nat): nat {
    match v
    case 0 => 1
    case 1 => 15
    case 2 => 8
    case 3 => 3
    case 4 => 12
    case 5 => 0
    case 6 => 11
    case 7 => 6
    case 8 => 2
    case 9 => 5
    case 10 => 4
    case 11 => 10
    case 12 => 9
    case 13 => 14
    case 14 => 7
    case _ => 13
  }

  /** S-box 5 of the Serpent proposal. */
  function Table5(v: nat): nat {
    match v
    case 0 => 15
    case 1 => 5
    case 2 => 2
    case 3 => 11
    case 4 => 4
    case 5 => 10
    case 6 => 9
    case 7 => 12
    case 8 => 0
    case 9 => 3
    case 10 => 14
    case 11 => 8
    case 12 => 13
    case 13 => 6
    case 14 => 7
    case _ => 1
  }

  /** S-box 6 of the Serpent proposal. */
  function Table6(v: nat): nat {
    match v
    case 0 => 7
    case 1 => 2
    case 2 => 12
    case 3 => 5
    case 4 => 8
    case 5 => 4
    case 6 => 6
    case 7 => 11
    case 8 => 14
    case 9 => 9
    case 10 => 1
    case 11 => 15
    case 12 => 13
    case 13 => 3
    case 14 => 10
    case _ => 0
  }

  /** S-box 7 of the Serpent proposal. */
  function Table7(v: nat): nat {
    match v
    case 0 => 1
    case 1 => 13
    case 2 => 15
    case 3 => 0
    case 4 => 14
    case 5 => 8
    case 6 => 2
    case 7 => 11
    case 8 => 7
    case 9 => 4
    case 10 => 12
    case 11 => 10
    case 12 => 9
    case 13 => 3
    case 14 => 5
    case _ => 6
  }

  /** Its inverse. */
  function InvTable0(v: nat): nat {
    match v
    case 0 => 13
    case 1 => 3
    case 2 => 11
    case 3 => 0
    case 4 => 10
    case 5 => 6
    case 6 => 5
    case 7 => 12
    case 8 => 1
    case 9 => 14
    case 10 => 4
    case 11 => 7
    case 12 => 15
    case 13 => 9
    case 14 => 8
    case _ => 2
  }

  /** Its inverse. */
  function InvTable1(v: nat): nat {
    match v
    case 0 => 5
    case 1 => 8
    case 2 => 2
    case 3 => 14
    case 4 => 15
    case 5 => 6
    case 6 => 12
    case 7 => 3
    case 8 => 11
    case 9 => 4
    case 10 => 7
    case 11 => 9
    case 12 => 1
    case 13 => 13
    case 14 => 10
    case _ => 0
  }

  /** Its inverse. */
  function InvTable2(v: nat): nat {
    match v
    case 0 => 12
    case 1 => 9
    case 2 => 15
    case 3 => 4
    case 4 => 11
    case 5 => 14
    case 6 => 1
    case 7 => 2
    case 8 => 0
    case 9 => 3
    case 10 => 6
    case 11 => 13
    case 12 => 5
    case 13 => 8
    case 14 => 10
    case _ => 7
  }

  /** Its inverse. */
  function InvTable3(v: nat): nat {
    match v
    case 0 => 0
    case 1 => 9
    case 2 => 10
    case 3 => 7
    case 4 => 11
    case 5 => 14
    case 6 => 6
    case 7 => 13
    case 8 => 3
    case 9 => 5
    case 10 => 12
    case 11 => 2
    case 12 => 4
    case 13 => 8
    case 14 => 15
    case _ => 1
  }

  /** Its inverse. */
  function InvTable4(v: nat): nat {
    match v
    case 0 => 5
    case 1 => 0
    case 2 => 8
    case 3 => 3
    case 4 => 10
    case 5 => 9
    case 6 => 7
    case 7 => 14
    case 8 => 2
    case 9 => 12
    case 10 => 11
    case 11 => 6
    case 12 => 4
    case 13 => 15
    case 14 => 13
    case _ => 1
  }

  /** Its inverse. */
  function InvTable5(v: nat): nat {
    match v
    case 0 => 8
    case 1 => 15
    case 2 => 2
    case 3 => 9
    case 4 => 4
    case 5 => 1
    case 6 => 13
    case 7 => 14
    case 8 => 11
    case 9 => 6
    case 10 => 5
    case 11 => 3
    case 12 => 7
    case 13 => 12
    case 14 => 10
    case _ => 0
  }

  /** Its inverse. */
  function InvTable6(v: nat): nat {
    match v
    case 0 => 15
    case 1 => 10
    case 2 => 1
    case 3 => 13
    case 4 => 5
    case 5 => 3
    case 6 => 6
    case 7 => 0
    case 8 => 4
    case 9 => 9
    case 10 => 14
    case 11 => 7
    case 12 => 2
    case 13 => 12
    case 14 => 8
    case _ => 11
  }

  /** Its inverse. */
  function InvTable7(v: nat): nat {
    match v
    case 0 => 3
    case 1 => 0
    case 2 => 6
    case 3 => 13
    case 4 => 9
    case 5 => 14
    case 6 => 15
    case 7 => 8
    case 8 => 5
    case 9 => 12
    case 10 => 11
    case 11 => 7
    case 12 => 10
    case 13 => 1
    case 14 => 4
    case _ => 2
  }

  lemma Sliced0(x: Quad, n: nat)
    requires n < 32
    ensures Number(At(S0(x), n)) == Table0(Number(At(x, n)))
  {
    hide Bit, Xor, And, Or, Not;
    Gates(n);
  }

  lemma Sliced1(x: Quad, n: nat)
    requires n < 32
    ensures Number(At(S1(x), n)) == Table1(Number(At(x, n)))
  {
    hide Bit, Xor, And, Or, Not;
    Gates(n);
  }

  lemma Sliced2(x: Quad, n: nat)
    requires n < 32
    ensures Number(At(S2(x), n)) == Table2(Number(At(x, n)))
  {
    hide Bit, Xor, And, Or, Not;
    Gates(n);
  }

  lemma Sliced3(x: Quad, n: nat)
    requires n < 32
    ensures Number(At(S3(x), n)) == Table3(Number(At(x, n)))
  {
    hide Bit, Xor, And, Or, Not;
    Gates(n);
  }

  lemma Sliced4(x: Quad, n: nat)
    requires n < 32
    ensures Number(At(S4(x), n)) == Table4(Number(At(x, n)))
  {
    hide Bit, Xor, And, Or, Not;
    Gates(n);
  }

  lemma Sliced5(x: Quad, n: nat)
    requires n < 32
    ensures Number(At(S5(x), n)) == Table5(Number(At(x, n)))
  {
    hide Bit, Xor, And, Or, Not;
    Gates(n);
  }

  lemma Sliced6(x: Quad, n: nat)
    requires n < 32
    ensures Number(At(S6(x), n)) == Table6(Number(At(x, n)))
  {
    hide Bit, Xor, And, Or, Not;
    Gates(n);
  }

  lemma Sliced7(x: Quad, n: nat)
    requires n < 32
    ensures Number(At(S7(x), n)) == Table7(Number(At(x, n)))
  {
    hide Bit, Xor, And, Or, Not;
    Gates(n);
  }

  lemma Unsliced0(x: Quad, n: nat)
    requires n < 32
    ensures Number(At(Si0(x), n)) == InvTable0(Number(At(x, n)))
  {
    hide Bit, Xor, And, Or, Not;
    Gates(n);
  }

  lemma Unsliced1(x: Quad, n: nat)
    requires n < 32
    ensures Number(At(Si1(x), n)) == InvTable1(Number(At(x, n)))
  {
    hide Bit, Xor, And, Or, Not;
    Gates(n);
  }

  lemma Unsliced2(x: Quad, n: nat)
    requires n < 32
    ensures Number(At(Si2(x), n)) == InvTable2(Number(At(x, n)))
  {
    hide Bit, Xor, And, Or, Not;
    Gates(n);
  }

  lemma Unsliced3(x: Quad, n: nat)
    requires n < 32
    ensures Number(At(Si3(x), n)) == InvTable3(Number(At(x, n)))
  {
    hide Bit, Xor, And, Or, Not;
    Gates(n);
  }

  lemma Unsliced4(x: Quad, n: nat)
    requires n < 32
    ensures Number(At(Si4(x), n)) == InvTable4(Number(At(x, n)))
  {
    hide Bit, Xor, And, Or, Not;
    Gates(n);
  }

  lemma Unsliced5(x: Quad, n: nat)
    requires n < 32
    ensures Number(At(Si5(x), n)) == InvTable5(Number(At(x, n)))
  {
    hide Bit, Xor, And, Or, Not;
    Gates(n);
  }

  lemma Unsliced6(x: Quad, n: nat)
    requires n < 32
    ensures Number(At(Si6(x), n)) == InvTable6(Number(At(x, n)))
  {
    hide Bit, Xor, And, Or, Not;
    Gates(n);
  }

  lemma Unsliced7(x: Quad, n: nat)
    requires n < 32
    ensures Number(At(Si7(x), n)) == InvTable7(Number(At(x, n)))
  {
    hide Bit, Xor, And, Or, Not;
    Gates(n);
  }

  // ---------------------------------------------------------------- the boxes by number

  function Box(n: nat, x: Quad): Quad
    requires n < 8
  {
    match n
    case 0 => S0(x)
    case 1 => S1(x)
    case 2 => S2(x)
    case 3 => S3(x)
    case 4 => S4(x)
    case 5 => S5(x)
    case 6 => S6(x)
    case _ => S7(x)
  }

  function InvBox(n: nat, x: Quad): Quad
    requires n < 8
  {
    match n
    case 0 => Si0(x)
    case 1 => Si1(x)
    case 2 => Si2(x)
    case 3 => Si3(x)
    case 4 => Si4(x)
    case 5 => Si5(x)
    case 6 => Si6(x)
    case _ => Si7(x)
  }

  function Table(n: nat, v: nat): nat
    requires n < 8
  {
    match n
    case 0 => Table0(v)
    case 1 => Table1(v)
    case 2 => Table2(v)
    case 3 => Table3(v)
    case 4 => Table4(v)
    case 5 => Table5(v)
    case 6 => Table6(v)
    case _ => Table7(v)
  }

  function InvTable(n: nat, v: nat): nat
    requires n < 8
  {
    match n
    case 0 => InvTable0(v)
    case 1 => InvTable1(v)
    case 2 => InvTable2(v)
    case 3 => InvTable3(v)
    case 4 => InvTable4(v)
    case 5 => InvTable5(v)
    case 6 => InvTable6(v)
    case _ => InvTable7(v)
  }

  /** Every bitsliced box looks its table up at all 32 positions. */
  lemma BoxSliced(i: nat, x: Quad, n: nat)
    requires i < 8 && n < 32
    ensures Number(At(Box(i, x), n)) == Table(i, Number(At(x, n)))
  {
    hide *;
    BoxIs(i, x);
    match i {
      case 0 =>
        Sliced0(x, n);
      case 1 =>
        Sliced1(x, n);
      case 2 =>
        Sliced2(x, n);
      case 3 =>
        Sliced3(x, n);
      case 4 =>
        Sliced4(x, n);
      case 5 =>
        Sliced5(x, n);
      case 6 =>
        Sliced6(x, n);
      case _ =>
        Sliced7(x, n);
    }
    TableIs(i, Number(At(x, n)));
  }

  lemma BoxIs(i: nat, x: Quad)
    requires i < 8
    ensures i == 0 ==> Box(i, x) == S0(x)
    ensures i == 1 ==> Box(i, x) == S1(x)
    ensures i == 2 ==> Box(i, x) == S2(x)
    ensures i == 3 ==> Box(i, x) == S3(x)
    ensures i == 4 ==> Box(i, x) == S4(x)
    ensures i == 5 ==> Box(i, x) == S5(x)
    ensures i == 6 ==> Box(i, x) == S6(x)
    ensures i == 7 ==> Box(i, x) == S7(x)
  {
    hide S0, S1, S2, S3, S4, S5, S6, S7;
  }

  lemma InvBoxIs(i: nat, x: Quad)
    requires i < 8
    ensures i == 0 ==> InvBox(i, x) == Si0(x)
    ensures i == 1 ==> InvBox(i, x) == Si1(x)
    ensures i == 2 ==> InvBox(i, x) == Si2(x)
    ensures i == 3 ==> InvBox(i, x) == Si3(x)
    ensures i == 4 ==> InvBox(i, x) == Si4(x)
    ensures i == 5 ==> InvBox(i, x) == Si5(x)
    ensures i == 6 ==> InvBox(i, x) == Si6(x)
    ensures i == 7 ==> InvBox(i, x) == Si7(x)
  {
    hide Si0, Si1, Si2, Si3, Si4, Si5, Si6, Si7;
  }

  lemma TableIs(i: nat, v: nat)
    requires i < 8
    ensures i == 0 ==> Table(i, v) == Table0(v)
    ensures i == 1 ==> Table(i, v) == Table1(v)
    ensures i == 2 ==> Table(i, v) == Table2(v)
    ensures i == 3 ==> Table(i, v) == Table3(v)
    ensures i == 4 ==> Table(i, v) == Table4(v)
    ensures i == 5 ==> Table(i, v) == Table5(v)
    ensures i == 6 ==> Table(i, v) == Table6(v)
    ensures i == 7 ==> Table(i, v) == Table7(v)
  {
    hide Table0, Table1, Table2, Table3, Table4, Table5, Table6, Table7;
  }

  lemma InvTableIs(i: nat, v: nat)
    requires i < 8
    ensures i == 0 ==> InvTable(i, v) == InvTable0(v)
    ensures i == 1 ==> InvTable(i, v) == InvTable1(v)
    ensures i == 2 ==> InvTable(i, v) == InvTable2(v)
    ensures i == 3 ==> InvTable(i, v) == InvTable3(v)
    ensures i == 4 ==> InvTable(i, v) == InvTable4(v)
    ensures i == 5 ==> InvTable(i, v) == InvTable5(v)
    ensures i == 6 ==> InvTable(i, v) == InvTable6(v)
    ensures i == 7 ==> InvTable(i, v) == InvTable7(v)
  {
    hide InvTable0, InvTable1, InvTable2, InvTable3, InvTable4, InvTable5, InvTable6, InvTable7;
  }

  lemma InvBoxSliced(i: nat, x: Quad, n: nat)
    requires i < 8 && n < 32
    ensures Number(At(InvBox(i, x), n)) == InvTable(i, Number(At(x, n)))
  {
    hide *;
    InvBoxIs(i, x);
    match i {
      case 0 =>
        Unsliced0(x, n);
      case 1 =>
        Unsliced1(x, n);
      case 2 =>
        Unsliced2(x, n);
      case 3 =>
        Unsliced3(x, n);
      case 4 =>
        Unsliced4(x, n);
      case 5 =>
        Unsliced5(x, n);
      case 6 =>
        Unsliced6(x, n);
      case _ =>
        Unsliced7(x, n);
    }
    InvTableIs(i, Number(At(x, n)));
  }

  lemma TableInverse0(v: nat)
    requires v < 16
    ensures InvTable0(Table0(v)) == v && Table0(InvTable0(v)) == v
  {}

  lemma TableInverse1(v: nat)
    requires v < 16
    ensures InvTable1(Table1(v)) == v && Table1(InvTable1(v)) == v
  {}

  lemma TableInverse2(v: nat)
    requires v < 16
    ensures InvTable2(Table2(v)) == v && Table2(InvTable2(v)) == v
  {}

  lemma TableInverse3(v: nat)
    requires v < 16
    ensures InvTable3(Table3(v)) == v && Table3(InvTable3(v)) == v
  {}

  lemma TableInverse4(v: nat)
    requires v < 16
    ensures InvTable4(Table4(v)) == v && Table4(InvTable4(v)) == v
  {}

  lemma TableInverse5(v: nat)
    requires v < 16
    ensures InvTable5(Table5(v)) == v && Table5(InvTable5(v)) == v
  {}

  lemma TableInverse6(v: nat)
    requires v < 16
    ensures InvTable6(Table6(v)) == v && Table6(InvTable6(v)) == v
  {}

  lemma TableInverse7(v: nat)
    requires v < 16
    ensures InvTable7(Table7(v)) == v && Table7(InvTable7(v)) == v
  {}

  lemma TablesInverse(i: nat, v: nat)
    requires i < 8 && v < 16
    ensures InvTable(i, Table(i, v)) == v && Table(i, InvTable(i, v)) == v
  {
    hide *;
    TableIs(i, v);
    InvTableIs(i, v);
    TableIs(i, InvTable(i, v));
    InvTableIs(i, Table(i, v));
    match i {
      case 0 =>
        TableInverse0(v);
      case 1 =>
        TableInverse1(v);
      case 2 =>
        TableInverse2(v);
      case 3 =>
        TableInverse3(v);
      case 4 =>
        TableInverse4(v);
      case 5 =>
        TableInverse5(v);
      case 6 =>
        TableInverse6(v);
      case _ =>
        TableInverse7(v);
    }
  }

  lemma SameNumber(s: Slice, t: Slice)
    requires Number(s) == Number(t)
    ensures s == t
  {}

  /** Every box is undone by its inverse, and the other way round. */
  lemma BoxInverse(i: nat, x: Quad)
    requires i < 8
    ensures InvBox(i, Box(i, x)) == x && Box(i, InvBox(i, x)) == x
  {
    hide *;
    forall n | 0 <= n < 32
      ensures At(InvBox(i, Box(i, x)), n) == At(x, n) && At(Box(i, InvBox(i, x)), n) == At(x, n)
    {
      BoxSliced(i, x, n);
      InvBoxSliced(i, Box(i, x), n);
      InvBoxSliced(i, x, n);
      BoxSliced(i, InvBox(i, x), n);
      TablesInverse(i, Number(At(x, n)));
      SameNumber(At(InvBox(i, Box(i, x)), n), At(x, n));
      SameNumber(At(Box(i, InvBox(i, x)), n), At(x, n));
    }
    SameSlices(InvBox(i, Box(i, x)), x);
    SameSlices(Box(i, InvBox(i, x)), x);
  }
}
