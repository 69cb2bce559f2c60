/** The initial permutation of DES against FIPS 46-3: where every bit of a block goes. */
module DesPermutation {
  import opened Bits
  import opened DesSpec
  import opened Rotates
  import opened RotatedBits

  /** A bit of a block: in which half, and how far from the least significant end. */
  datatype Spot = L(k: nat) | R(k: nat)

  function At(p: Pair, s: Spot): bool { Bit(if s.L? then p.l else p.r, s.k) }

  function Mask(m: nat): Word
    requires m < 5
  {
    match m case 0 => 0xf0f0f0f0 case 1 => 0xffff0000 case 2 => 0x33333333 case 3 => 0x00ff00ff case _ => 0xaaaaaaaa
  }

  /** The bits that a mask selects. */
  predicate Selects(m: nat, k: nat)
    requires m < 5
  {
    match m
    case 0 => (k / 4) % 2 == 1
    case 1 => k >= 16
    case 2 => (k / 2) % 2 == 0
    case 3 => (k / 8) % 2 == 0
    case _ => k % 2 == 1
  }

  lemma MaskBytes0()
    ensures !Bit(0xf0f0f0f0, 0) && !Bit(0xf0f0f0f0, 1) && !Bit(0xf0f0f0f0, 2) && !Bit(0xf0f0f0f0, 3)
    ensures Bit(0xf0f0f0f0, 4) && Bit(0xf0f0f0f0, 5) && Bit(0xf0f0f0f0, 6) && Bit(0xf0f0f0f0, 7)
    ensures !Bit(0x00f0f0f0, 0) && !Bit(0x00f0f0f0, 1) && !Bit(0x00f0f0f0, 2) && !Bit(0x00f0f0f0, 3)
    ensures Bit(0x00f0f0f0, 4) && Bit(0x00f0f0f0, 5) && Bit(0x00f0f0f0, 6) && Bit(0x00f0f0f0, 7)
    ensures !Bit(0x0000f0f0, 0) && !Bit(0x0000f0f0, 1) && !Bit(0x0000f0f0, 2) && !Bit(0x0000f0f0, 3)
    ensures Bit(0x0000f0f0, 4) && Bit(0x0000f0f0, 5) && Bit(0x0000f0f0, 6) && Bit(0x0000f0f0, 7)
    ensures !Bit(0x000000f0, 0) && !Bit(0x000000f0, 1) && !Bit(0x000000f0, 2) && !Bit(0x000000f0, 3)
    ensures Bit(0x000000f0, 4) && Bit(0x000000f0, 5) && Bit(0x000000f0, 6) && Bit(0x000000f0, 7)
  {}

  lemma MaskWords0()
    ensures Mask(0) == 0xf0f0f0f0 && Down8(0xf0f0f0f0) == 0x00f0f0f0
    ensures Down8(0x00f0f0f0) == 0x0000f0f0 && Down8(0x0000f0f0) == 0x000000f0
  {}

  lemma MaskBits0(k: nat)
    requires k < 32
    ensures Bit(Mask(0), k) == Selects(0, k)
  {
    hide Bit, Halves, Down8, Mask;
    MaskBytes0();
    MaskWords0();
    HalvesEight(Mask(0));
    BitHalves(Mask(0), 8 * (k / 8), k % 8);
  }

  lemma MaskBytes1()
    ensures !Bit(0xffff0000, 0) && !Bit(0xffff0000, 1) && !Bit(0xffff0000, 2) && !Bit(0xffff0000, 3)
    ensures !Bit(0xffff0000, 4) && !Bit(0xffff0000, 5) && !Bit(0xffff0000, 6) && !Bit(0xffff0000, 7)
    ensures !Bit(0x00ffff00, 0) && !Bit(0x00ffff00, 1) && !Bit(0x00ffff00, 2) && !Bit(0x00ffff00, 3)
    ensures !Bit(0x00ffff00, 4) && !Bit(0x00ffff00, 5) && !Bit(0x00ffff00, 6) && !Bit(0x00ffff00, 7)
    ensures Bit(0x0000ffff, 0) && Bit(0x0000ffff, 1) && Bit(0x0000ffff, 2) && Bit(0x0000ffff, 3)
    ensures Bit(0x0000ffff, 4) && Bit(0x0000ffff, 5) && Bit(0x0000ffff, 6) && Bit(0x0000ffff, 7)
    ensures Bit(0x000000ff, 0) && Bit(0x000000ff, 1) && Bit(0x000000ff, 2) && Bit(0x000000ff, 3)
    ensures Bit(0x000000ff, 4) && Bit(0x000000ff, 5) && Bit(0x000000ff, 6) && Bit(0x000000ff, 7)
  {}

  lemma MaskWords1()
    ensures Mask(1) == 0xffff0000 && Down8(0xffff0000) == 0x00ffff00
    ensures Down8(0x00ffff00) == 0x0000ffff && Down8(0x0000ffff) == 0x000000ff
  {}

  lemma MaskBits1(k: nat)
    requires k < 32
    ensures Bit(Mask(1), k) == Selects(1, k)
  {
    hide Bit, Halves, Down8, Mask;
    MaskBytes1();
    MaskWords1();
    HalvesEight(Mask(1));
    BitHalves(Mask(1), 8 * (k / 8), k % 8);
  }

  lemma MaskBytes2()
    ensures Bit(0x33333333, 0) && Bit(0x33333333, 1) && !Bit(0x33333333, 2) && !Bit(0x33333333, 3)
    ensures Bit(0x33333333, 4) && Bit(0x33333333, 5) && !Bit(0x33333333, 6) && !Bit(0x33333333, 7)
    ensures Bit(0x00333333, 0) && Bit(0x00333333, 1) && !Bit(0x00333333, 2) && !Bit(0x00333333, 3)
    ensures Bit(0x00333333, 4) && Bit(0x00333333, 5) && !Bit(0x00333333, 6) && !Bit(0x00333333, 7)
    ensures Bit(0x00003333, 0) && Bit(0x00003333, 1) && !Bit(0x00003333, 2) && !Bit(0x00003333, 3)
    ensures Bit(0x00003333, 4) && Bit(0x00003333, 5) && !Bit(0x00003333, 6) && !Bit(0x00003333, 7)
    ensures Bit(0x00000033, 0) && Bit(0x00000033, 1) && !Bit(0x00000033, 2) && !Bit(0x00000033, 3)
    ensures Bit(0x00000033, 4) && Bit(0x00000033, 5) && !Bit(0x00000033, 6) && !Bit(0x00000033, 7)
  {}

  lemma MaskWords2()
    ensures Mask(2) == 0x33333333 && Down8(0x33333333) == 0x00333333
    ensures Down8(0x00333333) == 0x00003333 && Down8(0x00003333) == 0x00000033
  {}

  lemma MaskBits2(k: nat)
    requires k < 32
    ensures Bit(Mask(2), k) == Selects(2, k)
  {
    hide Bit, Halves, Down8, Mask;
    MaskBytes2();
    MaskWords2();
    HalvesEight(Mask(2));
    BitHalves(Mask(2), 8 * (k / 8), k % 8);
  }

  lemma MaskBytes3()
    ensures Bit(0x00ff00ff, 0) && Bit(0x00ff00ff, 1) && Bit(0x00ff00ff, 2) && Bit(0x00ff00ff, 3)
    ensures Bit(0x00ff00ff, 4) && Bit(0x00ff00ff, 5) && Bit(0x00ff00ff, 6) && Bit(0x00ff00ff, 7)
    ensures !Bit(0x0000ff00, 0) && !Bit(0x0000ff00, 1) && !Bit(0x0000ff00, 2) && !Bit(0x0000ff00, 3)
    ensures !Bit(0x0000ff00, 4) && !Bit(0x0000ff00, 5) && !Bit(0x0000ff00, 6) && !Bit(0x0000ff00, 7)
    ensures Bit(0x000000ff, 0) && Bit(0x000000ff, 1) && Bit(0x000000ff, 2) && Bit(0x000000ff, 3)
    ensures Bit(0x000000ff, 4) && Bit(0x000000ff, 5) && Bit(0x000000ff, 6) && Bit(0x000000ff, 7)
    ensures !Bit(0x00000000, 0) && !Bit(0x00000000, 1) && !Bit(0x00000000, 2) && !Bit(0x00000000, 3)
    ensures !Bit(0x00000000, 4) && !Bit(0x00000000, 5) && !Bit(0x00000000, 6) && !Bit(0x00000000, 7)
  {}

  lemma MaskWords3()
    ensures Mask(3) == 0x00ff00ff && Down8(0x00ff00ff) == 0x0000ff00
    ensures Down8(0x0000ff00) == 0x000000ff && Down8(0x000000ff) == 0x00000000
  {}

  lemma MaskBits3(k: nat)
    requires k < 32
    ensures Bit(Mask(3), k) == Selects(3, k)
  {
    hide Bit, Halves, Down8, Mask;
    MaskBytes3();
    MaskWords3();
    HalvesEight(Mask(3));
    BitHalves(Mask(3), 8 * (k / 8), k % 8);
  }

  lemma MaskBytes4()
    ensures !Bit(0xaaaaaaaa, 0) && Bit(0xaaaaaaaa, 1) && !Bit(0xaaaaaaaa, 2) && Bit(0xaaaaaaaa, 3)
    ensures !Bit(0xaaaaaaaa, 4) && Bit(0xaaaaaaaa, 5) && !Bit(0xaaaaaaaa, 6) && Bit(0xaaaaaaaa, 7)
    ensures !Bit(0x00aaaaaa, 0) && Bit(0x00aaaaaa, 1) && !Bit(0x00aaaaaa, 2) && Bit(0x00aaaaaa, 3)
    ensures !Bit(0x00aaaaaa, 4) && Bit(0x00aaaaaa, 5) && !Bit(0x00aaaaaa, 6) && Bit(0x00aaaaaa, 7)
    ensures !Bit(0x0000aaaa, 0) && Bit(0x0000aaaa, 1) && !Bit(0x0000aaaa, 2) && Bit(0x0000aaaa, 3)
    ensures !Bit(0x0000aaaa, 4) && Bit(0x0000aaaa, 5) && !Bit(0x0000aaaa, 6) && Bit(0x0000aaaa, 7)
    ensures !Bit(0x000000aa, 0) && Bit(0x000000aa, 1) && !Bit(0x000000aa, 2) && Bit(0x000000aa, 3)
    ensures !Bit(0x000000aa, 4) && Bit(0x000000aa, 5) && !Bit(0x000000aa, 6) && Bit(0x000000aa, 7)
  {}

  lemma MaskWords4()
    ensures Mask(4) == 0xaaaaaaaa && Down8(0xaaaaaaaa) == 0x00aaaaaa
    ensures Down8(0x00aaaaaa) == 0x0000aaaa && Down8(0x0000aaaa) == 0x000000aa
  {}

  lemma MaskBits4(k: nat)
    requires k < 32
    ensures Bit(Mask(4), k) == Selects(4, k)
  {
    hide Bit, Halves, Down8, Mask;
    MaskBytes4();
    MaskWords4();
    HalvesEight(Mask(4));
    BitHalves(Mask(4), 8 * (k / 8), k % 8);
  }

  lemma MaskBits(m: nat, k: nat)
    requires m < 5 && k < 32
    ensures Bit(Mask(m), k) == Selects(m, k)
  {
    hide *;
    match m {
      case 0 =>
        MaskBits0(k);
      case 1 =>
        MaskBits1(k);
      case 2 =>
        MaskBits2(k);
      case 3 =>
        MaskBits3(k);
      case _ =>
        MaskBits4(k);
    }
  }

  /** Where a bit of the result of an exchange comes from. */
  function Exchanged(m: nat, s: Spot): Spot
    requires m < 5
  {
    if !Selects(m, s.k) then s else if s.L? then R(s.k) else L(s.k)
  }

  lemma ExchangedAt(p: Pair, m: nat, s: Spot)
    requires m < 5 && s.k < 32
    ensures At(Exchange(p, Mask(m)), s) == At(p, Exchanged(m, s))
  {
    hide Bit, Xor, And, Mask, Selects;
    var k, work := s.k, And(Xor(p.l, p.r), Mask(m));
    MaskBits(m, k);
    BitXor(p.l, p.r, k);
    BitAnd(Xor(p.l, p.r), Mask(m), k);
    BitXor(p.l, work, k);
    BitXor(p.r, work, k);
  }

  /** Where a bit comes from when the left or the right half has been rotated left by n. */
  function TurnedL(n: nat, s: Spot): Spot
    requires n < 32
  {
    if s.L? then L((s.k + 32 - n) % 32) else s
  }

  function TurnedR(n: nat, s: Spot): Spot
    requires n < 32
  {
    if s.R? then R((s.k + 32 - n) % 32) else s
  }

  lemma RotatedLeft(p: Pair, n: nat, s: Spot)
    requires n < 32 && s.k < 32
    ensures At(Pair(RotateLeft(p.l, n), p.r), s) == At(p, TurnedL(n, s))
    ensures At(Pair(p.l, RotateLeft(p.r, n)), s) == At(p, TurnedR(n, s))
  {
    hide Bit, RotateLeft;
    BitRotateLeft(p.l, n, s.k);
    BitRotateLeft(p.r, n, s.k);
  }

  lemma RotatedRight(p: Pair, n: nat, s: Spot)
    requires 0 < n < 32 && s.k < 32 && RotateLeft(RotateRight(p.r, n), n) == p.r
    ensures At(Pair(p.l, RotateRight(p.r, n)), s) == At(p, TurnedR(32 - n, s))
  {
    hide Bit, RotateLeft, RotateRight;
    BitRotateRight(p.r, n, s.k);
  }

  /** Where a bit of IPERM comes from. */
  function Origin(s: Spot): Spot {
    var e := Exchanged(4, TurnedL(1, s));
    var d := Exchanged(3, TurnedR(9, e));
    var c := Exchanged(2, TurnedR(26, d));
    var b := Exchanged(1, TurnedR(14, c));
    TurnedR(4, Exchanged(0, TurnedR(12, b)))
  }

  lemma IPermAt(p: Pair, s: Spot)
    requires s.k < 32
    ensures At(IPerm(p), s) == At(p, Origin(s))
  {
    hide Bit, Exchange, RotateLeft, RotateRight, Selects, At;
    var p0 := RolRight(p, 4);
    var q0 := Exchange(p0, 0xf0f0f0f0);
    var p1 := RorRight(q0, 20);
    var q1 := Exchange(p1, 0xffff0000);
    var p2 := RorRight(q1, 18);
    var q2 := Exchange(p2, 0x33333333);
    var p3 := RorRight(q2, 6);
    var q3 := Exchange(p3, 0x00ff00ff);
    var p4 := RolRight(q3, 9);
    var q4 := Exchange(p4, 0xaaaaaaaa);
    var s4 := TurnedL(1, s);
    RotatedLeft(q4, 1, s);
    ExchangedAt(p4, 4, s4);
    var t4 := Exchanged(4, s4);
    RotatedLeft(q3, 9, t4);
    var s3 := TurnedR(9, t4);
    ExchangedAt(p3, 3, s3);
    var t3 := Exchanged(3, s3);
    Rotations(q2.r);
    RotatedRight(q2, 6, t3);
    var s2 := TurnedR(26, t3);
    ExchangedAt(p2, 2, s2);
    var t2 := Exchanged(2, s2);
    Rotations(q1.r);
    RotatedRight(q1, 18, t2);
    var s1 := TurnedR(14, t2);
    ExchangedAt(p1, 1, s1);
    var t1 := Exchanged(1, s1);
    Rotations(q0.r);
    RotatedRight(q0, 20, t1);
    var s0 := TurnedR(12, t1);
    ExchangedAt(p0, 0, s0);
    RotatedLeft(p, 4, Exchanged(0, s0));
  }

  // ---------------------------------------------------------------- the table of the standard

  /** The initial permutation IP. */
  function IP(t: nat): (p: nat)
    requires t < 64
    ensures 1 <= p <= 64
  {
    match t
    case 0 => 58 case 1 => 50 case 2 => 42 case 3 => 34 case 4 => 26 case 5 => 18 case 6 => 10 case 7 => 2
    case 8 => 60 case 9 => 52 case 10 => 44 case 11 => 36 case 12 => 28 case 13 => 20 case 14 => 12 case 15 => 4
    case 16 => 62 case 17 => 54 case 18 => 46 case 19 => 38 case 20 => 30 case 21 => 22 case 22 => 14 case 23 => 6
    case 24 => 64 case 25 => 56 case 26 => 48 case 27 => 40 case 28 => 32 case 29 => 24 case 30 => 16 case 31 => 8
    case 32 => 57 case 33 => 49 case 34 => 41 case 35 => 33 case 36 => 25 case 37 => 17 case 38 => 9 case 39 => 1
    case 40 => 59 case 41 => 51 case 42 => 43 case 43 => 35 case 44 => 27 case 45 => 19 case 46 => 11 case 47 => 3
    case 48 => 61 case 49 => 53 case 50 => 45 case 51 => 37 case 52 => 29 case 53 => 21 case 54 => 13 case 55 => 5
    case 56 => 63 case 57 => 55 case 58 => 47 case 59 => 39 case 60 => 31 case 61 => 23 case 62 => 15 case _ => 7
  }

  /** Bit t of a block, counted from one and from the most significant bit, as FIPS 46-3 counts. */
  function Counted(t: nat): Spot
    requires 1 <= t <= 64
  {
    if t <= 32 then L(32 - t) else R(64 - t)
  }

  /** q is the block p after the initial permutation. */
  ghost predicate IsPermuted(p: Pair, q: Pair) {
    forall t :: 0 <= t < 64 ==> At(q, Counted(t + 1)) == At(p, Counted(IP(t)))
  }

  /** The same bit after the half has been rotated left by one. */
  function Turned(s: Spot): Spot { if s.L? then L((s.k + 1) % 32) else R((s.k + 1) % 32) }

  lemma OriginBy(s: Spot, e0: Spot, e: Spot, d0: Spot, d: Spot, c0: Spot, c: Spot, b0: Spot, b: Spot, a0: Spot, a: Spot)
    requires TurnedL(1, s) == e0 && Exchanged(4, e0) == e && TurnedR(9, e) == d0 && Exchanged(3, d0) == d
    requires TurnedR(26, d) == c0 && Exchanged(2, c0) == c && TurnedR(14, c) == b0 && Exchanged(1, b0) == b
    requires TurnedR(12, b) == a0 && Exchanged(0, a0) == a
    ensures Origin(s) == TurnedR(4, a)
  {
    hide Exchanged, TurnedL, TurnedR;
  }

  lemma Row0()
    ensures Origin(L(0)) == R(6)
    ensures Origin(L(31)) == R(14)
    ensures Origin(L(30)) == R(22)
    ensures Origin(L(29)) == R(30)
  {
    hide Origin;
    OriginBy(L(0), L(31), R(31), R(22), L(22), L(22), L(22), L(22), R(22), R(10), R(10));
    OriginBy(L(31), L(30), L(30), L(30), L(30), L(30), L(30), L(30), R(30), R(18), R(18));
    OriginBy(L(30), L(29), R(29), R(20), L(20), L(20), R(20), R(6), R(6), R(26), R(26));
    OriginBy(L(29), L(28), L(28), L(28), L(28), L(28), R(28), R(14), R(14), R(2), R(2));
  }

  lemma Row1()
    ensures Origin(L(28)) == L(6)
    ensures Origin(L(27)) == L(14)
    ensures Origin(L(26)) == L(22)
    ensures Origin(L(25)) == L(30)
  {
    hide Origin;
    OriginBy(L(28), L(27), R(27), R(18), L(18), L(18), L(18), L(18), R(18), R(6), L(6));
    OriginBy(L(27), L(26), L(26), L(26), L(26), L(26), L(26), L(26), R(26), R(14), L(14));
    OriginBy(L(26), L(25), R(25), R(16), L(16), L(16), R(16), R(2), R(2), R(22), L(22));
    OriginBy(L(25), L(24), L(24), L(24), L(24), L(24), R(24), R(10), R(10), R(30), L(30));
  }

  lemma Row2()
    ensures Origin(L(24)) == R(4)
    ensures Origin(L(23)) == R(12)
    ensures Origin(L(22)) == R(20)
    ensures Origin(L(21)) == R(28)
  {
    hide Origin;
    OriginBy(L(24), L(23), R(23), R(14), R(14), R(20), L(20), L(20), R(20), R(8), R(8));
    OriginBy(L(23), L(22), L(22), L(22), R(22), R(28), L(28), L(28), R(28), R(16), R(16));
    OriginBy(L(22), L(21), R(21), R(12), R(12), R(18), R(18), R(4), R(4), R(24), R(24));
    OriginBy(L(21), L(20), L(20), L(20), R(20), R(26), R(26), R(12), R(12), R(0), R(0));
  }

  lemma Row3()
    ensures Origin(L(20)) == L(4)
    ensures Origin(L(19)) == L(12)
    ensures Origin(L(18)) == L(20)
    ensures Origin(L(17)) == L(28)
  {
    hide Origin;
    OriginBy(L(20), L(19), R(19), R(10), R(10), R(16), L(16), L(16), R(16), R(4), L(4));
    OriginBy(L(19), L(18), L(18), L(18), R(18), R(24), L(24), L(24), R(24), R(12), L(12));
    OriginBy(L(18), L(17), R(17), R(8), R(8), R(14), R(14), R(0), R(0), R(20), L(20));
    OriginBy(L(17), L(16), L(16), L(16), R(16), R(22), R(22), R(8), R(8), R(28), L(28));
  }

  lemma Row4()
    ensures Origin(L(16)) == R(2)
    ensures Origin(L(15)) == R(10)
    ensures Origin(L(14)) == R(18)
    ensures Origin(L(13)) == R(26)
  {
    hide Origin;
    OriginBy(L(16), L(15), R(15), R(6), L(6), L(6), L(6), L(6), L(6), L(6), R(6));
    OriginBy(L(15), L(14), L(14), L(14), L(14), L(14), L(14), L(14), L(14), L(14), R(14));
    OriginBy(L(14), L(13), R(13), R(4), L(4), L(4), R(4), R(22), L(22), L(22), R(22));
    OriginBy(L(13), L(12), L(12), L(12), L(12), L(12), R(12), R(30), L(30), L(30), R(30));
  }

  lemma Row5()
    ensures Origin(L(12)) == L(2)
    ensures Origin(L(11)) == L(10)
    ensures Origin(L(10)) == L(18)
    ensures Origin(L(9)) == L(26)
  {
    hide Origin;
    OriginBy(L(12), L(11), R(11), R(2), L(2), L(2), L(2), L(2), L(2), L(2), L(2));
    OriginBy(L(11), L(10), L(10), L(10), L(10), L(10), L(10), L(10), L(10), L(10), L(10));
    OriginBy(L(10), L(9), R(9), R(0), L(0), L(0), R(0), R(18), L(18), L(18), L(18));
    OriginBy(L(9), L(8), L(8), L(8), L(8), L(8), R(8), R(26), L(26), L(26), L(26));
  }

  lemma Row6()
    ensures Origin(L(8)) == R(0)
    ensures Origin(L(7)) == R(8)
    ensures Origin(L(6)) == R(16)
    ensures Origin(L(5)) == R(24)
  {
    hide Origin;
    OriginBy(L(8), L(7), R(7), R(30), R(30), R(4), L(4), L(4), L(4), L(4), R(4));
    OriginBy(L(7), L(6), L(6), L(6), R(6), R(12), L(12), L(12), L(12), L(12), R(12));
    OriginBy(L(6), L(5), R(5), R(28), R(28), R(2), R(2), R(20), L(20), L(20), R(20));
    OriginBy(L(5), L(4), L(4), L(4), R(4), R(10), R(10), R(28), L(28), L(28), R(28));
  }

  lemma Row7()
    ensures Origin(L(4)) == L(0)
    ensures Origin(L(3)) == L(8)
    ensures Origin(L(2)) == L(16)
    ensures Origin(L(1)) == L(24)
  {
    hide Origin;
    OriginBy(L(4), L(3), R(3), R(26), R(26), R(0), L(0), L(0), L(0), L(0), L(0));
    OriginBy(L(3), L(2), L(2), L(2), R(2), R(8), L(8), L(8), L(8), L(8), L(8));
    OriginBy(L(2), L(1), R(1), R(24), R(24), R(30), R(30), R(16), L(16), L(16), L(16));
    OriginBy(L(1), L(0), L(0), L(0), R(0), R(6), R(6), R(24), L(24), L(24), L(24));
  }

  lemma Row8()
    ensures Origin(R(0)) == R(7)
    ensures Origin(R(31)) == R(15)
    ensures Origin(R(30)) == R(23)
    ensures Origin(R(29)) == R(31)
  {
    hide Origin;
    OriginBy(R(0), R(0), R(0), R(23), L(23), L(23), L(23), L(23), R(23), R(11), R(11));
    OriginBy(R(31), R(31), L(31), L(31), L(31), L(31), L(31), L(31), R(31), R(19), R(19));
    OriginBy(R(30), R(30), R(30), R(21), L(21), L(21), R(21), R(7), R(7), R(27), R(27));
    OriginBy(R(29), R(29), L(29), L(29), L(29), L(29), R(29), R(15), R(15), R(3), R(3));
  }

  lemma Row9()
    ensures Origin(R(28)) == L(7)
    ensures Origin(R(27)) == L(15)
    ensures Origin(R(26)) == L(23)
    ensures Origin(R(25)) == L(31)
  {
    hide Origin;
    OriginBy(R(28), R(28), R(28), R(19), L(19), L(19), L(19), L(19), R(19), R(7), L(7));
    OriginBy(R(27), R(27), L(27), L(27), L(27), L(27), L(27), L(27), R(27), R(15), L(15));
    OriginBy(R(26), R(26), R(26), R(17), L(17), L(17), R(17), R(3), R(3), R(23), L(23));
    OriginBy(R(25), R(25), L(25), L(25), L(25), L(25), R(25), R(11), R(11), R(31), L(31));
  }

  lemma Row10()
    ensures Origin(R(24)) == R(5)
    ensures Origin(R(23)) == R(13)
    ensures Origin(R(22)) == R(21)
    ensures Origin(R(21)) == R(29)
  {
    hide Origin;
    OriginBy(R(24), R(24), R(24), R(15), R(15), R(21), L(21), L(21), R(21), R(9), R(9));
    OriginBy(R(23), R(23), L(23), L(23), R(23), R(29), L(29), L(29), R(29), R(17), R(17));
    OriginBy(R(22), R(22), R(22), R(13), R(13), R(19), R(19), R(5), R(5), R(25), R(25));
    OriginBy(R(21), R(21), L(21), L(21), R(21), R(27), R(27), R(13), R(13), R(1), R(1));
  }

  lemma Row11()
    ensures Origin(R(20)) == L(5)
    ensures Origin(R(19)) == L(13)
    ensures Origin(R(18)) == L(21)
    ensures Origin(R(17)) == L(29)
  {
    hide Origin;
    OriginBy(R(20), R(20), R(20), R(11), R(11), R(17), L(17), L(17), R(17), R(5), L(5));
    OriginBy(R(19), R(19), L(19), L(19), R(19), R(25), L(25), L(25), R(25), R(13), L(13));
    OriginBy(R(18), R(18), R(18), R(9), R(9), R(15), R(15), R(1), R(1), R(21), L(21));
    OriginBy(R(17), R(17), L(17), L(17), R(17), R(23), R(23), R(9), R(9), R(29), L(29));
  }

  lemma Row12()
    ensures Origin(R(16)) == R(3)
    ensures Origin(R(15)) == R(11)
    ensures Origin(R(14)) == R(19)
    ensures Origin(R(13)) == R(27)
  {
    hide Origin;
    OriginBy(R(16), R(16), R(16), R(7), L(7), L(7), L(7), L(7), L(7), L(7), R(7));
    OriginBy(R(15), R(15), L(15), L(15), L(15), L(15), L(15), L(15), L(15), L(15), R(15));
    OriginBy(R(14), R(14), R(14), R(5), L(5), L(5), R(5), R(23), L(23), L(23), R(23));
    OriginBy(R(13), R(13), L(13), L(13), L(13), L(13), R(13), R(31), L(31), L(31), R(31));
  }

  lemma Row13()
    ensures Origin(R(12)) == L(3)
    ensures Origin(R(11)) == L(11)
    ensures Origin(R(10)) == L(19)
    ensures Origin(R(9)) == L(27)
  {
    hide Origin;
    OriginBy(R(12), R(12), R(12), R(3), L(3), L(3), L(3), L(3), L(3), L(3), L(3));
    OriginBy(R(11), R(11), L(11), L(11), L(11), L(11), L(11), L(11), L(11), L(11), L(11));
    OriginBy(R(10), R(10), R(10), R(1), L(1), L(1), R(1), R(19), L(19), L(19), L(19));
    OriginBy(R(9), R(9), L(9), L(9), L(9), L(9), R(9), R(27), L(27), L(27), L(27));
  }

  lemma Row14()
    ensures Origin(R(8)) == R(1)
    ensures Origin(R(7)) == R(9)
    ensures Origin(R(6)) == R(17)
    ensures Origin(R(5)) == R(25)
  {
    hide Origin;
    OriginBy(R(8), R(8), R(8), R(31), R(31), R(5), L(5), L(5), L(5), L(5), R(5));
    OriginBy(R(7), R(7), L(7), L(7), R(7), R(13), L(13), L(13), L(13), L(13), R(13));
    OriginBy(R(6), R(6), R(6), R(29), R(29), R(3), R(3), R(21), L(21), L(21), R(21));
    OriginBy(R(5), R(5), L(5), L(5), R(5), R(11), R(11), R(29), L(29), L(29), R(29));
  }

  lemma Row15()
    ensures Origin(R(4)) == L(1)
    ensures Origin(R(3)) == L(9)
    ensures Origin(R(2)) == L(17)
    ensures Origin(R(1)) == L(25)
  {
    hide Origin;
    OriginBy(R(4), R(4), R(4), R(27), R(27), R(1), L(1), L(1), L(1), L(1), L(1));
    OriginBy(R(3), R(3), L(3), L(3), R(3), R(9), L(9), L(9), L(9), L(9), L(9));
    OriginBy(R(2), R(2), R(2), R(25), R(25), R(31), R(31), R(17), L(17), L(17), L(17));
    OriginBy(R(1), R(1), L(1), L(1), R(1), R(7), R(7), R(25), L(25), L(25), L(25));
  }

  lemma TurnedCounted(t: nat)
    requires t < 64
    ensures Turned(Counted(t + 1))
         == if t == 0 then L(0) else if t < 32 then L(32 - t) else if t == 32 then R(0) else R(64 - t)
  {}

  lemma OriginIs(t: nat)
    requires t < 64
    ensures Origin(Turned(Counted(t + 1))) == Counted(IP(t))
  {
    hide Origin, Turned;
    TurnedCounted(t);
    if t < 32 {
      if t < 16 {
        if t < 8 {
          if t < 4 {
            Row0();
          } else {
            Row1();
          }
        } else {
          if t < 12 {
            Row2();
          } else {
            Row3();
          }
        }
      } else {
        if t < 24 {
          if t < 20 {
            Row4();
          } else {
            Row5();
          }
        } else {
          if t < 28 {
            Row6();
          } else {
            Row7();
          }
        }
      }
    } else {
      if t < 48 {
        if t < 40 {
          if t < 36 {
            Row8();
          } else {
            Row9();
          }
        } else {
          if t < 44 {
            Row10();
          } else {
            Row11();
          }
        }
      } else {
        if t < 56 {
          if t < 52 {
            Row12();
          } else {
            Row13();
          }
        } else {
          if t < 60 {
            Row14();
          } else {
            Row15();
          }
        }
      }
    }
  }

  /** The halves without the rotation by one that IPERM leaves them with. */
  lemma TurnedBack(q: Pair, s: Spot)
    requires s.k < 32
    ensures At(Pair(RotateLeft(q.l, 1), RotateLeft(q.r, 1)), Turned(s)) == At(q, s)
  {
    hide Bit, RotateLeft;
    var k := (s.k + 1) % 32;
    BitRotateLeft(q.l, 1, k);
    BitRotateLeft(q.r, 1, k);
    assert (k + 31) % 32 == s.k;
  }

  /** IPERM is the initial permutation of FIPS 46-3, with both halves rotated left by one. */
  lemma IPermConforms(p: Pair, q: Pair)
    requires IPerm(p) == Pair(RotateLeft(q.l, 1), RotateLeft(q.r, 1))
    ensures IsPermuted(p, q)
  {
    hide IPerm, RotateLeft, Origin, At, IP, Turned, Counted;
    forall t | 0 <= t < 64
      ensures At(q, Counted(t + 1)) == At(p, Counted(IP(t)))
    {
      CountedSmall(t);
      TurnedBack(q, Counted(t + 1));
      IPermAt(p, Turned(Counted(t + 1)));
      OriginIs(t);
    }
  }

  lemma CountedSmall(t: nat)
    requires t < 64
    ensures Counted(t + 1).k < 32 && Turned(Counted(t + 1)).k < 32
  {}
}
