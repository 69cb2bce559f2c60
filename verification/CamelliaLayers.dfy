/** The key schedule constants and the layers of Camellia against RFC 3713. */
module CamelliaLayers {
  import opened Bits
  import opened CamelliaSpec
  import opened LongNumbers
  import opened RotatedBits
  import opened Rotates
  import Words

  // ---------------------------------------------------------------- the constants (section 2.2)

  /** 16^34. */
  const ROOM := 0x10_0000_0000_0000_0000 * 0x10_0000_0000_0000_0000

  /** The first six primes, with the whole hexadecimal digits of 16^17 times their square roots. */
  function Prime(i: nat): nat
    requires i < 6
  {
    match i
    case 0 => 2
    case 1 => 3
    case 2 => 5
    case 3 => 7
    case 4 => 11
    case _ => 13
  }

  function Root(i: nat): nat
    requires i < 6
  {
    match i
    case 0 => 0x16a09e667f3bcc908b
    case 1 => 0x1bb67ae8584caa73b2
    case 2 => 0x23c6ef372fe94f82be
    case 3 => 0x2a54ff53a5f1d36f1c
    case 4 => 0x3510e527fade682d1d
    case _ => 0x39b05688c2b3e6c1fd
  }

  function Sigma(i: nat): CamelliaSpec.Word
    requires i < 6
  {
    match i
    case 0 => SIGMA1
    case 1 => SIGMA2
    case 2 => SIGMA3
    case 3 => SIGMA4
    case 4 => SIGMA5
    case _ => SIGMA6
  }

  /** The constants are the second to the seventeenth hexadecimal digit, after the point, of the square roots of the
      first six primes. */
  lemma SigmaConforms(i: nat)
    requires i < 6
    ensures exists n: nat :: && n * n <= Prime(i) * ROOM < (n + 1) * (n + 1)
                             && Sigma(i) as nat == n % 0x1_0000_0000_0000_0000
  {
    var n := Root(i);
    assert n * n <= Prime(i) * ROOM < (n + 1) * (n + 1);
    assert Sigma(i) as nat == n % 0x1_0000_0000_0000_0000;
  }

  // ---------------------------------------------------------------- the layer (section 2.4.2)

  lemma TurnedIs(x: Bits.Word, k: Bits.Word)
    ensures Turned(x, k) == RotateLeft(And(x, k), 1)
  {
    calc {
      RotateLeft(And(x, k), 1);
      RotateLeft(x & k, 1);
      ((x & k) << 1) | ((x & k) >> 31);
      Turned(x, k);
    }
  }

  /** Bit j of both halves of FL: the right half changes first, by the left half under the key, rotated by one; the
      left half then changes where the new right half or the key has a bit. */
  lemma FLConforms(x: CamelliaSpec.Word, k: CamelliaSpec.Word, j: nat)
    requires j < 32
    ensures var i, y := (j + 31) % 32, FL(x, k);
            && Bit(Lower(y), j) == (Bit(Lower(x), j) != (Bit(High(x), i) && Bit(High(k), i)))
            && Bit(High(y), j) == (Bit(High(x), j) != (Bit(Lower(y), j) || Bit(Lower(k), j)))
  {
    hide Bit, High, Lower, Join, Turned, Xor, Or, And, RotateLeft;
    var t := Turned(High(x), High(k));
    var yr := Xor(t, Lower(x));
    TurnedIs(High(x), High(k));
    BitRotateLeft(And(High(x), High(k)), 1, j);
    BitAnd(High(x), High(k), (j + 31) % 32);
    BitXor(t, Lower(x), j);
    BitOr(yr, Lower(k), j);
    BitXor(Or(yr, Lower(k)), High(x), j);
    JoinParts(Xor(Or(yr, Lower(k)), High(x)), yr);
  }

  // ---------------------------------------------------------------- rotation of a pair

  /** The 128-bit number of two words. */
  function PairNumber(p: Words.Block): nat { Long(p.hi) * TWO64 + Long(p.lo) }

  lemma UpIs(x: CamelliaSpec.Word, y: CamelliaSpec.Word)
    ensures Up(x, y, 1) == AddWord(AddWord(x, x), HighBit(y))
  {
    calc {
      Up(x, y, 1);
      (x << 1) | (y >> 63);
      (x + x) + (y >> 63);
      AddWord(x + x, y >> 63);
      AddWord(AddWord(x, x), HighBit(y));
    }
  }

  lemma UpNumber(x: CamelliaSpec.Word, y: CamelliaSpec.Word)
    ensures Long(Up(x, y, 1)) == (2 * Long(x) + if Long(y) >= HALF then 1 else 0) % TWO64
  {
    hide Long, Up, AddWord, HighBit;
    UpIs(x, y);
    LongSums(x, x);
    LongSums(AddWord(x, x), HighBit(y));
    HighBitIs(y);
    LongBits();
  }

  lemma LongBits()
    ensures Long(0) == 0 && Long(1) == 1
  {
    LongOfSize(0);
    LongOfSize(1);
    assert Size(1) == 1;
  }

  const HALF := 0x8000_0000_0000_0000

  /** The number rotated left by one bit. */
  function TurnedNumber(v: nat): nat {
    if v < HALF * TWO64 then 2 * v else 2 * v - TWO64 * TWO64 + 1
  }

  lemma HalvesTurned(h: nat, l: nat)
    requires h < TWO64 && l < TWO64
    ensures (2 * h + if l >= HALF then 1 else 0) % TWO64 * TWO64 + (2 * l + if h >= HALF then 1 else 0) % TWO64
         == TurnedNumber(h * TWO64 + l)
  {
    Doubled(h, if l >= HALF then 1 else 0);
    Doubled(l, if h >= HALF then 1 else 0);
  }

  lemma Doubled(x: nat, c: nat)
    requires x < TWO64 && c < 2
    ensures (2 * x + c) % TWO64 == if x >= HALF then 2 * x + c - TWO64 else 2 * x + c
  {}

  lemma OneTurn(q: Words.Block)
    ensures PairNumber(RolPair(q, 1)) == TurnedNumber(PairNumber(q))
  {
    hide Long, Up, TurnedNumber;
    HalvesTurned(Long(q.hi), Long(q.lo));
    UpNumber(q.hi, q.lo);
    UpNumber(q.lo, q.hi);
  }

  /** One more rotation of the pair takes the number to twice the number, with the bit that leaves at the top coming
      back at the bottom. */
  lemma LeftNumber(p: Words.Block, n: nat)
    ensures PairNumber(Left(p, 0)) == PairNumber(p)
    ensures PairNumber(Left(p, n + 1)) == TurnedNumber(PairNumber(Left(p, n)))
  {
    hide RolPair, PairNumber, TurnedNumber;
    OneTurn(Left(p, n));
  }
}
