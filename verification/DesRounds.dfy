/** The rounds of DES against FIPS 46-3: which bits of a half and which bits of the key meet in which box. */
module DesRounds {
  import opened Bits
  import opened Counter
  import opened DesSpec
  import opened Rotates
  import opened RotatedBits
  import opened Des
  import Words

  // ---------------------------------------------------------------- six bits as a number

  function One(b: bool): nat { if b then 1 else 0 }

  /** Six bits, the first one the most significant. */
  function Number6(b0: bool, b1: bool, b2: bool, b3: bool, b4: bool, b5: bool): (v: nat)
    ensures v < 64
  {
    32 * One(b0) + 16 * One(b1) + 8 * One(b2) + 4 * One(b3) + 2 * One(b4) + One(b5)
  }

  function Low6(w: Word): nat { (w & 0x3f) as nat }

  lemma BitMasks(w: Word)
    ensures Bit(w, 0) == (w & 0x01 != 0) && Bit(w, 1) == (w & 0x02 != 0) && Bit(w, 2) == (w & 0x04 != 0)
  {}

  lemma MoreBitMasks(w: Word)
    ensures Bit(w, 3) == (w & 0x08 != 0) && Bit(w, 4) == (w & 0x10 != 0) && Bit(w, 5) == (w & 0x20 != 0)
  {
    hide Bit, Halves;
    BitHalves(w, 3, 0);
    BitHalves(w, 3, 1);
    BitHalves(w, 3, 2);
    BitMasks(Halves(w, 3));
    Halves3(w);
    Masks3(w);
  }

  function Down3(w: Word): Word { w >> 3 }

  lemma Halves3(w: Word)
    ensures Halves(w, 3) == Down3(w)
  {
    calc {
      Halves(w, 3);
      Halves(w >> 1, 2);
      Halves((w >> 1) >> 1, 1);
      Halves(((w >> 1) >> 1) >> 1, 0);
      w >> 3;
    }
  }

  lemma Masks3(w: Word)
    ensures Down3(w) & 0x01 != 0 <==> w & 0x08 != 0
    ensures Down3(w) & 0x02 != 0 <==> w & 0x10 != 0
    ensures Down3(w) & 0x04 != 0 <==> w & 0x20 != 0
  {}

  lemma Low6Masks(w: Word)
    ensures Low6(w) == Number6(w & 0x20 != 0, w & 0x10 != 0, w & 0x08 != 0, w & 0x04 != 0, w & 0x02 != 0, w & 0x01 != 0)
  {}

  lemma Low6Bits(w: Word)
    ensures Low6(w) == Number6(Bit(w, 5), Bit(w, 4), Bit(w, 3), Bit(w, 2), Bit(w, 1), Bit(w, 0))
  {
    hide Bit, Low6, Number6;
    Low6Masks(w);
    BitMasks(w);
    MoreBitMasks(w);
  }

  /** Six bits of a word from bit n on. */
  lemma SixBits(w: Word, n: nat)
    requires n == 0 || n == 8 || n == 16 || n == 24
    ensures Six(w, n) == Number6(Bit(w, n + 5), Bit(w, n + 4), Bit(w, n + 3), Bit(w, n + 2), Bit(w, n + 1), Bit(w, n))
  {
    hide Bit, Six, Halves, Low6, Number6;
    SixLow(w, n);
    Low6Bits(Halves(w, n));
    BitHalves(w, n, 0);
    BitHalves(w, n, 1);
    BitHalves(w, n, 2);
    BitHalves(w, n, 3);
    BitHalves(w, n, 4);
    BitHalves(w, n, 5);
  }

  lemma SixLow(w: Word, n: nat)
    requires n == 0 || n == 8 || n == 16 || n == 24
    ensures Six(w, n) == Low6(Halves(w, n))
  {
    hide Halves, Six, Low6;
    SixAt(w);
    if n == 0 {
      HalvesNone(w);
    } else if n == 8 {
      Halves8(w);
    } else if n == 16 {
      HalvesMore(w, 8, 8);
      Halves8(w);
      Halves8(Down8(w));
    } else {
      HalvesMore(w, 8, 16);
      Halves8(w);
      HalvesMore(Down8(w), 8, 8);
      Halves8(Down8(w));
      Halves8(Down8(Down8(w)));
    }
  }

  lemma SixAt(w: Word)
    ensures Six(w, 0) == Low6(w) && Six(w, 8) == Low6(Down8(w))
    ensures Six(w, 16) == Low6(Down8(Down8(w))) && Six(w, 24) == Low6(Down8(Down8(Down8(w))))
  {
    SixAt0(w);
    SixAt16(w);
    SixAt24(w);
  }

  lemma SixAt0(w: Word)
    ensures Six(w, 0) == Low6(w) && Six(w, 8) == Low6(Down8(w))
  {}

  lemma SixAt16(w: Word)
    ensures Six(w, 16) == Low6(Down8(Down8(w)))
  {
    calc {
      Low6(Down8(Down8(w)));
      Low6(Down8(w >> 8));
      Low6((w >> 8) >> 8);
      Low6(w >> 16);
      Six(w, 16);
    }
  }

  lemma SixAt24(w: Word)
    ensures Six(w, 24) == Low6(Down8(Down8(Down8(w))))
  {
    calc {
      Low6(Down8(Down8(Down8(w))));
      Low6(Down8(Down8(w >> 8)));
      Low6(Down8((w >> 8) >> 8));
      Low6(((w >> 8) >> 8) >> 8);
      Low6(w >> 24);
      Six(w, 24);
    }
  }

  // ---------------------------------------------------------------- the key schedule

  /** The rotations of FIPS 46-3: by one in rounds 1, 2, 9 and 16, by two in the others, and all the way round at
      last. */
  lemma RotationsConform(i: nat)
    requires i < 16
    ensures TotRot(i)
         == (if i == 0 then 0 else TotRot(i - 1)) + (if i == 0 || i == 1 || i == 8 || i == 15 then 1 else 2)
    ensures TotRot(15) == 28
  {}

  /** Where a bit of the key is in the two halves: down the columns of the eight bytes, without the parity bits. */
  function Column(q: nat, r: nat): nat
    requires q < 8 && r < 7
  {
    if r < 3 || (r == 3 && q > 3) then 8 * r + 7 - q else if r == 3 then 52 + 3 - q else 28 + 8 * (6 - r) + 7 - q
  }

  lemma ColumnBelow(q: nat, r: nat)
    requires q < 8 && r < 7
    ensures Column(q, r) < 56 && Choice1(Column(q, r)) == 8 * q + r
  {}

  /** Where a bit of the halves is in a round key; 48 for the eight bits that are left out. */
  function Selected(l: nat): nat
    requires l < 56
  {
    if l < 14 then [4, 23, 6, 15, 5, 9, 19, 17, 48, 11, 2, 14, 22, 0][l]
    else if l < 28 then [8, 18, 1, 48, 13, 21, 10, 48, 12, 3, 48, 16, 20, 7][l - 14]
    else if l < 42 then [46, 30, 26, 47, 34, 40, 48, 45, 27, 48, 38, 31, 24, 43][l - 28]
    else [48, 36, 33, 42, 28, 35, 37, 44, 32, 25, 41, 48, 29, 39][l - 42]
  }

  /** The second choice takes 24 different bits of each half, the left half first. */
  lemma SelectionConforms(j: nat)
    requires j < 48
    ensures Selected(Choice2(j)) == j && (Choice2(j) < 28 <==> j < 24)
  {
    hide Selected, PC2;
    if j < 24 {
      LeftSelection(j);
    } else {
      RightSelection(j);
    }
  }

  lemma LeftSelection(j: nat)
    requires j < 24
    ensures Selected(Choice2(j)) == j && Choice2(j) < 28
  {}

  lemma RightSelection(j: nat)
    requires 24 <= j < 48
    ensures Selected(Choice2(j)) == j && Choice2(j) >= 28
  {}

  /** The rotations go round in each half. */
  lemma SourceRotates(i: nat, j: nat)
    requires i < 16 && j < 56
    ensures Source(i, j) == 28 * (j / 28) + (j % 28 + TotRot(i)) % 28
  {}

  /** The bits of a byte of the key are counted from the most significant one. */
  lemma KeyBitIs(key: Bytes, l: nat)
    requires |key| >= 8 && l < 64
    ensures KeyBit(key, l) == Words.ByteBit(key[l / 8], 7 - l % 8)
  {
    hide BitOf, Words.ByteBit;
    ByteBitIs(key[l / 8], l % 8);
  }

  lemma ByteBitIs(b: bv8, m: nat)
    requires m < 8
    ensures BitOf(b, m) == Words.ByteBit(b, 7 - m)
  {
    if m == 0 {} else if m == 1 {} else if m == 2 {} else if m == 3 {} else if m == 4 {} else if m == 5 {}
    else if m == 6 {}
  }

  // ---------------------------------------------------------------- the bits of the round keys

  lemma LowByteBit(w: Word, j: nat)
    requires j < 6
    ensures Bit(w, j) == Words.ByteBit(LowByte(w), j)
  {
    hide Bit, Words.ByteBit;
    BitMasks(w);
    MoreBitMasks(w);
    ByteMasks(w);
  }

  lemma ByteMasks(w: Word)
    ensures Words.ByteBit(LowByte(w), 0) == (w & 0x01 != 0) && Words.ByteBit(LowByte(w), 1) == (w & 0x02 != 0)
    ensures Words.ByteBit(LowByte(w), 2) == (w & 0x04 != 0) && Words.ByteBit(LowByte(w), 3) == (w & 0x08 != 0)
    ensures Words.ByteBit(LowByte(w), 4) == (w & 0x10 != 0) && Words.ByteBit(LowByte(w), 5) == (w & 0x20 != 0)
  {}

  /** Byte q of a word, the most significant one first, and its low six bits. */
  lemma ByteOfWord(w: Word, q: nat, j: nat)
    requires q < 4 && j < 6
    ensures Bit(w, 24 - 8 * q + j) == Words.ByteBit(StoreWord32(w)[q], j)
  {
    hide Bit, Halves, LowByte, Words.ByteBit, StoreWord32, Down8;
    var n := 24 - 8 * q;
    BitHalves(w, n, j);
    LowByteBit(Halves(w, n), j);
    StoredBytes(w);
    UpperStored(w);
    TopStored(w);
    HalvesEight(w);
  }

  lemma PackedBit(a: bv8, b: bv8, c: bv8, d: bv8, q: nat, j: nat)
    requires q < 4 && j < 6
    ensures Bit(Packed(a, b, c, d), 24 - 8 * q + j) == Words.ByteBit([a, b, c, d][q], j)
  {
    hide Bit, LoadWord32, StoreWord32, Words.ByteBit;
    ByteOfWord(Packed(a, b, c, d), q, j);
    StoreLoadWord32([a, b, c, d]);
  }

  lemma OrPlace(b: bv8, l: nat, j: nat)
    requires l < 6 && j < 6
    ensures Words.ByteBit(Words.OrByte(b, Place(l)), j) == (Words.ByteBit(b, j) || l == 5 - j)
  {
    hide Words.ByteBit, Words.OrByte, Place;
    PlaceIs();
    OrBits(b, Place(l), j);
    PlaceBits(j);
  }

  lemma PlaceIs()
    ensures Place(0) == 0x20 && Place(1) == 0x10 && Place(2) == 0x08
    ensures Place(3) == 0x04 && Place(4) == 0x02 && Place(5) == 0x01
  {}

  lemma PlaceBits(j: nat)
    requires j < 6
    ensures Words.ByteBit(0x20, j) == (j == 5) && Words.ByteBit(0x10, j) == (j == 4)
    ensures Words.ByteBit(0x08, j) == (j == 3) && Words.ByteBit(0x04, j) == (j == 2)
    ensures Words.ByteBit(0x02, j) == (j == 1) && Words.ByteBit(0x01, j) == (j == 0)
  {}

  lemma OrBits(a: bv8, b: bv8, j: nat)
    requires j < 6
    ensures Words.ByteBit(Words.OrByte(a, b), j) == (Words.ByteBit(a, j) || Words.ByteBit(b, j))
  {
    hide *;
    if j < 3 {
      OrLowBits(a, b, j);
    } else {
      OrHighBits(a, b, j);
    }
  }

  lemma OrLowBits(a: bv8, b: bv8, j: nat)
    requires j < 3
    ensures Words.ByteBit(Words.OrByte(a, b), j) == (Words.ByteBit(a, j) || Words.ByteBit(b, j))
  {}

  lemma OrHighBits(a: bv8, b: bv8, j: nat)
    requires 3 <= j < 6
    ensures Words.ByteBit(Words.OrByte(a, b), j) == (Words.ByteBit(a, j) || Words.ByteBit(b, j))
  {}

  /** The bits of a group, the first one of the round key in front. */
  lemma {:induction false} GroupBit(key: Bytes, i: nat, g: nat, n: nat, j: nat)
    requires |key| >= 8 && i < 16 && g < 8 && n <= 6 && j < 6
    ensures Words.ByteBit(Group(key, i, g, n), j) == (5 - j < n && RoundBit(key, i, 6 * g + 5 - j))
  {
    hide RoundBit, Words.ByteBit, Words.OrByte, Place;
    if n == 0 {
      NoByteBit(j);
    } else {
      GroupBit(key, i, g, n - 1, j);
      OrPlace(Group(key, i, g, n - 1), n - 1, j);
    }
  }

  lemma NoByteBit(j: nat)
    requires j < 6
    ensures !Words.ByteBit(0, j)
  {}

  /** Where bit m of group n is in its word. */
  function Spot(n: nat, m: nat): (b: nat)
    requires n < 8 && m < 6
    ensures b < 30
  {
    24 - 8 * (n / 2) + (5 - m)
  }

  /** The word of a round key that group n is in. */
  function KeyWord(k: Pair, n: nat): Word { if n % 2 == 0 then k.l else k.r }

  lemma KeyBits(key: Bytes, i: nat, n: nat, m: nat)
    requires |key| >= 8 && i < 16 && n < 8 && m < 6
    ensures Bit(KeyWord(RoundKey(key, i), n), Spot(n, m)) == RoundBit(key, i, 6 * n + m)
  {
    hide Bit, Packed, Group, RoundBit, Words.ByteBit;
    GroupBit(key, i, n, 6, 5 - m);
    var h := n % 2;
    PackedBit(Group(key, i, h, 6), Group(key, i, h + 2, 6), Group(key, i, h + 4, 6), Group(key, i, h + 6, 6), n / 2,
              5 - m);
  }

  // ---------------------------------------------------------------- the function f of the standard

  /** Bit p of a half, counted from one and from the most significant bit, as FIPS 46-3 counts. */
  function HalfBit(w: Word, p: nat): bool
    requires 1 <= p <= 32
  {
    Bit(w, 32 - p)
  }

  /** The bit selection table E. */
  function E(t: nat): (p: nat)
    requires t < 48
    ensures 1 <= p <= 32
  {
    match t
    case 0 => 32 case 1 => 1 case 2 => 2 case 3 => 3
    case 4 => 4 case 5 => 5 case 6 => 4 case 7 => 5
    case 8 => 6 case 9 => 7 case 10 => 8 case 11 => 9
    case 12 => 8 case 13 => 9 case 14 => 10 case 15 => 11
    case 16 => 12 case 17 => 13 case 18 => 12 case 19 => 13
    case 20 => 14 case 21 => 15 case 22 => 16 case 23 => 17
    case 24 => 16 case 25 => 17 case 26 => 18 case 27 => 19
    case 28 => 20 case 29 => 21 case 30 => 20 case 31 => 21
    case 32 => 22 case 33 => 23 case 34 => 24 case 35 => 25
    case 36 => 24 case 37 => 25 case 38 => 26 case 39 => 27
    case 40 => 28 case 41 => 29 case 42 => 28 case 43 => 29
    case 44 => 30 case 45 => 31 case 46 => 32 case _ => 1
  }

  /** Bit t of E(R) xor K. */
  function Mixed(half: Word, key: Bytes, i: nat, t: nat): bool
    requires |key| >= 8 && i < 16 && t < 48
  {
    HalfBit(half, E(t)) != RoundBit(key, i, t)
  }

  /** The six bits that meet in box n. */
  function BoxInput(half: Word, key: Bytes, i: nat, n: nat): (v: nat)
    requires |key| >= 8 && i < 16 && n < 8
    ensures v < 64
  {
    Number6(Mixed(half, key, i, 6 * n), Mixed(half, key, i, 6 * n + 1), Mixed(half, key, i, 6 * n + 2),
            Mixed(half, key, i, 6 * n + 3), Mixed(half, key, i, 6 * n + 4), Mixed(half, key, i, 6 * n + 5))
  }

  /** The sum of what the first n boxes give. */
  function BoxSum(s: Boxes, half: Word, key: Bytes, i: nat, n: nat): Word
    requires |key| >= 8 && i < 16 && n <= 8
  {
    if n == 0 then 0 else Xor(BoxSum(s, half, key, i, n - 1), s(n - 1, BoxInput(half, key, i, n - 1)))
  }

  /** The word that box n takes its bits from. */
  function Entered(r: Word, k: Pair, n: nat): Word {
    if n % 2 == 0 then Xor(RotateRight(r, 4), k.l) else Xor(r, k.r)
  }

  lemma SourceBit(half: Word, key: Bytes, i: nat, n: nat, m: nat)
    requires |key| >= 8 && i < 16 && n < 8 && m < 6
    ensures Bit(Entered(RotateLeft(half, 1), RoundKey(key, i), n), Spot(n, m)) == Mixed(half, key, i, 6 * n + m)
  {
    hide Bit, Xor, RotateLeft, RotateRight, RoundKey, RoundBit, E;
    var r, k, b := RotateLeft(half, 1), RoundKey(key, i), Spot(n, m);
    KeyBits(key, i, n, m);
    EIs(n, m);
    BitRotateLeft(half, 1, b);
    if n % 2 == 0 {
      BitXor(RotateRight(r, 4), k.l, b);
      Turn4(r);
      BitRotateRight(r, 4, b);
      BitRotateLeft(half, 1, (b + 4) % 32);
    } else {
      BitXor(r, k.r, b);
    }
  }

  lemma EIs(n: nat, m: nat)
    requires n < 8 && m < 6
    ensures E(6 * n + m) == if 4 * n + m == 0 then 32 else if 4 * n + m == 33 then 1 else 4 * n + m
  {}

  /** What box n is looked up with. */
  lemma InputIs(half: Word, key: Bytes, i: nat, n: nat)
    requires |key| >= 8 && i < 16 && n < 8
    ensures Six(Entered(RotateLeft(half, 1), RoundKey(key, i), n), Spot(n, 5)) == BoxInput(half, key, i, n)
  {
    hide Bit, Six, RotateLeft, RoundKey, Entered, Mixed, Number6;
    SixBits(Entered(RotateLeft(half, 1), RoundKey(key, i), n), Spot(n, 5));
    SourceBit(half, key, i, n, 0);
    SourceBit(half, key, i, n, 1);
    SourceBit(half, key, i, n, 2);
    SourceBit(half, key, i, n, 3);
    SourceBit(half, key, i, n, 4);
    SourceBit(half, key, i, n, 5);
  }

  lemma Ordered(t0: Word, t1: Word, t2: Word, t3: Word, t4: Word, t5: Word, t6: Word, t7: Word)
    ensures Xor(Xor(Xor(Xor(Xor(Xor(Xor(Xor(0, t0), t1), t2), t3), t4), t5), t6), t7)
         == Xor(Xor(Xor(Xor(t6, t4), t2), t0), Xor(Xor(Xor(t7, t5), t3), t1))
  {
    calc {
      Xor(Xor(Xor(Xor(t6, t4), t2), t0), Xor(Xor(Xor(t7, t5), t3), t1));
      Xor(Xor(Xor(t6 ^ t4, t2), t0), Xor(Xor(t7 ^ t5, t3), t1));
      Xor(Xor((t6 ^ t4) ^ t2, t0), Xor((t7 ^ t5) ^ t3, t1));
      Xor(((t6 ^ t4) ^ t2) ^ t0, ((t7 ^ t5) ^ t3) ^ t1);
      (((t6 ^ t4) ^ t2) ^ t0) ^ (((t7 ^ t5) ^ t3) ^ t1);
      (((((((0 ^ t0) ^ t1) ^ t2) ^ t3) ^ t4) ^ t5) ^ t6) ^ t7;
      Xor(((((((0 ^ t0) ^ t1) ^ t2) ^ t3) ^ t4) ^ t5) ^ t6, t7);
      Xor(Xor((((((0 ^ t0) ^ t1) ^ t2) ^ t3) ^ t4) ^ t5, t6), t7);
      Xor(Xor(Xor(((((0 ^ t0) ^ t1) ^ t2) ^ t3) ^ t4, t5), t6), t7);
      Xor(Xor(Xor(Xor((((0 ^ t0) ^ t1) ^ t2) ^ t3, t4), t5), t6), t7);
      Xor(Xor(Xor(Xor(Xor(((0 ^ t0) ^ t1) ^ t2, t3), t4), t5), t6), t7);
      Xor(Xor(Xor(Xor(Xor(Xor((0 ^ t0) ^ t1, t2), t3), t4), t5), t6), t7);
      Xor(Xor(Xor(Xor(Xor(Xor(Xor(0 ^ t0, t1), t2), t3), t4), t5), t6), t7);
      Xor(Xor(Xor(Xor(Xor(Xor(Xor(Xor(0, t0), t1), t2), t3), t4), t5), t6), t7);
    }
  }

  /** FIPS 46-3: the function of a round looks up box n with bits 6 n to 6 n + 5 of E(R) xor K, where the half is R
      rotated left by one bit. */
  lemma RoundConforms(s: Boxes, half: Word, key: Bytes, i: nat)
    requires |key| >= 8 && i < 16
    ensures F(s, RotateLeft(half, 1), RoundKey(key, i).l, RoundKey(key, i).r) == BoxSum(s, half, key, i, 8)
  {
    hide *;
    var r, k := RotateLeft(half, 1), RoundKey(key, i);
    FIs(s, r, k);
    SumIs(s, half, key, i);
    SpotIs();
    InputIs(half, key, i, 0);
    InputIs(half, key, i, 1);
    InputIs(half, key, i, 2);
    InputIs(half, key, i, 3);
    InputIs(half, key, i, 4);
    InputIs(half, key, i, 5);
    InputIs(half, key, i, 6);
    InputIs(half, key, i, 7);
    Ordered(s(0, BoxInput(half, key, i, 0)), s(1, BoxInput(half, key, i, 1)), s(2, BoxInput(half, key, i, 2)),
            s(3, BoxInput(half, key, i, 3)), s(4, BoxInput(half, key, i, 4)), s(5, BoxInput(half, key, i, 5)),
            s(6, BoxInput(half, key, i, 6)), s(7, BoxInput(half, key, i, 7)));
  }

  lemma SpotIs()
    ensures Spot(0, 5) == Spot(1, 5) == 24 && Spot(2, 5) == Spot(3, 5) == 16
    ensures Spot(4, 5) == Spot(5, 5) == 8 && Spot(6, 5) == Spot(7, 5) == 0
  {}

  lemma FIs(s: Boxes, r: Word, k: Pair)
    ensures F(s, r, k.l, k.r)
         == Xor(Xor(Xor(Xor(s(6, Six(Entered(r, k, 6), 0)), s(4, Six(Entered(r, k, 4), 8))),
                        s(2, Six(Entered(r, k, 2), 16))), s(0, Six(Entered(r, k, 0), 24))),
                Xor(Xor(Xor(s(7, Six(Entered(r, k, 7), 0)), s(5, Six(Entered(r, k, 5), 8))),
                        s(3, Six(Entered(r, k, 3), 16))), s(1, Six(Entered(r, k, 1), 24))))
  {
    hide Xor, Six, RotateRight;
  }

  lemma SumIs(s: Boxes, half: Word, key: Bytes, i: nat)
    requires |key| >= 8 && i < 16
    ensures BoxSum(s, half, key, i, 8)
         == Xor(Xor(Xor(Xor(Xor(Xor(Xor(Xor(0, s(0, BoxInput(half, key, i, 0))), s(1, BoxInput(half, key, i, 1))),
                                    s(2, BoxInput(half, key, i, 2))), s(3, BoxInput(half, key, i, 3))),
                            s(4, BoxInput(half, key, i, 4))), s(5, BoxInput(half, key, i, 5))),
                    s(6, BoxInput(half, key, i, 6))), s(7, BoxInput(half, key, i, 7)))
  {
    hide Xor, BoxInput;
    SumNext(s, half, key, i, 0);
    SumNext(s, half, key, i, 1);
    SumNext(s, half, key, i, 2);
    SumNext(s, half, key, i, 3);
    SumNext(s, half, key, i, 4);
    SumNext(s, half, key, i, 5);
    SumNext(s, half, key, i, 6);
    SumNext(s, half, key, i, 7);
  }

  lemma SumNext(s: Boxes, half: Word, key: Bytes, i: nat, n: nat)
    requires |key| >= 8 && i < 16 && n < 8
    ensures BoxSum(s, half, key, i, n + 1) == Xor(BoxSum(s, half, key, i, n), s(n, BoxInput(half, key, i, n)))
    ensures BoxSum(s, half, key, i, 0) == 0
  {
    hide Xor, BoxInput;
  }
}
