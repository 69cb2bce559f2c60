/** AES with fused tables and the equivalent inverse cipher (impl/block/aes/aes.cc). */
module Aes {
  import opened Words
  import opened Sbox
  import opened RijndaelSpec
  import opened AesTables

  // ---------------------------------------------------------------- the key schedule

  /** rcon[i]. */
  function RconWord(i: nat): bv32
    requires i < 10
  {
    match i
    case 0 => 0x01000000
    case 1 => 0x02000000
    case 2 => 0x04000000
    case 3 => 0x08000000
    case 4 => 0x10000000
    case 5 => 0x20000000
    case 6 => 0x40000000
    case 7 => 0x80000000
    case 8 => 0x1b000000
    case _ => 0x36000000
  }

  /** Table entry i is x^i in the top byte. */
  lemma {:induction false} RconIs(i: nat)
    requires i < 10
    ensures Split(RconWord(i)) == RconCol(i + 1)
  {
    hide RconTable;
    RconTableIs(i);
    RconSplit(i);
  }

  lemma RconSplit(i: nat)
    requires i < 10
    ensures Split(RconWord(i)) == Col(RconTable(i), 0, 0, 0)
  {}

  /** A word of the schedule from the word nk back and the rotated and substituted previous one. */
  function RotWord(prev: bv32, temp: bv32, rcon: bv32): bv32 {
    XorW(Xor5(prev, High(Te4(Byte2(temp))), Third(Te4(Byte1(temp))), Second(Te4(Byte0(temp))), Low(Te4(Byte3(temp)))),
         rcon)
  }

  /** The same without rotation, in the middle of the longest keys. */
  function SubWord(prev: bv32, temp: bv32): bv32 {
    Xor5(prev, High(Te4(Byte3(temp))), Third(Te4(Byte2(temp))), Second(Te4(Byte1(temp))), Low(Te4(Byte0(temp))))
  }

  lemma MaskedWord(prev: bv32, a: bv8, b: bv8, c: bv8, d: bv8)
    ensures Split(Xor5(prev, High(Pack(a, a, a, a)), Third(Pack(b, b, b, b)), Second(Pack(c, c, c, c)),
                       Low(Pack(d, d, d, d))))
         == XorCol(Split(prev), Col(a, b, c, d))
  {
    hide Split, Pack, High, Third, Second, Low, XorW, XorByte, Xor4;
    SplitMasks(a, a, a, a);
    SplitMasks(b, b, b, b);
    SplitMasks(c, c, c, c);
    SplitMasks(d, d, d, d);
    var h, t, s, l := High(Pack(a, a, a, a)), Third(Pack(b, b, b, b)), Second(Pack(c, c, c, c)), Low(Pack(d, d, d, d));
    SplitXor(prev, h);
    SplitXor(XorW(prev, h), t);
    SplitXor(XorW(XorW(prev, h), t), s);
    SplitXor(XorW(XorW(XorW(prev, h), t), s), l);
    var p := Split(prev);
    XorZeros(p.b0, a);
    XorZeros(p.b1, b);
    XorZeros(p.b2, c);
    XorZeros(p.b3, d);
  }

  lemma XorZeros(p: bv8, a: bv8)
    ensures XorByte(XorByte(XorByte(XorByte(p, a), 0), 0), 0) == XorByte(p, a)
    ensures XorByte(XorByte(XorByte(XorByte(p, 0), a), 0), 0) == XorByte(p, a)
    ensures XorByte(XorByte(XorByte(XorByte(p, 0), 0), a), 0) == XorByte(p, a)
    ensures XorByte(XorByte(XorByte(XorByte(p, 0), 0), 0), a) == XorByte(p, a)
  {
    hide XorByte;
    XorByteUnit(p);
    XorByteUnit(XorByte(p, a));
  }

  lemma RotWordIs(prev: bv32, temp: bv32, i: nat)
    requires i < 10
    ensures Split(RotWord(prev, temp, RconWord(i)))
         == XorCol(Split(prev), XorCol(SubCol(RotCol(Split(temp))), RconCol(i + 1)))
  {
    hide Sub, Pack, High, Third, Second, Low, XorW, XorCol, Xor5, RconCol, RconWord, Byte0, Byte1, Byte2, Byte3;
    var a, b, c, d := Sub(Byte2(temp)), Sub(Byte1(temp)), Sub(Byte0(temp)), Sub(Byte3(temp));
    var w := Xor5(prev, High(Pack(a, a, a, a)), Third(Pack(b, b, b, b)), Second(Pack(c, c, c, c)),
                  Low(Pack(d, d, d, d)));
    MaskedWord(prev, a, b, c, d);
    RconIs(i);
    SplitXor(w, RconWord(i));
    XorColAssoc(Split(prev), Col(a, b, c, d), RconCol(i + 1));
  }

  lemma SubWordIs(prev: bv32, temp: bv32)
    ensures Split(SubWord(prev, temp)) == XorCol(Split(prev), SubCol(Split(temp)))
  {
    hide Sub, Pack, High, Third, Second, Low, XorW, XorCol, Xor5, Byte0, Byte1, Byte2, Byte3;
    MaskedWord(prev, Sub(Byte3(temp)), Sub(Byte2(temp)), Sub(Byte1(temp)), Sub(Byte0(temp)));
  }

  /** The first n words of the schedule are in rk. */
  ghost predicate Filled(rk: seq<bv32>, key: Bytes, nk: nat, n: nat)
    requires Key(key, nk)
  {
    n <= |rk| && forall t :: 0 <= t < n ==> Split(rk[t]) == Word(key, nk, t)
  }

  /** One more word of the schedule. */
  method Put(rk: array<bv32>, t: nat, w: bv32, ghost key: Bytes, ghost nk: nat)
    requires Key(key, nk) && Filled(rk[..], key, nk, t) && t < rk.Length && Split(w) == Word(key, nk, t)
    modifies rk
    ensures Filled(rk[..], key, nk, t + 1)
  {
    hide Split, Word;
    rk[t] := w;
  }

  /** A word that is the sum of the previous one and the one nk back. */
  method PutSum(rk: array<bv32>, t: nat, ghost key: Bytes, nk: nat)
    requires Key(key, nk) && Filled(rk[..], key, nk, t) && t < rk.Length && nk <= t
    requires t % nk != 0 && (nk > 6 ==> t % nk != 4)
    modifies rk
    ensures Filled(rk[..], key, nk, t + 1)
  {
    assert Word(key, nk, t) == XorCol(Word(key, nk, t - nk), Word(key, nk, t - 1));
    hide Split, Word, XorCol, XorW;
    SplitXor(rk[t - nk], rk[t - 1]);
    XorColComm(Split(rk[t - nk]), Split(rk[t - 1]));
    Put(rk, t, XorW(rk[t - nk], rk[t - 1]), key, nk);
  }

  lemma XorColComm(x: Col, y: Col)
    ensures XorCol(x, y) == XorCol(y, x)
  {
    XorByteComm(x.b0, y.b0);
    XorByteComm(x.b1, y.b1);
    XorByteComm(x.b2, y.b2);
    XorByteComm(x.b3, y.b3);
  }

  /** The word that starts the i-th group after the key. */
  method PutFirst(rk: array<bv32>, t: nat, i: nat, ghost key: Bytes, nk: nat)
    requires Key(key, nk) && Filled(rk[..], key, nk, t) && t < rk.Length && t == (i + 1) * nk && i < 10
    modifies rk
    ensures Filled(rk[..], key, nk, t + 1)
  {
    FirstWord(key, nk, t, i);
    hide Split, Word, XorCol, RotWord, Mangled, SubCol, RotCol, RconCol;
    RotWordIs(rk[t - nk], rk[t - 1], i);
    Put(rk, t, RotWord(rk[t - nk], rk[t - 1], RconWord(i)), key, nk);
  }

  /** The fifth word of a group, for eight-word keys. */
  method PutFifth(rk: array<bv32>, t: nat, ghost key: Bytes)
    requires Key(key, 8) && Filled(rk[..], key, 8, t) && t < rk.Length && 8 <= t && t % 8 == 4
    modifies rk
    ensures Filled(rk[..], key, 8, t + 1)
  {
    assert Word(key, 8, t) == XorCol(Word(key, 8, t - 8), SubCol(Word(key, 8, t - 1)));
    hide Split, Word, XorCol, SubCol, SubWord;
    SubWordIs(rk[t - 8], rk[t - 1]);
    Put(rk, t, SubWord(rk[t - 8], rk[t - 1]), key, 8);
  }

  /** The key itself. */
  method PutKey(rk: array<bv32>, t: nat, key: Bytes, nk: nat)
    requires Key(key, nk) && Filled(rk[..], key, nk, t) && t < rk.Length && t < nk
    modifies rk
    ensures Filled(rk[..], key, nk, t + 1)
  {
    hide Split, Pack;
    SplitPack(key[4 * t], key[4 * t + 1], key[4 * t + 2], key[4 * t + 3]);
    Put(rk, t, Pack(key[4 * t], key[4 * t + 1], key[4 * t + 2], key[4 * t + 3]), key, nk);
  }

  // ---------------------------------------------------------------- round keys

  /** Round key i as four words of an array. */
  function KeyBlock(a: seq<bv32>, i: nat): (k: Bytes)
    requires 4 * i + 4 <= |a|
    ensures State(k, 4)
  {
    Block4(a[4 * i], a[4 * i + 1], a[4 * i + 2], a[4 * i + 3])
  }

  lemma FilledBlock(rk: seq<bv32>, key: Bytes, nk: nat, n: nat, i: nat)
    requires Key(key, nk) && Filled(rk, key, nk, n) && 4 * i + 4 <= n
    ensures KeyBlock(rk, i) == RoundKey(key, nk, 4, i)
  {
    hide Split, Word, ColByte, Flat, At, RoundKey, Pick;
    var p := 4 * i;
    var a, b, c, d := Split(rk[p]), Split(rk[p + 1]), Split(rk[p + 2]), Split(rk[p + 3]);
    forall j, r | 0 <= j < 4 && 0 <= r < 4
      ensures At(KeyBlock(rk, i), 4, j, r) == At(RoundKey(key, nk, 4, i), 4, j, r)
    {
      FlatAt(a, b, c, d, j, r);
      RoundKeyAt(key, nk, 4, i, j, r);
      PickWord(rk, p, j);
      assert Split(rk[p + j]) == Word(key, nk, p + j);
      PickMap(Split, rk[p], rk[p + 1], rk[p + 2], rk[p + 3], j);
    }
    SameState(KeyBlock(rk, i), RoundKey(key, nk, 4, i), 4);
  }

  lemma PickWord<T>(a: seq<T>, p: nat, j: nat)
    requires p + 4 <= |a| && j < 4
    ensures Pick(a[p], a[p + 1], a[p + 2], a[p + 3], j) == a[p + j]
  {}

  /** The inverse column transformation of SetKeyDecrypt on one word. */
  function InvMixWord(w: bv32): bv32 {
    XorW(XorW(XorW(Td0(Byte0(Te4(Byte3(w)))), Td1(Byte0(Te4(Byte2(w))))), Td2(Byte0(Te4(Byte1(w))))),
         Td3(Byte0(Te4(Byte0(w)))))
  }

  lemma LowByteOfTe4(x: bv8)
    ensures Byte0(Te4(x)) == Sub(x)
  {
    hide Sub, Byte0, Pack;
    SplitPack(Sub(x), Sub(x), Sub(x), Sub(x));
  }

  lemma InvMixWordIs(w: bv32)
    ensures Split(InvMixWord(w)) == InvMixOf(Split(w))
  {
    hide Sub, InvSub, Te4, Pack, XorW, XorByte, MulE, MulB, MulD, Mul9, Xor4, Byte0, Byte1, Byte2, Byte3;
    var a, b, c, d := Byte3(w), Byte2(w), Byte1(w), Byte0(w);
    LowByteOfTe4(a);
    LowByteOfTe4(b);
    LowByteOfTe4(c);
    LowByteOfTe4(d);
    SubInverse(a);
    SubInverse(b);
    SubInverse(c);
    SubInverse(d);
    SplitPack(MulE(a), Mul9(a), MulD(a), MulB(a));
    SplitPack(MulB(b), MulE(b), Mul9(b), MulD(b));
    SplitPack(MulD(c), MulB(c), MulE(c), Mul9(c));
    SplitPack(Mul9(d), MulD(d), MulB(d), MulE(d));
    var u, v, x, y := Td0(Sub(a)), Td1(Sub(b)), Td2(Sub(c)), Td3(Sub(d));
    SplitXor(u, v);
    SplitXor(XorW(u, v), x);
    SplitXor(XorW(XorW(u, v), x), y);
    Xor4Chain(MulE(a), MulB(b), MulD(c), Mul9(d));
    Xor4Chain(Mul9(a), MulE(b), MulB(c), MulD(d));
    Xor4Chain(MulD(a), Mul9(b), MulE(c), MulB(d));
    Xor4Chain(MulB(a), MulD(b), Mul9(c), MulE(d));
    Xor4Rotate(MulE(b), MulB(c), MulD(d), Mul9(a));
    Xor4Rotate(MulE(c), MulB(d), MulD(a), Mul9(b));
    Xor4Rotate(MulE(d), MulB(a), MulD(b), Mul9(c));
  }

  /** Four words transformed are a round key transformed. */
  lemma InvMixBlock(a: seq<bv32>, b: seq<bv32>, p: nat)
    requires p % 4 == 0 && p + 4 <= |a| && |b| == |a|
    requires b[p] == InvMixWord(a[p]) && b[p + 1] == InvMixWord(a[p + 1])
    requires b[p + 2] == InvMixWord(a[p + 2]) && b[p + 3] == InvMixWord(a[p + 3])
    ensures KeyBlock(b, p / 4) == InvMixColumns(KeyBlock(a, p / 4), 4)
  {
    hide Block4, InvMixWord, InvMixColumns;
    assert 4 * (p / 4) == p;
    InvMixFour(a[p], a[p + 1], a[p + 2], a[p + 3]);
  }

  lemma InvMixFour(w: bv32, x: bv32, y: bv32, z: bv32)
    ensures Block4(InvMixWord(w), InvMixWord(x), InvMixWord(y), InvMixWord(z)) == InvMixColumns(Block4(w, x, y, z), 4)
  {
    hide Split, InvMixOf, InvMixWord, Flat, InvMixColumns;
    InvMixWordIs(w);
    InvMixWordIs(x);
    InvMixWordIs(y);
    InvMixWordIs(z);
    FlatMix(Split(w), Split(x), Split(y), Split(z));
  }

  /** The schedule of the equivalent inverse cipher: the round keys backwards, all but the ends transformed. */
  ghost predicate Inverted(rkd: seq<bv32>, key: Bytes, nk: nat, nr: nat)
    requires Key(key, nk)
  {
    && 0 < nr && 4 * nr + 4 <= |rkd|
    && KeyBlock(rkd, 0) == RoundKey(key, nk, 4, nr) && KeyBlock(rkd, nr) == RoundKey(key, nk, 4, 0)
    && forall i :: 0 < i < nr ==> KeyBlock(rkd, i) == InvMixColumns(RoundKey(key, nk, 4, nr - i), 4)
  }

  /** Block q of s is block k of t. */
  ghost predicate SameFour<T>(s: seq<T>, q: nat, t: seq<T>, k: nat) {
    && 4 * q + 4 <= |s| && 4 * k + 4 <= |t|
    && s[4 * q] == t[4 * k] && s[4 * q + 1] == t[4 * k + 1]
    && s[4 * q + 2] == t[4 * k + 2] && s[4 * q + 3] == t[4 * k + 3]
  }

  lemma SameFourTrans<T>(s: seq<T>, q: nat, t: seq<T>, k: nat, u: seq<T>, j: nat)
    requires SameFour(s, q, t, k) && SameFour(t, k, u, j)
    ensures SameFour(s, q, u, j)
  {}

  /** Block q once the first m blocks and the last m of 0 to nr are swapped. */
  function Swapped(q: nat, m: nat, nr: nat): (k: nat)
    requires q <= nr && m <= nr + 1
    ensures k <= nr
  {
    if q < m || q > nr - m then nr - q else q
  }

  ghost predicate Arranged<T>(s: seq<T>, was: seq<T>, m: nat, nr: nat) {
    m <= nr + 1 && forall q :: 0 <= q <= nr ==> SameFour(s, q, was, Swapped(q, m, nr))
  }

  /** Where block q goes when the blocks 0 to nr are put in reverse order. */
  function Mirror(q: nat, nr: nat): (k: nat)
    requires q <= nr
    ensures k == nr - q
  {
    nr - q
  }

  ghost predicate Turned<T>(s: seq<T>, was: seq<T>, nr: nat) {
    forall q :: 0 <= q <= nr ==> SameFour(s, q, was, Mirror(q, nr))
  }

  /** Block q once blocks m and n have changed places. */
  function Exchanged(q: nat, m: nat, n: nat): nat {
    if q == m then n else if q == n then m else q
  }

  /** The four words at i and the four at j have changed places. */
  ghost predicate PairExchanged<T>(s: seq<T>, was: seq<T>, i: nat, j: nat) {
    && |s| == |was| && i + 4 <= j && j + 4 <= |s|
    && s[i] == was[j] && s[i + 1] == was[j + 1] && s[i + 2] == was[j + 2] && s[i + 3] == was[j + 3]
    && s[j] == was[i] && s[j + 1] == was[i + 1] && s[j + 2] == was[i + 2] && s[j + 3] == was[i + 3]
    && forall k :: 0 <= k < |s| && !(i <= k < i + 4) && !(j <= k < j + 4) ==> s[k] == was[k]
  }

  lemma FourExchanged<T>(s: seq<T>, was: seq<T>, m: nat, n: nat, q: nat)
    requires PairExchanged(s, was, 4 * m, 4 * n) && 4 * q + 4 <= |s|
    ensures SameFour(s, q, was, Exchanged(q, m, n))
  {
    if q != m && q != n {
      var k := 4 * q;
      assert s[k] == was[k] && s[k + 1] == was[k + 1] && s[k + 2] == was[k + 2] && s[k + 3] == was[k + 3];
    }
  }

  lemma ArrangedNext<T>(t: seq<T>, s: seq<T>, was: seq<T>, m: nat, nr: nat)
    requires Arranged(s, was, m, nr) && m < nr - m && PairExchanged(t, s, 4 * m, 4 * (nr - m))
    requires 4 * nr + 4 <= |t|
    ensures Arranged(t, was, m + 1, nr)
  {
    hide SameFour, PairExchanged;
    var next := m + 1;
    forall q | 0 <= q <= nr
      ensures SameFour(t, q, was, Swapped(q, next, nr))
    {
      var e := Exchanged(q, m, nr - m);
      FourExchanged(t, s, m, nr - m, q);
      assert SameFour(s, e, was, Swapped(e, m, nr));
      SameFourTrans(t, q, s, e, was, Swapped(e, m, nr));
    }
  }

  lemma ArrangedTurned<T>(s: seq<T>, was: seq<T>, m: nat, nr: nat)
    requires Arranged(s, was, m, nr) && 2 * m == nr
    ensures Turned(s, was, nr)
  {
    hide SameFour;
    forall q | 0 <= q <= nr
      ensures SameFour(s, q, was, Mirror(q, nr))
    {
      assert SameFour(s, q, was, Swapped(q, m, nr));
    }
  }

  lemma ArrangedNone<T>(s: seq<T>, nr: nat)
    requires 4 * nr + 4 <= |s|
    ensures Arranged(s, s, 0, nr)
  {}

  /** The swapping loop of SetKeyDecrypt: the blocks of four words in reverse order. */
  method Reverse<T>(a: array<T>, nr: nat)
    requires nr % 2 == 0 && 4 * nr + 4 <= a.Length
    modifies a
    ensures Turned(a[..], old(a[..]), nr)
  {
    hide *;
    ghost var was := a[..];
    var i, j := 0, 4 * nr;
    ghost var m := 0;
    ArrangedNone(was, nr);
    while i < j
      invariant m <= nr - m && i == 4 * m && j == 4 * (nr - m)
      invariant Arranged(a[..], was, m, nr)
      decreases j
    {
      ghost var s := a[..];
      SwapBlocks(a, i, j);
      ArrangedNext(a[..], s, was, m, nr);
      i := i + 4;
      j := j - 4;
      m := m + 1;
    }
    ArrangedTurned(a[..], was, m, nr);
  }

  method SwapBlocks<T>(a: array<T>, i: nat, j: nat)
    requires i + 4 <= j && j + 4 <= a.Length
    modifies a
    ensures PairExchanged(a[..], old(a[..]), i, j)
  {
    a[i], a[j] := a[j], a[i];
    a[i + 1], a[j + 1] := a[j + 1], a[i + 1];
    a[i + 2], a[j + 2] := a[j + 2], a[i + 2];
    a[i + 3], a[j + 3] := a[j + 3], a[i + 3];
  }

  /** The last loop of SetKeyDecrypt: words 4 to 4 nr - 1 are put through InvMixColumns. */
  method TransformMiddle(a: array<bv32>, nr: nat)
    requires 0 < nr && 4 * nr + 4 <= a.Length
    modifies a
    ensures forall t :: 0 <= t < a.Length ==> a[t] == old(if 4 <= t < 4 * nr then InvMixWord(a[t]) else a[t])
  {
    hide InvMixWord;
    var p, i := 0, 1;
    while i < nr
      invariant 1 <= i <= nr && p == 4 * (i - 1)
      invariant forall t :: 0 <= t < a.Length ==> a[t] == old(if 4 <= t < 4 * i then InvMixWord(a[t]) else a[t])
    {
      p := p + 4;
      a[p] := InvMixWord(a[p]);
      a[p + 1] := InvMixWord(a[p + 1]);
      a[p + 2] := InvMixWord(a[p + 2]);
      a[p + 3] := InvMixWord(a[p + 3]);
      i := i + 1;
    }
  }

  // ---------------------------------------------------------------- blocks

  /** E::Convert<uint32_t>. */
  function PackAt(s: Bytes, o: nat): bv32
    requires o + 4 <= |s|
  {
    Pack(s[o], s[o + 1], s[o + 2], s[o + 3])
  }

  /** Four words read from a block are the block. */
  lemma BlockOfBytes(s: Bytes)
    requires |s| == 16
    ensures Block4(PackAt(s, 0), PackAt(s, 4), PackAt(s, 8), PackAt(s, 12)) == s
  {
    hide Pack, Split, Flat, At;
    SplitPack(s[0], s[1], s[2], s[3]);
    SplitPack(s[4], s[5], s[6], s[7]);
    SplitPack(s[8], s[9], s[10], s[11]);
    SplitPack(s[12], s[13], s[14], s[15]);
    var a, b, c, d := ColAt(s, 0), ColAt(s, 1), ColAt(s, 2), ColAt(s, 3);
    forall j, r | 0 <= j < 4 && 0 <= r < 4
      ensures At(Flat(a, b, c, d), 4, j, r) == At(s, 4, j, r)
    {
      FlatAt(a, b, c, d, j, r);
      ColAtByte(s, j, r);
      assert Pick(a, b, c, d, j) == ColAt(s, j);
    }
    SameState(Flat(a, b, c, d), s, 4);
  }

  lemma ColAtByte(s: Bytes, j: nat, r: nat)
    requires |s| == 16 && j < 4 && r < 4
    ensures ColByte(ColAt(s, j), r) == At(s, 4, j, r)
  {}

  function WordBytes(w: bv32): (b: Bytes)
    ensures |b| == 4
  {
    [Byte3(w), Byte2(w), Byte1(w), Byte0(w)]
  }

  lemma ConcatAt<T>(a: seq<T>, b: seq<T>, c: seq<T>, d: seq<T>, j: nat, r: nat)
    requires |a| == |b| == |c| == |d| == 4 && j < 4 && r < 4
    ensures |Pick(a, b, c, d, j)| == 4 && (a + b + c + d)[4 * j + r] == Pick(a, b, c, d, j)[r]
  {}

  lemma WordByteAt(w: bv32, r: nat)
    requires r < 4
    ensures WordBytes(w)[r] == ColByte(Split(w), r)
  {
    hide Byte0, Byte1, Byte2, Byte3;
  }

  /** The bytes of four words written one after the other. */
  lemma BytesOfBlock(w0: bv32, w1: bv32, w2: bv32, w3: bv32)
    ensures WordBytes(w0) + WordBytes(w1) + WordBytes(w2) + WordBytes(w3) == Block4(w0, w1, w2, w3)
  {
    hide WordBytes, Split, Flat, Pick, ColByte, At;
    var s := WordBytes(w0) + WordBytes(w1) + WordBytes(w2) + WordBytes(w3);
    forall j, r | 0 <= j < 4 && 0 <= r < 4
      ensures At(s, 4, j, r) == At(Block4(w0, w1, w2, w3), 4, j, r)
    {
      FlatAt(Split(w0), Split(w1), Split(w2), Split(w3), j, r);
      ConcatAt(WordBytes(w0), WordBytes(w1), WordBytes(w2), WordBytes(w3), j, r);
      PickMap(WordBytes, w0, w1, w2, w3, j);
      PickMap(Split, w0, w1, w2, w3, j);
      WordByteAt(Pick(w0, w1, w2, w3, j), r);
      AtIndex(s, 4, j, r);
    }
    SameState(s, Block4(w0, w1, w2, w3), 4);
  }

  datatype KeyError = NotImplemented | Invalid

  datatype Status = Ok | Failed(error: KeyError)

  class Aes {
    const rk: array<bv32>
    const rkd: array<bv32>
    var nk: nat
    var nr: nat
    var nri: nat
    ghost var key: Bytes

    constructor ()
      ensures Ready() && fresh(rk) && fresh(rkd)
    {
      rk := new bv32[72](i => 0);
      rkd := new bv32[72](i => 0);
      nk, nr, nri := 0, 0, 0;
      key := [];
    }

    ghost predicate Ready() {
      rk.Length == 72 && rkd.Length == 72 && rk != rkd
    }

    /** SetKeyEncrypt: the three unrolled loops, each left in the middle of its last group. */
    method SetKeyEncrypt(k: Bytes)
      requires Ready() && (|k| == 16 || |k| == 24 || |k| == 32)
      modifies `nk, `nr, `nri, `key, rk
      ensures key == k && nk == |k| / 4 && nr == 6 + nk && nri == (nr - 10) / 2
      ensures Key(key, nk) && Filled(rk[..], key, nk, 4 * nr + 4)
    {
      nk := |k| / 4;
      nr := 6 + if 4 > nk then 4 else nk;
      nri := (nr - 10) / 2;
      key := k;
      hide Filled;
      assert Filled(rk[..], k, nk, 0) by { FilledNone(rk[..], k, nk); }
      PutKey(rk, 0, k, nk);
      PutKey(rk, 1, k, nk);
      PutKey(rk, 2, k, nk);
      PutKey(rk, 3, k, nk);
      if |k| == 16 {
        Expand4(k);
        return;
      }
      PutKey(rk, 4, k, nk);
      PutKey(rk, 5, k, nk);
      if |k| == 24 {
        Expand6(k);
        return;
      }
      PutKey(rk, 6, k, nk);
      PutKey(rk, 7, k, nk);
      Expand8(k);
    }

    method Expand4(k: Bytes)
      requires Ready() && Key(k, 4) && Filled(rk[..], k, 4, 4)
      modifies rk
      ensures Filled(rk[..], k, 4, 44)
    {
      hide Filled;
      var i, p := 0, 0;
      while true
        invariant i < 10 && p == 4 * i && Filled(rk[..], k, 4, p + 4)
        decreases 10 - i
      {
        PutFirst(rk, p + 4, i, k, 4);
        PutSum(rk, p + 5, k, 4);
        PutSum(rk, p + 6, k, 4);
        PutSum(rk, p + 7, k, 4);
        i := i + 1;
        if i == 10 {
          return;
        }
        p := p + 4;
      }
    }

    method Expand6(k: Bytes)
      requires Ready() && Key(k, 6) && Filled(rk[..], k, 6, 6)
      modifies rk
      ensures Filled(rk[..], k, 6, 52)
    {
      hide Filled;
      var i, p := 0, 0;
      while true
        invariant i < 8 && p == 6 * i && Filled(rk[..], k, 6, p + 6)
        decreases 8 - i
      {
        PutFirst(rk, p + 6, i, k, 6);
        PutSum(rk, p + 7, k, 6);
        PutSum(rk, p + 8, k, 6);
        PutSum(rk, p + 9, k, 6);
        i := i + 1;
        if i == 8 {
          return;
        }
        PutSum(rk, p + 10, k, 6);
        PutSum(rk, p + 11, k, 6);
        p := p + 6;
      }
    }

    method Expand8(k: Bytes)
      requires Ready() && Key(k, 8) && Filled(rk[..], k, 8, 8)
      modifies rk
      ensures Filled(rk[..], k, 8, 60)
    {
      hide Filled;
      var i, p := 0, 0;
      while true
        invariant i < 7 && p == 8 * i && Filled(rk[..], k, 8, p + 8)
        decreases 7 - i
      {
        PutFirst(rk, p + 8, i, k, 8);
        PutSum(rk, p + 9, k, 8);
        PutSum(rk, p + 10, k, 8);
        PutSum(rk, p + 11, k, 8);
        i := i + 1;
        if i == 7 {
          return;
        }
        PutFifth(rk, p + 12, k);
        PutSum(rk, p + 13, k, 8);
        PutSum(rk, p + 14, k, 8);
        PutSum(rk, p + 15, k, 8);
        p := p + 8;
      }
    }

    /** SetKeyDecrypt: the round keys are copied, reversed, and all but the ends put through InvMixColumns. */
    method SetKeyDecrypt()
      requires Ready() && Key(key, nk) && nr % 2 == 0 && 0 < nr <= 14 && Filled(rk[..], key, nk, 4 * nr + 4)
      modifies rkd
      ensures Inverted(rkd[..], key, nk, nr)
    {
      hide Filled, KeyBlock, InvMixWord, RoundKey, InvMixColumns, Turned, Inverted;
      for t := 0 to 72
        invariant forall u :: 0 <= u < t ==> rkd[u] == rk[u]
      {
        rkd[t] := rk[t];
      }
      assert rkd[..] == rk[..];
      Reverse(rkd, nr);
      ghost var was := rkd[..];
      TransformMiddle(rkd, nr);
      InvertedBlocks(rk[..], was, rkd[..], key, nk, nr);
    }

    /** SetKeyInternal. */
    method SetKey(k: Bytes) returns (status: Status)
      requires Ready()
      modifies this, rk, rkd
      ensures status == if |k| == 16 || |k| == 24 || |k| == 32 then Ok
                        else if |k| == 20 || |k| == 28 then Failed(NotImplemented) else Failed(Invalid)
      ensures status.Ok? ==> Keyed() && key == k
      ensures status.Failed? ==> key == old(key) && nk == old(nk) && nr == old(nr) && nri == old(nri)
                                 && rk[..] == old(rk[..]) && rkd[..] == old(rkd[..])
    {
      if |k| == 20 || |k| == 28 {
        return Failed(NotImplemented);
      } else if |k| != 16 && |k| != 24 && |k| != 32 {
        return Failed(Invalid);
      }
      SetKeyEncrypt(k);
      SetKeyDecrypt();
      status := Ok;
    }

    ghost predicate Keyed()
      reads this, rk, rkd
    {
      && Ready() && Key(key, nk) && (nk == 4 || nk == 6 || nk == 8) && nr == 6 + nk && nri == (nr - 10) / 2
      && Filled(rk[..], key, nk, 4 * nr + 4) && Inverted(rkd[..], key, nk, nr)
    }

    /** EncryptRound: round n of the block x. */
    method EncryptRound(s0: bv32, s1: bv32, s2: bv32, s3: bv32, o: nat, ghost x: Bytes, ghost n: nat)
      returns (t0: bv32, t1: bv32, t2: bv32, t3: bv32)
      requires 0 < n < nr && Progress(s0, s1, s2, s3, x, n - 1) && o == 4 * n
      ensures Progress(t0, t1, t2, t3, x, n)
    {
      hide RoundWord, Block4, Filled, Round, RoundKey, Inverted;
      t0 := RoundWord(s0, s1, s2, s3, rk[o]);
      t1 := RoundWord(s1, s2, s3, s0, rk[o + 1]);
      t2 := RoundWord(s2, s3, s0, s1, rk[o + 2]);
      t3 := RoundWord(s3, s0, s1, s2, rk[o + 3]);
      RoundIs(s0, s1, s2, s3, rk[o], rk[o + 1], rk[o + 2], rk[o + 3]);
      FilledBlock(rk[..], key, nk, 4 * nr + 4, n);
      assert RoundKeys(key, nk, 4)[n] == RoundKey(key, nk, 4, n);
    }

    /** The words s xor the first key of a schedule. */
    lemma FirstKey(x: Bytes, a: seq<bv32>)
      requires |x| == 16 && |a| >= 4
      ensures Block4(XorW(PackAt(x, 0), a[0]), XorW(PackAt(x, 4), a[1]), XorW(PackAt(x, 8), a[2]),
                     XorW(PackAt(x, 12), a[3]))
           == AddKey(x, KeyBlock(a, 0))
    {
      hide XorW, PackAt, Split, Flat, XorCol, AddKey;
      BlockOfBytes(x);
      var p, q, r, s := PackAt(x, 0), PackAt(x, 4), PackAt(x, 8), PackAt(x, 12);
      SplitXor(p, a[0]);
      SplitXor(q, a[1]);
      SplitXor(r, a[2]);
      SplitXor(s, a[3]);
      FlatKey(Split(p), Split(q), Split(r), Split(s), Split(a[0]), Split(a[1]), Split(a[2]), Split(a[3]));
    }

    lemma StartEncrypt(s0: bv32, s1: bv32, s2: bv32, s3: bv32, x: Bytes)
      requires Keyed() && |x| == 16 && Block4(s0, s1, s2, s3) == AddKey(x, KeyBlock(rk[..], 0))
      ensures Progress(s0, s1, s2, s3, x, 0)
    {
      hide Inverted, AddKey, RoundKey, KeyBlock, Block4;
      FilledBlock(rk[..], key, nk, 4 * nr + 4, 0);
      assert RoundKeys(key, nk, 4)[0] == RoundKey(key, nk, 4, 0);
    }

    lemma Sizes()
      requires Keyed()
      ensures rk.Length == rkd.Length == 72 && (nr == 10 || nr == 12 || nr == 14) && nri == (nr - 10) / 2
      ensures forall x: Bytes :: |x| == 16 ==> State(x, 4)
    {
      hide Filled, Inverted;
    }

    /** The words are the block x after n rounds. */
    ghost predicate Progress(s0: bv32, s1: bv32, s2: bv32, s3: bv32, x: Bytes, n: nat)
      reads this, rk, rkd
    {
      && Keyed() && State(x, 4) && n < nr
      && Block4(s0, s1, s2, s3) == Rounds(x, RoundKeys(key, nk, 4), 4, n)
    }

    /** Two rounds of the switch. */
    method TwoRounds(s0: bv32, s1: bv32, s2: bv32, s3: bv32, o: nat, ghost x: Bytes, ghost n: nat)
      returns (u0: bv32, u1: bv32, u2: bv32, u3: bv32)
      requires Progress(s0, s1, s2, s3, x, n) && n + 2 < nr && o == 4 * n
      ensures Progress(u0, u1, u2, u3, x, n + 2)
    {
      hide *;
      var t0, t1, t2, t3 := EncryptRound(s0, s1, s2, s3, o + 4, x, n + 1);
      u0, u1, u2, u3 := EncryptRound(t0, t1, t2, t3, o + 8, x, n + 2);
    }

    /** The nine rounds that every key size has. */
    method NineRounds(s0: bv32, s1: bv32, s2: bv32, s3: bv32, o: nat, ghost x: Bytes, ghost n: nat)
      returns (t0: bv32, t1: bv32, t2: bv32, t3: bv32)
      requires Progress(s0, s1, s2, s3, x, n) && n + 9 < nr && o == 4 * n
      ensures Progress(t0, t1, t2, t3, x, n + 9)
    {
      hide *;
      var u0, u1, u2, u3;
      t0, t1, t2, t3 := EncryptRound(s0, s1, s2, s3, o + 4, x, n + 1);
      u0, u1, u2, u3 := EncryptRound(t0, t1, t2, t3, o + 8, x, n + 2);
      t0, t1, t2, t3 := EncryptRound(u0, u1, u2, u3, o + 12, x, n + 3);
      u0, u1, u2, u3 := EncryptRound(t0, t1, t2, t3, o + 16, x, n + 4);
      t0, t1, t2, t3 := EncryptRound(u0, u1, u2, u3, o + 20, x, n + 5);
      u0, u1, u2, u3 := EncryptRound(t0, t1, t2, t3, o + 24, x, n + 6);
      t0, t1, t2, t3 := EncryptRound(u0, u1, u2, u3, o + 28, x, n + 7);
      u0, u1, u2, u3 := EncryptRound(t0, t1, t2, t3, o + 32, x, n + 8);
      t0, t1, t2, t3 := EncryptRound(u0, u1, u2, u3, o + 36, x, n + 9);
    }

    /** Encrypt: the switch falls through to four, two or no rounds before the nine that every key size has. */
    method Encrypt(out: array<bv8>, inp: array<bv8>)
      requires Keyed() && out.Length >= 16 && inp.Length >= 16
      modifies out
      ensures out[..16] == RijndaelSpec.Encrypt(old(inp[..16]), RoundKeys(key, nk, 4), 4, nr)
      ensures out[16..] == old(out[16..])
    {
      hide *;
      Sizes();
      ghost var x := inp[..16];
      var s0, s1 := XorW(PackAt(inp[..], 0), rk[0]), XorW(PackAt(inp[..], 4), rk[1]);
      var s2, s3 := XorW(PackAt(inp[..], 8), rk[2]), XorW(PackAt(inp[..], 12), rk[3]);
      PackFront(inp[..], x);
      FirstKey(x, rk[..]);
      StartEncrypt(s0, s1, s2, s3, x);
      var o := 0;
      ghost var n := 0;
      if nri % 4 != 0 && nri % 4 != 1 {
        s0, s1, s2, s3 := TwoRounds(s0, s1, s2, s3, o, x, n);
        o, n := o + 8, n + 2;
      }
      if nri % 4 != 0 {
        s0, s1, s2, s3 := TwoRounds(s0, s1, s2, s3, o, x, n);
        o, n := o + 8, n + 2;
      }
      var t0, t1, t2, t3 := NineRounds(s0, s1, s2, s3, o, x, n);
      LastRound(out, t0, t1, t2, t3, o + 40, x);
    }

    /** The last round of Encrypt and the result. */
    method LastRound(out: array<bv8>, t0: bv32, t1: bv32, t2: bv32, t3: bv32, o: nat, ghost x: Bytes)
      requires 0 < nr && Progress(t0, t1, t2, t3, x, nr - 1) && o == 4 * nr && out.Length >= 16
      modifies out
      ensures out[..16] == RijndaelSpec.Encrypt(x, RoundKeys(key, nk, 4), 4, nr) && out[16..] == old(out[16..])
    {
      hide LastWord, Block4, Filled, RoundKey, Inverted, AddKey, ShiftRows, SubBytes, Rounds;
      LastRoundIs(t0, t1, t2, t3, rk[o], rk[o + 1], rk[o + 2], rk[o + 3]);
      FilledBlock(rk[..], key, nk, 4 * nr + 4, nr);
      assert RoundKeys(key, nk, 4)[nr] == RoundKey(key, nk, 4, nr);
      StoreFour(out, LastWord(t0, t1, t2, t3, rk[o]), LastWord(t1, t2, t3, t0, rk[o + 1]),
                LastWord(t2, t3, t0, t1, rk[o + 2]), LastWord(t3, t0, t1, t2, rk[o + 3]));
    }

    // ---------------------------------------------------------------- decryption

    /** The words after n rounds of the equivalent inverse cipher on the block x: what the inverse cipher still has to
        do gives its result. */
    ghost predicate InvProgress(s0: bv32, s1: bv32, s2: bv32, s3: bv32, x: Bytes, n: nat)
      reads this, rk, rkd
    {
      && Keyed() && State(x, 4) && n < nr
      && InvRounds(Undone(Block4(s0, s1, s2, s3)), RoundKeys(key, nk, 4), 4, nr - 1 - n)
         == RijndaelSpec.Decrypt(x, RoundKeys(key, nk, 4), 4, nr)
    }

    /** DecryptRound. */
    method DecryptRound(s0: bv32, s1: bv32, s2: bv32, s3: bv32, o: nat, ghost x: Bytes, ghost n: nat)
      returns (t0: bv32, t1: bv32, t2: bv32, t3: bv32)
      requires 0 < n < nr && InvProgress(s0, s1, s2, s3, x, n - 1) && o == 4 * n
      ensures InvProgress(t0, t1, t2, t3, x, n)
    {
      hide InvRoundWord, Block4, Filled, EqRound, RoundKey, InvRounds, InvMixColumns, Undone, RijndaelSpec.Decrypt;
      t0 := InvRoundWord(s0, s3, s2, s1, rkd[o]);
      t1 := InvRoundWord(s1, s0, s3, s2, rkd[o + 1]);
      t2 := InvRoundWord(s2, s1, s0, s3, rkd[o + 2]);
      t3 := InvRoundWord(s3, s2, s1, s0, rkd[o + 3]);
      InvRoundIs(s0, s1, s2, s3, rkd[o], rkd[o + 1], rkd[o + 2], rkd[o + 3]);
      assert KeyBlock(rkd[..], n) == InvMixColumns(RoundKey(key, nk, 4, nr - n), 4);
      var keys := RoundKeys(key, nk, 4);
      assert keys[nr - n] == RoundKey(key, nk, 4, nr - n);
      EqStep(Block4(s0, s1, s2, s3), keys, nr - n);
    }

    /** Two rounds of the switch. */
    method TwoInvRounds(s0: bv32, s1: bv32, s2: bv32, s3: bv32, o: nat, ghost x: Bytes, ghost n: nat)
      returns (u0: bv32, u1: bv32, u2: bv32, u3: bv32)
      requires InvProgress(s0, s1, s2, s3, x, n) && n + 2 < nr && o == 4 * n
      ensures InvProgress(u0, u1, u2, u3, x, n + 2)
    {
      hide *;
      var t0, t1, t2, t3 := DecryptRound(s0, s1, s2, s3, o + 4, x, n + 1);
      u0, u1, u2, u3 := DecryptRound(t0, t1, t2, t3, o + 8, x, n + 2);
    }

    /** The nine rounds that every key size has. */
    method NineInvRounds(s0: bv32, s1: bv32, s2: bv32, s3: bv32, o: nat, ghost x: Bytes, ghost n: nat)
      returns (t0: bv32, t1: bv32, t2: bv32, t3: bv32)
      requires InvProgress(s0, s1, s2, s3, x, n) && n + 9 < nr && o == 4 * n
      ensures InvProgress(t0, t1, t2, t3, x, n + 9)
    {
      hide *;
      var u0, u1, u2, u3;
      t0, t1, t2, t3 := DecryptRound(s0, s1, s2, s3, o + 4, x, n + 1);
      u0, u1, u2, u3 := DecryptRound(t0, t1, t2, t3, o + 8, x, n + 2);
      t0, t1, t2, t3 := DecryptRound(u0, u1, u2, u3, o + 12, x, n + 3);
      u0, u1, u2, u3 := DecryptRound(t0, t1, t2, t3, o + 16, x, n + 4);
      t0, t1, t2, t3 := DecryptRound(u0, u1, u2, u3, o + 20, x, n + 5);
      u0, u1, u2, u3 := DecryptRound(t0, t1, t2, t3, o + 24, x, n + 6);
      t0, t1, t2, t3 := DecryptRound(u0, u1, u2, u3, o + 28, x, n + 7);
      u0, u1, u2, u3 := DecryptRound(t0, t1, t2, t3, o + 32, x, n + 8);
      t0, t1, t2, t3 := DecryptRound(u0, u1, u2, u3, o + 36, x, n + 9);
    }

    lemma StartDecrypt(s0: bv32, s1: bv32, s2: bv32, s3: bv32, x: Bytes)
      requires Keyed() && |x| == 16 && Block4(s0, s1, s2, s3) == AddKey(x, KeyBlock(rkd[..], 0))
      ensures InvProgress(s0, s1, s2, s3, x, 0)
    {
      hide Filled, AddKey, RoundKey, KeyBlock, Block4, InvRounds, InvMixColumns;
      assert RoundKeys(key, nk, 4)[nr] == RoundKey(key, nk, 4, nr);
    }

    /** Decrypt: the same switch over the transformed schedule. */
    method Decrypt(out: array<bv8>, inp: array<bv8>)
      requires Keyed() && out.Length >= 16 && inp.Length >= 16
      modifies out
      ensures out[..16] == RijndaelSpec.Decrypt(old(inp[..16]), RoundKeys(key, nk, 4), 4, nr)
      ensures out[16..] == old(out[16..])
    {
      hide *;
      Sizes();
      ghost var x := inp[..16];
      var s0, s1 := XorW(PackAt(inp[..], 0), rkd[0]), XorW(PackAt(inp[..], 4), rkd[1]);
      var s2, s3 := XorW(PackAt(inp[..], 8), rkd[2]), XorW(PackAt(inp[..], 12), rkd[3]);
      PackFront(inp[..], x);
      FirstKey(x, rkd[..]);
      StartDecrypt(s0, s1, s2, s3, x);
      var o := 0;
      ghost var n := 0;
      if nri % 4 != 0 && nri % 4 != 1 {
        s0, s1, s2, s3 := TwoInvRounds(s0, s1, s2, s3, o, x, n);
        o, n := o + 8, n + 2;
      }
      if nri % 4 != 0 {
        s0, s1, s2, s3 := TwoInvRounds(s0, s1, s2, s3, o, x, n);
        o, n := o + 8, n + 2;
      }
      var t0, t1, t2, t3 := NineInvRounds(s0, s1, s2, s3, o, x, n);
      LastInvRound(out, t0, t1, t2, t3, o + 40, x);
    }

    method LastInvRound(out: array<bv8>, t0: bv32, t1: bv32, t2: bv32, t3: bv32, o: nat, ghost x: Bytes)
      requires 0 < nr && InvProgress(t0, t1, t2, t3, x, nr - 1) && o == 4 * nr && out.Length >= 16
      modifies out
      ensures out[..16] == RijndaelSpec.Decrypt(x, RoundKeys(key, nk, 4), 4, nr) && out[16..] == old(out[16..])
    {
      hide InvLastWord, Block4, Filled, RoundKey, AddKey, InvShiftRows, InvSubBytes, InvMixColumns;
      hide RijndaelSpec.Decrypt;
      InvLastRoundIs(t0, t1, t2, t3, rkd[o], rkd[o + 1], rkd[o + 2], rkd[o + 3]);
      InvSubShift(Block4(t0, t1, t2, t3), 4);
      assert RoundKeys(key, nk, 4)[0] == RoundKey(key, nk, 4, 0);
      StoreFour(out, InvLastWord(t0, t3, t2, t1, rkd[o]), InvLastWord(t1, t0, t3, t2, rkd[o + 1]),
                InvLastWord(t2, t1, t0, t3, rkd[o + 2]), InvLastWord(t3, t2, t1, t0, rkd[o + 3]));
    }

    /** Word j of round key i. */
    lemma HeldWord(i: nat, j: nat)
      requires Keyed() && i <= nr && j < 4
      ensures rk.Length == 72 && i < 15 && Key(key, nk) && Split(rk[4 * i + j]) == Word(key, nk, 4 * i + j)
    {
      hide Inverted, Word, Split;
    }

    lemma KeyedKeys()
      requires Keyed()
      ensures Key(key, nk) && Columns(4) && Keys(RoundKeys(key, nk, 4), 4, nr) && 0 < nr
      ensures forall i :: 0 <= i <= nr ==> RoundKeys(key, nk, 4)[i] == RoundKey(key, nk, 4, i)
    {
      hide Filled, Inverted, RoundKey;
    }

    /** Decryption gives back every block that was encrypted, for every key. */
    method RoundTrip(out: array<bv8>, inp: array<bv8>)
      requires Keyed() && out.Length >= 16 && inp.Length >= 16
      modifies out
      ensures out[..16] == old(inp[..16]) && out[16..] == old(out[16..])
    {
      hide *;
      Sizes();
      KeyedKeys();
      RijndaelSpec.RoundTrip(inp[..16], RoundKeys(key, nk, 4), 4, nr);
      Encrypt(out, inp);
      Decrypt(out, out);
    }
  }

  /** Row shifts and substitution undone. */
  function Undone(x: Bytes): (t: Bytes)
    requires State(x, 4)
    ensures State(t, 4)
  {
    InvSubBytes(InvShiftRows(x, 4))
  }

  /** One round of the equivalent inverse cipher, with the transformed key, is one round of the inverse cipher. */
  lemma EqStep(x: Bytes, keys: seq<Bytes>, m: nat)
    requires State(x, 4) && 0 < m < |keys| && forall i :: 0 <= i < |keys| ==> State(keys[i], 4)
    ensures InvRounds(Undone(x), keys, 4, m) == InvRounds(Undone(EqRound(x, InvMixColumns(keys[m], 4))), keys, 4, m - 1)
  {
    hide AddKey, InvMixColumns, InvShiftRows, InvSubBytes;
    InvSubShift(x, 4);
    InvMixColumnsLinear(Undone(x), keys[m], 4);
    assert InvRounds(Undone(x), keys, 4, m) == InvRounds(InvRound(Undone(x), keys[m], 4), keys, 4, m - 1);
  }

  lemma PackFront(s: Bytes, x: Bytes)
    requires |s| >= 16 && x == s[..16]
    ensures PackAt(s, 0) == PackAt(x, 0) && PackAt(s, 4) == PackAt(x, 4)
    ensures PackAt(s, 8) == PackAt(x, 8) && PackAt(s, 12) == PackAt(x, 12)
  {
    hide Pack;
  }

  /** E::Convert of four words. */
  method StoreFour(out: array<bv8>, w0: bv32, w1: bv32, w2: bv32, w3: bv32)
    requires out.Length >= 16
    modifies out
    ensures out[..16] == Block4(w0, w1, w2, w3) && out[16..] == old(out[16..])
  {
    hide *;
    BytesOfBlock(w0, w1, w2, w3);
    ghost var rest := out[16..];
    var block := WordBytes(w0) + WordBytes(w1) + WordBytes(w2) + WordBytes(w3);
    StoreAt(out, 0, block);
    assert out[16..] == rest;
    assert out[..16] == out[0..|block|];
  }

  lemma TurnedBlock(rk: seq<bv32>, was: seq<bv32>, key: Bytes, nk: nat, nr: nat, i: nat)
    requires Key(key, nk) && i <= nr <= 14 && |rk| == |was| == 72 && Filled(rk, key, nk, 4 * nr + 4)
    requires Turned(was, rk, nr)
    ensures KeyBlock(was, i) == RoundKey(key, nk, 4, nr - i)
  {
    hide Filled, RoundKey, KeyBlock;
    FilledBlock(rk, key, nk, 4 * nr + 4, nr - i);
    assert SameFour(was, i, rk, Mirror(i, nr));
    SameBlock(was, 4 * i, rk, 4 * (nr - i));
  }

  lemma InvertedBlocks(rk: seq<bv32>, was: seq<bv32>, rkd: seq<bv32>, key: Bytes, nk: nat, nr: nat)
    requires Key(key, nk) && 0 < nr <= 14 && |rk| == |was| == |rkd| == 72 && Filled(rk, key, nk, 4 * nr + 4)
    requires Turned(was, rk, nr)
    requires forall t :: 0 <= t < 72 ==> rkd[t] == if 4 <= t < 4 * nr then InvMixWord(was[t]) else was[t]
    ensures Inverted(rkd, key, nk, nr)
  {
    hide Filled, InvMixWord, RoundKey, InvMixColumns, KeyBlock, Turned;
    forall i | 0 <= i <= nr
      ensures KeyBlock(was, i) == RoundKey(key, nk, 4, nr - i)
    {
      TurnedBlock(rk, was, key, nk, nr, i);
    }
    assert KeyBlock(was, 0) == RoundKey(key, nk, 4, nr) && KeyBlock(was, nr) == RoundKey(key, nk, 4, 0);
    SameBlock(rkd, 0, was, 0);
    SameBlock(rkd, 4 * nr, was, 4 * nr);
    forall i | 0 < i < nr
      ensures KeyBlock(rkd, i) == InvMixColumns(RoundKey(key, nk, 4, nr - i), 4)
    {
      InvMixBlock(was, rkd, 4 * i);
    }
  }

  lemma SameBlock(a: seq<bv32>, p: nat, b: seq<bv32>, q: nat)
    requires p % 4 == 0 && q % 4 == 0 && p + 4 <= |a| && q + 4 <= |b|
    requires a[p] == b[q] && a[p + 1] == b[q + 1] && a[p + 2] == b[q + 2] && a[p + 3] == b[q + 3]
    ensures KeyBlock(a, p / 4) == KeyBlock(b, q / 4)
  {
    hide Block4;
    assert 4 * (p / 4) == p && 4 * (q / 4) == q;
  }

  lemma FilledNone(rk: seq<bv32>, key: Bytes, nk: nat)
    requires Key(key, nk)
    ensures Filled(rk, key, nk, 0)
  {}
}
