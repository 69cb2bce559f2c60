/** The Serpent block cipher (impl/block/serpent/serpent-impl.cc). */
module Serpent {
  import opened Bits
  import opened Quads
  import opened Rotates
  import opened SerpentBoxes
  import opened SerpentSpec
  import Words

  // ---------------------------------------------------------------- blocks in place

  /** The four words at offset o. */
  function QuadAt(w: seq<Word>, o: nat): Quad
    requires o + 4 <= |w|
  {
    Quad(w[o], w[o + 1], w[o + 2], w[o + 3])
  }

  /** The array with the words at offset o replaced. */
  function Replaced(w: seq<Word>, o: nat, q: Quad): (r: seq<Word>)
    requires o + 4 <= |w|
    ensures |r| == |w|
  {
    w[o := q.a][o + 1 := q.b][o + 2 := q.c][o + 3 := q.d]
  }

  lemma ReplacedAt(w: seq<Word>, o: nat, q: Quad, p: nat)
    requires o + 4 <= |w| && p + 4 <= |w|
    ensures p == o ==> QuadAt(Replaced(w, o, q), p) == q
    ensures p + 4 <= o || o + 4 <= p ==> QuadAt(Replaced(w, o, q), p) == QuadAt(w, p)
  {}

  method Put(w: array<Word>, o: nat, q: Quad)
    requires o + 4 <= w.Length
    modifies w
    ensures w[..] == Replaced(old(w[..]), o, q)
  {
    w[o], w[o + 1], w[o + 2], w[o + 3] := q.a, q.b, q.c, q.d;
  }

  /** An S-box in place. */
  method Substitute(w: array<Word>, o: nat, n: nat)
    requires o + 4 <= w.Length && n < 8
    modifies w
    ensures w[..] == Replaced(old(w[..]), o, Box(n, QuadAt(old(w[..]), o)))
  {
    hide Box, Replaced;
    Put(w, o, Box(n, QuadAt(w[..], o)));
  }

  method Unsubstitute(w: array<Word>, o: nat, n: nat)
    requires o + 4 <= w.Length && n < 8
    modifies w
    ensures w[..] == Replaced(old(w[..]), o, InvBox(n, QuadAt(old(w[..]), o)))
  {
    hide InvBox, Replaced;
    Put(w, o, InvBox(n, QuadAt(w[..], o)));
  }

  /** The block of four words. */
  ghost function Held(b: array<Word>): Quad
    requires b.Length == 4
    reads b
  {
    QuadAt(b[..], 0)
  }

  method AddKey(b: array<Word>, k: array<Word>, j: nat)
    requires b.Length == 4 && 4 * j + 12 <= k.Length && b != k
    modifies b
    ensures Held(b) == XorQuad(old(Held(b)), KeyAt(k[8..], j))
  {
    hide Xor;
    for i := 0 to 4
      invariant forall l :: 0 <= l < i ==> b[l] == Xor(old(b[l]), k[8 + 4 * j + l])
      invariant forall l :: i <= l < 4 ==> b[l] == old(b[l])
    {
      b[i] := Xor(b[i], k[8 + 4 * j + i]);
    }
  }

  /** eround. */
  method EncryptRound(b: array<Word>, k: array<Word>, j: nat, n: nat)
    requires b.Length == 4 && 4 * j + 12 <= k.Length && b != k && n < 8
    modifies b
    ensures Held(b) == Round(old(Held(b)), KeyAt(k[8..], j), n)
  {
    hide *;
    AddKey(b, k, j);
    Substituted(b, n);
    Mixing(b);
    RoundIs(old(Held(b)), KeyAt(k[8..], j), n);
  }

  lemma RoundIs(x: Quad, key: Quad, n: nat)
    requires n < 8
    ensures Round(x, key, n) == Mix(Box(n, XorQuad(x, key)))
    ensures InvRound(x, key, n) == XorQuad(InvBox(n, Unmix(x)), key)
  {
    hide Mix, Unmix, Box, InvBox, XorQuad;
  }

  method Substituted(b: array<Word>, n: nat)
    requires b.Length == 4 && n < 8
    modifies b
    ensures Held(b) == Box(n, old(Held(b)))
  {
    hide Box;
    Substitute(b, 0, n);
  }

  method Unsubstituted(b: array<Word>, n: nat)
    requires b.Length == 4 && n < 8
    modifies b
    ensures Held(b) == InvBox(n, old(Held(b)))
  {
    hide InvBox;
    Unsubstitute(b, 0, n);
  }

  method Mixing(b: array<Word>)
    requires b.Length == 4
    modifies b
    ensures Held(b) == Mix(old(Held(b)))
  {
    hide Xor, RotateLeft, Up3, Up7;
    b[0] := RotateLeft(b[0], 13);
    b[2] := RotateLeft(b[2], 3);
    b[1] := RotateLeft(Xor(Xor(b[1], b[2]), b[0]), 1);
    b[3] := RotateLeft(Xor(Xor(b[3], b[2]), Up3(b[0])), 7);
    b[0] := RotateLeft(Xor(Xor(b[0], b[3]), b[1]), 5);
    b[2] := RotateLeft(Xor(Xor(b[2], b[3]), Up7(b[1])), 22);
  }

  /** dround. */
  method DecryptRound(b: array<Word>, k: array<Word>, j: nat, n: nat)
    requires b.Length == 4 && 4 * j + 12 <= k.Length && b != k && n < 8
    modifies b
    ensures Held(b) == InvRound(old(Held(b)), KeyAt(k[8..], j), n)
  {
    hide *;
    Unmixing(b);
    Unsubstituted(b, n);
    AddKey(b, k, j);
    RoundIs(old(Held(b)), KeyAt(k[8..], j), n);
  }

  method Unmixing(b: array<Word>)
    requires b.Length == 4
    modifies b
    ensures Held(b) == Unmix(old(Held(b)))
  {
    hide Xor, RotateRight, Up3, Up7;
    b[2] := RotateRight(b[2], 22);
    b[0] := RotateRight(b[0], 5);
    b[2] := Xor(b[2], Xor(b[3], Up7(b[1])));
    b[0] := Xor(b[0], Xor(b[1], b[3]));
    b[3] := RotateRight(b[3], 7);
    b[1] := RotateRight(b[1], 1);
    b[3] := Xor(b[3], Xor(b[2], Up3(b[0])));
    b[1] := Xor(b[1], Xor(b[0], b[2]));
    b[2] := RotateRight(b[2], 3);
    b[0] := RotateRight(b[0], 13);
  }

  // ---------------------------------------------------------------- eight rounds

  lemma NoRounds(x: Quad, k: seq<Word>)
    ensures Rounds(x, k, 0) == x && InvRounds(x, k, 0) == x
  {}

  lemma RoundsNext(x: Quad, k: seq<Word>, i: nat, m: nat)
    requires m < 8 && 4 * (8 * i + m) + 4 <= |k|
    ensures Rounds(x, k, 8 * i + m + 1) == Round(Rounds(x, k, 8 * i + m), KeyAt(k, 8 * i + m), m)
  {
    hide Round, KeyAt;
  }

  lemma InvRoundsNext(x: Quad, k: seq<Word>, i: nat, m: nat)
    requires m < 8 && 4 * (8 * i + m) + 4 <= |k|
    ensures InvRounds(x, k, 8 * i + m + 1) == InvRounds(InvRound(x, KeyAt(k, 8 * i + m), m), k, 8 * i + m)
  {
    hide InvRound, KeyAt;
  }

  /** The rounds that are left after i turns of Decrypt. */
  function Left(i: nat): (j: nat)
    requires i <= 4
    ensures j <= 32
  {
    if i == 0 then 31 else 8 * (4 - i)
  }

  lemma LeftIs(i: nat)
    requires i <= 4
    ensures i == 0 ==> Left(i) == 31
    ensures i > 0 ==> Left(i) == 8 * (4 - i)
    ensures i < 4 ==> Left(i + 1) == 8 * (3 - i)
  {}

  method SevenRounds(b: array<Word>, k: array<Word>, i: nat, ghost x: Quad)
    requires b.Length == 4 && k.Length == 140 && b != k && i < 4 && Held(b) == Rounds(x, k[8..], 8 * i)
    modifies b
    ensures Held(b) == Rounds(x, k[8..], 8 * i + 7)
  {
    hide *;
    ghost var keys := k[8..];
    RoundsNext(x, keys, i, 0);
    EncryptRound(b, k, 8 * i, 0);
    RoundsNext(x, keys, i, 1);
    EncryptRound(b, k, 8 * i + 1, 1);
    RoundsNext(x, keys, i, 2);
    EncryptRound(b, k, 8 * i + 2, 2);
    RoundsNext(x, keys, i, 3);
    EncryptRound(b, k, 8 * i + 3, 3);
    RoundsNext(x, keys, i, 4);
    EncryptRound(b, k, 8 * i + 4, 4);
    RoundsNext(x, keys, i, 5);
    EncryptRound(b, k, 8 * i + 5, 5);
    RoundsNext(x, keys, i, 6);
    EncryptRound(b, k, 8 * i + 6, 6);
  }

  method SevenBack(b: array<Word>, k: array<Word>, i: nat)
    requires b.Length == 4 && k.Length == 140 && b != k && i < 4
    modifies b
    ensures InvRounds(Held(b), k[8..], 8 * i) == InvRounds(old(Held(b)), k[8..], 8 * i + 7)
  {
    hide *;
    ghost var keys := k[8..];
    InvRoundsNext(Held(b), keys, i, 6);
    DecryptRound(b, k, 8 * i + 6, 6);
    InvRoundsNext(Held(b), keys, i, 5);
    DecryptRound(b, k, 8 * i + 5, 5);
    InvRoundsNext(Held(b), keys, i, 4);
    DecryptRound(b, k, 8 * i + 4, 4);
    InvRoundsNext(Held(b), keys, i, 3);
    DecryptRound(b, k, 8 * i + 3, 3);
    InvRoundsNext(Held(b), keys, i, 2);
    DecryptRound(b, k, 8 * i + 2, 2);
    InvRoundsNext(Held(b), keys, i, 1);
    DecryptRound(b, k, 8 * i + 1, 1);
    InvRoundsNext(Held(b), keys, i, 0);
    DecryptRound(b, k, 8 * i, 0);
  }

  lemma SealedIs(x: Quad, k: seq<Word>)
    requires |k| == 132
    ensures Sealed(x, k) == XorQuad(Box(7, XorQuad(Rounds(x, k, 31), KeyAt(k, 31))), KeyAt(k, 32))
  {
    hide Rounds, XorQuad, Box, KeyAt;
  }

  lemma OpenedIs(x: Quad, k: seq<Word>)
    requires |k| == 132
    ensures Opened(x, k) == InvRounds(XorQuad(InvBox(7, XorQuad(x, KeyAt(k, 32))), KeyAt(k, 31)), k, 31)
  {
    hide InvRounds, XorQuad, InvBox, KeyAt;
  }

  // ---------------------------------------------------------------- the key schedule

  /** The key and zeros. */
  function Zeroed(key: Bytes): (b: Bytes)
    requires |key| <= 32
    ensures |b| == 32
  {
    seq(32, i requires 0 <= i < 32 => if i < |key| then key[i] else 0)
  }

  /** 0x1 << (8 m). */
  function OneAt(m: nat): Word {
    if m == 0 then 0x1 else if m == 1 then 0x100 else if m == 2 then 0x10000 else 0x1000000
  }

  lemma OrOne(b: Bytes, o: nat, c: Bytes, m: nat)
    requires o + 4 <= |b| == |c| && m < 4 && b[o + m] == 0 && c == b[o + m := 1]
    ensures Or(LoadLe(b, o), OneAt(m)) == LoadLe(c, o)
  {
    hide LoadLe;
    LoadLeIs(b, o);
    LoadLeIs(c, o);
    OrByte(b[o], b[o + 1], b[o + 2], b[o + 3]);
  }

  function Made(b0: bv8, b1: bv8, b2: bv8, b3: bv8): Word {
    (b3 as Word << 24) | (b2 as Word << 16) | (b1 as Word << 8) | (b0 as Word)
  }

  lemma LoadLeIs(b: Bytes, o: nat)
    requires o + 4 <= |b|
    ensures LoadLe(b, o) == Made(b[o], b[o + 1], b[o + 2], b[o + 3])
  {}

  lemma OrByte(b0: bv8, b1: bv8, b2: bv8, b3: bv8)
    ensures Or(Made(0, b1, b2, b3), 0x1) == Made(1, b1, b2, b3)
    ensures Or(Made(b0, 0, b2, b3), 0x100) == Made(b0, 1, b2, b3)
    ensures Or(Made(b0, b1, 0, b3), 0x10000) == Made(b0, b1, 1, b3)
    ensures Or(Made(b0, b1, b2, 0), 0x1000000) == Made(b0, b1, b2, 1)
  {
    hide Or, Made;
    OrByte0(b1, b2, b3);
    OrByte1(b0, b2, b3);
    OrByte2(b0, b1, b3);
    OrByte3(b0, b1, b2);
  }

  lemma OrByte0(b1: bv8, b2: bv8, b3: bv8)
    ensures Or(Made(0, b1, b2, b3), 0x1) == Made(1, b1, b2, b3)
  {
    calc {
      Or(Made(0, b1, b2, b3), 0x1);
      Or((b3 as Word << 24) | (b2 as Word << 16) | (b1 as Word << 8) | (0 as bv8 as Word), 0x1);
      ((b3 as Word << 24) | (b2 as Word << 16) | (b1 as Word << 8) | (0 as bv8 as Word)) | 0x1;
      (b3 as Word << 24) | (b2 as Word << 16) | (b1 as Word << 8) | (1 as bv8 as Word);
      Made(1, b1, b2, b3);
    }
  }

  lemma OrByte1(b0: bv8, b2: bv8, b3: bv8)
    ensures Or(Made(b0, 0, b2, b3), 0x100) == Made(b0, 1, b2, b3)
  {
    calc {
      Or(Made(b0, 0, b2, b3), 0x100);
      Or((b3 as Word << 24) | (b2 as Word << 16) | (0 as bv8 as Word << 8) | (b0 as Word), 0x100);
      ((b3 as Word << 24) | (b2 as Word << 16) | (0 as bv8 as Word << 8) | (b0 as Word)) | 0x100;
      (b3 as Word << 24) | (b2 as Word << 16) | (1 as bv8 as Word << 8) | (b0 as Word);
      Made(b0, 1, b2, b3);
    }
  }

  lemma OrByte2(b0: bv8, b1: bv8, b3: bv8)
    ensures Or(Made(b0, b1, 0, b3), 0x10000) == Made(b0, b1, 1, b3)
  {
    calc {
      Or(Made(b0, b1, 0, b3), 0x10000);
      Or((b3 as Word << 24) | (0 as bv8 as Word << 16) | (b1 as Word << 8) | (b0 as Word), 0x10000);
      ((b3 as Word << 24) | (0 as bv8 as Word << 16) | (b1 as Word << 8) | (b0 as Word)) | 0x10000;
      (b3 as Word << 24) | (1 as bv8 as Word << 16) | (b1 as Word << 8) | (b0 as Word);
      Made(b0, b1, 1, b3);
    }
  }

  lemma OrByte3(b0: bv8, b1: bv8, b2: bv8)
    ensures Or(Made(b0, b1, b2, 0), 0x1000000) == Made(b0, b1, b2, 1)
  {
    calc {
      Or(Made(b0, b1, b2, 0), 0x1000000);
      Or((0 as bv8 as Word << 24) | (b2 as Word << 16) | (b1 as Word << 8) | (b0 as Word), 0x1000000);
      ((0 as bv8 as Word << 24) | (b2 as Word << 16) | (b1 as Word << 8) | (b0 as Word)) | 0x1000000;
      (1 as bv8 as Word << 24) | (b2 as Word << 16) | (b1 as Word << 8) | (b0 as Word);
      Made(b0, b1, b2, 1);
    }
  }

  /** The words of the key, with the one after it. */
  method LoadKey(k: array<Word>, key: Bytes)
    requires k.Length == 140 && |key| <= 32
    modifies k
    ensures forall i :: 0 <= i < 8 ==> k[i] == LoadLe(Padded(key), 4 * i)
  {
    hide LoadLe, Or, OneAt, Padded, Zeroed;
    for i := 0 to 140
      invariant forall l :: 0 <= l < i ==> k[l] == 0
    {
      k[i] := 0;
    }
    for i := 0 to 8
      invariant forall l :: 0 <= l < i ==> k[l] == LoadLe(Zeroed(key), 4 * l)
    {
      k[i] := LoadLe(Zeroed(key), 4 * i);
    }
    if |key| < 32 {
      k[|key| / 4] := Or(k[|key| / 4], OneAt(|key| % 4));
    }
    forall i | 0 <= i < 8
      ensures k[i] == LoadLe(Padded(key), 4 * i)
    {
      PaddedWord(key, i);
    }
  }

  lemma PaddedWord(key: Bytes, i: nat)
    requires |key| <= 32 && i < 8
    ensures LoadLe(Padded(key), 4 * i)
         == if |key| < 32 && i == |key| / 4 then Or(LoadLe(Zeroed(key), 4 * i), OneAt(|key| % 4))
            else LoadLe(Zeroed(key), 4 * i)
  {
    hide LoadLe, Or, OneAt;
    if |key| < 32 {
      OneAfter(key);
      if i == |key| / 4 {
        OrOne(Zeroed(key), 4 * i, Padded(key), |key| % 4);
      } else {
        SameBytes(Zeroed(key), Padded(key), 4 * i);
      }
    } else {
      assert Padded(key) == Zeroed(key);
    }
  }

  lemma OneAfter(key: Bytes)
    requires |key| < 32
    ensures Padded(key) == Zeroed(key)[|key| := 1]
  {
    forall i | 0 <= i < 32
      ensures Padded(key)[i] == Zeroed(key)[|key| := 1][i]
    {
      if i == |key| {
        assert Padded(key)[i] == OneByte(0);
      } else if i > |key| {
        assert Padded(key)[i] == OneByte(i - |key|);
      } else {
        assert Padded(key)[i] == key[i];
      }
    }
  }

  lemma SameBytes(b: Bytes, c: Bytes, o: nat)
    requires o + 4 <= |b| == |c| && b[o] == c[o] && b[o + 1] == c[o + 1] && b[o + 2] == c[o + 2] && b[o + 3] == c[o + 3]
    ensures LoadLe(b, o) == LoadLe(c, o)
  {
  }

  /** The prekeys. */
  method Expand(k: array<Word>, ghost key: Bytes)
    requires k.Length == 140 && |key| <= 32 && forall i :: 0 <= i < 8 ==> k[i] == LoadLe(Padded(key), 4 * i)
    modifies k
    ensures forall n :: 0 <= n < 140 ==> k[n] == Prekey(key, n)
  {
    hide LoadLe, Next, Padded;
    for i := 0 to 132
      invariant forall n :: 0 <= n < i + 8 ==> k[n] == Prekey(key, n)
    {
      k[i + 8] := Next(k[i], k[i + 3], k[i + 5], k[i + 7], i);
    }
  }

  /** The first j quads are round keys, the others still prekeys. */
  ghost predicate Partly(w: seq<Word>, key: Bytes, j: nat)
    requires |key| <= 32
  {
    && |w| == 140 && j <= 33
    && (forall l :: 0 <= l < j ==> QuadAt(w, Offset(l)) == RoundKey(key, l))
    && (forall l :: j <= l < 33 ==> QuadAt(w, Offset(l)) == PrekeyQuad(key, l))
  }

  function Offset(j: nat): (o: nat)
    ensures j < 33 ==> o + 4 <= 140
  {
    8 + 4 * j
  }

  lemma PartlyNext(was: seq<Word>, w: seq<Word>, key: Bytes, j: nat, n: nat)
    requires |key| <= 32 && j < 33 && n == Mod8(35 - j) && Partly(was, key, j)
    requires w == Replaced(was, Offset(j), Box(n, QuadAt(was, Offset(j))))
    ensures Partly(w, key, j + 1)
  {
    hide Replaced, QuadAt, Box, PrekeyQuad, Mod8;
    forall l | 0 <= l < 33
      ensures QuadAt(w, Offset(l)) == if l == j then RoundKey(key, j) else QuadAt(was, Offset(l))
    {
      ReplacedAt(was, Offset(j), Box(n, QuadAt(was, Offset(j))), Offset(l));
    }
  }

  lemma NonePartly(w: seq<Word>, key: Bytes)
    requires |w| == 140 && |key| <= 32 && forall n :: 0 <= n < 140 ==> w[n] == Prekey(key, n)
    ensures Partly(w, key, 0)
  {
    hide Prekey;
  }

  lemma AllPartly(w: seq<Word>, key: Bytes)
    requires |key| <= 32 && Partly(w, key, 33)
    ensures |w| == 140 && forall j :: 0 <= j < 33 ==> KeyAt(w[8..], j) == RoundKey(key, j)
  {
    hide RoundKey;
    forall j | 0 <= j < 33
      ensures KeyAt(w[8..], j) == RoundKey(key, j)
    {
      assert KeyAt(w[8..], j) == QuadAt(w, Offset(j));
    }
  }

  /** Round key j in place. */
  method NextKey(k: array<Word>, j: nat, n: nat, ghost key: Bytes)
    requires k.Length == 140 && |key| <= 32 && j < 33 && n == Mod8(35 - j) && Partly(k[..], key, j)
    modifies k
    ensures Partly(k[..], key, j + 1)
  {
    hide Partly, Box, Replaced, QuadAt;
    ghost var was := k[..];
    Substitute(k, 8 + 4 * j, n);
    PartlyNext(was, k[..], key, j, n);
  }

  // ---------------------------------------------------------------- the cipher

  class Serpent {
    const keybuf: array<Word>

    ghost predicate Ready() {
      keybuf.Length == 140
    }

    /** The round keys, m_key. */
    ghost function Keys(): seq<Word>
      requires Ready()
      reads keybuf
    {
      keybuf[8..]
    }

    ghost predicate Keyed(key: Bytes)
      requires |key| <= 32
      reads keybuf
    {
      Ready() && forall j :: 0 <= j < 33 ==> KeyAt(Keys(), j) == RoundKey(key, j)
    }

    constructor ()
      ensures Ready() && fresh(keybuf)
    {
      keybuf := new Word[140](i => 0);
    }

    /** SetKeyInternal. */
    method SetKey(key: Bytes)
      requires Ready() && |key| <= 32
      modifies keybuf
      ensures Keyed(key)
    {
      hide Partly, KeyAt, RoundKey, Prekey;
      LoadKey(keybuf, key);
      Expand(keybuf, key);
      NonePartly(keybuf[..], key);
      for i := 0 to 4
        invariant Partly(keybuf[..], key, 8 * i)
      {
        NextKey(keybuf, 8 * i, 3, key);
        NextKey(keybuf, 8 * i + 1, 2, key);
        NextKey(keybuf, 8 * i + 2, 1, key);
        NextKey(keybuf, 8 * i + 3, 0, key);
        NextKey(keybuf, 8 * i + 4, 7, key);
        NextKey(keybuf, 8 * i + 5, 6, key);
        NextKey(keybuf, 8 * i + 6, 5, key);
        NextKey(keybuf, 8 * i + 7, 4, key);
      }
      NextKey(keybuf, 32, 3, key);
      AllPartly(keybuf[..], key);
      assert keybuf[..][8..] == keybuf[8..];
    }

    /** Encrypt; out may be inp. */
    method Encrypt(out: array<bv8>, inp: array<bv8>)
      requires Ready() && out.Length == inp.Length == 16 && (out as object) != keybuf
      modifies out
      ensures out[..] == BytesOf(Sealed(QuadOf(old(inp[..])), Keys()))
    {
      hide *;
      var b := new Word[4](i => 0);
      Fill(b, QuadOf(inp[..]));
      ghost var x, k := QuadOf(inp[..]), Keys();
      KeysLength();
      NoRounds(x, k);
      for i := 0 to 4
        invariant i < 4 && Held(b) == Rounds(x, k, 8 * i)
      {
        SevenRounds(b, keybuf, i, x);
        if i == 3 {
          break;
        }
        RoundsNext(x, k, i, 7);
        EncryptRound(b, keybuf, 8 * i + 7, 7);
      }
      AddKey(b, keybuf, 31);
      Substituted(b, 7);
      AddKey(b, keybuf, 32);
      SealedIs(x, k);
      Words.CopyInto(out, BytesOf(Taken(b)));
    }

    /** Decrypt; out may be inp. */
    method Decrypt(out: array<bv8>, inp: array<bv8>)
      requires Ready() && out.Length == inp.Length == 16 && (out as object) != keybuf
      modifies out
      ensures out[..] == BytesOf(Opened(QuadOf(old(inp[..])), Keys()))
    {
      hide *;
      var b := new Word[4](i => 0);
      Fill(b, QuadOf(inp[..]));
      ghost var x, k := QuadOf(inp[..]), Keys();
      KeysLength();
      AddKey(b, keybuf, 32);
      Unsubstituted(b, 7);
      AddKey(b, keybuf, 31);
      ghost var y := Held(b);
      OpenedIs(x, k);
      LeftIs(0);
      for i := 0 to 4
        invariant InvRounds(y, k, 31) == InvRounds(Held(b), k, Left(i))
      {
        LeftIs(i);
        if i > 0 {
          InvRoundsNext(Held(b), k, 3 - i, 7);
          DecryptRound(b, keybuf, 8 * (3 - i) + 7, 7);
        }
        SevenBack(b, keybuf, 3 - i);
      }
      LeftIs(4);
      NoRounds(Held(b), k);
      Words.CopyInto(out, BytesOf(Taken(b)));
    }

    /** Decryption gives back every block that was encrypted, for every key of up to 32 bytes. */
    method RoundTrip(out: array<bv8>, inp: array<bv8>)
      requires Ready() && out.Length == inp.Length == 16 && (out as object) != keybuf
      modifies out
      ensures out[..] == old(inp[..])
    {
      hide *;
      KeysLength();
      Encrypt(out, inp);
      Decrypt(out, out);
      QuadOfBytes(Sealed(QuadOf(old(inp[..])), Keys()));
      SealedOpens(QuadOf(old(inp[..])), Keys());
      BytesOfQuad(old(inp[..]));
    }

    lemma KeysLength()
      requires Ready()
      ensures keybuf.Length == 140 && |Keys()| == 132 && Keys() == keybuf[8..]
    {}
  }

  /** memcpy into the block. */
  method Fill(b: array<Word>, q: Quad)
    requires b.Length == 4
    modifies b
    ensures Held(b) == q
  {
    b[0], b[1], b[2], b[3] := q.a, q.b, q.c, q.d;
  }

  function Taken(b: array<Word>): (q: Quad)
    requires b.Length == 4
    reads b
    ensures q == Held(b)
  {
    Quad(b[0], b[1], b[2], b[3])
  }
}
