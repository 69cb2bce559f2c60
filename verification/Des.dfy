/** DES and triple DES (impl/block/des/des.cc), for any combined substitution and permutation boxes. */
module Des {
  import opened Bits
  import Words
  import opened Counter
  import opened DesSpec

  type Bytes = Words.Bytes

  // ---------------------------------------------------------------- words and bytes

  function PairOf(b: Bytes): Pair
    requires |b| == 8
  {
    Pair(LoadWord32(b[..4]), LoadWord32(b[4..]))
  }

  function BytesOf(p: Pair): (b: Bytes)
    ensures |b| == 8
  {
    StoreWord32(p.l) + StoreWord32(p.r)
  }

  lemma PairOfBytes(p: Pair)
    ensures PairOf(BytesOf(p)) == p
  {
    hide LoadWord32, StoreWord32;
    LoadStore32(p.l);
    LoadStore32(p.r);
    assert BytesOf(p)[..4] == StoreWord32(p.l) && BytesOf(p)[4..] == StoreWord32(p.r);
  }

  lemma BytesOfPair(b: Bytes)
    requires |b| == 8
    ensures BytesOf(PairOf(b)) == b
  {
    hide LoadWord32, StoreWord32;
    StoreLoadWord32(b[..4]);
    StoreLoadWord32(b[4..]);
    assert b == b[..4] + b[4..];
  }

  // ---------------------------------------------------------------- the key schedule

  /** pc1: the key bits that make up the two halves, counted from one. */
  function PC1(j: nat): (l: nat)
    requires j < 56
    ensures 1 <= l <= 64
  {
    match j
    case 0 => 57
    case 1 => 49
    case 2 => 41
    case 3 => 33
    case 4 => 25
    case 5 => 17
    case 6 => 9
    case 7 => 1
    case 8 => 58
    case 9 => 50
    case 10 => 42
    case 11 => 34
    case 12 => 26
    case 13 => 18
    case 14 => 10
    case 15 => 2
    case 16 => 59
    case 17 => 51
    case 18 => 43
    case 19 => 35
    case 20 => 27
    case 21 => 19
    case 22 => 11
    case 23 => 3
    case 24 => 60
    case 25 => 52
    case 26 => 44
    case 27 => 36
    case 28 => 63
    case 29 => 55
    case 30 => 47
    case 31 => 39
    case 32 => 31
    case 33 => 23
    case 34 => 15
    case 35 => 7
    case 36 => 62
    case 37 => 54
    case 38 => 46
    case 39 => 38
    case 40 => 30
    case 41 => 22
    case 42 => 14
    case 43 => 6
    case 44 => 61
    case 45 => 53
    case 46 => 45
    case 47 => 37
    case 48 => 29
    case 49 => 21
    case 50 => 13
    case 51 => 5
    case 52 => 28
    case 53 => 20
    case 54 => 12
    case _ => 4
  }

  /** totrot: the rotations of the halves so far. */
  function TotRot(j: nat): (l: nat)
    requires j < 16
    ensures 1 <= l <= 28
  {
    match j
    case 0 => 1
    case 1 => 2
    case 2 => 4
    case 3 => 6
    case 4 => 8
    case 5 => 10
    case 6 => 12
    case 7 => 14
    case 8 => 15
    case 9 => 17
    case 10 => 19
    case 11 => 21
    case 12 => 23
    case 13 => 25
    case 14 => 27
    case _ => 28
  }

  /** pc2: the bits of the halves that make up a round key, counted from one. */
  function PC2(j: nat): (l: nat)
    requires j < 48
    ensures 1 <= l <= 56
  {
    match j
    case 0 => 14
    case 1 => 17
    case 2 => 11
    case 3 => 24
    case 4 => 1
    case 5 => 5
    case 6 => 3
    case 7 => 28
    case 8 => 15
    case 9 => 6
    case 10 => 21
    case 11 => 10
    case 12 => 23
    case 13 => 19
    case 14 => 12
    case 15 => 4
    case 16 => 26
    case 17 => 8
    case 18 => 16
    case 19 => 7
    case 20 => 27
    case 21 => 20
    case 22 => 13
    case 23 => 2
    case 24 => 41
    case 25 => 52
    case 26 => 31
    case 27 => 37
    case 28 => 47
    case 29 => 55
    case 30 => 30
    case 31 => 40
    case 32 => 51
    case 33 => 45
    case 34 => 33
    case 35 => 48
    case 36 => 44
    case 37 => 49
    case 38 => 39
    case 39 => 56
    case 40 => 34
    case 41 => 53
    case 42 => 46
    case 43 => 42
    case 44 => 50
    case 45 => 36
    case 46 => 29
    case _ => 32
  }

  /** The entries, as positions. */
  function Choice1(j: nat): (l: nat)
    requires j < 56
    ensures l < 64
  {
    PC1(j) - 1
  }

  function Choice2(j: nat): (l: nat)
    requires j < 48
    ensures l < 56
  {
    PC2(j) - 1
  }

  /** Bit l of the key, the most significant bit of each byte first. */
  function KeyBit(key: Bytes, l: nat): bool
    requires |key| >= 8 && l < 64
  {
    BitOf(key[l / 8], l % 8)
  }

  function BitOf(b: bv8, m: nat): bool
    requires m < 8
  {
    (b >> (7 - m)) & 1 == 1
  }

  /** Where bit j of the rotated halves comes from. */
  function Source(i: nat, j: nat): (l: nat)
    requires i < 16 && j < 56
    ensures l < 56
  {
    var l := j + TotRot(i);
    if l < (if j < 28 then 28 else 56) then l else l - 28
  }

  /** Bit j of round key i. */
  function RoundBit(key: Bytes, i: nat, j: nat): bool
    requires |key| >= 8 && i < 16 && j < 48
  {
    KeyBit(key, Choice1(Source(i, Choice2(j))))
  }

  /** bytebit[l] >> 2. */
  function Place(l: nat): bv8
    requires l < 6
  {
    0x20 >> l
  }

  /** The first n bits of group g of round key i. */
  function Group(key: Bytes, i: nat, g: nat, n: nat): bv8
    requires |key| >= 8 && i < 16 && g < 8 && n <= 6
  {
    if n == 0 then 0
    else
      var b := Group(key, i, g, n - 1);
      if RoundBit(key, i, 6 * g + n - 1) then Words.OrByte(b, Place(n - 1)) else b
  }

  function Packed(a: bv8, b: bv8, c: bv8, d: bv8): Word { LoadWord32([a, b, c, d]) }

  /** The two words of round key i: the even groups, then the odd ones. */
  function RoundKey(key: Bytes, i: nat): Pair
    requires |key| >= 8 && i < 16
  {
    Pair(Packed(Group(key, i, 0, 6), Group(key, i, 2, 6), Group(key, i, 4, 6), Group(key, i, 6, 6)),
         Packed(Group(key, i, 1, 6), Group(key, i, 3, 6), Group(key, i, 5, 6), Group(key, i, 7, 6)))
  }

  /** The groups that are complete after j bits. */
  ghost predicate Filled(ks: seq<bv8>, key: Bytes, i: nat, j: nat)
    requires |key| >= 8 && i < 16
  {
    |ks| == 8 && j <= 48 && forall g :: 0 <= g < 8 ==> ks[g] == Group(key, i, g, Done(g, j))
  }

  function Done(g: nat, j: nat): (n: nat)
    ensures n <= 6
  {
    if 6 * g + 6 <= j then 6 else if j <= 6 * g then 0 else j - 6 * g
  }

  lemma DoneNext(g: nat, j: nat)
    ensures g == j / 6 ==> Done(g, j) == j % 6 && Done(g, j + 1) == j % 6 + 1
    ensures g != j / 6 ==> Done(g, j + 1) == Done(g, j)
  {}

  lemma GroupNext(key: Bytes, i: nat, g: nat, n: nat, j: nat)
    requires |key| >= 8 && i < 16 && g < 8 && n < 6 && j == 6 * g + n
    ensures Group(key, i, g, n + 1)
         == if RoundBit(key, i, j) then Words.OrByte(Group(key, i, g, n), Place(n)) else Group(key, i, g, n)
  {
    hide RoundBit, Words.OrByte, Place;
  }

  /** One more bit into its group. */
  method PutBit(ks: array<bv8>, bit: bool, j: nat, ghost key: Bytes, ghost i: nat)
    requires |key| >= 8 && i < 16 && j < 48 && Filled(ks[..], key, i, j) && bit == RoundBit(key, i, j)
    modifies ks
    ensures Filled(ks[..], key, i, j + 1)
  {
    hide Group, RoundBit, Words.OrByte, Place, Done;
    GroupNext(key, i, j / 6, j % 6, j);
    forall g | 0 <= g < 8
      ensures g == j / 6 ==> Done(g, j) == j % 6 && Done(g, j + 1) == j % 6 + 1
      ensures g != j / 6 ==> Done(g, j + 1) == Done(g, j)
    {
      DoneNext(g, j);
    }
    if bit {
      ks[j / 6] := Words.OrByte(ks[j / 6], Place(j % 6));
    }
  }

  /** One round key. */
  method Groups(pc1m: array<bool>, i: nat, ghost key: Bytes) returns (ks: array<bv8>)
    requires |key| >= 8 && i < 16 && Chosen(pc1m[..], key)
    ensures fresh(ks) && Filled(ks[..], key, i, 48)
  {
    hide KeyBit, Choice1, Choice2, Source, Group;
    var pcr := new bool[56];
    for j := 0 to 56
      invariant forall l :: 0 <= l < j ==> pcr[l] == KeyBit(key, Choice1(Source(i, l)))
    {
      pcr[j] := pc1m[Source(i, j)];
    }
    ks := new bv8[8](l => 0);
    NoneFilled(ks[..], key, i);
    for j := 0 to 48
      invariant fresh(ks) && Filled(ks[..], key, i, j)
      invariant forall l :: 0 <= l < 56 ==> pcr[l] == KeyBit(key, Choice1(Source(i, l)))
    {
      PutBit(ks, pcr[Choice2(j)], j, key, i);
    }
  }

  lemma NoneFilled(ks: seq<bv8>, key: Bytes, i: nat)
    requires |key| >= 8 && i < 16 && |ks| == 8 && forall g :: 0 <= g < 8 ==> ks[g] == 0
    ensures Filled(ks, key, i, 0)
  {
    hide RoundBit;
  }

  lemma RoundKeyIs(ks: seq<bv8>, key: Bytes, i: nat)
    requires |key| >= 8 && i < 16 && Filled(ks, key, i, 48)
    ensures |ks| == 8
    ensures RoundKey(key, i) == Pair(Packed(ks[0], ks[2], ks[4], ks[6]), Packed(ks[1], ks[3], ks[5], ks[7]))
  {
    hide Group, Packed;
  }

  /** The key words of the first n rounds. */
  ghost predicate Scheduled(k: seq<Word>, key: Bytes, n: nat)
    requires |key| >= 8
  {
    |k| == 32 && n <= 16 && forall i :: 0 <= i < n ==> PairAt(k, i) == RoundKey(key, i)
  }

  lemma NoneScheduled(k: seq<Word>, key: Bytes)
    requires |key| >= 8 && |k| == 32
    ensures Scheduled(k, key, 0)
  {}

  lemma ScheduledNext(was: seq<Word>, k: seq<Word>, key: Bytes, i: nat)
    requires |key| >= 8 && i < 16 && Scheduled(was, key, i)
    requires k == was[2 * i := RoundKey(key, i).l][2 * i + 1 := RoundKey(key, i).r]
    ensures Scheduled(k, key, i + 1)
  {
    hide RoundKey;
    forall j | 0 <= j < i + 1
      ensures PairAt(k, j) == RoundKey(key, j)
    {
      assert j < i ==> PairAt(k, j) == PairAt(was, j);
    }
  }

  /** The halves: the chosen bits of the key. */
  method KeyHalves(key: Bytes) returns (pc1m: array<bool>)
    requires |key| >= 8
    ensures fresh(pc1m) && Chosen(pc1m[..], key)
  {
    hide KeyBit, Choice1;
    pc1m := new bool[56];
    for j := 0 to 56
      invariant forall l :: 0 <= l < j ==> pc1m[l] == KeyBit(key, Choice1(l))
    {
      pc1m[j] := KeyBit(key, Choice1(j));
    }
  }

  ghost predicate Chosen(bits: seq<bool>, key: Bytes)
    requires |key| >= 8
  {
    |bits| == 56 && forall j :: 0 <= j < 56 ==> bits[j] == KeyBit(key, Choice1(j))
  }

  /** The key words of all rounds. */
  method RoundKeys(k: array<Word>, key: Bytes)
    requires |key| >= 8 && k.Length == 32
    modifies k
    ensures Scheduled(k[..], key, 16)
  {
    hide RoundKey, Chosen, Scheduled, Filled, Packed;
    var pc1m := KeyHalves(key);
    NoneScheduled(k[..], key);
    for i := 0 to 16
      invariant fresh(pc1m) && Chosen(pc1m[..], key) && Scheduled(k[..], key, i)
    {
      var ks := Groups(pc1m, i, key);
      RoundKeyIs(ks[..], key, i);
      ghost var was := k[..];
      k[2 * i] := Packed(ks[0], ks[2], ks[4], ks[6]);
      k[2 * i + 1] := Packed(ks[1], ks[3], ks[5], ks[7]);
      ScheduledNext(was, k[..], key, i);
    }
  }

  // ---------------------------------------------------------------- DES

  class Des {
    const sp: Boxes
    const k: array<Word>
    const kd: array<Word>

    ghost predicate Ready() {
      k.Length == 32 && kd.Length == 32 && k != kd
    }

    ghost predicate Keyed(key: Bytes)
      requires |key| >= 8
      reads k, kd
    {
      Ready() && Scheduled(k[..], key, 16) && Reversed(k[..], kd[..])
    }

    constructor (sp: Boxes)
      ensures Ready() && this.sp == sp && fresh(k) && fresh(kd)
    {
      this.sp := sp;
      k := new Word[32](i => 0);
      kd := new Word[32](i => 0);
    }

    /** SetKeyInternal. */
    method SetKey(key: Bytes)
      requires Ready() && |key| >= 8
      modifies k, kd
      ensures Keyed(key)
    {
      hide RoundKey, Reversed;
      RoundKeys(k, key);
      CopyWordsAll();
      ghost var keys := k[..];
      Reverse(kd);
      assert k[..] == keys;
    }

    /** memcpy(m_kd, m_k). */
    method CopyWordsAll()
      requires Ready()
      modifies kd
      ensures kd[..] == k[..]
    {
      for i := 0 to 32
        invariant forall j :: 0 <= j < i ==> kd[j] == k[j]
      {
        kd[i] := k[i];
      }
    }

    /** Encrypt; out may be inp. */
    method Encrypt(out: array<bv8>, inp: array<bv8>)
      requires Ready() && out.Length == inp.Length == 8 && (out as object) != k && (out as object) != kd
      modifies out
      ensures out[..] == BytesOf(Crypt(sp, k[..], PairOf(old(inp[..]))))
    {
      hide *;
      Sizes();
      var x := IPerm(PairOf(inp[..]));
      x := ProcessBlock(sp, k[..], x);
      CryptIs(sp, k[..], PairOf(inp[..]));
      Words.CopyInto(out, BytesOf(Swap(FPerm(x))));
    }

    /** Decrypt: the same with the other keys; out may be inp. */
    method Decrypt(out: array<bv8>, inp: array<bv8>)
      requires Ready() && out.Length == inp.Length == 8 && (out as object) != k && (out as object) != kd
      modifies out
      ensures out[..] == BytesOf(Crypt(sp, kd[..], PairOf(old(inp[..]))))
    {
      hide *;
      Sizes();
      var x := IPerm(PairOf(inp[..]));
      x := ProcessBlock(sp, kd[..], x);
      CryptIs(sp, kd[..], PairOf(inp[..]));
      Words.CopyInto(out, BytesOf(Swap(FPerm(x))));
    }

    lemma Sizes()
      requires Ready()
      ensures |k[..]| == 32 && |kd[..]| == 32
    {}

    /** Decryption gives back every block that was encrypted, for every key and any boxes. */
    method RoundTrip(out: array<bv8>, inp: array<bv8>, ghost key: Bytes)
      requires |key| >= 8 && Keyed(key)
      requires out.Length == inp.Length == 8 && (out as object) != k && (out as object) != kd
      modifies out
      ensures out[..] == old(inp[..])
    {
      hide *;
      KeyedKeys(key);
      ghost var p := PairOf(inp[..]);
      Sizes();
      BytesOfPair(inp[..]);
      PairOfBytes(Crypt(sp, k[..], p));
      CryptInverse(sp, k[..], kd[..], p);
      Encrypt(out, inp);
      Decrypt(out, out);
    }

    lemma KeyedKeys(key: Bytes)
      requires |key| >= 8 && Keyed(key)
      ensures Ready() && Reversed(k[..], kd[..])
    {
      hide RoundKey, Reversed;
    }
  }

  lemma CryptIs(s: Boxes, k: seq<Word>, p: Pair)
    requires |k| == 32
    ensures Crypt(s, k, p) == Swap(FPerm(Process(s, k, IPerm(p))))
  {}

  /** The pairs of words that are exchanged, from both ends. */
  method Reverse(d: array<Word>)
    requires d.Length == 32
    modifies d
    ensures Reversed(old(d[..]), d[..])
  {
    ghost var was := d[..];
    var i := 0;
    while i < 16
      invariant i % 2 == 0 && i <= 16
      invariant forall j :: 0 <= j < 16 ==> Mirrored(was, d[..], j, i)
    {
      ghost var now, next := d[..], i + 2;
      d[i], d[30 - i] := d[30 - i], d[i];
      d[i + 1], d[31 - i] := d[31 - i], d[i + 1];
      forall j | 0 <= j < 16
        ensures Mirrored(was, d[..], j, next)
      {
        MirroredNext(was, now, d[..], j, i, next);
      }
      i := i + 2;
    }
    forall j | 0 <= j < 16
      ensures PairAt(d[..], j) == PairAt(was, 15 - j)
    {
      assert Mirrored(was, d[..], j, 16);
    }
  }

  /** Pair j once the first i words and the last i have been exchanged. */
  ghost predicate Mirrored(was: seq<Word>, d: seq<Word>, j: nat, i: nat)
    requires j < 16
  {
    |was| == |d| == 32 && PairAt(d, j) == if 2 * j < i || 30 - 2 * j < i then PairAt(was, 15 - j) else PairAt(was, j)
  }

  lemma MirroredNext(was: seq<Word>, now: seq<Word>, d: seq<Word>, j: nat, i: nat,
                     next: nat)
    requires |was| == |now| == |d| == 32 && j < 16 && i < 16 && i % 2 == 0 && next == i + 2
    requires Mirrored(was, now, j, i) && Mirrored(was, now, 15 - j, i)
    requires d == now[i := now[30 - i]][30 - i := now[i]][i + 1 := now[31 - i]][31 - i := now[i + 1]]
    ensures Mirrored(was, d, j, next)
  {
    if 2 * j == i || 2 * j == 30 - i {
      assert PairAt(d, j) == PairAt(now, 15 - j);
    } else {
      assert PairAt(d, j) == PairAt(now, j);
    }
  }

  /** ProcessBlock: two rounds a turn, without moving the halves. */
  method ProcessBlock(s: Boxes, k: seq<Word>, p: Pair) returns (q: Pair)
    requires |k| == 32
    ensures q == Process(s, k, p)
  {
    hide *;
    var l, r := p.l, p.r;
    NoRounds(s, p, k);
    for i := 0 to 8
      invariant Pair(l, r) == Rounds(s, p, k, 2 * i)
    {
      RoundsNext(s, p, k, 2 * i);
      RoundsNext(s, p, k, 2 * i + 1);
      l := Xor(l, F(s, r, k[4 * i], k[4 * i + 1]));
      r := Xor(r, F(s, l, k[4 * i + 2], k[4 * i + 3]));
    }
    q := Pair(l, r);
    ProcessIs(s, k, p);
  }

  lemma NoRounds(s: Boxes, p: Pair, k: seq<Word>)
    ensures Rounds(s, p, k, 0) == p
  {}

  lemma ProcessIs(s: Boxes, k: seq<Word>, p: Pair)
    requires |k| == 32
    ensures Process(s, k, p) == Rounds(s, p, k, 16)
  {}

  lemma RoundsNext(s: Boxes, p: Pair, k: seq<Word>, n: nat)
    requires 2 * n + 1 < |k|
    ensures var q := Rounds(s, p, k, n);
            Rounds(s, p, k, n + 1) == Pair(q.r, Xor(q.l, F(s, q.r, k[2 * n], k[2 * n + 1])))
  {
    hide Xor, F;
  }

  // ---------------------------------------------------------------- triple DES

  class TripleDes {
    const des1: Des
    const des2: Des
    const des3: Des

    ghost predicate Ready() {
      && des1.Ready() && des2.Ready() && des3.Ready() && des1.sp == des2.sp == des3.sp
      && {des1.k, des1.kd} !! {des2.k, des2.kd} && {des1.k, des1.kd} !! {des3.k, des3.kd}
      && {des2.k, des2.kd} !! {des3.k, des3.kd}
    }

    ghost predicate Apart(out: array<bv8>) {
      && (out as object) != des1.k && (out as object) != des1.kd && (out as object) != des2.k
      && (out as object) != des2.kd && (out as object) != des3.k && (out as object) != des3.kd
    }

    constructor (sp: Boxes)
      ensures Ready() && des1.sp == sp
    {
      des1 := new Des(sp);
      des2 := new Des(sp);
      des3 := new Des(sp);
    }

    /** The third key, which for a key of sixteen bytes is the first again. */
    static function Third(key: Bytes): Bytes
      requires |key| >= 16 && (|key| == 24 || |key| == 16)
    {
      if |key| == 24 then key[16..] else key[..8]
    }

    ghost predicate Keyed(key: Bytes)
      requires |key| == 16 || |key| == 24
      reads des1.k, des1.kd, des2.k, des2.kd, des3.k, des3.kd
    {
      Ready() && des1.Keyed(key[..8]) && des2.Keyed(key[8..16]) && des3.Keyed(Third(key))
    }

    /** SetKeyInternal. */
    method SetKey(key: Bytes)
      requires Ready() && (|key| == 16 || |key| == 24)
      modifies des1.k, des1.kd, des2.k, des2.kd, des3.k, des3.kd
      ensures Keyed(key)
    {
      hide Des.Keyed;
      Distinct();
      des1.SetKey(key[..8]);
      des2.SetKey(key[8..16]);
      des3.SetKey(Third(key));
    }

    lemma Distinct()
      requires Ready()
      ensures des1.Ready() && des2.Ready() && des3.Ready() && des1.sp == des2.sp == des3.sp
      ensures des1.k != des2.k && des1.k != des2.kd && des1.kd != des2.k && des1.kd != des2.kd
      ensures des1.k != des3.k && des1.k != des3.kd && des1.kd != des3.k && des1.kd != des3.kd
      ensures des2.k != des3.k && des2.k != des3.kd && des2.kd != des3.k && des2.kd != des3.kd
    {}

    /** Encrypt; out may be inp. */
    method Encrypt(out: array<bv8>, inp: array<bv8>)
      requires Ready() && Apart(out) && out.Length == inp.Length == 8
      modifies out
      ensures out[..] == BytesOf(Triple(des1.sp, des1.k[..], des2.kd[..], des3.k[..], PairOf(old(inp[..]))))
    {
      hide *;
      Sizes();
      var x := IPerm(PairOf(inp[..]));
      x := ProcessBlock(des1.sp, des1.k[..], x);
      x := ProcessBlock(des1.sp, des2.kd[..], Swap(x));
      x := ProcessBlock(des1.sp, des3.k[..], Swap(x));
      TripleIs(des1.sp, des1.k[..], des2.kd[..], des3.k[..], PairOf(inp[..]));
      Words.CopyInto(out, BytesOf(Swap(FPerm(x))));
    }

    /** Decrypt; out may be inp. */
    method Decrypt(out: array<bv8>, inp: array<bv8>)
      requires Ready() && Apart(out) && out.Length == inp.Length == 8
      modifies out
      ensures out[..] == BytesOf(Triple(des1.sp, des3.kd[..], des2.k[..], des1.kd[..], PairOf(old(inp[..]))))
    {
      hide *;
      Sizes();
      var x := IPerm(PairOf(inp[..]));
      x := ProcessBlock(des1.sp, des3.kd[..], x);
      x := ProcessBlock(des1.sp, des2.k[..], Swap(x));
      x := ProcessBlock(des1.sp, des1.kd[..], Swap(x));
      TripleIs(des1.sp, des3.kd[..], des2.k[..], des1.kd[..], PairOf(inp[..]));
      Words.CopyInto(out, BytesOf(Swap(FPerm(x))));
    }

    lemma Sizes()
      requires Ready()
      ensures |des1.k[..]| == 32 && |des1.kd[..]| == 32 && |des2.k[..]| == 32
      ensures |des2.kd[..]| == 32 && |des3.k[..]| == 32 && |des3.kd[..]| == 32
    {}

    /** Decryption gives back every block that was encrypted, for two-key and three-key keys. */
    method RoundTrip(out: array<bv8>, inp: array<bv8>, ghost key: Bytes)
      requires (|key| == 16 || |key| == 24) && Keyed(key) && Apart(out) && out.Length == inp.Length == 8
      modifies out
      ensures out[..] == old(inp[..])
    {
      hide *;
      AllReversed(key);
      Sizes();
      ghost var p := PairOf(inp[..]);
      BytesOfPair(inp[..]);
      PairOfBytes(Triple(des1.sp, des1.k[..], des2.kd[..], des3.k[..], p));
      TripleInverse(des1.sp, des1.k[..], des1.kd[..], des2.k[..], des2.kd[..], des3.k[..], des3.kd[..], p);
      Encrypt(out, inp);
      Apart6(out);
      Decrypt(out, out);
    }

    lemma Apart6(out: array<bv8>)
      requires Apart(out)
      ensures (out as object) != des1.k && (out as object) != des1.kd && (out as object) != des2.k
      ensures (out as object) != des2.kd && (out as object) != des3.k && (out as object) != des3.kd
    {}

    lemma AllReversed(key: Bytes)
      requires (|key| == 16 || |key| == 24) && Keyed(key)
      ensures Ready() && Reversed(des1.k[..], des1.kd[..]) && Reversed(des2.k[..], des2.kd[..])
      ensures Reversed(des3.k[..], des3.kd[..])
    {
      hide Reversed, RoundKey;
    }

    /** A key that repeats one key three times: triple DES encrypts as DES does. */
    lemma OneKey(key: Bytes, single: Des, p: Pair)
      requires |key| == 24 && Keyed(key) && key[8..16] == key[..8] && key[16..] == key[..8]
      requires single.Keyed(key[..8]) && single.sp == des1.sp
      ensures |des1.k[..]| == 32 && |des2.kd[..]| == 32 && |des3.k[..]| == 32 && |single.k[..]| == 32
      ensures Triple(des1.sp, des1.k[..], des2.kd[..], des3.k[..], p) == Crypt(single.sp, single.k[..], p)
    {
      hide *;
      AllReversed(key);
      Sizes();
      Parts(key);
      SameKeys(des1, des2, key[..8]);
      SameKeys(des1, des3, key[..8]);
      SameKeys(des1, single, key[..8]);
      TripleIsSingle(des1.sp, des1.k[..], des2.kd[..], p);
    }

    lemma Parts(key: Bytes)
      requires |key| == 24 && Keyed(key) && key[8..16] == key[..8] && key[16..] == key[..8]
      ensures des1.Keyed(key[..8]) && des2.Keyed(key[..8]) && des3.Keyed(key[..8])
    {
      hide Des.Keyed;
    }
  }

  lemma SameKeys(a: Des, b: Des, key: Bytes)
    requires |key| >= 8 && a.Keyed(key) && b.Keyed(key)
    ensures a.Ready() && b.Ready() && a.k[..] == b.k[..]
  {
    hide RoundKey, Reversed;
    forall i | 0 <= i < 32
      ensures a.k[..][i] == b.k[..][i]
    {
      assert PairAt(a.k[..], i / 2) == RoundKey(key, i / 2) == PairAt(b.k[..], i / 2);
    }
  }

  lemma TripleIs(s: Boxes, k1: seq<Word>, k2: seq<Word>, k3: seq<Word>, p: Pair)
    requires |k1| == |k2| == |k3| == 32
    ensures var v := Process(s, k2, Swap(Process(s, k1, IPerm(p))));
            Triple(s, k1, k2, k3, p) == Swap(FPerm(Process(s, k3, Swap(v))))
  {
    hide Process, IPerm, FPerm, Swap;
  }
}
