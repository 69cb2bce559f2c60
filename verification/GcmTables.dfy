/** The two multipliers of impl/mode/gcm.cc: bit by bit over H, and by a 64 KiB table of byte multiples of H. */
module GcmTables {
  import opened Words
  import opened GF128

  /** mul: overwrites buf with buf times h. */
  method MulBitwise(h: Bytes16, buf: array<bv8>)
    requires buf.Length == 16
    modifies buf
    ensures buf[..] == Store(Mul(Load(old(buf[..])), Load(h)))
  {
    ghost var a := Load(buf[..]);
    StoreLoad(h);
    var z := ZERO;
    var v := Load(buf[..]);
    for i := 0 to 16
      invariant z == Prod(a, h, i) && v == Pow(8 * i, a)
    {
      ghost var z0, v0 := z, v;
      XorUnit(z0);
      ghost var k := 0;
      var j: bv8 := 0x80;
      while j != 0
        invariant k <= 8 && j == Mask(k)
        invariant z == Xor(z0, ByteSum(v0, h[i], k)) && v == Pow(k, v0)
        decreases 8 - k
      {
        var x := Keep(h[i], j) != 0;
        BitStep(z0, v0, h[i], k);
        MaskHalf(k);
        z := if x then Xor(z, v) else z;
        v := MulX(v);
        j := HalfByte(j);
        k := k + 1;
      }
      MaskZero(k);
      ByteStep(a, h, i);
    }
    StoreBlock(buf, z);
  }

  /** E::Copy of two words into a byte buffer. */
  method StoreBlock(buf: array<bv8>, x: Block)
    requires buf.Length == 16
    modifies buf
    ensures buf[..] == Store(x)
  {
    var c := Store(x);
    forall n | 0 <= n < 16 {
      buf[n] := c[n];
    }
    assert buf[..] == c;
  }

  lemma MaskZero(k: nat)
    requires k <= 8 && Mask(k) == 0
    ensures k == 8
  {
  }

  lemma ByteStep(a: Block, h: Bytes16, i: nat)
    requires i < 16
    ensures Prod(a, h, i + 1) == Xor(Prod(a, h, i), ByteSum(Pow(8 * i, a), h[i], 8))
    ensures Pow(8 * (i + 1), a) == Pow(8, Pow(8 * i, a))
  {
    PowAdd(8, 8 * i, a);
  }

  lemma BitStep(p: Block, v: Block, c: bv8, k: nat)
    requires k < 8
    ensures Xor(p, ByteSum(v, c, k + 1))
         == if BitAt(c, k) then Xor(Xor(p, ByteSum(v, c, k)), Pow(k, v)) else Xor(p, ByteSum(v, c, k))
  {
    XorAssoc(p, ByteSum(v, c, k), Term(v, c, k));
    XorUnit(ByteSum(v, c, k));
  }

  /** Powers of two up to 256. */
  function Two(n: nat): (r: nat)
    requires n <= 8
    ensures 0 < r && (n < 8 ==> r <= 128)
  {
    match n
    case 0 => 1
    case 1 => 2
    case 2 => 4
    case 3 => 8
    case 4 => 16
    case 5 => 32
    case 6 => 64
    case 7 => 128
    case 8 => 256
  }

  function Drop(w: nat, m: nat): nat
    requires m < 8
  {
    if w >= Two(m) then w - Two(m) else w
  }

  /** Multiples of v by the low m bits of w: bit 7 - k of w selects x^k v. */
  function LowSum(v: Block, w: nat, m: nat): Block
    requires m <= 8
  {
    if m == 0 then ZERO
    else Xor(LowSum(v, Drop(w, m - 1), m - 1), if w >= Two(m - 1) then Pow(8 - m, v) else ZERO)
  }

  /** The table entry for byte value w in row r. */
  function Entry(h: Block, r: nat, w: nat): Block {
    LowSum(Pow(8 * r, h), w, 8)
  }

  function Value(c: bv8): (r: nat)
    ensures r < 256
  {
    c as int
  }

  function LowMask(n: nat): bv8
    requires n <= 8
  {
    match n
    case 0 => 0xff
    case 1 => 0x7f
    case 2 => 0x3f
    case 3 => 0x1f
    case 4 => 0x0f
    case 5 => 0x07
    case 6 => 0x03
    case 7 => 0x01
    case 8 => 0
  }

  lemma SplitBit0(c: bv8)
    ensures Keep(c, 0x80) != 0 <==> Value(Keep(c, 0xff)) >= 128
    ensures Value(Keep(c, 0x7f)) == Drop(Value(Keep(c, 0xff)), 7)
  {}

  lemma SplitBit1(c: bv8)
    ensures Keep(c, 0x40) != 0 <==> Value(Keep(c, 0x7f)) >= 64
    ensures Value(Keep(c, 0x3f)) == Drop(Value(Keep(c, 0x7f)), 6)
  {}

  lemma SplitBit2(c: bv8)
    ensures Keep(c, 0x20) != 0 <==> Value(Keep(c, 0x3f)) >= 32
    ensures Value(Keep(c, 0x1f)) == Drop(Value(Keep(c, 0x3f)), 5)
  {}

  lemma SplitBit3(c: bv8)
    ensures Keep(c, 0x10) != 0 <==> Value(Keep(c, 0x1f)) >= 16
    ensures Value(Keep(c, 0x0f)) == Drop(Value(Keep(c, 0x1f)), 4)
  {}

  lemma SplitBit4(c: bv8)
    ensures Keep(c, 0x08) != 0 <==> Value(Keep(c, 0x0f)) >= 8
    ensures Value(Keep(c, 0x07)) == Drop(Value(Keep(c, 0x0f)), 3)
  {}

  lemma SplitBit5(c: bv8)
    ensures Keep(c, 0x04) != 0 <==> Value(Keep(c, 0x07)) >= 4
    ensures Value(Keep(c, 0x03)) == Drop(Value(Keep(c, 0x07)), 2)
  {}

  lemma SplitBit6(c: bv8)
    ensures Keep(c, 0x02) != 0 <==> Value(Keep(c, 0x03)) >= 2
    ensures Value(Keep(c, 0x01)) == Drop(Value(Keep(c, 0x03)), 1)
  {}

  lemma SplitBit7(c: bv8)
    ensures Keep(c, 0x01) != 0 <==> Value(Keep(c, 0x01)) >= 1
    ensures Value(Keep(c, 0x00)) == Drop(Value(Keep(c, 0x01)), 0)
  {}

  lemma BitArith(c: bv8, n: nat)
    requires n < 8
    ensures Keep(c, Mask(n)) != 0 <==> Value(Keep(c, LowMask(n))) >= Two(7 - n)
    ensures Value(Keep(c, LowMask(n + 1))) == Drop(Value(Keep(c, LowMask(n))), 7 - n)
  {
    hide Keep, Value;
    match n
    case 0 => SplitBit0(c);
    case 1 => SplitBit1(c);
    case 2 => SplitBit2(c);
    case 3 => SplitBit3(c);
    case 4 => SplitBit4(c);
    case 5 => SplitBit5(c);
    case 6 => SplitBit6(c);
    case 7 => SplitBit7(c);
  }

  /** The part of the table entry for c that bits n to 7 contribute. */
  function Rest(v: Block, c: bv8, n: nat): Block
    requires n <= 8
  {
    LowSum(v, Value(Keep(c, LowMask(n))), 8 - n)
  }

  lemma RestStep(v: Block, c: bv8, m: nat, n: nat)
    requires m < 8 && n == m + 1
    ensures Rest(v, c, m) == Xor(Rest(v, c, n), Term(v, c, m))
  {
    BitArith(c, m);
  }

  lemma RestEnds(v: Block, c: bv8)
    ensures Rest(v, c, 0) == LowSum(v, Value(c), 8) && Rest(v, c, 8) == ZERO
  {
    assert Keep(c, 0xff) == c;
  }

  lemma {:induction false} LowSumOfByte(v: Block, c: bv8, n: nat)
    requires n <= 8
    ensures Xor(ByteSum(v, c, n), Rest(v, c, n)) == Rest(v, c, 0)
  {
    if n == 0 {
      XorUnit(Rest(v, c, 0));
    } else {
      var m := n - 1;
      LowSumOfByte(v, c, m);
      RestStep(v, c, m, n);
      XorAssoc(ByteSum(v, c, m), Term(v, c, m), Rest(v, c, n));
      XorComm(Term(v, c, m), Rest(v, c, n));
    }
  }

  lemma EntryOfByte(h: Block, r: nat, c: bv8)
    ensures Entry(h, r, Value(c)) == ByteSum(Pow(8 * r, h), c, 8)
  {
    var v := Pow(8 * r, h);
    LowSumOfByte(v, c, 8);
    RestEnds(v, c);
    XorUnit(ByteSum(v, c, 8));
  }

  lemma {:induction false} LowSumZero(v: Block, m: nat)
    requires m <= 8
    ensures LowSum(v, 0, m) == ZERO
  {
    if m > 0 {
      LowSumZero(v, m - 1);
      XorUnit(ZERO);
    }
  }

  lemma LowSumWiden(v: Block, w: nat, n: nat)
    requires 0 < n <= 8 && w < Two(n - 1)
    ensures LowSum(v, w, n) == LowSum(v, w, n - 1)
  {
    XorUnit(LowSum(v, w, n - 1));
  }

  /** Bits of w above the top one do not matter. */
  lemma {:induction false} LowSumFull(v: Block, w: nat, m: nat)
    requires m <= 8 && w < Two(m)
    ensures LowSum(v, w, 8) == LowSum(v, w, m)
    decreases 8 - m
  {
    if m < 8 {
      var n := m + 1;
      LowSumWiden(v, w, n);
      LowSumFull(v, w, n);
    }
  }

  lemma LowSumSplit(v: Block, m: nat, k: nat)
    requires m < 8 && k < Two(m)
    ensures LowSum(v, Two(m), 8) == Pow(7 - m, v)
    ensures LowSum(v, Two(m) + k, 8) == Xor(LowSum(v, Two(m), 8), LowSum(v, k, 8))
  {
    hide Xor, Pow;
    var n := m + 1;
    LowSumFull(v, Two(m), n);
    LowSumFull(v, Two(m) + k, n);
    LowSumFull(v, k, m);
    LowSumZero(v, m);
    XorUnit(Pow(7 - m, v));
    XorComm(LowSum(v, k, m), Pow(7 - m, v));
  }

  // ---------------------------------------------------------------- gen_table_fl

  type Table = t: seq<Block> | |t| == 4096 witness seq(4096, i => ZERO)

  /** Entry w of row r holds what it should. */
  ghost predicate Right(t: Table, h: Block, r: nat, w: nat)
    requires r < 16 && w < 256
  {
    t[256 * r + w] == Entry(h, r, w)
  }

  ghost predicate RowUpTo(t: Table, h: Block, r: nat, n: nat)
    requires r < 16 && n <= 256
  {
    forall w :: 0 <= w < n ==> Right(t, h, r, w)
  }

  ghost predicate TableFor(t: Table, h: Block) {
    forall r, w :: 0 <= r < 16 && 0 <= w < 256 ==> Right(t, h, r, w)
  }

  /** No entry that was right in t is wrong in u. */
  ghost predicate Keeps(t: Table, u: Table, h: Block) {
    forall r, w :: 0 <= r < 16 && 0 <= w < 256 && Right(t, h, r, w) ==> Right(u, h, r, w)
  }

  lemma SetRight(t: Table, h: Block, r: nat, w: nat)
    requires r < 16 && w < 256
    ensures var u := t[256 * r + w := Entry(h, r, w)]; Keeps(t, u, h) && Right(u, h, r, w)
  {
    hide Entry;
  }

  method SetEntry(h: Block, table: array<Block>, r: nat, w: nat, x: Block)
    requires table.Length == 4096 && r < 16 && w < 256
    requires x == Entry(h, r, w)
    modifies table
    ensures Keeps(old(table[..]), table[..], h) && Right(table[..], h, r, w)
  {
    SetRight(table[..], h, r, w);
    table[256 * r + w] := x;
    assert table[..] == old(table[..])[256 * r + w := x];
  }

  /** gen_table_fl: the table of all multiples of h by a byte in each of the sixteen positions. */
  method GenTable(h: Block, table: array<Block>)
    requires table.Length == 4096
    modifies table
    ensures TableFor(table[..], h)
  {
    hide Right, Entry, MulX;
    var v := h;
    for i := 0 to 128
      invariant v == Pow(i, h)
      invariant forall q :: 0 <= q < i ==> Right(table[..], h, q / 8, Two(7 - q % 8))
    {
      var k := i % 8;
      SingleEntry(h, i / 8, k);
      SetEntry(h, table, i / 8, Two(7 - k), v);
      v := MulX(v);
    }
    SinglesByRow(table[..], h);
    for i := 0 to 16
      invariant forall r, m :: 0 <= r < 16 && 0 <= m < 8 ==> Right(table[..], h, r, Two(m))
      invariant forall r, w :: 0 <= r < i && 0 <= w < 256 ==> Right(table[..], h, r, w)
    {
      FillRow(h, table, i);
    }
  }

  lemma SinglesByRow(t: Table, h: Block)
    requires forall q :: 0 <= q < 128 ==> Right(t, h, q / 8, Two(7 - q % 8))
    ensures forall r, m :: 0 <= r < 16 && 0 <= m < 8 ==> Right(t, h, r, Two(m))
  {
    forall r, m | 0 <= r < 16 && 0 <= m < 8
      ensures Right(t, h, r, Two(m))
    {
      var q := 8 * r + (7 - m);
      assert q / 8 == r && q % 8 == 7 - m;
      assert Right(t, h, q / 8, Two(7 - q % 8));
    }
  }

  lemma SingleEntry(h: Block, r: nat, k: nat)
    requires k < 8
    ensures Entry(h, r, Two(7 - k)) == Pow(8 * r + k, h)
  {
    LowSumSplit(Pow(8 * r, h), 7 - k, 0);
    PowAdd(k, 8 * r, h);
  }

  lemma EntryZero(h: Block, r: nat)
    ensures Entry(h, r, 0) == ZERO
  {
    LowSumZero(Pow(8 * r, h), 8);
  }

  lemma EntrySum(t: Table, h: Block, r: nat, m: nat, k: nat)
    requires r < 16 && m < 8 && k < Two(m)
    requires Right(t, h, r, Two(m)) && Right(t, h, r, k)
    ensures Xor(t[256 * r + Two(m)], t[256 * r + k]) == Entry(h, r, Two(m) + k)
  {
    LowSumSplit(Pow(8 * r, h), m, k);
  }

  /** One row: entry j + k is the sum of entries j and k, for j a power of two and k below it. */
  method FillRow(h: Block, table: array<Block>, i: nat)
    requires table.Length == 4096 && i < 16
    requires forall m :: 0 <= m < 8 ==> Right(table[..], h, i, Two(m))
    modifies table
    ensures RowUpTo(table[..], h, i, 256) && Keeps(old(table[..]), table[..], h)
  {
    hide Right, Entry, Xor;
    EntryZero(h, i);
    SetEntry(h, table, i, 0, ZERO);
    ghost var m := 1;
    var j := 2;
    assert Right(table[..], h, i, Two(0));
    while j <= 128
      invariant 1 <= m <= 8 && j == Two(m)
      invariant RowUpTo(table[..], h, i, j)
      invariant Keeps(old(table[..]), table[..], h)
      decreases 8 - m
    {
      assert Right(table[..], h, i, Two(m));
      for k := 1 to j
        invariant RowUpTo(table[..], h, i, j + k)
        invariant Keeps(old(table[..]), table[..], h)
      {
        EntrySum(table[..], h, i, m, k);
        SetEntry(h, table, i, j + k, Xor(table[256 * i + j], table[256 * i + k]));
      }
      j := 2 * j;
      m := m + 1;
    }
  }

  // ---------------------------------------------------------------- mul_fl

  /** Two words of the block as a little-endian host loads them. */
  function LoadLittle(b: Bytes16, o: nat): bv64
    requires o == 0 || o == 8
  {
    Compose(b[o + 7], b[o + 6], b[o + 5], b[o + 4], b[o + 3], b[o + 2], b[o + 1], b[o])
  }

  /** The offset PTR_WORD computes for byte `re` of word x, in table entries rather than 64-bit words. */
  function PtrWord(x: bv64, re: nat): (r: nat)
    requires re < 8
    ensures r < 256
  {
    Value(PtrByte(x, re))
  }

  function PtrByte(x: bv64, re: nat): bv8
    requires re < 8
  {
    match re
    case 0 => (((x & 0xff) << 4) >> 4) as bv8
    case 1 => (((x >> 4) & 0xff0) >> 4) as bv8
    case 2 => (((x >> 12) & 0xff0) >> 4) as bv8
    case 3 => (((x >> 20) & 0xff0) >> 4) as bv8
    case 4 => (((x >> 28) & 0xff0) >> 4) as bv8
    case 5 => (((x >> 36) & 0xff0) >> 4) as bv8
    case 6 => (((x >> 44) & 0xff0) >> 4) as bv8
    case 7 => (((x >> 52) & 0xff0) >> 4) as bv8
  }

  lemma PtrByteOf(b0: bv8, b1: bv8, b2: bv8, b3: bv8, b4: bv8, b5: bv8, b6: bv8, b7: bv8)
    ensures var x := Compose(b7, b6, b5, b4, b3, b2, b1, b0);
            PtrByte(x, 0) == b0 && PtrByte(x, 1) == b1 && PtrByte(x, 2) == b2 && PtrByte(x, 3) == b3
            && PtrByte(x, 4) == b4 && PtrByte(x, 5) == b5 && PtrByte(x, 6) == b6 && PtrByte(x, 7) == b7
  {}

  lemma PtrWordOf(b: Bytes16, o: nat, re: nat)
    requires (o == 0 || o == 8) && re < 8
    ensures PtrWord(LoadLittle(b, o), re) == Value(b[o + re])
  {
    hide Value, PtrByte, Compose;
    PtrByteOf(b[o], b[o + 1], b[o + 2], b[o + 3], b[o + 4], b[o + 5], b[o + 6], b[o + 7]);
    match re case 0 => case 1 => case 2 => case 3 => case 4 => case 5 => case 6 => case 7 =>
  }

  function LookUp(t: Table, row: nat, x: bv64, re: nat): Block
    requires row < 16 && re < 8
  {
    t[256 * row + PtrWord(x, re)]
  }

  lemma LookupStep(t: Table, h: Block, b: Bytes16, row: nat, next: nat, o: nat, re: nat)
    requires (o == 0 || o == 8) && re < 8 && row == o + re && next == row + 1 && TableFor(t, h)
    ensures Xor(Prod(h, b, row), LookUp(t, row, LoadLittle(b, o), re)) == Prod(h, b, next)
  {
    hide Value, Xor, ByteSum, Entry, PtrWord, LoadLittle;
    PtrWordOf(b, o, re);
    EntryOfByte(h, row, b[row]);
    assert Right(t, h, row, Value(b[row]));
  }

  lemma LookupWord0(t: Table, h: Block, b: Bytes16, x: bv64)
    requires TableFor(t, h) && x == LoadLittle(b, 0)
    ensures Xor(Xor(Xor(Xor(Xor(Xor(Xor(Xor(ZERO, LookUp(t, 0, x, 0)), LookUp(t, 1, x, 1)), LookUp(t, 2, x, 2)),
                                LookUp(t, 3, x, 3)), LookUp(t, 4, x, 4)), LookUp(t, 5, x, 5)), LookUp(t, 6, x,
                                    6)), LookUp(t, 7, x, 7))
         == Prod(h, b, 8)
  {
    assert Prod(h, b, 0) == ZERO;
    hide Xor, TableFor, Prod, LoadLittle, LookUp;
    LookupStep(t, h, b, 0, 1, 0, 0);
    LookupStep(t, h, b, 1, 2, 0, 1);
    LookupStep(t, h, b, 2, 3, 0, 2);
    LookupStep(t, h, b, 3, 4, 0, 3);
    LookupStep(t, h, b, 4, 5, 0, 4);
    LookupStep(t, h, b, 5, 6, 0, 5);
    LookupStep(t, h, b, 6, 7, 0, 6);
    LookupStep(t, h, b, 7, 8, 0, 7);
  }

  lemma LookupWord1(t: Table, h: Block, b: Bytes16, x: bv64)
    requires TableFor(t, h) && x == LoadLittle(b, 8)
    ensures Xor(Xor(Xor(Xor(Xor(Xor(Xor(Xor(Prod(h, b, 8), LookUp(t, 8, x, 0)), LookUp(t, 9, x, 1)),
                                    LookUp(t, 10, x, 2)), LookUp(t, 11, x, 3)), LookUp(t, 12, x, 4)), LookUp(t, 13, x,
                                        5)), LookUp(t, 14, x, 6)), LookUp(t, 15, x, 7))
         == Prod(h, b, 16)
  {
    hide Xor, TableFor, Prod, LoadLittle, LookUp;
    LookupStep(t, h, b, 8, 9, 8, 0);
    LookupStep(t, h, b, 9, 10, 8, 1);
    LookupStep(t, h, b, 10, 11, 8, 2);
    LookupStep(t, h, b, 11, 12, 8, 3);
    LookupStep(t, h, b, 12, 13, 8, 4);
    LookupStep(t, h, b, 13, 14, 8, 5);
    LookupStep(t, h, b, 14, 15, 8, 6);
    LookupStep(t, h, b, 15, 16, 8, 7);
  }

  /** mul_fl: the same product from sixteen table lookups. */
  method MulTable(ghost h: Bytes16, table: array<Block>, buf: array<bv8>)
    requires table.Length == 4096 && buf.Length == 16
    requires TableFor(table[..], Load(h))
    modifies buf
    ensures buf[..] == Store(Mul(Load(old(buf[..])), Load(h)))
  {
    hide LoadLittle, Xor, TableFor, LookUp, Prod;
    var t := table[..];
    var x0, x1 := LoadLittle(buf[..], 0), LoadLittle(buf[..], 8);
    LookupWord0(t, Load(h), buf[..], x0);
    LookupWord1(t, Load(h), buf[..], x1);
    StoreLoad(buf[..]);
    MulComm(Load(buf[..]), Load(h));
    var a := ZERO;
    a := Xor(a, LookUp(t, 0, x0, 0));
    a := Xor(a, LookUp(t, 1, x0, 1));
    a := Xor(a, LookUp(t, 2, x0, 2));
    a := Xor(a, LookUp(t, 3, x0, 3));
    a := Xor(a, LookUp(t, 4, x0, 4));
    a := Xor(a, LookUp(t, 5, x0, 5));
    a := Xor(a, LookUp(t, 6, x0, 6));
    a := Xor(a, LookUp(t, 7, x0, 7));
    a := Xor(a, LookUp(t, 8, x1, 0));
    a := Xor(a, LookUp(t, 9, x1, 1));
    a := Xor(a, LookUp(t, 10, x1, 2));
    a := Xor(a, LookUp(t, 11, x1, 3));
    a := Xor(a, LookUp(t, 12, x1, 4));
    a := Xor(a, LookUp(t, 13, x1, 5));
    a := Xor(a, LookUp(t, 14, x1, 6));
    a := Xor(a, LookUp(t, 15, x1, 7));
    StoreBlock(buf, a);
  }
}
