/** Machine words and bytes shared by every model: exclusive or as a named function,
    big- and little-endian loads and stores, and the algebra of 16-byte blocks. */
module Words {
  type Bytes = seq<bv8>
  type Bytes16 = b: seq<bv8> | |b| == 16 witness [0, 0, 0, 0, 0, 0, 0, 0, 0, 0, 0, 0, 0, 0, 0, 0]

  /** A 16-byte block read as two big-endian 64-bit words. */
  datatype Block = Block(hi: bv64, lo: bv64)

  const ZERO := Block(0, 0)

  function XorWord(a: bv64, b: bv64): bv64 { a ^ b }

  function XorByte(a: bv8, b: bv8): bv8 { a ^ b }

  function Xor(a: Block, b: Block): Block {
    Block(XorWord(a.hi, b.hi), XorWord(a.lo, b.lo))
  }

  lemma XorWordAssoc(a: bv64, b: bv64, c: bv64)
    ensures XorWord(XorWord(a, b), c) == XorWord(a, XorWord(b, c))
  {
    calc {
      XorWord(XorWord(a, b), c);
      XorWord(a ^ b, c);
      XorWord(a, b ^ c);
      XorWord(a, XorWord(b, c));
    }
  }

  lemma XorWordComm(a: bv64, b: bv64)
    ensures XorWord(a, b) == XorWord(b, a)
  {}

  lemma XorWordUnit(a: bv64)
    ensures XorWord(a, 0) == a && XorWord(0, a) == a && XorWord(a, a) == 0
  {}

  lemma XorAssoc(a: Block, b: Block, c: Block)
    ensures Xor(Xor(a, b), c) == Xor(a, Xor(b, c))
  {
    XorWordAssoc(a.hi, b.hi, c.hi);
    XorWordAssoc(a.lo, b.lo, c.lo);
  }

  lemma XorComm(a: Block, b: Block)
    ensures Xor(a, b) == Xor(b, a)
  {
    XorWordComm(a.hi, b.hi);
    XorWordComm(a.lo, b.lo);
  }

  lemma XorUnit(a: Block)
    ensures Xor(a, ZERO) == a && Xor(ZERO, a) == a && Xor(a, a) == ZERO
  {
    XorWordUnit(a.hi);
    XorWordUnit(a.lo);
  }

  lemma XorSwap(a: Block, b: Block, c: Block, d: Block)
    ensures Xor(Xor(a, b), Xor(c, d)) == Xor(Xor(a, c), Xor(b, d))
  {
    XorAssoc(a, b, Xor(c, d));
    XorAssoc(b, c, d);
    XorComm(b, c);
    XorAssoc(c, b, d);
    XorAssoc(a, c, Xor(b, d));
  }

  lemma XorWordSwap(a: bv64, b: bv64, c: bv64, d: bv64)
    ensures XorWord(XorWord(a, b), XorWord(c, d)) == XorWord(XorWord(a, c), XorWord(b, d))
  {
    XorWordAssoc(a, b, XorWord(c, d));
    XorWordAssoc(b, c, d);
    XorWordComm(b, c);
    XorWordAssoc(c, b, d);
    XorWordAssoc(a, c, XorWord(b, d));
  }

  // ---------------------------------------------------------------- bytes

  function OrByte(a: bv8, b: bv8): bv8 { a | b }

  lemma XorByteUnit(a: bv8)
    ensures XorByte(a, 0) == a && XorByte(0, a) == a && XorByte(a, a) == 0
  {}

  lemma XorByteTwice(a: bv8, b: bv8)
    ensures XorByte(XorByte(a, b), b) == a
  {
    calc {
      XorByte(XorByte(a, b), b);
      XorByte(a ^ b, b);
      a;
    }
  }

  lemma XorByteComm(a: bv8, b: bv8)
    ensures XorByte(a, b) == XorByte(b, a)
  {}

  lemma XorByteSwap(a: bv8, b: bv8, c: bv8, d: bv8)
    ensures XorByte(XorByte(a, b), XorByte(c, d)) == XorByte(XorByte(a, c), XorByte(b, d))
  {
    calc {
      XorByte(XorByte(a, b), XorByte(c, d));
      XorByte(a ^ b, c ^ d);
      XorByte(a ^ c, b ^ d);
      XorByte(XorByte(a, c), XorByte(b, d));
    }
  }

  /** Bit i of a byte, the least significant one first. */
  function ByteBit(b: bv8, i: nat): bool
    requires i < 8
  {
    match i
    case 0 => b & 0x01 != 0
    case 1 => b & 0x02 != 0
    case 2 => b & 0x04 != 0
    case 3 => b & 0x08 != 0
    case 4 => b & 0x10 != 0
    case 5 => b & 0x20 != 0
    case 6 => b & 0x40 != 0
    case _ => b & 0x80 != 0
  }

  function Zeros(n: nat): (z: Bytes)
    ensures |z| == n && forall i :: 0 <= i < n ==> z[i] == 0
  {
    seq(n, i => 0)
  }

  /** The word whose bytes are b0 to b7, most significant first. */
  function Compose(b0: bv8, b1: bv8, b2: bv8, b3: bv8, b4: bv8, b5: bv8, b6: bv8, b7: bv8): bv64 {
    (b0 as bv64 << 56) | (b1 as bv64 << 48) | (b2 as bv64 << 40) | (b3 as bv64 << 32)
    | (b4 as bv64 << 24) | (b5 as bv64 << 16) | (b6 as bv64 << 8) | (b7 as bv64)
  }

  lemma ComposeXor(a0: bv8, a1: bv8, a2: bv8, a3: bv8, a4: bv8, a5: bv8, a6: bv8, a7: bv8,
                   b0: bv8, b1: bv8, b2: bv8, b3: bv8, b4: bv8, b5: bv8, b6: bv8, b7: bv8)
    ensures Compose(XorByte(a0, b0), XorByte(a1, b1), XorByte(a2, b2), XorByte(a3, b3),
                    XorByte(a4, b4), XorByte(a5, b5), XorByte(a6, b6), XorByte(a7, b7))
         == XorWord(Compose(a0, a1, a2, a3, a4, a5, a6, a7), Compose(b0, b1, b2, b3, b4, b5, b6, b7))
  {}

  /** A big-endian 64-bit word at offset `o` (BigEndian::Convert<uint64_t>). */
  function LoadWord(b: Bytes, o: nat): bv64
    requires o + 8 <= |b|
  {
    Compose(b[o], b[o + 1], b[o + 2], b[o + 3], b[o + 4], b[o + 5], b[o + 6], b[o + 7])
  }

  function StoreWord(w: bv64): (b: Bytes)
    ensures |b| == 8
  {
    [(w >> 56) as bv8, ((w >> 48) & 0xff) as bv8, ((w >> 40) & 0xff) as bv8, ((w >> 32) & 0xff) as bv8,
     ((w >> 24) & 0xff) as bv8, ((w >> 16) & 0xff) as bv8, ((w >> 8) & 0xff) as bv8, (w & 0xff) as bv8]
  }

  function Load(b: Bytes16): Block {
    Block(LoadWord(b, 0), LoadWord(b, 8))
  }

  function Store(x: Block): Bytes16 {
    StoreWord(x.hi) + StoreWord(x.lo)
  }

  lemma LoadStoreWord(w: bv64)
    ensures LoadWord(StoreWord(w), 0) == w
  {}

  lemma StoreLoadWord(b: Bytes)
    requires |b| == 8
    ensures StoreWord(LoadWord(b, 0)) == b
  {}

  lemma LoadWordAt(b: Bytes, o: nat)
    requires o + 8 <= |b|
    ensures LoadWord(b, o) == LoadWord(b[o..o + 8], 0)
  {}

  lemma LoadStore(x: Block)
    ensures Load(Store(x)) == x
  {
    LoadStoreWord(x.hi);
    LoadStoreWord(x.lo);
    LoadWordAt(Store(x), 0);
    LoadWordAt(Store(x), 8);
    assert Store(x)[0..8] == StoreWord(x.hi);
    assert Store(x)[8..16] == StoreWord(x.lo);
  }

  lemma StoreLoad(b: Bytes16)
    ensures Store(Load(b)) == b
  {
    LoadWordAt(b, 0);
    LoadWordAt(b, 8);
    StoreLoadWord(b[0..8]);
    StoreLoadWord(b[8..16]);
    assert b == b[0..8] + b[8..16];
  }

  /** memcpy of a whole value into an array. */
  method CopyInto(a: array<bv8>, s: Bytes)
    requires a.Length == |s|
    modifies a
    ensures a[..] == s
  {
    for i := 0 to a.Length
      invariant forall j :: 0 <= j < i ==> a[j] == s[j]
    {
      a[i] := s[i];
    }
  }

  /** memcpy of a value to offset o. */
  method StoreAt(a: array<bv8>, o: nat, s: Bytes)
    requires o + |s| <= a.Length
    modifies a
    ensures forall j :: 0 <= j < a.Length && !(o <= j < o + |s|) ==> a[j] == old(a[j])
    ensures a[o..o + |s|] == s
  {
    for i := 0 to |s|
      invariant forall j :: 0 <= j < a.Length && !(o <= j < o + i) ==> a[j] == old(a[j])
      invariant forall j :: o <= j < o + i ==> a[j] == s[j - o]
    {
      a[o + i] := s[i];
    }
  }
}
