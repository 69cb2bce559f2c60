/** Galois/Counter Mode on values: GHASH, the counters and the one-shot seal and open of NIST SP 800-38D, and the same
    with the padding of the additional data as the code does it. */
module GcmSpec {
  import opened Words
  import opened GF128
  import opened Keystream
  import opened Counter
  import opened LongNumbers

  ghost predicate Block16(enc: Cipher) {
    forall b: Bytes :: |b| == 16 ==> |enc(b)| == 16
  }

  /** One step of GHASH. */
  function HashBlock(h: Block, x: Block, b: Bytes16): Block {
    Mul(Xor(x, Load(b)), h)
  }

  /** GHASH of whole blocks, continued from x (section 6.4 of NIST SP 800-38D starts from zero). */
  function Ghash(h: Block, x: Block, data: Bytes): Block {
    if |data| < 16 then x
    else HashBlock(h, Ghash(h, x, data[..|data| - 16]), data[|data| - 16..])
  }

  lemma {:induction false} GhashAppend(h: Block, x: Block, a: Bytes, b: Bytes)
    requires |b| % 16 == 0
    ensures Ghash(h, x, a + b) == Ghash(h, Ghash(h, x, a), b)
    decreases |b|
  {
    hide HashBlock;
    if b == [] {
      assert a + b == a;
    } else {
      var m := |b| - 16;
      GhashAppend(h, x, a, b[..m]);
      assert (a + b)[..|a + b| - 16] == a + b[..m];
      assert (a + b)[|a + b| - 16..] == b[m..];
    }
  }

  lemma GhashOne(h: Block, x: Block, b: Bytes16)
    ensures Ghash(h, x, b) == HashBlock(h, x, b)
  {
    hide HashBlock;
    assert b[..0] == [] && b[0..] == b;
  }

  lemma GhashLast(h: Block, x: Block, a: Bytes, last: Bytes16)
    ensures Ghash(h, x, a + last) == HashBlock(h, Ghash(h, x, a), last)
  {
    hide HashBlock;
    assert (a + last)[..|a + last| - 16] == a;
    assert (a + last)[|a + last| - 16..] == last;
  }

  /** An incomplete block and the zeros after it. */
  function LastBlock(tail: Bytes): Bytes16
    requires |tail| < 16
  {
    tail + Zeros(16 - |tail|)
  }

  /** Zeros up to the next multiple of 16. */
  function Pad16(b: Bytes): (r: Bytes)
    ensures |r| % 16 == 0 && |b| <= |r| < |b| + 16 && r[..|b|] == b
  {
    b + Zeros((16 - |b| % 16) % 16)
  }

  function Shl3(a: bv64): bv64 { a << 3 }

  /** len << 3 is the bit length of len bytes. */
  lemma {:induction false} SizeBits(n: nat)
    ensures Shl3(Size(n)) == Size(8 * n)
  {
    hide AddWord, Shl3;
    if n == 0 {
      assert Shl3(0) == 0 by { Shl3Zero(); }
    } else {
      var k := n - 1;
      SizeBits(k);
      SizeAdd(8 * k, 8);
      SizeEight();
      Shl3Next(Size(k));
    }
  }

  lemma Shl3Zero()
    ensures Shl3(0) == 0
  {}

  lemma SizeEight()
    ensures Size(8) == 8
  {
    assert Size(2) == 2;
    assert Size(4) == 4;
    assert Size(6) == 6;
  }

  lemma Shl3Next(a: bv64)
    ensures Shl3(AddWord(a, 1)) == AddWord(Shl3(a), 8)
  {
    calc {
      AddWord(Shl3(a), 8);
      AddWord(a << 3, 8);
      (a << 3) + 8;
      (a + 1) << 3;
      Shl3(a + 1);
      Shl3(AddWord(a, 1));
    }
  }

  /** A byte length as a 64-bit big-endian bit length. */
  function Len64(n: nat): (r: Bytes)
    ensures |r| == 8
  {
    StoreWord(Size(8 * n))
  }

  /** inc32: plus one modulo 2^32 in the last four bytes. */
  function Inc32(b: Bytes): (r: Bytes)
    requires |b| == 16
    ensures |r| == 16
  {
    b[..12] + Next(b[12..])
  }

  function Inc32N(b: Bytes, k: nat): (r: Bytes)
    requires |b| == 16
    ensures |r| == 16
  {
    if k == 0 then b else Inc32(Inc32N(b, k - 1))
  }

  ghost function GcmBlocks(enc: Cipher, j0: Bytes): Blocks
    requires |j0| == 16
  {
    (k: nat) => enc(Inc32N(j0, k + 1))
  }

  /** J0, section 7.1 step 2. */
  function Start(h: Block, iv: Bytes): (r: Bytes)
    ensures |r| == 16
  {
    if |iv| == 12 then iv + [0, 0, 0, 1]
    else Store(HashBlock(h, Ghash(h, ZERO, Pad16(iv)), LenBlock(0, |iv|)))
  }

  /** The additional data as gcm_setdata hashes it: a last block is always added, even when nothing is left for it. */
  function PadData(aad: Bytes): (r: Bytes)
    ensures |r| % 16 == 0
  {
    aad + Zeros(16 - |aad| % 16)
  }

  /** A hash value masked with the encryption of the first counter, and truncated. */
  function MaskTag(enc: Cipher, j0: Bytes, s: Block, t: nat): (r: Bytes)
    requires |j0| == 16 && |enc(j0)| == 16 && t <= 16
    ensures |r| == t
  {
    XorBytes(Store(s), enc(j0))[..t]
  }

  function LenBlock(alen: nat, clen: nat): Bytes16 {
    Len64(alen) + Len64(clen)
  }

  /** The hash of a finished message, from the state after the additional data. */
  function FinalHash(h: Block, aadHash: Block, alen: nat, ct: Bytes): Block {
    HashBlock(h, Ghash(h, aadHash, Pad16(ct)), LenBlock(alen, |ct|))
  }

  /** Section 7.1 steps 5 and 6. */
  function SpecTag(enc: Cipher, h: Block, j0: Bytes, aad: Bytes, ct: Bytes, t: nat): Bytes
    requires |j0| == 16 && |enc(j0)| == 16 && t <= 16
  {
    MaskTag(enc, j0, Ghash(h, ZERO, Pad16(aad) + Pad16(ct) + LenBlock(|aad|, |ct|)), t)
  }

  function CodeTag(enc: Cipher, h: Block, j0: Bytes, aad: Bytes, ct: Bytes, t: nat): Bytes
    requires |j0| == 16 && |enc(j0)| == 16 && t <= 16
  {
    MaskTag(enc, j0, FinalHash(h, Ghash(h, ZERO, PadData(aad)), |aad|, ct), t)
  }

  lemma SpecTagFrom(enc: Cipher, h: Block, j0: Bytes, aad: Bytes, ct: Bytes, t: nat)
    requires |j0| == 16 && |enc(j0)| == 16 && t <= 16
    ensures SpecTag(enc, h, j0, aad, ct, t) == MaskTag(enc, j0, FinalHash(h, Ghash(h, ZERO, Pad16(aad)), |aad|, ct), t)
  {
    GhashAppend(h, ZERO, Pad16(aad) + Pad16(ct), LenBlock(|aad|, |ct|));
    GhashAppend(h, ZERO, Pad16(aad), Pad16(ct));
    GhashOne(h, Ghash(h, ZERO, Pad16(aad) + Pad16(ct)), LenBlock(|aad|, |ct|));
  }

  // ---------------------------------------------------------------- what the code keeps between calls

  /** y and buf after `used` counters were taken from the stream that starts at j0. */
  ghost predicate Counted(enc: Cipher, j0: Bytes, used: nat, y: Bytes, buf: Bytes, boff: nat) {
    && |j0| == 16 && boff < 16
    && y == Inc32N(j0, used)
    && (boff > 0 ==> used > 0 && buf == GcmBlocks(enc, j0)(used - 1))
  }

  lemma GhashNone(h: Block, x: Block)
    ensures Ghash(h, x, []) == x
  {}

  /** x and cbuf after the bytes ct: all of ct but the last boff bytes are hashed, and those are in cbuf. */
  ghost predicate Hashed(h: Block, x0: Block, ct: Bytes, boff: nat, x: Bytes, cbuf: Bytes) {
    && boff < 16 && boff <= |ct| && (|ct| - boff) % 16 == 0 && |x| == |cbuf| == 16
    && x == Store(Ghash(h, x0, ct[..|ct| - boff]))
    && cbuf[..boff] == ct[|ct| - boff..]
  }

  lemma HashedPart(h: Block, x0: Block, ct: Bytes, k: nat, x: Bytes, cbuf: Bytes, c: Bytes, next: Bytes)
    requires Hashed(h, x0, ct, k, x, cbuf) && k + |c| < 16 && |next| == 16
    requires next[..k] == cbuf[..k] && next[k..k + |c|] == c
    ensures Hashed(h, x0, ct + c, k + |c|, x, next)
  {
    hide Ghash, Store;
    var d := ct + c;
    assert d[..|d| - (k + |c|)] == ct[..|ct| - k];
    assert next[..k + |c|] == next[..k] + next[k..k + |c|];
    assert d[|d| - (k + |c|)..] == ct[|ct| - k..] + c;
  }

  lemma HashedFull(h: Block, x0: Block, ct: Bytes, k: nat, x: Bytes, cbuf: Bytes, c: Bytes, x1: Bytes, next: Bytes)
    requires Hashed(h, x0, ct, k, x, cbuf) && k + |c| == 16 && |next| == 16
    requires x1 == Store(HashBlock(h, Load(x), cbuf[..k] + c))
    ensures Hashed(h, x0, ct + c, 0, x1, next)
  {
    hide HashBlock, Load, Store;
    var d := ct + c;
    var m := |ct| - k;
    LoadStore(Ghash(h, x0, ct[..m]));
    assert d[..|d|] == d;
    assert d[..|d| - 16] == ct[..m];
    assert d[|d| - 16..] == cbuf[..k] + c;
    assert Ghash(h, x0, d) == HashBlock(h, Ghash(h, x0, ct[..m]), cbuf[..k] + c);
  }

  /** Whole ciphertext blocks, hashed. */
  lemma HashedMore(h: Block, x0: Block, ct: Bytes, x: Bytes, cbuf: Bytes, c: Bytes, x1: Bytes)
    requires Hashed(h, x0, ct, 0, x, cbuf) && |c| % 16 == 0
    requires x1 == Store(Ghash(h, Ghash(h, x0, ct), c))
    ensures Hashed(h, x0, ct + c, 0, x1, cbuf)
  {
    hide Ghash, Store;
    GhashAppend(h, x0, ct, c);
    assert (ct + c)[..|ct + c|] == ct + c;
  }

  lemma LoadXor(a: Bytes16, b: Bytes16)
    ensures Load(XorBytes(a, b)) == Xor(Load(a), Load(b))
  {
    hide Compose, XorByte, XorWord;
    ComposeXor(a[0], a[1], a[2], a[3], a[4], a[5], a[6], a[7], b[0], b[1], b[2], b[3], b[4], b[5], b[6], b[7]);
    ComposeXor(a[8], a[9], a[10], a[11], a[12], a[13], a[14], a[15],
               b[8], b[9], b[10], b[11], b[12], b[13], b[14], b[15]);
  }

  /** Nothing to hash leaves zero, even with the block that gcm_setdata adds. */
  lemma NoData(h: Block)
    ensures Ghash(h, ZERO, PadData([])) == ZERO && Ghash(h, ZERO, Pad16([])) == ZERO
  {
    hide Mul, Load, Xor;
    var z := PadData([]);
    assert z == Zeros(16) && Pad16([]) == [];
    GhashOne(h, ZERO, z);
    LoadZeros(z);
    XorUnit(ZERO);
    MulUnit(h);
  }

  lemma Len64Of(n: nat, size: bv64)
    requires size == Size(n)
    ensures StoreWord(Shl3(size)) == Len64(n)
  {
    hide StoreWord, Shl3, Size;
    SizeBits(n);
  }

  /** Hashing padded data: the n whole blocks, then the incomplete one if there is any. */
  lemma GhashPad16(h: Block, s: Block, d: Bytes, n: nat)
    requires 16 * n <= |d| < 16 * n + 16
    ensures |d| == 16 * n ==> Ghash(h, s, Pad16(d)) == Ghash(h, s, d[..16 * n])
    ensures |d| > 16 * n ==> Ghash(h, s, Pad16(d)) == HashBlock(h, Ghash(h, s, d[..16 * n]), LastBlock(d[16 * n..]))
  {
    hide HashBlock, Ghash;
    if |d| == 16 * n {
      assert Pad16(d) == d == d[..16 * n];
    } else {
      assert Pad16(d) == d[..16 * n] + LastBlock(d[16 * n..]);
      GhashLast(h, s, d[..16 * n], LastBlock(d[16 * n..]));
    }
  }

  /** Hashing the additional data as gcm_setdata does: the last block is there even when it is empty. */
  lemma GhashPadData(h: Block, s: Block, d: Bytes, n: nat)
    requires 16 * n <= |d| < 16 * n + 16
    ensures Ghash(h, s, PadData(d)) == HashBlock(h, Ghash(h, s, d[..16 * n]), LastBlock(d[16 * n..]))
  {
    hide HashBlock, Ghash;
    assert PadData(d) == d[..16 * n] + LastBlock(d[16 * n..]);
    GhashLast(h, s, d[..16 * n], LastBlock(d[16 * n..]));
  }
}
