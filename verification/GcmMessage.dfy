/** Whole GCM messages: what the calls of the stream add up to, against NIST SP 800-38D. */
module GcmMessage {
  import opened Words
  import opened GF128
  import opened Keystream
  import opened Counter
  import opened LongNumbers
  import opened GcmSpec
  import opened GcmCounter

  datatype Option<T> = None | Some(value: T)

  ghost predicate Proper(enc: Cipher, t: nat) {
    Block16(enc) && t <= 16
  }

  function Hkey(enc: Cipher): Block
    requires |enc(Zeros(16))| == 16
  {
    Load(enc(Zeros(16)))
  }

  ghost function J0(enc: Cipher, iv: Bytes): (r: Bytes)
    requires Block16(enc)
    ensures |r| == 16
  {
    Start(Hkey(enc), iv)
  }

  lemma StreamWide(enc: Cipher, iv: Bytes)
    requires Block16(enc)
    ensures Wide(GcmBlocks(enc, J0(enc, iv)), 16)
  {
    hide Start, Inc32N;
    var j0 := J0(enc, iv);
    forall k: nat
      ensures |GcmBlocks(enc, j0)(k)| == 16
    {
      assert GcmBlocks(enc, j0)(k) == enc(Inc32N(j0, k + 1));
    }
  }

  /** What the seal calls write for a message, tag excluded. */
  ghost function SealText(enc: Cipher, iv: Bytes, text: Bytes): Bytes
    requires Block16(enc)
  {
    StreamWide(enc, iv);
    XorStream(GcmBlocks(enc, J0(enc, iv)), 16, 0, text)
  }

  ghost function Tag(enc: Cipher, iv: Bytes, aad: Bytes, ct: Bytes, t: nat): Bytes
    requires Proper(enc, t)
  {
    CodeTag(enc, Hkey(enc), J0(enc, iv), aad, ct, t)
  }

  /** What the seal calls produce. */
  ghost function Sealed(enc: Cipher, iv: Bytes, aad: Bytes, text: Bytes, t: nat): (Bytes, Bytes)
    requires Proper(enc, t)
  {
    (SealText(enc, iv, text), Tag(enc, iv, aad, SealText(enc, iv, text), t))
  }

  /** The authenticated encryption of section 7.1 of NIST SP 800-38D. */
  ghost function SpecSeal(enc: Cipher, iv: Bytes, aad: Bytes, text: Bytes, t: nat): (Bytes, Bytes)
    requires Proper(enc, t)
  {
    var c := SealText(enc, iv, text);
    (c, SpecTag(enc, Hkey(enc), J0(enc, iv), aad, c, t))
  }

  /** What the open calls return: the text, if the tag is right. */
  ghost function Open(enc: Cipher, iv: Bytes, aad: Bytes, c: Bytes, tag: Bytes, t: nat): Option<Bytes>
    requires Proper(enc, t)
  {
    if tag == Tag(enc, iv, aad, c, t) then Some(SealText(enc, iv, c)) else None
  }

  /** Opening succeeds with a text exactly on what sealing that text produces. */
  lemma OpenExactlySealed(enc: Cipher, iv: Bytes, aad: Bytes, c: Bytes, tag: Bytes, t: nat, text: Bytes)
    requires Proper(enc, t)
    ensures Open(enc, iv, aad, c, tag, t) == Some(text) <==> (c, tag) == Sealed(enc, iv, aad, text, t)
  {
    hide XorStream, Tag, J0, GcmBlocks;
    StreamWide(enc, iv);
    XorStreamTwice(GcmBlocks(enc, J0(enc, iv)), 16, 0, text);
    XorStreamTwice(GcmBlocks(enc, J0(enc, iv)), 16, 0, c);
  }

  lemma SealedLength(enc: Cipher, iv: Bytes, aad: Bytes, text: Bytes, t: nat)
    requires Proper(enc, t)
    ensures |Sealed(enc, iv, aad, text, t).0| == |text| && |Sealed(enc, iv, aad, text, t).1| == t
  {
    hide XorStream, J0, GcmBlocks, FinalHash, Ghash;
    StreamWide(enc, iv);
  }

  /** A sealed text opens, and only with its own tag. */
  lemma SealedOpens(enc: Cipher, iv: Bytes, aad: Bytes, text: Bytes, t: nat, tag: Bytes)
    requires Proper(enc, t)
    ensures var (c, made) := Sealed(enc, iv, aad, text, t);
            && SealText(enc, iv, c) == text
            && (Open(enc, iv, aad, c, tag, t) == Some(text) <==> tag == made)
  {
    hide XorStream, Tag, J0, GcmBlocks;
    StreamWide(enc, iv);
    XorStreamTwice(GcmBlocks(enc, J0(enc, iv)), 16, 0, text);
  }

  // ---------------------------------------------------------------- the padding of the additional data

  lemma PadDataConforms(h: Block, aad: Bytes)
    requires |aad| == 0 || |aad| % 16 != 0
    ensures Ghash(h, ZERO, PadData(aad)) == Ghash(h, ZERO, Pad16(aad))
  {
    hide Ghash;
    if aad == [] {
      NoData(h);
    } else {
      assert PadData(aad) == Pad16(aad);
    }
  }

  /** The tag of section 7.1 of NIST SP 800-38D, for additional data that is empty or ends in an incomplete block. */
  lemma TagConforms(enc: Cipher, h: Block, j0: Bytes, aad: Bytes, ct: Bytes, t: nat)
    requires |j0| == 16 && |enc(j0)| == 16 && t <= 16
    requires |aad| == 0 || |aad| % 16 != 0
    ensures CodeTag(enc, h, j0, aad, ct, t) == SpecTag(enc, h, j0, aad, ct, t)
  {
    hide Ghash, PadData, Pad16, MaskTag, FinalHash;
    PadDataConforms(h, aad);
    SpecTagFrom(enc, h, j0, aad, ct, t);
  }

  /** With such additional data a sealed message is that of the standard. */
  lemma SealedConforms(enc: Cipher, iv: Bytes, aad: Bytes, text: Bytes, t: nat)
    requires Proper(enc, t)
    ensures |aad| == 0 || |aad| % 16 != 0 ==> Sealed(enc, iv, aad, text, t) == SpecSeal(enc, iv, aad, text, t)
  {
    hide SealText, J0, CodeTag, SpecTag;
    if |aad| == 0 || |aad| % 16 != 0 {
      TagConforms(enc, Hkey(enc), J0(enc, iv), aad, SealText(enc, iv, text), t);
    }
  }

  /** A block cipher under a fixed key: a permutation of the blocks. */
  ghost predicate Permutes(enc: Cipher) {
    Block16(enc) && forall a, b :: |a| == |b| == 16 && enc(a) == enc(b) ==> a == b
  }

  /** Every message with n bytes of additional data is sealed as in the standard. */
  ghost predicate Conforms(n: nat) {
    forall enc: Cipher, iv: Bytes, aad: Bytes, text: Bytes, t: nat :: Permutes(enc) && t <= 16 && |aad| == n
      ==> Sealed(enc, iv, aad, text, t) == SpecSeal(enc, iv, aad, text, t)
  }

  /** The element x, and what multiplying by it does. */
  const X := Block(0x4000000000000000, 0)

  lemma MulByX(v: Block)
    ensures Mul(v, X) == MulX(v)
  {
    assert MulX(ONE) == X;
    MulComm(v, X);
    StoreLoad(Store(v));
    LoadStore(v);
    ProdMulX(ONE, Store(v), 16);
    ProdOne(Store(v));
  }

  /** Zeros, then the unit: a hash that the extra block of gcm_setdata changes. */
  function BadData(n: nat): (d: Bytes)
    requires n >= 16
    ensures |d| == n
  {
    Zeros(n - 16) + Store(ONE)
  }

  lemma {:induction false} GhashZeros(h: Block, m: nat)
    ensures Ghash(h, ZERO, Zeros(16 * m)) == ZERO
  {
    hide Mul, Load, Xor;
    if m > 0 {
      var z := Zeros(16 * m);
      assert z == Zeros(16 * (m - 1)) + Zeros(16);
      GhashLast(h, ZERO, Zeros(16 * (m - 1)), Zeros(16));
      GhashZeros(h, m - 1);
      LoadZeros(Zeros(16));
      XorUnit(ZERO);
      MulUnit(h);
    }
  }

  lemma BadHashes(m: nat)
    ensures Ghash(X, ZERO, Pad16(BadData(16 * m + 16))) == X
    ensures Ghash(X, ZERO, PadData(BadData(16 * m + 16))) == MulX(X)
  {
    hide Mul, MulX, Load, Store, Xor, Ghash;
    var d := BadData(16 * m + 16);
    assert Pad16(d) == d == Zeros(16 * m) + Store(ONE);
    GhashLast(X, ZERO, Zeros(16 * m), Store(ONE));
    GhashZeros(X, m);
    LoadStore(ONE);
    XorUnit(ONE);
    MulUnit(X);
    assert PadData(d) == d + Zeros(16);
    GhashLast(X, ZERO, d, Zeros(16));
    LoadZeros(Zeros(16));
    XorUnit(X);
    MulByX(X);
  }

  lemma Cancel(a: Block, b: Block, c: Block)
    requires Xor(a, c) == Xor(b, c)
    ensures a == b
  {
    hide Xor;
    XorAssoc(a, c, c);
    XorAssoc(b, c, c);
    XorUnit(a);
    XorUnit(b);
    XorUnit(c);
  }

  lemma XTwice()
    ensures MulX(X) == Block(0x2000000000000000, 0)
    ensures MulX(MulX(X)) == Block(0x1000000000000000, 0)
  {}

  /** With those hashes the tags differ. */
  lemma BadFinal(l: Block)
    ensures Mul(Xor(X, l), X) != Mul(Xor(MulX(X), l), X)
  {
    MulByX(Xor(X, l));
    MulByX(Xor(MulX(X), l));
    MulXXor(X, l);
    MulXXor(MulX(X), l);
    XTwice();
    if MulX(Xor(X, l)) == MulX(Xor(MulX(X), l)) {
      Cancel(MulX(X), MulX(MulX(X)), MulX(l));
    }
  }

  lemma MaskInjective(enc: Cipher, j0: Bytes, a: Block, b: Block)
    requires |j0| == 16 && |enc(j0)| == 16 && MaskTag(enc, j0, a, 16) == MaskTag(enc, j0, b, 16)
    ensures a == b
  {
    hide Load, Store, Xor;
    var k := enc(j0);
    assert XorBytes(Store(a), k) == XorBytes(Store(b), k) by {
      assert MaskTag(enc, j0, a, 16) == XorBytes(Store(a), k);
      assert MaskTag(enc, j0, b, 16) == XorBytes(Store(b), k);
    }
    LoadXor(Store(a), k);
    LoadXor(Store(b), k);
    LoadStore(a);
    LoadStore(b);
    Cancel(a, b, Load(k));
  }

  lemma BadTag(m: nat, enc: Cipher, iv: Bytes)
    requires Block16(enc) && Hkey(enc) == X
    ensures Sealed(enc, iv, BadData(16 * m + 16), [], 16) != SpecSeal(enc, iv, BadData(16 * m + 16), [], 16)
  {
    hide Mul, MulX, Load, Store, Xor, Ghash, Pad16, PadData, MaskTag, LenBlock, J0, XorStream;
    var d, j0 := BadData(16 * m + 16), J0(enc, iv);
    StreamWide(enc, iv);
    assert SealText(enc, iv, []) == [];
    BadHashes(m);
    SpecTagFrom(enc, X, j0, d, [], 16);
    PadNone();
    GhashNone(X, X);
    GhashNone(X, MulX(X));
    var l := LenBlock(|d|, 0);
    BadFinal(Load(l));
    if CodeTag(enc, X, j0, d, [], 16) == SpecTag(enc, X, j0, d, [], 16) {
      MaskInjective(enc, j0, FinalHash(X, MulX(X), |d|, []), FinalHash(X, X, |d|, []));
    }
  }

  lemma PadNone()
    ensures Pad16([]) == []
  {}

  /** A permutation of the blocks that takes the block of zeros to k. */
  function Masking(k: Bytes16): Cipher {
    (b: Bytes) => if |b| == 16 then XorBytes(b, k) else b
  }

  lemma MaskingPermutes(k: Bytes16)
    ensures Permutes(Masking(k)) && Masking(k)(Zeros(16)) == k
  {
    forall b: Bytes | |b| == 16
      ensures XorBytes(XorBytes(b, k), k) == b
    {
      forall i | 0 <= i < 16
        ensures XorBytes(XorBytes(b, k), k)[i] == b[i]
      {
        XorByteTwice(b[i], k[i]);
      }
    }
    forall a, b | |a| == |b| == 16 && Masking(k)(a) == Masking(k)(b)
      ensures a == b
    {
      assert XorBytes(a, k) == XorBytes(b, k);
      assert XorBytes(XorBytes(a, k), k) == XorBytes(XorBytes(b, k), k);
    }
    forall i | 0 <= i < 16
      ensures XorBytes(Zeros(16), k)[i] == k[i]
    {
      XorByteTwice(k[i], 0);
    }
    assert XorBytes(Zeros(16), k) == k;
  }

  /** gcm_setdata always hashes one more block, so messages are sealed as in the standard exactly for these lengths. */
  lemma ConformsExactly(n: nat)
    ensures Conforms(n) <==> n == 0 || n % 16 != 0
  {
    hide Sealed, SpecSeal, Store, Masking, Load;
    if n == 0 || n % 16 != 0 {
      forall enc: Cipher, iv: Bytes, aad: Bytes, text: Bytes, t: nat | Permutes(enc) && t <= 16 && |aad| == n
        ensures Sealed(enc, iv, aad, text, t) == SpecSeal(enc, iv, aad, text, t)
      {
        SealedConforms(enc, iv, aad, text, t);
      }
    } else {
      var enc := Masking(Store(X));
      MaskingPermutes(Store(X));
      LoadStore(X);
      var m := n / 16 - 1;
      BadTag(m, enc, []);
    }
  }

  // ---------------------------------------------------------------- the counter of the fast calls

  /** A block whose low counter word is about to wrap. */
  function Ones(): Bytes16 { seq(16, i => 0xff) }

  /** An initialization vector whose first counter is that block, when the hash key is the unit. */
  function WrapIv(): Bytes16 { XorBytes(Ones(), LenBlock(0, 16)) }

  lemma WrapStart()
    ensures Start(ONE, WrapIv()) == Ones()
  {
    hide Mul, Xor, Load, Store, LenBlock;
    var iv, l := WrapIv(), LenBlock(0, 16);
    assert Pad16(iv) == iv;
    GhashOne(ONE, ZERO, iv);
    XorUnit(Load(iv));
    MulUnit(Load(iv));
    LoadXor(iv, l);
    MulUnit(Load(XorBytes(iv, l)));
    forall i | 0 <= i < 16
      ensures XorBytes(iv, l)[i] == Ones()[i]
    {
      XorByteTwice(Ones()[i], l[i]);
    }
    assert XorBytes(iv, l) == Ones();
    StoreLoad(Ones());
  }

  lemma OnesWrap()
    ensures !NoWrap(Ones(), 1) && Inc32N(Ones(), 0) == Ones() && |NextN(Ones(), 1)| == 16
  {
    hide Value, Pow256;
    AllOnes(Ones()[12..]);
  }

  lemma KeptApart(enc: Cipher, a: Bytes, b: Bytes)
    requires Permutes(enc) && |a| == |b| == 16 && a != b
    ensures enc(a) != enc(b)
  {}

  /** A permutation keeps different counters apart. */
  lemma BlocksDiffer(enc: Cipher, j0: Bytes)
    requires Permutes(enc) && |j0| == 16 && |NextN(j0, 1)| == 16 && NextN(j0, 1) != Inc32N(j0, 1)
    ensures FastBlocks(enc, j0)(0) != GcmBlocks(enc, j0)(0)
  {
    hide NextN, Inc32N, Permutes;
    KeptApart(enc, NextN(j0, 1), Inc32N(j0, 1));
    FastBlockAt(enc, j0, 0);
    assert GcmBlocks(enc, j0)(0) == enc(Inc32N(j0, 0 + 1));
  }

  /** There are a cipher and an initialization vector for which the first block of a fast call already differs. */
  lemma FastCanWrap()
    ensures var enc, iv := Masking(Store(ONE)), WrapIv();
            && Permutes(enc) && J0(enc, iv) == Ones() && !FastAt(J0(enc, iv), 0, 16)
            && FastBlocks(enc, J0(enc, iv))(0) != GcmBlocks(enc, J0(enc, iv))(0)
  {
    hide Masking, Store, Load, Start, NextN, Inc32N, NoWrap, Ones, WrapIv, Pow256;
    var enc, j0 := Masking(Store(ONE)), Ones();
    MaskingPermutes(Store(ONE));
    LoadStore(ONE);
    WrapStart();
    OnesWrap();
    PowFour();
    FastCounterExactly(j0, 1);
    BlocksDiffer(enc, j0);
  }
}
