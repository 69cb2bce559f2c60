/** The tag of a GCM message, byte by byte: GHASH is a sum of products with powers of the hash key, its last block holds
    two numbers of bits, and the tag is the hash under the encryption of the first counter. */
module GcmTag {
  import opened Words
  import opened GF128
  import opened Keystream
  import opened Counter
  import opened LongNumbers
  import opened GcmSpec

  // ---------------------------------------------------------------- the numbers in the last block

  /** The lengths in bits, as two 64-bit numbers. */
  ghost predicate Lengths(last: Bytes, alen: nat, clen: nat) {
    && |last| == 16
    && Value(last[..8]) == 8 * alen % 0x1_0000_0000_0000_0000
    && Value(last[8..]) == 8 * clen % 0x1_0000_0000_0000_0000
  }

  lemma LenBlockLengths(alen: nat, clen: nat)
    ensures Lengths(LenBlock(alen, clen), alen, clen)
  {
    hide StoreWord, Value, Size;
    SizeValue(8 * alen);
    SizeValue(8 * clen);
    assert LenBlock(alen, clen)[..8] == Len64(alen) && LenBlock(alen, clen)[8..] == Len64(clen);
  }

  // ---------------------------------------------------------------- GHASH as a sum

  /** h^n. */
  function Power(h: Block, n: nat): Block {
    if n == 0 then ONE else Mul(Power(h, n - 1), h)
  }

  /** The sum of the blocks X_1 to X_m of data, each times a power of h: X_1 h^m + X_2 h^(m - 1) + ... + X_m h. */
  function HashSum(h: Block, data: Bytes): Block
    decreases |data|
  {
    if |data| < 16 then ZERO
    else Xor(Mul(Load(data[..16]), Power(h, |data| / 16)), HashSum(h, data[16..]))
  }

  lemma GhashFrom(h: Block, x: Block, data: Bytes)
    requires 16 <= |data| && |data| % 16 == 0
    ensures Ghash(h, x, data) == Ghash(h, Mul(Xor(x, Load(data[..16])), h), data[16..])
  {
    hide Mul, Xor, Load;
    assert data == data[..16] + data[16..];
    GhashAppend(h, x, data[..16], data[16..]);
    GhashOne(h, x, data[..16]);
  }

  /** What a state contributes, and what the blocks after it do. */
  lemma {:induction false} GhashSplits(h: Block, x: Block, data: Bytes)
    requires |data| % 16 == 0
    ensures Ghash(h, x, data) == Xor(Mul(x, Power(h, |data| / 16)), HashSum(h, data))
    decreases |data|
  {
    hide Mul, Xor, Load, Ghash;
    var m := |data| / 16;
    if data == [] {
      GhashNone(h, x);
      MulUnit(x);
      XorUnit(x);
    } else {
      var b, p := Load(data[..16]), Power(h, m - 1);
      GhashFrom(h, x, data);
      GhashSplits(h, Mul(Xor(x, b), h), data[16..]);
      MulComm(p, h);
      MulAssoc(Xor(x, b), h, p);
      MulXor(x, b, Power(h, m));
      XorAssoc(Mul(x, Power(h, m)), Mul(b, Power(h, m)), HashSum(h, data[16..]));
    }
  }

  /** GHASH of section 6.4 of NIST SP 800-38D is that sum. */
  lemma GhashIsSum(h: Block, data: Bytes)
    requires |data| % 16 == 0
    ensures Ghash(h, ZERO, data) == HashSum(h, data)
  {
    hide Mul, Xor, Ghash;
    GhashSplits(h, ZERO, data);
    MulNothing(Power(h, |data| / 16));
    XorUnit(HashSum(h, data));
  }

  lemma MulNothing(v: Block)
    ensures Mul(ZERO, v) == ZERO
  {
    ProdZero(Store(v), 16);
  }

  // ---------------------------------------------------------------- the tag

  /** Every byte of the tag, unmasked, is a byte of the hash of the padded data, the padded ciphertext and the
      lengths. */
  ghost predicate Unmasks(enc: Cipher, j0: Bytes, padded: Bytes, alen: nat, c: Bytes, tag: Bytes)
    requires Block16(enc) && |j0| == 16
  {
    && |tag| <= 16
    && exists last: Bytes :: Lengths(last, alen, |c|) && UnmasksWith(enc, j0, padded + Pad16(c) + last, tag)
  }

  ghost predicate UnmasksWith(enc: Cipher, j0: Bytes, hashed: Bytes, tag: Bytes)
    requires Block16(enc) && |j0| == 16 && |tag| <= 16
  {
    var s := Store(HashSum(Load(enc(Zeros(16))), hashed));
    forall i :: 0 <= i < |tag| ==> XorByte(tag[i], enc(j0)[i]) == s[i]
  }

  lemma MaskUnmasks(enc: Cipher, j0: Bytes, hashed: Bytes, t: nat)
    requires Block16(enc) && |j0| == 16 && t <= 16 && |hashed| % 16 == 0
    ensures var s := Ghash(Load(enc(Zeros(16))), ZERO, hashed);
            UnmasksWith(enc, j0, hashed, MaskTag(enc, j0, s, t))
  {
    hide Load, Store, XorByte, Ghash, HashSum;
    var h := Load(enc(Zeros(16)));
    var s := Ghash(h, ZERO, hashed);
    GhashIsSum(h, hashed);
    forall i | 0 <= i < t
      ensures XorByte(MaskTag(enc, j0, s, t)[i], enc(j0)[i]) == Store(s)[i]
    {
      XorByteTwice(Store(s)[i], enc(j0)[i]);
    }
  }

  lemma UnmasksBy(enc: Cipher, j0: Bytes, padded: Bytes, alen: nat, c: Bytes, tag: Bytes, last: Bytes)
    requires Block16(enc) && |j0| == 16 && |tag| <= 16
    requires Lengths(last, alen, |c|) && UnmasksWith(enc, j0, padded + Pad16(c) + last, tag)
    ensures Unmasks(enc, j0, padded, alen, c, tag)
  {
    hide Lengths, UnmasksWith, Pad16;
  }

  lemma CipherBlocks(enc: Cipher, j0: Bytes)
    requires Block16(enc) && |j0| == 16
    ensures |enc(j0)| == 16 && |Zeros(16)| == 16 && |enc(Zeros(16))| == 16
  {}

  lemma SpecUnmasks(enc: Cipher, j0: Bytes, aad: Bytes, c: Bytes, t: nat)
    requires Block16(enc) && |j0| == 16 && t <= 16
    ensures Unmasks(enc, j0, Pad16(aad), |aad|, c, SpecTag(enc, Load(enc(Zeros(16))), j0, aad, c, t))
  {
    hide *;
    CipherBlocks(enc, j0);
    var h, l := Load(enc(Zeros(16))), LenBlock(|aad|, |c|);
    LenBlockLengths(|aad|, |c|);
    var hashed := Pad16(aad) + Pad16(c) + l;
    MaskUnmasks(enc, j0, hashed, t);
    SpecTagIs(enc, h, j0, aad, c, t);
    UnmasksBy(enc, j0, Pad16(aad), |aad|, c, SpecTag(enc, h, j0, aad, c, t), l);
  }

  lemma SpecTagIs(enc: Cipher, h: Block, j0: Bytes, aad: Bytes, c: Bytes, t: nat)
    requires |j0| == 16 && |enc(j0)| == 16 && t <= 16
    ensures SpecTag(enc, h, j0, aad, c, t)
         == MaskTag(enc, j0, Ghash(h, ZERO, Pad16(aad) + Pad16(c) + LenBlock(|aad|, |c|)), t)
  {
    hide Ghash, MaskTag, LenBlock, Pad16;
  }

  lemma CodeTagIs(enc: Cipher, h: Block, j0: Bytes, aad: Bytes, c: Bytes, t: nat)
    requires |j0| == 16 && |enc(j0)| == 16 && t <= 16
    ensures CodeTag(enc, h, j0, aad, c, t)
         == MaskTag(enc, j0, Ghash(h, ZERO, PadData(aad) + Pad16(c) + LenBlock(|aad|, |c|)), t)
  {
    hide Ghash, MaskTag, LenBlock, Pad16, PadData, HashBlock;
    var l := LenBlock(|aad|, |c|);
    GhashAppend(h, ZERO, PadData(aad) + Pad16(c), l);
    GhashAppend(h, ZERO, PadData(aad), Pad16(c));
    GhashOne(h, Ghash(h, ZERO, PadData(aad) + Pad16(c)), l);
  }

  lemma CodeUnmasks(enc: Cipher, j0: Bytes, aad: Bytes, c: Bytes, t: nat)
    requires Block16(enc) && |j0| == 16 && t <= 16
    ensures Unmasks(enc, j0, PadData(aad), |aad|, c, CodeTag(enc, Load(enc(Zeros(16))), j0, aad, c, t))
  {
    hide *;
    CipherBlocks(enc, j0);
    var h, l := Load(enc(Zeros(16))), LenBlock(|aad|, |c|);
    LenBlockLengths(|aad|, |c|);
    var hashed := PadData(aad) + Pad16(c) + l;
    MaskUnmasks(enc, j0, hashed, t);
    CodeTagIs(enc, h, j0, aad, c, t);
    UnmasksBy(enc, j0, PadData(aad), |aad|, c, CodeTag(enc, h, j0, aad, c, t), l);
  }

  lemma LengthsUnique(a: Bytes, b: Bytes, alen: nat, clen: nat)
    requires Lengths(a, alen, clen) && Lengths(b, alen, clen)
    ensures a == b
  {
    hide Value;
    ValueInjective(a[..8], b[..8]);
    ValueInjective(a[8..], b[8..]);
    assert a == a[..8] + a[8..] && b == b[..8] + b[8..];
  }

  lemma SameMask(enc: Cipher, j0: Bytes, hashed: Bytes, a: Bytes, b: Bytes)
    requires Block16(enc) && |j0| == 16 && |a| == |b| <= 16
    requires UnmasksWith(enc, j0, hashed, a) && UnmasksWith(enc, j0, hashed, b)
    ensures a == b
  {
    hide Load, Store, HashSum, XorByte;
    var k := enc(j0);
    forall i | 0 <= i < |a|
      ensures a[i] == b[i]
    {
      XorByteTwice(a[i], k[i]);
      XorByteTwice(b[i], k[i]);
    }
  }

  /** There is one such tag of every length. */
  lemma OneTag(enc: Cipher, j0: Bytes, padded: Bytes, alen: nat, c: Bytes, a: Bytes, b: Bytes)
    requires Block16(enc) && |j0| == 16 && |a| == |b|
    requires Unmasks(enc, j0, padded, alen, c, a) && Unmasks(enc, j0, padded, alen, c, b)
    ensures a == b
  {
    hide Lengths, UnmasksWith, Pad16;
    var l: Bytes :| Lengths(l, alen, |c|) && UnmasksWith(enc, j0, padded + Pad16(c) + l, a);
    var m: Bytes :| Lengths(m, alen, |c|) && UnmasksWith(enc, j0, padded + Pad16(c) + m, b);
    LengthsUnique(l, m, alen, |c|);
    SameMask(enc, j0, padded + Pad16(c) + l, a, b);
  }

  // ---------------------------------------------------------------- the first counter

  /** J0, section 7.1 step 2: the vector and a one, or the hash of the padded vector and its length. */
  ghost predicate FirstCounter(enc: Cipher, iv: Bytes, j0: Bytes)
    requires Block16(enc)
  {
    if |iv| == 12 then j0 == iv + [0, 0, 0, 1]
    else exists last: Bytes :: Lengths(last, 0, |iv|) && j0 == Store(HashSum(Load(enc(Zeros(16))), Pad16(iv) + last))
  }

  lemma FirstBy(enc: Cipher, iv: Bytes, last: Bytes)
    requires Block16(enc) && |iv| != 12 && Lengths(last, 0, |iv|) && |Zeros(16)| == 16
    ensures FirstCounter(enc, iv, Store(HashSum(Load(enc(Zeros(16))), Pad16(iv) + last)))
  {
    hide Load, Store, Pad16, HashSum, Lengths;
  }

  lemma FirstTwelve(enc: Cipher, iv: Bytes)
    requires Block16(enc) && |iv| == 12
    ensures FirstCounter(enc, iv, iv + [0, 0, 0, 1])
  {}

  lemma StartIs(h: Block, iv: Bytes)
    ensures |iv| == 12 ==> Start(h, iv) == iv + [0, 0, 0, 1]
    ensures |iv| != 12 ==> Start(h, iv) == Store(Ghash(h, ZERO, Pad16(iv) + LenBlock(0, |iv|)))
  {
    hide Store, Ghash, LenBlock, Pad16, HashBlock;
    GhashAppend(h, ZERO, Pad16(iv), LenBlock(0, |iv|));
    GhashOne(h, Ghash(h, ZERO, Pad16(iv)), LenBlock(0, |iv|));
  }

  lemma StartIsFirst(enc: Cipher, iv: Bytes)
    requires Block16(enc)
    ensures |Zeros(16)| == 16 && FirstCounter(enc, iv, Start(Load(enc(Zeros(16))), iv))
  {
    hide *;
    CipherBlocks(enc, Zeros(16));
    var h, l := Load(enc(Zeros(16))), LenBlock(0, |iv|);
    StartIs(h, iv);
    if |iv| == 12 {
      FirstTwelve(enc, iv);
    } else {
      LenBlockLengths(0, |iv|);
      GhashIsSum(h, Pad16(iv) + l);
      FirstBy(enc, iv, l);
    }
  }

  /** With no text and no data the hash is zero, and the tag is what it is masked with. */
  lemma EmptyTag(enc: Cipher, j0: Bytes, t: nat)
    requires Block16(enc) && |j0| == 16 && t <= 16
    ensures CodeTag(enc, Load(enc(Zeros(16))), j0, [], [], t) == enc(j0)[..t]
  {
    hide Load, Store, XorByte, Ghash, Mul, Xor;
    var h := Load(enc(Zeros(16)));
    NoData(h);
    GhashNone(h, ZERO);
    NoLengths();
    LoadZeros(Zeros(16));
    XorUnit(ZERO);
    MulNothing(h);
    ZeroBytes();
    forall i | 0 <= i < 16
      ensures XorByte(Zeros(16)[i], enc(j0)[i]) == enc(j0)[i]
    {
      XorByteUnit(enc(j0)[i]);
    }
    assert XorBytes(Zeros(16), enc(j0)) == enc(j0);
  }

  lemma NoLengths()
    ensures LenBlock(0, 0) == Zeros(16) && Pad16([]) == []
  {
    assert StoreWord(0) == Zeros(8);
    assert Zeros(8) + Zeros(8) == Zeros(16);
  }

  lemma ZeroBytes()
    ensures Store(ZERO) == Zeros(16)
  {
    assert StoreWord(0) == Zeros(8);
    assert Zeros(8) + Zeros(8) == Zeros(16);
  }
}
