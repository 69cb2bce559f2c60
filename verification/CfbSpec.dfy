/** Cipher feedback with any segment length, byte by byte (section 6.3 of NIST SP 800-38A). */
module CfbSpec {
  import opened Words
  import opened Arithmetic
  import opened Keystream

  ghost predicate Proper(enc: Cipher, iv: Bytes, fb: nat) {
    0 < fb <= |iv| && forall b: Bytes :: |b| == |iv| ==> |enc(b)| == |iv|
  }

  /** The shift register after the whole segments of the ciphertext c. */
  function Register(iv: Bytes, fb: nat, c: Bytes): (r: Bytes)
    requires 0 < fb <= |iv|
    ensures |r| == |iv|
  {
    if |c| < fb then iv else Register(iv, fb, c[..|c| - fb])[fb..] + c[|c| - fb..]
  }

  /** The ciphertext before the segment that the next byte belongs to. */
  function Segments(fb: nat, c: Bytes): Bytes
    requires 0 < fb
  {
    c[..|c| - |c| % fb]
  }

  ghost function SegmentKey(enc: Cipher, iv: Bytes, fb: nat, c: Bytes): (k: Bytes)
    requires Proper(enc, iv, fb)
    ensures |k| == |iv|
  {
    enc(Register(iv, fb, Segments(fb, c)))
  }

  /** The key byte for the byte after the ciphertext c. */
  ghost function KeyByteAfter(enc: Cipher, iv: Bytes, fb: nat, c: Bytes): bv8
    requires Proper(enc, iv, fb)
  {
    SegmentKey(enc, iv, fb, c)[|c| % fb]
  }

  /** The encryption of p when c is the ciphertext before it. */
  ghost function Seal(enc: Cipher, iv: Bytes, fb: nat, c: Bytes, p: Bytes): (r: Bytes)
    requires Proper(enc, iv, fb)
    ensures |r| == |p|
    decreases |p|
  {
    if p == [] then []
    else
      var b := XorByte(p[0], KeyByteAfter(enc, iv, fb, c));
      [b] + Seal(enc, iv, fb, c + [b], p[1..])
  }

  /** The decryption of t when c is the ciphertext before it. */
  ghost function Open(enc: Cipher, iv: Bytes, fb: nat, c: Bytes, t: Bytes): (r: Bytes)
    requires Proper(enc, iv, fb)
    ensures |r| == |t|
    decreases |t|
  {
    if t == [] then []
    else [XorByte(t[0], KeyByteAfter(enc, iv, fb, c))] + Open(enc, iv, fb, c + [t[0]], t[1..])
  }

  /** Decryption undoes encryption, from any point of the stream. */
  lemma {:induction false} RoundTrip(enc: Cipher, iv: Bytes, fb: nat, c: Bytes, p: Bytes)
    requires Proper(enc, iv, fb)
    ensures Open(enc, iv, fb, c, Seal(enc, iv, fb, c, p)) == p
    decreases |p|
  {
    hide KeyByteAfter, Proper, XorByte;
    if p != [] {
      var k := KeyByteAfter(enc, iv, fb, c);
      var b := XorByte(p[0], k);
      XorByteTwice(p[0], k);
      var t := Seal(enc, iv, fb, c + [b], p[1..]);
      assert ([b] + t)[1..] == t;
      RoundTrip(enc, iv, fb, c + [b], p[1..]);
    }
  }

  lemma {:induction false} SealConcat(enc: Cipher, iv: Bytes, fb: nat, c: Bytes, a: Bytes, b: Bytes)
    requires Proper(enc, iv, fb)
    ensures Seal(enc, iv, fb, c, a + b)
         == Seal(enc, iv, fb, c, a) + Seal(enc, iv, fb, c + Seal(enc, iv, fb, c, a), b)
    decreases |a|
  {
    hide KeyByteAfter, Proper, XorByte;
    if a == [] {
      assert a + b == b && c + [] == c;
    } else {
      var x := XorByte(a[0], KeyByteAfter(enc, iv, fb, c));
      var d := c + [x];
      assert (a + b)[1..] == a[1..] + b;
      SealConcat(enc, iv, fb, d, a[1..], b);
      var s := Seal(enc, iv, fb, d, a[1..]);
      assert c + ([x] + s) == d + s;
    }
  }

  lemma {:induction false} OpenConcat(enc: Cipher, iv: Bytes, fb: nat, c: Bytes, a: Bytes, b: Bytes)
    requires Proper(enc, iv, fb)
    ensures Open(enc, iv, fb, c, a + b) == Open(enc, iv, fb, c, a) + Open(enc, iv, fb, c + a, b)
    decreases |a|
  {
    hide KeyByteAfter, Proper, XorByte;
    if a == [] {
      assert a + b == b && c + [] == c;
    } else {
      assert (a + b)[1..] == a[1..] + b;
      OpenConcat(enc, iv, fb, c + [a[0]], a[1..], b);
      assert c + a == (c + [a[0]]) + a[1..];
    }
  }

  /** Inside a segment the key does not change. */
  lemma SameSegment(enc: Cipher, iv: Bytes, fb: nat, c: Bytes, whole: Bytes, q: nat, k: nat)
    requires Proper(enc, iv, fb) && k < fb && |c| == BlockStart(fb, q) + k && whole == c[..BlockStart(fb, q)]
    ensures KeyByteAfter(enc, iv, fb, c) == enc(Register(iv, fb, whole))[k]
  {
    Division(|c|, q, k, fb);
  }

  lemma XorBytesCons(p: Bytes, key: Bytes, k: nat)
    requires 0 < |p| && k + |p| <= |key|
    ensures XorBytes(p, key[k..k + |p|]) == [XorByte(p[0], key[k])] + XorBytes(p[1..], key[k + 1..k + 1 + |p[1..]|])
  {
    hide XorByte;
  }

  lemma Fits(enc: Cipher, iv: Bytes, fb: nat)
    requires Proper(enc, iv, fb)
    ensures 0 < fb <= |iv|
  {}

  /** A piece of one segment: plain exclusive-or with a slice of the segment's key. */
  lemma {:induction false} SealPiece(enc: Cipher, iv: Bytes, fb: nat, c: Bytes, whole: Bytes, key: Bytes, p: Bytes,
                                     q: nat, k: nat)
    requires Proper(enc, iv, fb) && k + |p| <= fb && |c| == BlockStart(fb, q) + k && whole == c[..BlockStart(fb, q)]
    requires key == enc(Register(iv, fb, whole)) && |key| == |iv|
    ensures Seal(enc, iv, fb, c, p) == XorBytes(p, key[k..k + |p|])
    decreases |p|
  {
    hide Proper, Register, BlockStart, KeyByteAfter, XorByte, XorBytes;
    Fits(enc, iv, fb);
    if p == [] {
      assert XorBytes(p, key[k..k]) == [];
    } else {
      SameSegment(enc, iv, fb, c, whole, q, k);
      var b := XorByte(p[0], key[k]);
      XorBytesCons(p, key, k);
      assert (c + [b])[..BlockStart(fb, q)] == whole;
      SealPiece(enc, iv, fb, c + [b], whole, key, p[1..], q, k + 1);
    }
  }

  lemma {:induction false} OpenPiece(enc: Cipher, iv: Bytes, fb: nat, c: Bytes, whole: Bytes, key: Bytes, t: Bytes,
                                     q: nat, k: nat)
    requires Proper(enc, iv, fb) && k + |t| <= fb && |c| == BlockStart(fb, q) + k && whole == c[..BlockStart(fb, q)]
    requires key == enc(Register(iv, fb, whole)) && |key| == |iv|
    ensures Open(enc, iv, fb, c, t) == XorBytes(t, key[k..k + |t|])
    decreases |t|
  {
    hide Proper, Register, BlockStart, KeyByteAfter, XorByte, XorBytes;
    Fits(enc, iv, fb);
    if t == [] {
      assert XorBytes(t, key[k..k]) == [];
    } else {
      SameSegment(enc, iv, fb, c, whole, q, k);
      XorBytesCons(t, key, k);
      assert (c + [t[0]])[..BlockStart(fb, q)] == whole;
      OpenPiece(enc, iv, fb, c + [t[0]], whole, key, t[1..], q, k + 1);
    }
  }

  /** The recurrence of the standard: after a whole segment t of ciphertext the register is shifted by one segment. */
  lemma RegisterStep(iv: Bytes, fb: nat, c: Bytes, t: Bytes)
    requires 0 < fb <= |iv| && |t| == fb
    ensures Register(iv, fb, c + t) == Register(iv, fb, c)[fb..] + t
  {
    assert (c + t)[..|c + t| - fb] == c && (c + t)[|c + t| - fb..] == t;
  }

  // ---------------------------------------------------------------- whole blocks as segments

  /** With the feedback as wide as the block, the register is the last block of ciphertext. */
  lemma WholeRegister(iv: Bytes, c: Bytes, t: Bytes)
    requires |iv| == |t| == 16
    ensures Register(iv, 16, c + t) == t
  {
    RegisterStep(iv, 16, c, t);
  }

  /** One block, sealed or opened. */
  lemma BlockText(enc: Cipher, iv: Bytes, c: Bytes, p: Bytes, q: nat)
    requires Proper(enc, iv, 16) && |iv| == |p| == 16 && |c| == BlockStart(16, q)
    requires |enc(Register(iv, 16, c))| == 16
    ensures Seal(enc, iv, 16, c, p) == Open(enc, iv, 16, c, p) == XorBytes(p, enc(Register(iv, 16, c)))
  {
    hide Register, Seal, Open, XorBytes, BlockStart;
    var key := enc(Register(iv, 16, c));
    assert c[..|c|] == c && key[0..0 + |p|] == key;
    SealPiece(enc, iv, 16, c, c, key, p, q, 0);
    OpenPiece(enc, iv, 16, c, c, key, p, q, 0);
  }

  lemma OpenNone(enc: Cipher, iv: Bytes, c: Bytes)
    requires Proper(enc, iv, 16)
    ensures Open(enc, iv, 16, c, []) == XorBytes([], [])
  {}

  lemma PieceIs(s: Bytes, k: nat)
    requires 16 * k + 16 <= |s|
    ensures Piece(s, k) == s[16 * k..16 * (k + 1)]
  {}

  lemma KeyLength(enc: Cipher, iv: Bytes, fb: nat, c: Bytes)
    requires Proper(enc, iv, fb)
    ensures |enc(Register(iv, fb, c))| == |iv|
  {
    hide Register;
  }

  /** Keys computed all at once from the ciphertext open it. */
  lemma {:induction false} OpenBlocks(enc: Cipher, iv: Bytes, c: Bytes, t: Bytes, keys: Bytes, q: nat, m: nat)
    requires Proper(enc, iv, 16) && |iv| == 16 && |c| == BlockStart(16, q) && 16 * m <= |t| <= |keys|
    requires forall k :: 0 <= k < m ==> Piece(keys, k) == enc(Register(iv, 16, c + t[..16 * k]))
    ensures Open(enc, iv, 16, c, t[..16 * m]) == XorBytes(t[..16 * m], keys[..16 * m])
  {
    hide *;
    if m == 0 {
      OpenNone(enc, iv, c);
    } else {
      var j := m - 1;
      var a, p := t[..16 * j], t[16 * j..16 * m];
      OpenBlocks(enc, iv, c, t, keys, q, j);
      assert t[..16 * m] == a + p;
      OpenConcat(enc, iv, 16, c, a, p);
      assert |c + a| == BlockStart(16, q + j) by { BlocksAdd(q, j); }
      assert Piece(keys, j) == keys[16 * j..16 * m] by { PieceIs(keys, j); }
      KeyLength(enc, iv, 16, c + a);
      BlockText(enc, iv, c + a, p, q + j);
      XorBytesConcat(a, keys[..16 * j], p, keys[16 * j..16 * m]);
      assert keys[..16 * m] == keys[..16 * j] + keys[16 * j..16 * m];
    }
  }

  lemma BlocksAdd(q: nat, j: nat)
    ensures BlockStart(16, q + j) == BlockStart(16, q) + 16 * j
  {}

  lemma XorBytesConcat(a: Bytes, k: Bytes, b: Bytes, l: Bytes)
    requires |a| == |k| && |b| == |l|
    ensures XorBytes(a + b, k + l) == XorBytes(a, k) + XorBytes(b, l)
  {}
}
