/** Cipher feedback mode (impl/mode/cfb.c). */
module Cfb {
  import opened Words
  import opened Arithmetic
  import opened Keystream
  import opened CfbSpec

  /** In the middle of segment q, k bytes of which are done: the register is shifted and its new end filled as far as
      the ciphertext goes, and the rest of the segment's key is in buf. */
  ghost predicate Drawn(enc: Cipher, iv: Bytes, fb: nat, c: Bytes, q: nat, prev: Bytes, buf: Bytes, k: nat) {
    && Proper(enc, iv, fb) && 0 < fb <= |iv| && |prev| == |buf| == |iv| && k <= fb && |c| == BlockStart(fb, q) + k
    && prev[..|iv| - fb] == Register(iv, fb, c[..BlockStart(fb, q)])[fb..]
    && prev[|iv| - fb..|iv| - fb + k] == c[BlockStart(fb, q)..]
    && |enc(Register(iv, fb, c[..BlockStart(fb, q)]))| == |iv|
    && buf[k..fb] == enc(Register(iv, fb, c[..BlockStart(fb, q)]))[k..fb]
  }

  /** Between calls, after the ciphertext c. */
  ghost predicate At(enc: Cipher, iv: Bytes, fb: nat, c: Bytes, q: nat, prev: Bytes, buf: Bytes, boff: nat) {
    if boff == 0 then
      && Proper(enc, iv, fb) && |prev| == |buf| == |iv| && |c| == BlockStart(fb, q)
      && prev == Register(iv, fb, c)
    else
      boff < fb && Drawn(enc, iv, fb, c, q, prev, buf, boff)
  }

  /** The last byte of a segment completes the register. */
  lemma SegmentDone(enc: Cipher, iv: Bytes, fb: nat, c: Bytes, q: nat, prev: Bytes, buf: Bytes)
    requires Drawn(enc, iv, fb, c, q, prev, buf, fb)
    ensures At(enc, iv, fb, c, q + 1, prev, buf, 0)
  {
    hide Register, BlockStart;
    var m := BlockStart(fb, q);
    BlockStartNext(fb, q);
    assert c == c[..m] + c[m..];
    RegisterStep(iv, fb, c[..m], c[m..]);
    assert prev == prev[..|iv| - fb] + prev[|iv| - fb..|iv| - fb + fb];
  }

  lemma SegmentBegun(enc: Cipher, iv: Bytes, fb: nat, c: Bytes, q: nat, prev: Bytes, buf: Bytes, next: Bytes,
                     key: Bytes)
    requires At(enc, iv, fb, c, q, prev, buf, 0) && key == enc(prev) && |next| == |prev|
    requires next[..|iv| - fb] == prev[fb..]
    ensures Drawn(enc, iv, fb, c, q, next, key, 0)
  {
    hide Register, BlockStart;
    assert c[..|c|] == c;
  }

  /** The ciphertext that a piece of text adds. */
  ghost function Added(opening: bool, enc: Cipher, iv: Bytes, fb: nat, c: Bytes, p: Bytes): (r: Bytes)
    requires Proper(enc, iv, fb)
    ensures |r| == |p|
  {
    if opening then p else Seal(enc, iv, fb, c, p)
  }

  /** What the call writes. */
  ghost function Written(opening: bool, enc: Cipher, iv: Bytes, fb: nat, c: Bytes, p: Bytes): (r: Bytes)
    requires Proper(enc, iv, fb)
    ensures |r| == |p|
  {
    if opening then Open(enc, iv, fb, c, p) else Seal(enc, iv, fb, c, p)
  }

  lemma MorePieces(opening: bool, enc: Cipher, iv: Bytes, fb: nat, c: Bytes, a: Bytes, b: Bytes)
    requires Proper(enc, iv, fb)
    ensures Added(opening, enc, iv, fb, c, a + b)
         == Added(opening, enc, iv, fb, c, a) + Added(opening, enc, iv, fb, c + Added(opening, enc, iv, fb, c, a), b)
    ensures Written(opening, enc, iv, fb, c, a + b)
         == Written(opening, enc, iv, fb, c, a)
            + Written(opening, enc, iv, fb, c + Added(opening, enc, iv, fb, c, a), b)
  {
    hide Proper, Seal, Open;
    SealConcat(enc, iv, fb, c, a, b);
    OpenConcat(enc, iv, fb, c, a, b);
  }

  /** A piece of the segment is its text xor the key in buf. */
  lemma PieceText(enc: Cipher, iv: Bytes, fb: nat, c: Bytes, q: nat, prev: Bytes, buf: Bytes, k: nat, p: Bytes)
    requires Drawn(enc, iv, fb, c, q, prev, buf, k) && k + |p| <= fb
    ensures Seal(enc, iv, fb, c, p) == Open(enc, iv, fb, c, p) == XorBytes(p, buf[k..k + |p|])
  {
    hide Register, BlockStart, Seal, Open, XorBytes, Proper;
    var whole := c[..BlockStart(fb, q)];
    var key := enc(Register(iv, fb, whole));
    SealPiece(enc, iv, fb, c, whole, key, p, q, k);
    OpenPiece(enc, iv, fb, c, whole, key, p, q, k);
    assert buf[k..k + |p|] == buf[k..fb][..|p|] == key[k..fb][..|p|] == key[k..k + |p|];
  }

  /** t more bytes of ciphertext in the register, their key bytes used up. */
  lemma PieceDrawn(enc: Cipher, iv: Bytes, fb: nat, c: Bytes, q: nat, prev: Bytes, buf: Bytes, k: nat, t: Bytes,
                   next: Bytes, left: Bytes)
    requires Drawn(enc, iv, fb, c, q, prev, buf, k) && k + |t| <= fb && |next| == |left| == |iv|
    requires next[..|iv| - fb + k] == prev[..|iv| - fb + k] && next[|iv| - fb + k..|iv| - fb + k + |t|] == t
    requires left[k + |t|..] == buf[k + |t|..]
    ensures Drawn(enc, iv, fb, c + t, q, next, left, k + |t|)
  {
    hide Register, BlockStart, Proper;
    var n, m, e := |iv| - fb, BlockStart(fb, q), k + |t|;
    assert (c + t)[..m] == c[..m] && (c + t)[m..] == c[m..] + t;
    ShiftedParts(prev, next, n, k, t);
    KeyRest(enc(Register(iv, fb, c[..m])), buf, left, k, e, fb);
  }

  /** The next piece of a call: what is written and what the ciphertext becomes. */
  lemma PieceOfCall(opening: bool, enc: Cipher, iv: Bytes, fb: nat, c: Bytes, q: nat, prev: Bytes, buf: Bytes, k: nat,
                    before: Bytes, text: Bytes, o: nat, m: nat)
    requires Drawn(enc, iv, fb, c, q, prev, buf, k) && Proper(enc, iv, fb) && k + m <= fb && o + m <= |text|
    requires c == before + Added(opening, enc, iv, fb, before, text[..o])
    ensures k + m <= |buf|
    ensures Written(opening, enc, iv, fb, before, text[..o + m])
         == Written(opening, enc, iv, fb, before, text[..o]) + XorBytes(text[o..o + m], buf[k..k + m])
    ensures before + Added(opening, enc, iv, fb, before, text[..o + m])
         == c + if opening then text[o..o + m] else XorBytes(text[o..o + m], buf[k..k + m])
  {
    hide Seal, Open, XorBytes, Register, BlockStart, Proper;
    var p := text[o..o + m];
    PieceText(enc, iv, fb, c, q, prev, buf, k, p);
    MorePieces(opening, enc, iv, fb, before, text[..o], p);
    assert text[..o + m] == text[..o] + p;
  }

  lemma ShiftedParts(prev: Bytes, next: Bytes, n: nat, k: nat, t: Bytes)
    requires n + k + |t| <= |prev| == |next|
    requires next[..n + k] == prev[..n + k] && next[n + k..n + k + |t|] == t
    ensures next[..n] == prev[..n] && next[n..n + (k + |t|)] == prev[n..n + k] + t
  {
    assert next[..n] == next[..n + k][..n] == prev[..n + k][..n];
    assert next[n..n + k] == next[..n + k][n..] == prev[..n + k][n..] == prev[n..n + k];
  }

  lemma KeyRest(key: Bytes, buf: Bytes, left: Bytes, k: nat, e: nat, fb: nat)
    requires k <= e <= fb <= |key| == |buf| == |left|
    requires buf[k..fb] == key[k..fb] && left[e..] == buf[e..]
    ensures left[e..fb] == key[e..fb]
  {
    assert left[e..fb] == left[e..][..fb - e] == buf[e..][..fb - e];
    assert buf[e..fb] == buf[k..fb][e - k..] == key[k..fb][e - k..];
  }

  class Cfb {
    const n: nat
    const fb: nat
    const enc: Cipher
    const prev: array<bv8>
    const buf: array<bv8>
    var iv: Bytes
    var boff: nat
    ghost var ct: Bytes
    ghost var segs: nat

    /** struct cfb after init and setblock; fb is the feedback width in bytes. */
    ghost predicate Ready()
    {
      && 0 < fb <= n <= 32 && prev.Length == n && buf.Length == n && prev != buf
      && forall b: Bytes :: |b| == n ==> |enc(b)| == n
    }

    /** After the ciphertext ct, with the next byte k bytes into a segment. */
    ghost predicate Placed(k: nat)
      reads `iv, `ct, `segs, prev, buf
    {
      Ready() && |iv| == n && At(enc, iv, fb, ct, segs, prev[..], buf[..], k)
    }

    ghost predicate Valid()
      reads `iv, `ct, `segs, `boff, prev, buf
    {
      Placed(boff)
    }

    constructor (n: nat, fb: nat, enc: Cipher)
      requires 0 < n <= 32 && fb <= n && forall b: Bytes :: |b| == n ==> |enc(b)| == n
      ensures Ready() && fresh(prev) && fresh(buf) && boff == 0
      ensures this.n == n && this.fb == (if fb == 0 then n else fb) && this.enc == enc
    {
      this.n := n;
      this.fb := if fb == 0 then n else fb;
      this.enc := enc;
      prev := new bv8[n](i => 0);
      buf := new bv8[n](i => 0);
      iv := [];
      boff := 0;
      ct, segs := [], 0;
    }

    /** cfb_setiv: a wrong length is refused; boff is not cleared. */
    method SetIv(newIv: Bytes) returns (ok: bool)
      requires Ready()
      modifies `iv, `ct, `segs, prev, buf
      ensures ok == (|newIv| == n)
      ensures !ok ==> iv == old(iv) && ct == old(ct) && segs == old(segs)
                      && prev[..] == old(prev[..]) && buf[..] == old(buf[..])
      ensures ok ==> iv == newIv && ct == [] && Placed(0) && (Valid() <==> boff == 0)
    {
      ok := |newIv| == n;
      if ok {
        CopyInto(prev, newIv);
        CopyInto(buf, newIv);
        iv := newIv;
        ct, segs := [], 0;
        assert BlockStart(fb, segs) == 0;
      }
    }

    /** cfb_reset. */
    method Reset()
      requires Ready() && |iv| == n
      modifies `iv, `ct, `segs, `boff, prev, buf
      ensures Valid() && iv == old(iv) && ct == []
    {
      hide At;
      var ok := SetIv(iv);
      boff := 0;
    }

    ghost predicate Outside(a: array<bv8>) {
      a != prev && a != buf
    }

    /** The first o bytes of a call on `text` are done; `before` was the ciphertext when it began. */
    ghost predicate Going(out: array<bv8>, inp: array<bv8>, o: nat, opening: bool,
                          before: Bytes, text: Bytes, rest: Bytes)
      requires Proper(enc, iv, fb)
      reads `iv, `ct, out, inp
    {
      && Outside(out) && Outside(inp) && o <= |text| <= out.Length && |text| <= inp.Length
      && Flowing(out, inp, o, text, rest, Written(opening, enc, iv, fb, before, text[..o]))
      && ct == before + Added(opening, enc, iv, fb, before, text[..o])
    }

    /** The next segment: the register is encrypted into buf, then shifted. */
    method Draw()
      requires Placed(0)
      modifies prev, buf
      ensures Ready() && Drawn(enc, iv, fb, ct, segs, prev[..], buf[..], 0)
    {
      hide Register, BlockStart;
      ghost var p := prev[..];
      CopyInto(buf, enc(prev[..]));
      StoreAt(prev, 0, prev[fb..]);
      assert prev[..n - fb] == prev[0..0 + |p[fb..]|] == p[fb..];
      SegmentBegun(enc, iv, fb, ct, segs, p, buf[..], prev[..], buf[..]);
    }

    /** The inner loops: bytes k to k + m - 1 of the segment. Encryption leaves the ciphertext in buf as well. */
    method Emit(out: array<bv8>, inp: array<bv8>, o: nat, k: nat, m: nat, opening: bool,
                ghost text: Bytes, ghost rest: Bytes, ghost done: Bytes)
      requires Ready() && Outside(out) && Outside(inp) && k + m <= fb
      requires o + m <= |text| <= out.Length && |text| <= inp.Length && Flowing(out, inp, o, text, rest, done)
      modifies prev, buf, out
      ensures Flowing(out, inp, o + m, text, rest, done + XorBytes(text[o..o + m], old(buf[k..k + m])))
      ensures prev[..n - fb + k] == old(prev[..n - fb + k])
      ensures prev[n - fb + k..n - fb + k + m]
           == if opening then text[o..o + m] else XorBytes(text[o..o + m], old(buf[k..k + m]))
      ensures buf[k + m..] == old(buf[k + m..])
    {
      hide XorBytes;
      if opening {
        assert inp[o..o + m] == inp[o..|text|][..m] == text[o..][..m] == text[o..o + m];
        StoreAt(prev, n - fb + k, inp[o..o + m]);
        XorText(out, inp, o, buf, k, m, text, rest, done);
      } else {
        XorText(out, inp, o, buf, k, m, text, rest, done);
        StoreAt(buf, k, out[o..o + m]);
        StoreAt(prev, n - fb + k, out[o..o + m]);
      }
    }

    /** Bytes k to k + m - 1 of the segment, in the stream. */
    method Take(out: array<bv8>, inp: array<bv8>, o: nat, k: nat, m: nat, opening: bool,
                ghost before: Bytes, ghost text: Bytes, ghost rest: Bytes)
      requires Ready() && |iv| == n && Drawn(enc, iv, fb, ct, segs, prev[..], buf[..], k)
      requires Going(out, inp, o, opening, before, text, rest) && k + m <= fb && o + m <= |text|
      modifies `ct, prev, buf, out
      ensures Drawn(enc, iv, fb, ct, segs, prev[..], buf[..], k + m)
      ensures Going(out, inp, o + m, opening, before, text, rest)
    {
      hide *;
      Bounds(k);
      ghost var p, e := text[o..o + m], o + m;
      ghost var c, v, b := ct, prev[..], buf[..];
      GoingFacts(out, inp, o, opening, before, text, rest);
      PieceOfCall(opening, enc, iv, fb, c, segs, v, b, k, before, text, o, m);
      assert b[k..k + m] == buf[k..k + m];
      Emit(out, inp, o, k, m, opening, text, rest, Written(opening, enc, iv, fb, before, text[..o]));
      ct := before + Added(opening, enc, iv, fb, before, text[..e]);
      PieceDrawn(enc, iv, fb, c, segs, v, b, k, ct[|c|..], prev[..], buf[..]);
      GoingOn(out, inp, e, opening, before, text, rest);
    }

    lemma Bounds(k: nat)
      requires Ready() && Drawn(enc, iv, fb, ct, segs, prev[..], buf[..], k)
      ensures k <= fb <= n && prev.Length == n && buf.Length == n && Proper(enc, iv, fb)
    {
      hide Proper, Register, BlockStart;
    }

    lemma GoingFacts(out: array<bv8>, inp: array<bv8>, o: nat, opening: bool, before: Bytes, text: Bytes, rest: Bytes)
      requires Proper(enc, iv, fb) && Going(out, inp, o, opening, before, text, rest)
      ensures Outside(out) && Outside(inp) && o <= |text| <= out.Length && |text| <= inp.Length
      ensures Flowing(out, inp, o, text, rest, Written(opening, enc, iv, fb, before, text[..o]))
      ensures ct == before + Added(opening, enc, iv, fb, before, text[..o])
      ensures out != prev && out != buf && inp != prev && inp != buf
    {
      hide Proper, Flowing, Written, Added;
    }

    lemma GoingOn(out: array<bv8>, inp: array<bv8>, o: nat, opening: bool, before: Bytes, text: Bytes, rest: Bytes)
      requires Proper(enc, iv, fb) && Outside(out) && Outside(inp) && o <= |text| <= out.Length && |text| <= inp.Length
      requires Flowing(out, inp, o, text, rest, Written(opening, enc, iv, fb, before, text[..o]))
      requires ct == before + Added(opening, enc, iv, fb, before, text[..o])
      ensures Going(out, inp, o, opening, before, text, rest)
    {
      hide Proper, Flowing, Written, Added;
    }

    /** Between the parts of a call: o bytes done, the next one k bytes into its segment. */
    ghost predicate Done(out: array<bv8>, inp: array<bv8>, o: nat, k: nat, opening: bool,
                         before: Bytes, text: Bytes, rest: Bytes)
      reads `iv, `ct, `segs, prev, buf, out, inp
    {
      && Placed(k) && Proper(enc, iv, fb) && k < fb
      && Going(out, inp, o, opening, before, text, rest)
    }

    /** The bytes that finish the current segment, or all of the call if they do not reach its end. */
    method Leftover(out: array<bv8>, inp: array<bv8>, k: nat, m: nat, opening: bool,
                    ghost before: Bytes, ghost text: Bytes, ghost rest: Bytes)
      requires Done(out, inp, 0, k, opening, before, text, rest) && 0 < k && k + m <= fb && m <= |text|
      modifies `ct, `segs, prev, buf, out
      ensures Done(out, inp, m, if k + m == fb then 0 else k + m, opening, before, text, rest) && iv == old(iv)
    {
      hide Going, Drawn, Proper;
      Take(out, inp, 0, k, m, opening, before, text, rest);
      if k + m == fb {
        SegmentDone(enc, iv, fb, ct, segs, prev[..], buf[..]);
        segs := segs + 1;
      }
    }

    /** A whole segment. */
    method WholeSegment(out: array<bv8>, inp: array<bv8>, o: nat, opening: bool,
                        ghost before: Bytes, ghost text: Bytes, ghost rest: Bytes)
      requires Done(out, inp, o, 0, opening, before, text, rest) && o + fb <= |text|
      modifies `ct, `segs, prev, buf, out
      ensures Done(out, inp, o + fb, 0, opening, before, text, rest) && iv == old(iv)
    {
      hide Flowing, Drawn, Proper, Written, Added;
      Draw();
      Take(out, inp, o, 0, fb, opening, before, text, rest);
      SegmentDone(enc, iv, fb, ct, segs, prev[..], buf[..]);
      segs := segs + 1;
    }

    /** The start of a segment. */
    method PartSegment(out: array<bv8>, inp: array<bv8>, o: nat, m: nat, opening: bool,
                       ghost before: Bytes, ghost text: Bytes, ghost rest: Bytes)
      requires Done(out, inp, o, 0, opening, before, text, rest) && 0 < m < fb && o + m <= |text|
      modifies `ct, prev, buf, out
      ensures Done(out, inp, o + m, m, opening, before, text, rest)
    {
      hide Flowing, Drawn, Proper, Written, Added;
      Draw();
      Take(out, inp, o, 0, m, opening, before, text, rest);
    }

    lemma Sizes(o: nat, k: nat, out: array<bv8>, inp: array<bv8>, opening: bool,
                before: Bytes, text: Bytes, rest: Bytes)
      requires Done(out, inp, o, k, opening, before, text, rest)
      ensures k < fb <= 32 && BlockStart(fb, 0) == 0
    {
      hide Going, At;
    }

    /** The loop and the tail that cfb_encrypt and cfb_decrypt share; boff is set only when there is a tail. */
    method Segments(out: array<bv8>, inp: array<bv8>, from: nat, len: nat, opening: bool, ghost k: nat,
                    ghost before: Bytes, ghost text: Bytes, ghost rest: Bytes)
      requires Done(out, inp, from, k, opening, before, text, rest) && from <= len == |text| && (k == 0 || from == len)
      modifies `boff, `ct, `segs, prev, buf, out
      ensures iv == old(iv) && 0 < fb
      ensures var tail := Remainder(len - from, fb);
              && boff == (if tail == 0 then old(boff) else tail)
              && Done(out, inp, len, if tail == 0 then k else tail, opening, before, text, rest)
    {
      hide *;
      Sizes(from, k, out, inp, opening, before, text, rest);
      var o := from;
      ghost var q := 0;
      while len - o >= fb
        invariant o <= len && o - from == BlockStart(fb, q) && Done(out, inp, o, k, opening, before, text, rest)
        invariant k == 0 || o == len
        invariant iv == old(iv) && boff == old(boff)
      {
        WholeSegment(out, inp, o, opening, before, text, rest);
        o := o + fb;
        BlockStartNext(fb, q);
        q := q + 1;
      }
      TailOf(len - from, q, len - o, fb);
      if o < len {
        PartSegment(out, inp, o, len - o, opening, before, text, rest);
        boff := len - o;
      }
    }

    /** cfb_encrypt; out may be inp. */
    method Encrypt(out: array<bv8>, inp: array<bv8>, len: nat)
      requires Valid() && Outside(out) && Outside(inp) && len <= out.Length && len <= inp.Length
      modifies `boff, `ct, `segs, prev, buf, out
      ensures Valid() && iv == old(iv) && Proper(enc, iv, fb)
      ensures out[..len] == Seal(enc, iv, fb, old(ct), old(inp[..len])) && out[len..] == old(out[len..])
      ensures ct == old(ct) + out[..len]
    {
      hide *;
      ghost var before, text, rest := ct, inp[..len], out[len..];
      Begin(out, inp, len, false);
      NoTail(fb);
      var o := 0;
      if boff != 0 {
        var b := if fb - boff < len then fb - boff else len;
        Leftover(out, inp, boff, b, false, before, text, rest);
        boff := boff + b;
        if boff == fb {
          boff := 0;
        }
        o := b;
      }
      Segments(out, inp, o, len, false, boff, before, text, rest);
      End(out, inp, len, boff, false, before, text, rest);
      ValidIs();
    }

    /** Where the next byte is in its segment after a call of len bytes that started at k. */
    ghost function PlaceAfter(k: nat, len: nat): nat
      requires 0 < fb && k < fb
    {
      Remainder(k + len, fb)
    }

    /** cfb_decrypt moves boff backwards where cfb_encrypt moves it forwards, so after some calls it is wrong. */
    predicate KeepsPlace(k: nat, len: nat)
      requires 0 < fb && k < fb
    {
      k == 0 || len == 0 || (len >= fb - k && (Remainder(len - (fb - k), fb) != 0 || fb == 2 * k))
    }

    /** What cfb_decrypt leaves in boff instead. */
    ghost function BoffAfter(k: nat, len: nat): nat
      requires 0 < fb <= 32 && k < fb && len < 0x1_0000_0000_0000_0000
    {
      var o := if k == 0 then 0 else if fb - k < len then fb - k else len;
      if Remainder(len - o, fb) != 0 then Remainder(len - o, fb) else if k == 0 then 0 else SubtractSize(k, o)
    }

    /** Two calls of one byte each, with segments of a whole block: the next byte is at place 2, and boff says 0. */
    lemma OneByteCalls()
      requires fb == 16
      ensures KeepsPlace(0, 1) && BoffAfter(0, 1) == PlaceAfter(0, 1) == 1
      ensures !KeepsPlace(1, 1) && PlaceAfter(1, 1) == 2 && BoffAfter(1, 1) == 0
    {
      NoTail(16);
      TailOf(1, 0, 1, 16);
      TailOf(2, 0, 2, 16);
    }

    /** cfb_decrypt; out may be inp. One call always writes the right text; the context is then ready to go on exactly
        when KeepsPlace holds. boff is a 64-bit size_t. */
    method Decrypt(out: array<bv8>, inp: array<bv8>, len: nat)
      requires Valid() && Outside(out) && Outside(inp) && len <= out.Length && len <= inp.Length
      requires len < 0x1_0000_0000_0000_0000
      modifies `boff, `ct, `segs, prev, buf, out
      ensures iv == old(iv) && Proper(enc, iv, fb) && 0 < fb <= 32 && old(boff) < fb
      ensures out[..len] == Open(enc, iv, fb, old(ct), old(inp[..len])) && out[len..] == old(out[len..])
      ensures ct == old(ct) + old(inp[..len]) && Placed(PlaceAfter(old(boff), len))
      ensures boff == BoffAfter(old(boff), len)
      ensures Valid() <==> KeepsPlace(old(boff), len)
    {
      hide *;
      ghost var before, text, rest, k := ct, inp[..len], out[len..], boff;
      Begin(out, inp, len, true);
      NoTail(fb);
      var o := 0;
      if boff != 0 {
        var b := if fb - boff < len then fb - boff else len;
        Leftover(out, inp, boff, b, true, before, text, rest);
        boff := SubtractSize(boff, b);
        k := if k + b == fb then 0 else k + b;
        o := b;
      }
      Segments(out, inp, o, len, true, k, before, text, rest);
      ghost var place := if Remainder(len - o, fb) == 0 then k else Remainder(len - o, fb);
      End(out, inp, len, place, true, before, text, rest);
      ValidIs();
      OnlyPlace(place, boff);
      PlaceOf(old(boff), len, o, k, Remainder(len - o, fb));
    }

    lemma Begin(out: array<bv8>, inp: array<bv8>, len: nat, opening: bool)
      requires Valid() && Outside(out) && Outside(inp) && len <= out.Length && len <= inp.Length
      ensures Done(out, inp, 0, boff, opening, ct, inp[..len], out[len..]) && boff < fb <= 32
    {
      hide Register, BlockStart;
      assert inp[..len][..0] == [];
    }

    /** cfb_encryptfast with 16-byte blocks, called with whole blocks at a block boundary; out may be inp. `cur` is the
        block the next key comes from: prev at first, then the output just written. */
    method EncryptFast(out: array<bv8>, inp: array<bv8>, len: nat)
      requires Valid() && boff == 0 && fb == n == 16 && Outside(out) && Outside(inp)
      requires len % 16 == 0 && len <= out.Length && len <= inp.Length
      modifies `ct, `segs, prev, buf, out
      ensures Valid() && iv == old(iv) && Proper(enc, iv, fb)
      ensures out[..len] == Seal(enc, iv, fb, old(ct), old(inp[..len])) && out[len..] == old(out[len..])
      ensures ct == old(ct) + out[..len]
    {
      ghost var before, text, rest := ct, inp[..len], out[len..];
      Begin(out, inp, len, false);
      hide Register, BlockStart, Seal, Open, XorBytes, Flowing, Written, Added;
      var cur := prev[..];
      for j := 0 to len / 16
        invariant Going(out, inp, 16 * j, false, before, text, rest) && iv == old(iv)
        invariant |cur| == 16 && cur == Register(iv, 16, ct) && |ct| == BlockStart(16, segs)
      {
        CopyInto(buf, enc(cur));
        cur := SealBlock(out, inp, 16 * j, before, text, rest);
      }
      assert text[..len] == text;
      CopyInto(prev, cur);
      End(out, inp, len, 0, false, before, text, rest);
    }

    method SealBlock(out: array<bv8>, inp: array<bv8>, o: nat, ghost before: Bytes, ghost text: Bytes,
                     ghost rest: Bytes)
      returns (cur: Bytes)
      requires Ready() && |iv| == n == fb == 16 && Proper(enc, iv, fb) && |ct| == BlockStart(16, segs)
      requires Going(out, inp, o, false, before, text, rest) && o + 16 <= |text|
      requires buf[..] == enc(Register(iv, 16, ct))
      modifies `ct, `segs, out
      ensures Going(out, inp, o + 16, false, before, text, rest)
      ensures |cur| == 16 && cur == Register(iv, 16, ct) && |ct| == BlockStart(16, segs)
    {
      hide Register, BlockStart, Seal, Open, XorBytes, Flowing;
      ghost var p := text[o..o + 16];
      BlockText(enc, iv, ct, p, segs);
      MorePieces(false, enc, iv, fb, before, text[..o], p);
      assert text[..o + 16] == text[..o] + p && buf[0..16] == buf[..];
      XorText(out, inp, o, buf, 0, 16, text, rest, Written(false, enc, iv, fb, before, text[..o]));
      cur := out[o..o + 16];
      WholeRegister(iv, ct, cur);
      BlockStartNext(16, segs);
      ct := ct + cur;
      segs := segs + 1;
    }

    /** The keys of cfb_decryptfast, all encrypted in one buffer. */
    method FastKeys(tmp: array<bv8>, text: Bytes, m: nat)
      requires Ready() && |iv| == n == fb == 16 && prev[..] == Register(iv, 16, ct) && tmp != prev
      requires 0 < 16 * m == |text| <= tmp.Length
      modifies tmp
      ensures forall k :: 0 <= k < m ==> Piece(tmp[..], k) == enc(Register(iv, 16, ct + text[..16 * k]))
    {
      hide Register, Piece;
      StoreAt(tmp, 0, prev[..]);
      assert tmp[..16] == tmp[0..16];
      StoreAt(tmp, 16, text[..|text| - 16]);
      ShiftedBlocks(iv, ct, text, tmp[..], m);
      EncryptBlocks(tmp, m, enc);
    }

    /** cfb_decryptfast with 16-byte blocks: every key is the encryption of a block that is already there. One pass of
        the loop; out may be inp. */
    method DecryptFast(out: array<bv8>, inp: array<bv8>, len: nat)
      requires Valid() && boff == 0 && fb == n == 16 && Outside(out) && Outside(inp)
      requires len <= 4096 && len % 16 == 0 && len <= out.Length && len <= inp.Length
      modifies `ct, `segs, prev, out
      ensures Valid() && iv == old(iv) && Proper(enc, iv, fb)
      ensures out[..len] == Open(enc, iv, fb, old(ct), old(inp[..len])) && out[len..] == old(out[len..])
      ensures ct == old(ct) + old(inp[..len])
    {
      hide Register, BlockStart, Open, XorBytes, KeyByteAfter, Piece;
      if len != 0 {
        ghost var text := inp[..len];
        var m := len / 16;
        var tmp := new bv8[4096];
        FastKeys(tmp, inp[..len], m);
        CopyInto(prev, inp[len - 16..len]);
        assert prev[..] == text[len - 16..];
        OpenBlocks(enc, iv, ct, text, tmp[..], segs, m);
        XorInto(out, inp, 0, tmp, 0, len);
        assert text[..16 * m] == text && tmp[..][..16 * m] == tmp[0..len] && out[..len] == out[0..len];
        WholeRegister(iv, ct + text[..len - 16], text[len - 16..]);
        assert ct + text == ct + text[..len - 16] + text[len - 16..];
        ct := ct + text;
        BlocksAdd(segs, m);
        segs := segs + m;
      } else {
        assert ct + inp[..0] == ct && out[..0] == [];
      }
    }

    lemma ValidIs()
      ensures Valid() <==> Placed(boff)
    {
      hide Placed;
    }

    lemma OnlyPlace(place: nat, k: nat)
      requires Placed(place)
      ensures Placed(k) <==> k == place
    {
      hide Register;
    }

    /** The place after the call, and what boff holds instead. */
    lemma PlaceOf(k0: nat, len: nat, o: nat, k: nat, tail: nat)
      requires 0 < fb <= 32 && k0 < fb && len < 0x1_0000_0000_0000_0000
      requires o == (if k0 == 0 then 0 else if fb - k0 < len then fb - k0 else len)
      requires k == (if k0 == 0 || k0 + o == fb then 0 else k0 + o) && tail == Remainder(len - o, fb)
      ensures BoffAfter(k0, len) == if tail != 0 then tail else if k0 == 0 then 0 else SubtractSize(k0, o)
      ensures PlaceAfter(k0, len) == if tail == 0 then k else tail
      ensures BoffAfter(k0, len) == PlaceAfter(k0, len) <==> KeepsPlace(k0, len)
    {
      NoTail(fb);
      if k0 != 0 && len < fb - k0 {
        assert BlockStart(fb, 0) == 0;
        TailOf(k0 + len, 0, k0 + len, fb);
      } else if k0 != 0 {
        SumQuotient(fb, len - o, fb);
        assert BlockStart(fb, 1) == fb;
        TailOf(fb, 1, 0, fb);
      }
    }

    lemma End(out: array<bv8>, inp: array<bv8>, len: nat, k: nat, opening: bool,
              before: Bytes, text: Bytes, rest: Bytes)
      requires Done(out, inp, len, k, opening, before, text, rest) && |text| == len
      ensures Placed(k) && Proper(enc, iv, fb) && out[len..] == rest
      ensures out[..len] == if opening then Open(enc, iv, fb, before, text) else Seal(enc, iv, fb, before, text)
      ensures ct == before + if opening then text else out[..len]
    {
      hide Register, BlockStart, Drawn;
      assert text[..len] == text;
    }
  }

  lemma Inside(s: Bytes, a: nat, b: nat, i: nat, j: nat)
    requires a <= b <= |s| && i <= j <= b - a
    ensures s[a..b][i..j] == s[a + i..a + j]
  {
    var u, v := s[a..b], s[a + i..a + j];
    assert |u[i..j]| == |v|;
    forall n | 0 <= n < |v|
      ensures u[i..j][n] == v[n]
    {
      assert u[i..j][n] == u[i + n];
    }
  }

  /** The blocks that become the keys: the register, then all the ciphertext but its last block. */
  lemma ShiftedBlocks(iv: Bytes, c: Bytes, t: Bytes, tmp: Bytes, m: nat)
    requires |iv| == 16 && 0 < 16 * m == |t| <= |tmp|
    requires tmp[..16] == Register(iv, 16, c) && tmp[16..16 * m] == t[..16 * m - 16]
    ensures forall k :: 0 <= k < m ==> Piece(tmp, k) == Register(iv, 16, c + t[..16 * k])
  {
    hide Register;
    forall k | 0 <= k < m
      ensures Piece(tmp, k) == Register(iv, 16, c + t[..16 * k])
    {
      if k == 0 {
        assert c + t[..0] == c;
      } else {
        var a, b := t[..16 * k - 16], t[16 * k - 16..16 * k];
        WholeRegister(iv, c + a, b);
        assert c + t[..16 * k] == (c + a) + b;
        Inside(tmp, 16, 16 * m, 16 * k - 16, 16 * k);
        Inside(t, 0, 16 * m - 16, 16 * k - 16, 16 * k);
      }
    }
  }

  /** Unsigned subtraction of 64-bit sizes. */
  function SubtractSize(a: nat, b: nat): nat
    requires a < 0x1_0000_0000_0000_0000 && b < 0x1_0000_0000_0000_0000
  {
    if a >= b then a - b else a + 0x1_0000_0000_0000_0000 - b
  }

  lemma NoTail(n: nat)
    requires 0 < n
    ensures Remainder(0, n) == 0
  {
    Division(0, 0, 0, n);
  }

  lemma TailOf(d: nat, q: nat, r: nat, n: nat)
    requires r < n && d == BlockStart(n, q) + r
    ensures Remainder(d, n) == r
  {
    Division(d, q, r, n);
  }
}
