/** Whole runs of the GCM calls: setiv, setdata, any calls on the pieces of a text, and the final call. */
module GcmRuns {
  import opened Words
  import opened GF128
  import opened Keystream
  import opened Counter
  import opened LongNumbers
  import opened GcmSpec
  import opened GcmCounter
  import opened GcmMessage
  import opened GcmTag
  import opened Calls
  import opened Gcm

  predicate Fits(j0: Bytes, pos: nat, call: Call)
    requires |j0| == 16
  {
    call.Fast? ==> FastAt(j0, pos, call.len)
  }

  ghost predicate Legal(calls: seq<Call>, j0: Bytes)
    requires |j0| == 16
  {
    forall i :: 0 <= i < |calls| ==> Fits(j0, Total(calls[..i]), calls[i])
  }

  /** With a 12-byte initialization vector the low word lasts for every message of less than 2^36 - 32 bytes. */
  lemma LegalTwelve(calls: seq<Call>, iv: Bytes)
    requires |iv| == 12 && Total(calls) < 16 * (Pow256(4) - 2) && Aligned(calls)
    ensures Legal(calls, iv + [0, 0, 0, 1])
  {
    hide Pow256, NoWrap, Inc32N;
    forall i | 0 <= i < |calls|
      ensures Fits(iv + [0, 0, 0, 1], Total(calls[..i]), calls[i])
    {
      if calls[i].Fast? {
        TotalNext(calls, i);
        TotalUpTo(calls, i + 1);
        TwelveByteIv(iv, Total(calls[..i]) / 16, calls[i].len / 16);
      }
    }
  }

  lemma FitsFast(j0: Bytes, pos: nat, call: Call)
    requires |j0| == 16 && Fits(j0, pos, call) && call.Fast?
    ensures FastAt(j0, pos, call.len)
  {}

  /** One call, on fresh buffers. */
  method Feed(g: Gcm, call: Call, opening: bool, piece: Bytes) returns (o: Bytes)
    requires g.Ready() && g.Valid() && |piece| == call.len && Fits(g.y0[..], |g.ct|, call)
    modifies g`boff, g`used, g`ct, g`clen, g.x, g.y, g.buf, g.cbuf
    ensures g.Valid() && g.y0[..] == old(g.y0[..])
    ensures g.Crypts(|old(g.ct)|, piece, o) && g.ct == old(g.ct) + if opening then piece else o
  {
    hide *;
    Buffers(g);
    var n := call.len;
    var inp := new bv8[n](i requires 0 <= i < n => piece[i]);
    var out := new bv8[n](i => 0);
    assert inp[..n] == inp[..] == piece;
    FreshBuffers(g, out, inp);
    if call.Fast? {
      FitsFast(g.y0[..], |g.ct|, call);
      g.AtBlock(n);
      g.CryptFast(out, inp, n, opening);
    } else if opening {
      g.Decrypt(out, inp, n);
    } else {
      g.Encrypt(out, inp, n);
    }
    o := out[..n];
  }

  lemma Buffers(g: Gcm)
    requires g.Ready()
    ensures |g.y0[..]| == 16 && g.y0 != g.x && g.y0 != g.y && g.y0 != g.buf && g.y0 != g.cbuf && g.taglen <= 16
    ensures g.h != g.x && g.h != g.y && g.h != g.buf && g.h != g.cbuf
  {}

  /** New buffers are not part of a context. */
  lemma FreshBuffers(g: Gcm, out: array<bv8>, inp: array<bv8>)
    requires {out, inp} !! {g.y0, g.y, g.h, g.x, g.buf, g.cbuf}
    requires (out as object) != g.table && (inp as object) != g.table
    ensures g.Apart(out, inp)
  {}

  lemma CryptsNext(g: Gcm, text: Bytes, m: nat, n: nat, o: Bytes, more: Bytes)
    requires g.Ready() && m <= n <= |text| && g.Crypts(0, text[..m], o) && g.Crypts(m, text[m..n], more)
    ensures |o| == m && |more| == n - m && g.Crypts(0, text[..n], o + more)
  {
    hide Wide, XorStream, GcmBlocks;
    assert text[..n] == text[..m] + text[m..n];
    XorStreamConcat(g.Key(), 16, 0, text[..m], text[m..n]);
  }

  lemma CryptsNone(g: Gcm)
    requires g.Ready() && g.Valid()
    ensures g.Crypts(0, [], [])
  {
    hide Wide, GcmBlocks, Hashed, Counted, Ghash, PadData;
  }

  /** All the calls but the final one. */
  method Feeds(g: Gcm, calls: seq<Call>, opening: bool, text: Bytes) returns (o: Bytes)
    requires g.Ready() && g.Valid() && g.ct == [] && Total(calls) <= |text| && Legal(calls, g.y0[..])
    modifies g`boff, g`used, g`ct, g`clen, g.x, g.y, g.buf, g.cbuf
    ensures g.Valid() && g.y0[..] == old(g.y0[..])
    ensures g.Crypts(0, text[..Total(calls)], o) && g.ct == if opening then text[..Total(calls)] else o
  {
    hide *;
    ghost var j0 := g.y0[..];
    CryptsNone(g);
    Buffers(g);
    NoCalls(calls);
    o := [];
    var pos := 0;
    for i := 0 to |calls|
      invariant g.Valid() && g.y0[..] == j0 && pos == Total(calls[..i]) <= |text|
      invariant g.Crypts(0, text[..pos], o) && |o| == pos && g.ct == if opening then text[..pos] else o
    {
      TotalNext(calls, i);
      TotalUpTo(calls, i + 1);
      LegalAt(calls, j0, i);
      var next := pos + calls[i].len;
      var more := Feed(g, calls[i], opening, text[pos..next]);
      CryptsNext(g, text, pos, next, o, more);
      assert text[..next] == text[..pos] + text[pos..next];
      o := o + more;
      pos := next;
    }
    assert calls[..|calls|] == calls;
  }

  lemma LegalAt(calls: seq<Call>, j0: Bytes, i: nat)
    requires |j0| == 16 && Legal(calls, j0) && i < |calls|
    ensures Fits(j0, Total(calls[..i]), calls[i])
  {}

  // ---------------------------------------------------------------- whole messages

  /** setiv and setdata. */
  method Begin(g: Gcm, iv: Bytes, aad: Bytes) returns (ok: bool)
    requires g.Ready() && g.boff == 0
    modifies g`hv, g`iv, g`alen, g`clen, g`aad, g`ct, g`used, g.y0, g.y, g.h, g.x, g.buf, g.cbuf, g.table
    ensures ok == (|iv| == 12 || g.taglen == 16)
    ensures ok ==> g.Valid() && g.ct == [] && g.aad == aad && g.y0[..] == J0(g.enc, iv)
  {
    hide *;
    Buffers(g);
    ok := g.SetIv(iv);
    if ok {
      Started(g, iv);
      g.SetData(aad);
    }
  }

  lemma Started(g: Gcm, iv: Bytes)
    requires g.Ready() && g.Keyed() && g.Fresh() && g.y0[..] == Start(g.H(), iv)
    ensures g.ct == [] && Block16(g.enc) && g.y0[..] == J0(g.enc, iv)
  {
    hide Start, Load, Ghash, HashBlock;
  }

  lemma TagIs(g: Gcm, iv: Bytes, aad: Bytes, c: Bytes)
    requires g.Ready() && g.Keyed() && g.aad == aad && g.ct == c && Block16(g.enc) && g.y0[..] == J0(g.enc, iv)
    ensures g.taglen <= 16 && g.Mac() == Tag(g.enc, iv, aad, c, g.taglen)
  {
    hide Start, Load, Ghash, CodeTag;
  }

  lemma TextIs(g: Gcm, iv: Bytes, text: Bytes, o: Bytes)
    requires g.Ready() && Block16(g.enc) && g.y0[..] == J0(g.enc, iv) && g.Crypts(0, text, o)
    ensures o == SealText(g.enc, iv, text)
  {
    hide Start, Load, XorStream, J0, GcmBlocks, Wide;
  }

  lemma ReadyBlocks(g: Gcm)
    requires g.Ready()
    ensures Block16(g.enc) && g.taglen <= 16 && Proper(g.enc, g.taglen)
  {}

  /** Seals a text in any legal calls: the ciphertext and the tag are those of the one-shot function. */
  method SealMessage(g: Gcm, iv: Bytes, aad: Bytes, calls: seq<Call>, text: Bytes)
    returns (ok: bool, r: Outcome, c: Bytes, tag: Bytes)
    requires g.Ready() && g.boff == 0 && Block16(g.enc) && Total(calls) <= |text| && Legal(calls, J0(g.enc, iv))
    modifies g, g.y0, g.y, g.h, g.x, g.buf, g.cbuf, g.table
    ensures Proper(g.enc, g.taglen) && ok == (|iv| == 12 || g.taglen == 16)
    ensures ok ==> r == Length(|text| - Total(calls) + g.taglen)
    ensures ok ==> (c, tag) == Sealed(g.enc, iv, aad, text, g.taglen)
    ensures ok ==> |tag| == g.taglen && Unmasks(g.enc, J0(g.enc, iv), PadData(aad), |aad|, c, tag)
    ensures FirstCounter(g.enc, iv, J0(g.enc, iv))
    ensures ok && aad == [] && text == [] ==> tag == g.enc(J0(g.enc, iv))[..g.taglen]
  {
    hide *;
    ReadyBlocks(g);
    Buffers(g);
    r, c, tag := MoreInfo, [], [];
    ok := Begin(g, iv, aad);
    if ok {
      c := Feeds(g, calls, false, text);
      var pos := Total(calls);
      var n, t := |text| - pos, g.taglen;
      var inp := new bv8[n](i requires 0 <= i < n => text[pos + i]);
      var out := new bv8[n + t](i => 0);
      assert inp[..n] == inp[..] == text[pos..|text|];
      FreshBuffers(g, out, inp);
      CryptsLength(g, text[..pos], c);
      r := g.EncryptFinal(out, n + t, inp, n);
      CryptsNext(g, text, pos, |text|, c, out[..n]);
      c := c + out[..n];
      tag := out[n..n + t];
      assert text[..|text|] == text;
      TagIs(g, iv, aad, c);
      TextIs(g, iv, text, c);
      SealedIs(g.enc, iv, aad, text, c, tag, t);
      TagUnmasks(g.enc, iv, aad, c, t, tag);
      TagOfNothing(g.enc, iv, t);
    }
    FirstIs(g.enc, iv);
  }

  lemma FirstIs(enc: Cipher, iv: Bytes)
    requires Block16(enc)
    ensures FirstCounter(enc, iv, J0(enc, iv)) && |enc(J0(enc, iv))| == 16
  {
    hide Start, Load, FirstCounter;
    StartIsFirst(enc, iv);
  }

  /** The tag of a message is the one that unmasks to the hash. */
  lemma TagUnmasks(enc: Cipher, iv: Bytes, aad: Bytes, c: Bytes, t: nat, tag: Bytes)
    requires Proper(enc, t)
    ensures tag == Tag(enc, iv, aad, c, t) <==> |tag| == t && Unmasks(enc, J0(enc, iv), PadData(aad), |aad|, c, tag)
  {
    hide *;
    Blocks16(enc, t);
    FirstIs(enc, iv);
    TagIsCode(enc, iv, aad, c, t);
    CodeUnmasks(enc, J0(enc, iv), aad, c, t);
    if |tag| == t && Unmasks(enc, J0(enc, iv), PadData(aad), |aad|, c, tag) {
      OneTag(enc, J0(enc, iv), PadData(aad), |aad|, c, tag, Tag(enc, iv, aad, c, t));
    }
  }

  lemma TagIsCode(enc: Cipher, iv: Bytes, aad: Bytes, c: Bytes, t: nat)
    requires Proper(enc, t)
    ensures |Zeros(16)| == 16 && |enc(Zeros(16))| == 16 && |enc(J0(enc, iv))| == 16 && t <= 16
    ensures Tag(enc, iv, aad, c, t) == CodeTag(enc, Load(enc(Zeros(16))), J0(enc, iv), aad, c, t)
    ensures |Tag(enc, iv, aad, c, t)| == t
  {
    hide Load, J0, FinalHash, Ghash, PadData;
  }

  lemma TagOfNothing(enc: Cipher, iv: Bytes, t: nat)
    requires Proper(enc, t)
    ensures |enc(J0(enc, iv))| == 16 && t <= 16 && Tag(enc, iv, [], [], t) == enc(J0(enc, iv))[..t]
  {
    hide *;
    Blocks16(enc, t);
    TagIsCode(enc, iv, [], [], t);
    EmptyTag(enc, J0(enc, iv), t);
  }

  lemma CryptsLength(g: Gcm, text: Bytes, o: Bytes)
    requires g.Ready() && g.Crypts(0, text, o)
    ensures |o| == |text|
  {
    hide Wide, XorStream, GcmBlocks;
  }

  lemma SealedIs(enc: Cipher, iv: Bytes, aad: Bytes, text: Bytes, c: Bytes, tag: Bytes, t: nat)
    requires Proper(enc, t) && c == SealText(enc, iv, text) && tag == Tag(enc, iv, aad, c, t)
    ensures (c, tag) == Sealed(enc, iv, aad, text, t)
  {
    hide SealText, Tag;
  }

  /** Opens a ciphertext in any legal calls. The text is returned whether or not the tag is right. */
  method OpenMessage(g: Gcm, iv: Bytes, aad: Bytes, calls: seq<Call>, c: Bytes, tag: Bytes)
    returns (ok: bool, r: Outcome, text: Bytes)
    requires g.Ready() && g.boff == 0 && Block16(g.enc) && Total(calls) <= |c| && Legal(calls, J0(g.enc, iv))
    requires |tag| == g.taglen
    modifies g, g.y0, g.y, g.h, g.x, g.buf, g.cbuf, g.table
    ensures Proper(g.enc, g.taglen) && ok == (|iv| == 12 || g.taglen == 16)
    ensures ok ==> text == SealText(g.enc, iv, c)
    ensures ok ==> r == if Open(g.enc, iv, aad, c, tag, g.taglen) == Some(text)
                        then Length(|c| - Total(calls)) else VerifyFailed
    ensures ok ==> r == if Unmasks(g.enc, J0(g.enc, iv), PadData(aad), |aad|, c, tag)
                        then Length(|c| - Total(calls)) else VerifyFailed
  {
    hide *;
    ReadyBlocks(g);
    Buffers(g);
    r, text := VerifyFailed, [];
    ok := Begin(g, iv, aad);
    if ok {
      text := Feeds(g, calls, true, c);
      var pos := Total(calls);
      var n, t := |c| - pos, g.taglen;
      var last := c[pos..] + tag;
      var inp := new bv8[n + t](i requires 0 <= i < n + t => last[i]);
      var out := new bv8[n](i => 0);
      assert inp[..] == last;
      assert inp[..n] == inp[..][..n] == c[pos..|c|];
      assert inp[n..n + t] == inp[..][n..n + t] == tag;
      FreshBuffers(g, out, inp);
      CryptsLength(g, c[..pos], text);
      assert c[..pos] + c[pos..|c|] == c;
      r := g.DecryptFinal(out, n, inp);
      CryptsNext(g, c, pos, |c|, text, out[..n]);
      text := text + out[..n];
      assert c[..|c|] == c;
      TagIs(g, iv, aad, c);
      TextIs(g, iv, c, text);
      OpenIs(g.enc, iv, aad, c, tag, t, text);
      TagUnmasks(g.enc, iv, aad, c, t, tag);
    }
  }

  lemma OpenIs(enc: Cipher, iv: Bytes, aad: Bytes, c: Bytes, tag: Bytes, t: nat, text: Bytes)
    requires Proper(enc, t) && text == SealText(enc, iv, c)
    ensures tag == Tag(enc, iv, aad, c, t) <==> Open(enc, iv, aad, c, tag, t) == Some(text)
  {
    hide SealText, Tag;
  }

  /** A message sealed by one context is opened by another of the same cipher, whatever multipliers they use and
      however either side cuts the text into calls: the text comes back, the tag that was made is accepted, and no
      other tag is. For additional data that is empty or ends in an incomplete block the message is that of
      section 7.1 of NIST SP 800-38D. */
  method RoundTrip(enc: Cipher, t: nat, iv: Bytes, aad: Bytes, sealMul: Multiplier, openMul: Multiplier,
                   wrote: seq<Call>, read: seq<Call>, text: Bytes, tag: Bytes)
    returns (c: Bytes, made: Bytes, plain: Bytes, r: Outcome)
    requires Proper(enc, t) && (|iv| == 12 || t == 16) && |tag| == t
    requires Total(wrote) <= |text| && Legal(wrote, J0(enc, iv))
    requires Total(read) <= |text| && Legal(read, J0(enc, iv))
    ensures plain == text && |c| == |text| && |made| == t
    ensures r == if tag == made then Length(|text| - Total(read)) else VerifyFailed
    ensures FirstCounter(enc, iv, J0(enc, iv)) && Unmasks(enc, J0(enc, iv), PadData(aad), |aad|, c, made)
    ensures |aad| == 0 || |aad| % 16 != 0 ==>
              (c, made) == SpecSeal(enc, iv, aad, text, t)
              && Unmasks(enc, J0(enc, iv), Pad16(aad), |aad|, c, made)
  {
    hide *;
    Blocks16(enc, t);
    var a := new Gcm(enc, sealMul, t);
    var ok, sealed;
    ok, sealed, c, made := SealMessage(a, iv, aad, wrote, text);
    SealedLength(enc, iv, aad, text, t);
    var b := new Gcm(enc, openMul, t);
    ok, r, plain := OpenMessage(b, iv, aad, read, c, tag);
    SealedOpens(enc, iv, aad, text, t, tag);
    SealedConforms(enc, iv, aad, text, t);
    SpecSealUnmasks(enc, iv, aad, text, t);
  }

  lemma SpecSealUnmasks(enc: Cipher, iv: Bytes, aad: Bytes, text: Bytes, t: nat)
    requires Proper(enc, t)
    ensures Block16(enc)
    ensures var (c, tag) := SpecSeal(enc, iv, aad, text, t);
            Unmasks(enc, J0(enc, iv), Pad16(aad), |aad|, c, tag)
  {
    hide SealText, J0, SpecTag, Unmasks, Load, Pad16;
    FirstIs(enc, iv);
    SpecUnmasks(enc, J0(enc, iv), aad, SealText(enc, iv, text), t);
  }

  lemma Blocks16(enc: Cipher, t: nat)
    requires Proper(enc, t)
    ensures Block16(enc) && t <= 16
  {}
}
