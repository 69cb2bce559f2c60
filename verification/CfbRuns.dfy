/** Whole runs of cfb_encrypt and cfb_decrypt over the pieces of a text. */
module CfbRuns {
  import opened Words
  import opened Arithmetic
  import opened Calls
  import opened Keystream
  import opened CfbSpec
  import opened Cfb

  /** The place in its segment that call i starts from. */
  ghost function PlaceOfCall(c: Cfb, calls: seq<Call>, i: nat): (k: nat)
    requires c.Ready() && i <= |calls|
    ensures k < c.fb
  {
    DivMod(Total(calls[..i]), c.fb);
    Remainder(Total(calls[..i]), c.fb)
  }

  /** Every call but the last one leaves a context that can go on. */
  ghost predicate Steady(c: Cfb, calls: seq<Call>)
    requires c.Ready()
  {
    forall i :: 0 <= i < |calls| - 1 ==> c.KeepsPlace(PlaceOfCall(c, calls, i), calls[i].len)
  }

  lemma PlaceNext(c: Cfb, calls: seq<Call>, i: nat)
    requires c.Ready() && i < |calls|
    ensures c.PlaceAfter(PlaceOfCall(c, calls, i), calls[i].len) == PlaceOfCall(c, calls, i + 1)
  {
    TotalNext(calls, i);
    SumQuotient(Total(calls[..i]), calls[i].len, c.fb);
  }

  lemma FirstPlace(c: Cfb, calls: seq<Call>)
    requires c.Ready()
    ensures Total(calls[..0]) == 0 && PlaceOfCall(c, calls, 0) == 0
  {
    Division(0, 0, 0, c.fb);
  }

  /** Where a fast call may stand. */
  ghost predicate MayBeFast(c: Cfb, pos: nat, call: Call) {
    call.Fast? ==> c.fb == c.n == 16 && pos % 16 == 0 && call.len % 16 == 0 && call.len <= 4096
  }

  lemma MayBeFastAt(c: Cfb, calls: seq<Call>, i: nat)
    requires i < |calls| && (AllSlow(calls) || (c.fb == c.n == 16 && Aligned(calls)))
    ensures MayBeFast(c, Total(calls[..i]), calls[i])
  {
    AlignedAt(calls, i);
  }

  /** At the start of a segment nothing is buffered. */
  lemma AtBoundary(c: Cfb)
    requires c.Valid() && c.fb == 16 && |c.ct| % 16 == 0
    ensures c.boff == 0
  {
    hide Register;
  }

  /** What a fast call does to the place. */
  lemma FastPlace(c: Cfb, len: nat)
    requires c.Ready() && c.fb == 16 && len % 16 == 0 && len <= 4096
    ensures c.KeepsPlace(0, len) && c.BoffAfter(0, len) == 0 && c.PlaceAfter(0, len) == 0
  {
    Division(len, len / 16, 0, 16);
  }

  /** cfb_encrypt or its fast form on the next piece, with fresh buffers. */
  method Feed(c: Cfb, call: Call, piece: Bytes) returns (o: Bytes)
    requires c.Valid() && |piece| == call.len && MayBeFast(c, |c.ct|, call)
    modifies c`boff, c`ct, c`segs, c.prev, c.buf
    ensures c.Valid() && Proper(c.enc, c.iv, c.fb)
    ensures o == Seal(c.enc, c.iv, c.fb, old(c.ct), piece) && c.ct == old(c.ct) + o
  {
    hide *;
    var n := call.len;
    var inp := new bv8[n](i requires 0 <= i < n => piece[i]);
    var out := new bv8[n](i => 0);
    assert inp[..n] == inp[..] == piece;
    FreshBuffers(c, out, inp);
    if call.Fast? {
      FastOnly(c, |c.ct|, call);
      AtBoundary(c);
      c.EncryptFast(out, inp, n);
    } else {
      c.Encrypt(out, inp, n);
    }
    o := out[..n];
  }

  lemma FastOnly(c: Cfb, pos: nat, call: Call)
    requires MayBeFast(c, pos, call) && call.Fast?
    ensures c.fb == c.n == 16 && pos % 16 == 0 && call.len % 16 == 0 && call.len <= 4096
  {}

  lemma FreshBuffers(c: Cfb, out: array<bv8>, inp: array<bv8>)
    requires {out, inp} !! {c.prev, c.buf}
    ensures c.Outside(out) && c.Outside(inp)
  {}

  /** Any pieces, one after the other: the segment recurrence on the whole text. */
  method SealPieces(c: Cfb, calls: seq<Call>, text: Bytes) returns (o: Bytes)
    requires c.Valid() && c.ct == [] && Total(calls) == |text|
    requires AllSlow(calls) || (c.fb == c.n == 16 && Aligned(calls))
    modifies c`boff, c`ct, c`segs, c.prev, c.buf
    ensures c.Valid() && Proper(c.enc, c.iv, c.fb)
    ensures o == Seal(c.enc, c.iv, c.fb, [], text) && c.ct == o
  {
    hide *;
    ValidProper(c);
    SealNone(c.enc, c.iv, c.fb);
    NoCalls(calls);
    o := [];
    var pos := 0;
    for i := 0 to |calls|
      invariant c.Valid() && pos == Total(calls[..i]) <= |text|
      invariant o == Seal(c.enc, c.iv, c.fb, [], text[..pos]) && c.ct == o && |o| == pos
    {
      TotalNext(calls, i);
      TotalUpTo(calls, i + 1);
      var next := pos + calls[i].len;
      SealConcat(c.enc, c.iv, c.fb, [], text[..pos], text[pos..next]);
      assert text[..next] == text[..pos] + text[pos..next] && [] + o == o;
      MayBeFastAt(c, calls, i);
      var more := Feed(c, calls[i], text[pos..next]);
      o := o + more;
      pos := next;
    }
    assert calls[..|calls|] == calls && text[..pos] == text;
  }

  lemma ValidProper(c: Cfb)
    requires c.Valid()
    ensures c.Ready() && Proper(c.enc, c.iv, c.fb)
  {
    hide Register, BlockStart;
  }

  lemma SealNone(enc: Cipher, iv: Bytes, fb: nat)
    requires Proper(enc, iv, fb)
    ensures Seal(enc, iv, fb, [], []) == [] && Open(enc, iv, fb, [], []) == []
  {}

  /** cfb_decrypt or its fast form on the next piece, with fresh buffers. */
  method Take(c: Cfb, call: Call, piece: Bytes) returns (o: Bytes)
    requires c.Valid() && |piece| == call.len < 0x1_0000_0000_0000_0000 && MayBeFast(c, |c.ct|, call)
    modifies c`boff, c`ct, c`segs, c.prev, c.buf
    ensures Proper(c.enc, c.iv, c.fb) && c.Ready() && old(c.boff) < c.fb
    ensures o == Open(c.enc, c.iv, c.fb, old(c.ct), piece) && c.ct == old(c.ct) + piece
    ensures c.boff == c.BoffAfter(old(c.boff), |piece|) && (c.Valid() <==> c.KeepsPlace(old(c.boff), |piece|))
    ensures c.Placed(c.PlaceAfter(old(c.boff), |piece|))
  {
    hide *;
    ValidProper(c);
    var n := |piece|;
    var inp := new bv8[n](i requires 0 <= i < n => piece[i]);
    var out := new bv8[n](i => 0);
    assert inp[..n] == inp[..] == piece;
    FreshBuffers(c, out, inp);
    if call.Fast? {
      FastOnly(c, |c.ct|, call);
      AtBoundary(c);
      FastPlace(c, n);
      c.DecryptFast(out, inp, n);
      c.ValidIs();
    } else {
      c.Decrypt(out, inp, n);
    }
    o := out[..n];
  }

  lemma SamePlace(c: Cfb, k: nat)
    requires c.Valid() && c.Placed(k)
    ensures c.boff == k
  {
    c.ValidIs();
    c.OnlyPlace(k, c.boff);
  }

  lemma SteadyAt(c: Cfb, calls: seq<Call>, i: nat)
    requires c.Ready() && Steady(c, calls) && i < |calls| - 1
    ensures c.KeepsPlace(PlaceOfCall(c, calls, i), calls[i].len)
  {}

  /** Pieces that all but the last keep their place: the text of the whole. */
  method OpenPieces(c: Cfb, calls: seq<Call>, text: Bytes) returns (o: Bytes)
    requires c.Valid() && c.ct == [] && c.boff == 0 && Total(calls) == |text| < 0x1_0000_0000_0000_0000
    requires AllSlow(calls) || (c.fb == c.n == 16 && Aligned(calls))
    requires c.Ready() && Steady(c, calls)
    modifies c`boff, c`ct, c`segs, c.prev, c.buf
    ensures Proper(c.enc, c.iv, c.fb) && o == Open(c.enc, c.iv, c.fb, [], text)
  {
    hide *;
    ValidProper(c);
    SealNone(c.enc, c.iv, c.fb);
    FirstPlace(c, calls);
    o := [];
    var pos := 0;
    for i := 0 to |calls|
      invariant c.Ready() && Proper(c.enc, c.iv, c.fb)
      invariant i < |calls| ==> c.Valid() && c.boff == PlaceOfCall(c, calls, i)
      invariant pos == Total(calls[..i]) <= |text|
      invariant o == Open(c.enc, c.iv, c.fb, [], text[..pos]) && c.ct == text[..pos]
    {
      TotalNext(calls, i);
      TotalUpTo(calls, i + 1);
      var next := pos + calls[i].len;
      OpenConcat(c.enc, c.iv, c.fb, [], text[..pos], text[pos..next]);
      assert text[..next] == text[..pos] + text[pos..next] && [] + text[..pos] == text[..pos];
      MayBeFastAt(c, calls, i);
      var more := Take(c, calls[i], text[pos..next]);
      PlaceNext(c, calls, i);
      if i + 1 < |calls| {
        SteadyAt(c, calls, i);
        SamePlace(c, PlaceOfCall(c, calls, i + 1));
      }
      o := o + more;
      pos := next;
    }
    assert calls[..|calls|] == calls && text[..pos] == text;
  }

  /** One call keeps nothing back. */
  lemma OneCall(c: Cfb, calls: seq<Call>)
    requires c.Ready() && |calls| <= 1
    ensures Steady(c, calls)
  {}

  /** A text that one new context sealed in any pieces, another one opens in one call or in steady pieces. */
  method RoundTrip(n: nat, fb: nat, enc: Cipher, iv: Bytes, wrote: seq<Call>, text: Bytes, d: Cfb, read: seq<Call>)
    returns (sealed: Bytes, plain: Bytes)
    requires 0 < n == |iv| <= 32 && fb <= n && (forall b: Bytes :: |b| == n ==> |enc(b)| == n)
    requires Total(wrote) == Total(read) == |text| < 0x1_0000_0000_0000_0000
    requires d.Ready() && d.n == n && d.enc == enc && d.fb == (if fb == 0 then n else fb) && d.boff == 0
    requires AllSlow(wrote) || (d.fb == n == 16 && Aligned(wrote))
    requires AllSlow(read) || (d.fb == n == 16 && Aligned(read))
    requires |read| <= 1 || Steady(d, read)
    modifies d, d.prev, d.buf
    ensures Proper(enc, iv, d.fb) && sealed == Seal(enc, iv, d.fb, [], text)
    ensures plain == text
  {
    hide *;
    var c := new Cfb(n, fb, enc);
    var ok := c.SetIv(iv);
    sealed := SealPieces(c, wrote, text);
    if |read| <= 1 {
      OneCall(d, read);
    }
    ok := d.SetIv(iv);
    CfbSpec.RoundTrip(enc, iv, d.fb, [], text);
    plain := OpenPieces(d, read, sealed);
  }
}
