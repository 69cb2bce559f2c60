/** Whole runs of the keystream modes: any slow and fast calls on the pieces of a text, a reset, and other calls that
    give the text back. */
module StreamRuns {
  import opened Words
  import opened Arithmetic
  import opened Calls
  import opened Keystream
  import opened Ctr
  import opened Ofb

  /** At the start of a block nothing is buffered. */
  lemma AtBoundary(used: nat, boff: nat)
    requires boff < 16 && (boff > 0 ==> used > 0) && Position(16, used, boff) % 16 == 0
    ensures boff == 0
  {
    if boff > 0 {
      assert BlockStart(16, used - 1) == 16 * (used - 1);
    }
  }

  lemma StreamNext(ks: Blocks, n: nat, text: Bytes, m: nat, next: nat)
    requires Wide(ks, n) && m <= next <= |text|
    ensures XorStream(ks, n, 0, text[..next]) == XorStream(ks, n, 0, text[..m]) + XorStream(ks, n, m, text[m..next])
    ensures XorStream(ks, n, 0, text[..0]) == []
  {
    hide *;
    assert text[..next] == text[..m] + text[m..next];
    XorStreamConcat(ks, n, 0, text[..m], text[m..next]);
  }

  // ---------------------------------------------------------------- CTR

  lemma CtrReady(c: Ctr)
    requires c.Ready()
    ensures 0 < c.n
  {}

  lemma CtrFacts(c: Ctr)
    requires c.Valid()
    ensures c.Ready() && c.boff < c.n == |c.iv| && (c.boff > 0 ==> c.used > 0)
    ensures c.Key() == CtrBlocks(c.enc, c.iv, c.late) && Wide(c.Key(), c.n)
    ensures c.Pos() == Position(c.n, c.used, c.boff)
  {
    hide Position, BlockStart;
  }

  /** One call, on fresh buffers. */
  method FeedCtr(c: Ctr, call: Call, piece: Bytes) returns (o: Bytes)
    requires c.Valid() && |piece| == call.len
    requires call.Fast? ==> c.n == 16 && c.Pos() % 16 == 0 && call.len % 16 == 0 && call.len <= 4096
    modifies c`boff, c`used, c.ctr, c.buf
    ensures c.Valid() && c.Pos() == old(c.Pos()) + call.len
    ensures Wide(CtrBlocks(c.enc, c.iv, c.late), c.n)
    ensures o == XorStream(CtrBlocks(c.enc, c.iv, c.late), c.n, old(c.Pos()), piece)
  {
    hide *;
    CtrFacts(c);
    var m := call.len;
    var inp := new bv8[m](i requires 0 <= i < m => piece[i]);
    var out := new bv8[m](i => 0);
    assert inp[..m] == inp[..] == piece;
    if call.Fast? {
      AtBoundary(c.used, c.boff);
      c.EncryptFast(out, inp, m);
    } else {
      c.Encrypt(out, inp, m);
    }
    CtrFacts(c);
    o := out[..m];
  }

  /** Any calls from the start of a stream. */
  method RunCtr(c: Ctr, calls: seq<Call>, text: Bytes) returns (o: Bytes)
    requires c.Valid() && c.Pos() == 0 && Total(calls) == |text|
    requires AllSlow(calls) || (c.n == 16 && Aligned(calls))
    modifies c`boff, c`used, c.ctr, c.buf
    ensures c.Valid() && c.Pos() == |text| && Wide(CtrBlocks(c.enc, c.iv, c.late), c.n)
    ensures o == XorStream(CtrBlocks(c.enc, c.iv, c.late), c.n, 0, text)
  {
    hide *;
    CtrFacts(c);
    ghost var ks := CtrBlocks(c.enc, c.iv, c.late);
    NoCalls(calls);
    StreamNext(ks, c.n, text, 0, 0);
    o := [];
    var pos := 0;
    for i := 0 to |calls|
      invariant c.Valid() && c.Pos() == pos == Total(calls[..i]) <= |text|
      invariant o == XorStream(ks, c.n, 0, text[..pos])
    {
      TotalNext(calls, i);
      TotalUpTo(calls, i + 1);
      AlignedAt(calls, i);
      var next := pos + calls[i].len;
      StreamNext(ks, c.n, text, pos, next);
      var more := FeedCtr(c, calls[i], text[pos..next]);
      o := o + more;
      pos := next;
    }
    assert calls[..|calls|] == calls && text[..pos] == text;
  }

  /** Encryption in any calls, a reset, and decryption in other calls: the text comes back. */
  method CtrRoundTrip(c: Ctr, iv: Bytes, wrote: seq<Call>, read: seq<Call>, text: Bytes)
    returns (sealed: Bytes, plain: Bytes)
    requires c.Ready() && c.boff == 0 && |iv| == c.n && Total(wrote) == Total(read) == |text|
    requires AllSlow(wrote) || (c.n == 16 && Aligned(wrote))
    requires AllSlow(read) || (c.n == 16 && Aligned(read))
    modifies c, c.ctr, c.buf
    ensures Wide(CtrBlocks(c.enc, iv, false), c.n)
    ensures sealed == XorStream(CtrBlocks(c.enc, iv, false), c.n, 0, text) && plain == text
  {
    hide *;
    CtrReady(c);
    var ok := c.SetIv(iv);
    CtrFacts(c);
    sealed := RunCtr(c, wrote, text);
    CtrFacts(c);
    c.Reset();
    plain := RunCtr(c, read, sealed);
    XorStreamTwice(CtrBlocks(c.enc, iv, false), c.n, 0, text);
  }

  // ---------------------------------------------------------------- OFB

  lemma OfbReady(c: Ofb)
    requires c.Ready()
    ensures 0 < c.n
  {}

  lemma OfbFacts(c: Ofb)
    requires c.Valid()
    ensures c.Ready() && c.boff < c.n == |c.iv| && (c.boff > 0 ==> c.used > 0)
    ensures c.Key() == OfbBlocks(c.enc, c.iv, c.late) && Wide(c.Key(), c.n)
    ensures c.Pos() == Position(c.n, c.used, c.boff)
  {
    hide Position, BlockStart;
  }

  /** One call, on fresh buffers. */
  method FeedOfb(c: Ofb, call: Call, piece: Bytes) returns (o: Bytes)
    requires c.Valid() && |piece| == call.len
    requires call.Fast? ==> c.n == 16 && c.Pos() % 16 == 0 && call.len % 16 == 0 && call.len <= 4096
    modifies c`boff, c`used, c.buf
    ensures c.Valid() && c.Pos() == old(c.Pos()) + call.len
    ensures Wide(OfbBlocks(c.enc, c.iv, c.late), c.n)
    ensures o == XorStream(OfbBlocks(c.enc, c.iv, c.late), c.n, old(c.Pos()), piece)
  {
    hide *;
    OfbFacts(c);
    var m := call.len;
    var inp := new bv8[m](i requires 0 <= i < m => piece[i]);
    var out := new bv8[m](i => 0);
    assert inp[..m] == inp[..] == piece;
    if call.Fast? {
      AtBoundary(c.used, c.boff);
      c.EncryptFast(out, inp, m);
    } else {
      c.Encrypt(out, inp, m);
    }
    OfbFacts(c);
    o := out[..m];
  }

  /** Any calls from the start of a stream. */
  method RunOfb(c: Ofb, calls: seq<Call>, text: Bytes) returns (o: Bytes)
    requires c.Valid() && c.Pos() == 0 && Total(calls) == |text|
    requires AllSlow(calls) || (c.n == 16 && Aligned(calls))
    modifies c`boff, c`used, c.buf
    ensures c.Valid() && c.Pos() == |text| && Wide(OfbBlocks(c.enc, c.iv, c.late), c.n)
    ensures o == XorStream(OfbBlocks(c.enc, c.iv, c.late), c.n, 0, text)
  {
    hide *;
    OfbFacts(c);
    ghost var ks := OfbBlocks(c.enc, c.iv, c.late);
    NoCalls(calls);
    StreamNext(ks, c.n, text, 0, 0);
    o := [];
    var pos := 0;
    for i := 0 to |calls|
      invariant c.Valid() && c.Pos() == pos == Total(calls[..i]) <= |text|
      invariant o == XorStream(ks, c.n, 0, text[..pos])
    {
      TotalNext(calls, i);
      TotalUpTo(calls, i + 1);
      AlignedAt(calls, i);
      var next := pos + calls[i].len;
      StreamNext(ks, c.n, text, pos, next);
      var more := FeedOfb(c, calls[i], text[pos..next]);
      o := o + more;
      pos := next;
    }
    assert calls[..|calls|] == calls && text[..pos] == text;
  }

  /** Encryption in any calls, a reset, and decryption in other calls: the text comes back. */
  method OfbRoundTrip(c: Ofb, iv: Bytes, wrote: seq<Call>, read: seq<Call>, text: Bytes)
    returns (sealed: Bytes, plain: Bytes)
    requires c.Ready() && c.boff == 0 && |iv| == c.n && Total(wrote) == Total(read) == |text|
    requires AllSlow(wrote) || (c.n == 16 && Aligned(wrote))
    requires AllSlow(read) || (c.n == 16 && Aligned(read))
    modifies c, c.buf
    ensures Wide(OfbBlocks(c.enc, iv, false), c.n)
    ensures sealed == XorStream(OfbBlocks(c.enc, iv, false), c.n, 0, text) && plain == text
  {
    hide *;
    OfbReady(c);
    var ok := c.SetIv(iv);
    OfbFacts(c);
    sealed := RunOfb(c, wrote, text);
    OfbFacts(c);
    c.Reset();
    plain := RunOfb(c, read, sealed);
    XorStreamTwice(OfbBlocks(c.enc, iv, false), c.n, 0, text);
  }
}
