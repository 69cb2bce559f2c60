/** A whole message through the hash template: reset, any calls on its pieces, and the digest. */
module HashRuns {
  import opened Words
  import opened Calls
  import opened Counter
  import opened Endian
  import opened Hash

  /** Calls that the low length word can count, the fast ones with whole blocks at a block boundary. */
  ghost predicate Fits(h: Hash, pos: nat, call: Call)
    requires h.Ready()
  {
    call.len < Pow256(h.w) && (call.Fast? ==> pos % h.blk == 0 && call.len % h.blk == 0)
  }

  ghost predicate Legal(h: Hash, calls: seq<Call>)
    requires h.Ready()
  {
    forall i :: 0 <= i < |calls| ==> Fits(h, Total(calls[..i]), calls[i])
  }

  lemma LegalAt(h: Hash, calls: seq<Call>, i: nat)
    requires h.Ready() && Legal(h, calls) && i < |calls|
    ensures Fits(h, Total(calls[..i]), calls[i])
  {}

  lemma ValidReady(h: Hash)
    requires h.Valid()
    ensures h.Ready() && h.Hashing() && 0 < h.blk && Pow256(h.w) <= 0x1_0000_0000_0000_0000
  {
    hide Buffered;
    PowFour();
    PowEight();
  }

  /** One call. */
  method Feed(h: Hash, call: Call, piece: Bytes)
    requires h.Valid() && |piece| == call.len && h.Ready() && Fits(h, |h.msg|, call)
    modifies h`len0, h`len1, h`hash, h`msg, h`blocks, h.buf
    ensures h.Valid() && h.msg == old(h.msg) + piece
  {
    hide Buffered, Pow256;
    ValidReady(h);
    if call.Fast? {
      h.UpdateFast(piece);
    } else {
      h.Update(piece);
    }
  }

  /** The digest of a message does not depend on how it was handed over: the first bytes of the state after the whole
      padded message. */
  method Digest(h: Hash, calls: seq<Call>, text: Bytes, digest: array<bv8>, len: nat)
    requires h.Ready() && Total(calls) == |text| && Legal(h, calls)
    requires forall s: State, b: Bytes :: |b| == h.blk ==> |h.f(s, b)| == |s|
    requires len <= h.w * |h.iv| && len <= digest.Length && digest != h.buf
    modifies h, h.buf, digest
    ensures var hash := Absorb(h.f, h.iv, h.blk, Padded(h.order, h.w, h.blk, text));
            len <= |Memory(h.order, h.w, hash)| && digest[..len] == Memory(h.order, h.w, hash)[..len]
    ensures digest[len..] == old(digest[len..])
  {
    hide *;
    h.Reset();
    NoCalls(calls);
    ValidReady(h);
    var pos := 0;
    for i := 0 to |calls|
      invariant h.Valid() && pos == Total(calls[..i]) <= |text| && h.msg == text[..pos]
      invariant digest[..] == old(digest[..])
    {
      TotalNext(calls, i);
      TotalUpTo(calls, i + 1);
      LegalAt(h, calls, i);
      var next := pos + calls[i].len;
      assert text[..next] == text[..pos] + text[pos..next];
      Feed(h, calls[i], text[pos..next]);
      pos := next;
    }
    assert calls[..|calls|] == calls && text[..pos] == text;
    h.GetDigest(digest, len, false);
  }
}
