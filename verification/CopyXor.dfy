/** The generic keystream copy of include/util.hh, used by the stream ciphers. */
module CopyXor {
  import opened Words
  import opened Keystream

  /** The object that produces keystream blocks; the copy only ever asks it for the next one. */
  class Source {
    const ks: Blocks
    var drawn: nat

    constructor (ks: Blocks)
      ensures this.ks == ks && drawn == 0
    {
      this.ks := ks;
      drawn := 0;
    }

    method FillBuffer(mbuf: array<bv8>)
      requires Wide(ks, mbuf.Length)
      modifies this, mbuf
      ensures drawn == old(drawn) + 1 && mbuf[..] == ks(old(drawn))
    {
      CopyInto(mbuf, ks(drawn));
      drawn := drawn + 1;
    }
  }

  /** Stream position when `rem` bytes of the last of `drawn` blocks are unused. */
  function StreamPos(n: nat, drawn: nat, rem: nat): int {
    BlockStart(n, drawn) - rem
  }

  ghost predicate Current(n: nat, obj: Source, mbuf: array<bv8>, rem: nat)
    reads obj, mbuf
  {
    && Wide(obj.ks, n) && mbuf.Length == n && rem <= n
    && (rem > 0 ==> obj.drawn > 0 && mbuf[..] == obj.ks(obj.drawn - 1))
  }

  /** CopyAndXor. The position moves on by the length, but for one case: an empty call with a full buffer reports the
      buffer as used up, so a whole block of the keystream is skipped. RC4 calls it with a full buffer after its key is
      set with a drop count that is a multiple of 256 (impl/stream/rc4/rc4.cc:284-302). */
  method CopyAndXor(out: array<bv8>, inp: array<bv8>, len: nat, mbuf: array<bv8>, bufrem: nat, obj: Source)
      returns (rem: nat)
    requires Current(mbuf.Length, obj, mbuf, bufrem)
    requires len <= out.Length && len <= inp.Length && mbuf !in {out, inp}
    modifies out, mbuf, obj
    ensures var n := mbuf.Length;
            && Current(n, obj, mbuf, rem) && rem < n
            && old(StreamPos(n, obj.drawn, bufrem)) >= 0
            && out[..len] == XorStream(obj.ks, n, old(StreamPos(n, obj.drawn, bufrem)), old(inp[..len]))
            && out[len..] == old(out[len..])
            && StreamPos(n, obj.drawn, rem)
               == old(StreamPos(n, obj.drawn, bufrem)) + len + (if bufrem == n && len == 0 then n else 0)
  {
    hide *;
    ghost var text, rest := inp[..len], out[len..];
    var bufsz := mbuf.Length;
    ghost var start := Begin(out, inp, len, mbuf, bufrem, obj);
    ghost var from := if bufrem == bufsz && len == 0 then BlockStart(bufsz, obj.drawn) else start;
    var boff := (bufsz - bufrem) % bufsz;
    var o := 0;
    if bufrem != 0 {
      o, boff := Buffered(out, inp, len, mbuf, bufrem, boff, obj, text, rest, start, from);
    } else {
      Unbuffered(out, inp, mbuf, obj, text, rest, start);
    }
    rem := CopyFrom(out, inp, len, mbuf, o, boff, obj, text, rest, from);
    End(out, inp, len, mbuf, obj, text, rest, from, start);
  }

  /** The position at the start, and a call of which nothing is done. */
  lemma Begin(out: array<bv8>, inp: array<bv8>, len: nat, mbuf: array<bv8>, rem: nat, obj: Source)
    returns (start: nat)
    requires Current(mbuf.Length, obj, mbuf, rem) && len <= out.Length && len <= inp.Length
    ensures mbuf.Length > 0 && start == StreamPos(mbuf.Length, obj.drawn, rem) && 0 <= rem <= mbuf.Length
    ensures Streamed(out, inp, 0, inp[..len], out[len..], obj.ks, mbuf.Length, start)
    ensures rem == mbuf.Length ==> start + mbuf.Length == BlockStart(mbuf.Length, obj.drawn)
    ensures rem == 0 ==> start == BlockStart(mbuf.Length, obj.drawn) && (mbuf.Length - rem) % mbuf.Length == 0
    ensures rem > 0 ==> && obj.drawn > 0 && start == BlockStart(mbuf.Length, obj.drawn - 1) + (mbuf.Length - rem)
                        && (mbuf.Length - rem) % mbuf.Length == mbuf.Length - rem
                        && mbuf[..] == obj.ks(obj.drawn - 1)
  {
    hide KeyByte, BlockStart;
    PosShape(mbuf.Length, obj.drawn, rem);
    if rem > 0 {
      BlockStartNext(mbuf.Length, obj.drawn - 1);
    }
    start := StreamPos(mbuf.Length, obj.drawn, rem);
    assert inp[..len][..0] == [];
  }

  lemma Unbuffered(out: array<bv8>, inp: array<bv8>, mbuf: array<bv8>, obj: Source, text: Bytes, rest: Bytes,
                   start: nat)
    requires Streamed(out, inp, 0, text, rest, obj.ks, mbuf.Length, start) && mbuf.Length > 0
    requires start == BlockStart(mbuf.Length, obj.drawn)
    ensures Done(out, inp, mbuf, 0, 0, obj, text, rest, start)
  {
    hide Streamed, BlockStart;
  }

  /** The bytes that are left in the buffer. An empty text is a stream from any position, so the case in which the
      buffer is forgotten goes on from there. */
  method Buffered(out: array<bv8>, inp: array<bv8>, len: nat, mbuf: array<bv8>, bufrem: nat, boff0: nat, obj: Source,
                  ghost text: Bytes, ghost rest: Bytes, ghost start: nat, ghost from: nat) returns (o: nat, boff: nat)
    requires Streamed(out, inp, 0, text, rest, obj.ks, mbuf.Length, start) && |text| == len && mbuf !in {out, inp}
    requires 0 < bufrem <= mbuf.Length && boff0 == mbuf.Length - bufrem && obj.drawn > 0
    requires mbuf[..] == obj.ks(obj.drawn - 1) && start == BlockStart(mbuf.Length, obj.drawn - 1) + boff0
    requires from == if bufrem == mbuf.Length && len == 0 then BlockStart(mbuf.Length, obj.drawn) else start
    modifies out
    ensures Done(out, inp, mbuf, o, boff, obj, text, rest, from) && o <= len && (boff == 0 || o == len)
  {
    hide XorStream, BlockStart, Wide;
    boff := boff0;
    var b := if bufrem < len then bufrem else len;
    XorPiece(out, inp, 0, mbuf, boff, b, obj.ks, start, text, rest, obj.drawn - 1);
    boff := boff + b;
    if boff == mbuf.Length {
      boff := 0;
      BlockStartNext(mbuf.Length, obj.drawn - 1);
    }
    o := b;
    if bufrem == mbuf.Length && len == 0 {
      Anywhere(out, inp, text, rest, obj.ks, mbuf.Length, start, from);
    }
  }

  lemma Anywhere(out: array<bv8>, inp: array<bv8>, text: Bytes, rest: Bytes, ks: Blocks, n: nat, p: nat, q: nat)
    requires Streamed(out, inp, 0, text, rest, ks, n, p) && text == []
    ensures Streamed(out, inp, 0, text, rest, ks, n, q)
  {
    assert XorStream(ks, n, p, text[..0]) == [] == XorStream(ks, n, q, text[..0]);
  }

  lemma End(out: array<bv8>, inp: array<bv8>, len: nat, mbuf: array<bv8>, obj: Source, text: Bytes, rest: Bytes,
            from: nat, start: nat)
    requires Streamed(out, inp, len, text, rest, obj.ks, mbuf.Length, from) && |text| == len
    requires from == start || len == 0
    ensures Wide(obj.ks, mbuf.Length) && out[len..] == rest && out[..len] == XorStream(obj.ks, mbuf.Length, start, text)
  {
    hide Wide;
    assert text[..len] == text;
    if len == 0 {
      assert XorStream(obj.ks, mbuf.Length, start, text) == [];
    }
  }

  ghost predicate Done(out: array<bv8>, inp: array<bv8>, mbuf: array<bv8>, o: nat, boff: nat, obj: Source,
                       text: Bytes, rest: Bytes, start: nat)
    reads out, inp, mbuf, obj
  {
    var n := mbuf.Length;
    && Streamed(out, inp, o, text, rest, obj.ks, n, start)
    && boff < n && (boff > 0 ==> obj.drawn > 0 && mbuf[..] == obj.ks(obj.drawn - 1))
    && start + o == Position(n, obj.drawn, boff)
  }

  /** The rest of CopyAndXor, once the buffered bytes are used up. */
  method CopyFrom(out: array<bv8>, inp: array<bv8>, len: nat, mbuf: array<bv8>, from: nat, boff0: nat, obj: Source,
                  ghost text: Bytes, ghost rest: Bytes, ghost start: nat) returns (rem: nat)
    requires Done(out, inp, mbuf, from, boff0, obj, text, rest, start) && |text| == len && mbuf !in {out, inp}
    requires boff0 == 0 || from == len
    modifies out, mbuf, obj
    ensures Current(mbuf.Length, obj, mbuf, rem) && rem < mbuf.Length
    ensures Streamed(out, inp, len, text, rest, obj.ks, mbuf.Length, start)
    ensures StreamPos(mbuf.Length, obj.drawn, rem) == start + len
  {
    var bufsz, boff, o := mbuf.Length, boff0, from;
    hide XorStream, BlockStart;
    while len - o >= bufsz
      invariant Done(out, inp, mbuf, o, boff, obj, text, rest, start)
      invariant boff == 0 || o == len
    {
      FillAndTake(out, inp, mbuf, o, bufsz, obj, text, rest, start);
      o := o + bufsz;
    }
    if o < len {
      boff := len - o;
      FillAndTake(out, inp, mbuf, o, boff, obj, text, rest, start);
    }
    Remaining(bufsz, obj.drawn, boff);
    rem := (bufsz - boff) % bufsz;
  }

  /** The next keystream block, of which m bytes go out. */
  method FillAndTake(out: array<bv8>, inp: array<bv8>, mbuf: array<bv8>, o: nat, m: nat, obj: Source,
                     ghost text: Bytes, ghost rest: Bytes, ghost start: nat)
    requires Done(out, inp, mbuf, o, 0, obj, text, rest, start) && mbuf !in {out, inp}
    requires 0 < m <= mbuf.Length && o + m <= |text|
    modifies out, mbuf, obj
    ensures Done(out, inp, mbuf, o + m, if m == mbuf.Length then 0 else m, obj, text, rest, start)
  {
    obj.FillBuffer(mbuf);
    XorPiece(out, inp, o, mbuf, 0, m, obj.ks, start, text, rest, obj.drawn - 1);
    BlockStartNext(mbuf.Length, obj.drawn - 1);
  }

  lemma Remaining(n: nat, drawn: nat, boff: nat)
    requires boff < n && (boff > 0 ==> drawn > 0)
    ensures var rem := (n - boff) % n;
            0 <= rem < n && (rem > 0 <==> boff > 0) && StreamPos(n, drawn, rem) == Position(n, drawn, boff)
  {
    if boff > 0 {
      BlockStartNext(n, drawn - 1);
    }
  }

  lemma PosShape(n: nat, drawn: nat, rem: nat)
    requires 0 < n && rem <= n && (rem > 0 ==> drawn > 0)
    ensures rem == 0 ==> StreamPos(n, drawn, rem) == BlockStart(n, drawn)
    ensures rem > 0 ==> StreamPos(n, drawn, rem) == BlockStart(n, drawn - 1) + (n - rem)
    ensures BlockStart(n, drawn) >= 0
    ensures (n - rem) % n == if rem == 0 then 0 else n - rem
  {
    if rem > 0 {
      BlockStartNext(n, drawn - 1);
    }
  }
}
