/** Output feedback mode (impl/mode/ofb.c). */
module Ofb {
  import opened Words
  import opened Keystream

  function Iterate(enc: Cipher, b: Bytes, k: nat): Bytes {
    if k == 0 then b else enc(Iterate(enc, b, k - 1))
  }

  /** Block k of the keystream is the (k + 1)-fold encryption of the IV. A stream that was set in the middle of a block
      is one block behind: its first block is the IV itself. */
  ghost function OfbBlocks(enc: Cipher, iv: Bytes, late: bool): Blocks {
    (k: nat) => Iterate(enc, iv, if late then k else k + 1)
  }

  lemma {:induction false} IterateLength(enc: Cipher, n: nat, b: Bytes, k: nat)
    requires |b| == n && forall c: Bytes :: |c| == n ==> |enc(c)| == n
    ensures |Iterate(enc, b, k)| == n
  {
    if k > 0 {
      IterateLength(enc, n, b, k - 1);
    }
  }

  lemma KeyWide(enc: Cipher, n: nat, iv: Bytes, late: bool)
    requires 0 < n == |iv| && forall b: Bytes :: |b| == n ==> |enc(b)| == n
    ensures Wide(OfbBlocks(enc, iv, late), n)
  {
    forall k: nat
      ensures |OfbBlocks(enc, iv, late)(k)| == n
    {
      IterateLength(enc, n, iv, if late then k else k + 1);
    }
  }

  ghost predicate At(enc: Cipher, n: nat, iv: Bytes, late: bool, used: nat, buf: Bytes, boff: nat) {
    && n == |iv| == |buf|
    && Wide(OfbBlocks(enc, iv, late), n)
    && boff < n && (boff > 0 || late ==> used > 0)
    && buf == Iterate(enc, iv, if late then used - 1 else used)
  }

  lemma Origin(n: nat)
    ensures BlockStart(n, 0) == 0
  {}

  class Ofb {
    const n: nat
    const enc: Cipher
    const buf: array<bv8>
    var iv: Bytes
    var boff: nat
    ghost var used: nat
    ghost var late: bool

    ghost predicate Ready()
      reads this, buf
    {
      0 < n && buf.Length == n && forall b: Bytes :: |b| == n ==> |enc(b)| == n
    }

    /** In the middle of the stream that setiv started; used counts the encryptions since then. */
    ghost predicate Valid()
      reads this, buf
    {
      Ready() && At(enc, n, iv, late, used, buf[..], boff)
    }

    ghost function Pos(): nat
      requires Valid()
      reads this, buf
    {
      Position(n, used, boff)
    }

    ghost function Key(): Blocks
      reads this
    {
      OfbBlocks(enc, iv, late)
    }

    constructor (n: nat, enc: Cipher)
      requires 0 < n && forall b: Bytes :: |b| == n ==> |enc(b)| == n
      ensures Ready() && fresh(buf) && this.n == n && this.enc == enc && boff == 0
    {
      this.n := n;
      this.enc := enc;
      buf := new bv8[n](i => 0);
      iv := [];
      boff := 0;
      used := 0;
      late := false;
    }

    /** ofb_setiv. The offset into the block is not cleared, so in the middle of a block the stream starts with what is
        left of the block of the initialization vector itself. */
    method SetIv(newIv: Bytes) returns (ok: bool)
      requires Ready() && boff < n
      modifies this`iv, this`used, this`late, buf
      ensures Ready() && ok == (|newIv| == n)
      ensures !ok ==> iv == old(iv) && used == old(used) && late == old(late) && buf[..] == old(buf[..])
      ensures ok ==> Valid() && iv == newIv && Pos() == boff && late == (boff != 0)
      ensures ok ==> used == (if late then 1 else 0) && buf[..] == newIv
    {
      hide BlockStart, Wide;
      ok := |newIv| == n;
      if ok {
        CopyInto(buf, newIv);
        iv := newIv;
        late := boff != 0;
        used := if late then 1 else 0;
        KeyWide(enc, n, iv, late);
        Origin(n);
      }
    }

    /** ofb_reset: back to the start of the same stream. */
    method Reset()
      requires Ready() && |iv| == n && boff < n
      modifies this`iv, this`used, this`boff, this`late, buf
      ensures Valid() && iv == old(iv) && Pos() == 0 && !late
    {
      var ok := SetIv(iv);
      boff := 0;
      late := false;
      used := 0;
      KeyWide(enc, n, iv, late);
    }

    /** One keystream block: the buffer encrypted in place. */
    method Draw()
      requires Valid() && boff == 0
      modifies this`used, buf
      ensures Valid() && used == old(used) + 1
      ensures buf[..] == Key()(used - 1) && BlockStart(n, used - 1) == old(Pos())
    {
      CopyInto(buf, enc(buf[..]));
      used := used + 1;
    }

    /** The first o bytes of the call are done. */
    ghost predicate Done(out: array<bv8>, inp: array<bv8>, o: nat, text: Bytes, rest: Bytes, start: nat)
      reads this, buf, out, inp
    {
      Valid() && Pos() == start + o && Streamed(out, inp, o, text, rest, Key(), n, start)
    }

    /** Bytes k to k + m - 1 of the current keystream block go out; the rest of the block stays for later. */
    method Take(out: array<bv8>, inp: array<bv8>, o: nat, k: nat, m: nat,
                ghost text: Bytes, ghost rest: Bytes, ghost start: nat)
      requires Valid() && used > 0
      requires Streamed(out, inp, o, text, rest, Key(), n, start) && buf !in {out, inp}
      requires k + m <= n && 0 < k + m && o + m <= |text| && start + o == BlockStart(n, used - 1) + k
      modifies this`boff, out
      ensures Done(out, inp, o + m, text, rest, start)
      ensures boff == if k + m == n then 0 else k + m
    {
      XorPiece(out, inp, o, buf, k, m, Key(), start, text, rest, used - 1);
      boff := k + m;
      if boff == n {
        boff := 0;
        BlockStartNext(n, used - 1);
      }
    }

    /** ofb_encrypt, also used for decryption; out may be inp. */
    method Encrypt(out: array<bv8>, inp: array<bv8>, len: nat)
      requires Valid() && len <= out.Length && len <= inp.Length && buf !in {out, inp}
      modifies this`boff, this`used, buf, out
      ensures Valid() && iv == old(iv) && late == old(late)
      ensures Pos() == old(Pos()) + len
      ensures out[..len] == XorStream(Key(), n, old(Pos()), old(inp[..len])) && out[len..] == old(out[len..])
    {
      hide XorStream, BlockStart;
      ghost var text, rest, start := inp[..len], out[len..], Pos();
      var o := 0;
      if boff != 0 {
        var b := if n - boff < len then n - boff else len;
        Take(out, inp, 0, boff, b, text, rest, start);
        o := b;
      }
      EncryptFrom(out, inp, o, len, text, rest, start);
      assert text[..len] == text;
    }

    /** The rest of ofb_encrypt, once the buffered bytes are used up: whole blocks, then the start of one more. */
    method EncryptFrom(out: array<bv8>, inp: array<bv8>, from: nat, len: nat,
                       ghost text: Bytes, ghost rest: Bytes, ghost start: nat)
      requires Done(out, inp, from, text, rest, start) && |text| == len && buf !in {out, inp}
      requires boff == 0 || from == len
      modifies this`boff, this`used, buf, out
      ensures Done(out, inp, len, text, rest, start) && iv == old(iv)
    {
      hide XorStream, At, BlockStart;
      var o := from;
      while len - o >= n
        invariant Done(out, inp, o, text, rest, start) && iv == old(iv)
        invariant boff == 0 || o == len
      {
        Draw();
        Take(out, inp, o, 0, n, text, rest, start);
        o := o + n;
      }
      if o < len {
        Draw();
        Take(out, inp, o, 0, len - o, text, rest, start);
      }
    }

    /** ofb_encryptfast with 16-byte blocks: whole blocks, at a block boundary; out may be inp. */
    method EncryptFast(out: array<bv8>, inp: array<bv8>, len: nat)
      requires Valid() && n == 16 && boff == 0
      requires len % 16 == 0 && len <= out.Length && len <= inp.Length && buf !in {out, inp}
      modifies this`boff, this`used, buf, out
      ensures Valid() && iv == old(iv) && late == old(late) && boff == 0
      ensures Pos() == old(Pos()) + len
      ensures out[..len] == XorStream(Key(), n, old(Pos()), old(inp[..len])) && out[len..] == old(out[len..])
    {
      assert Wide(Key(), n);
      hide XorStream, At, BlockStart;
      ghost var text, rest, start := inp[..len], out[len..], Pos();
      for iters := 0 to len / 16
        invariant Done(out, inp, 16 * iters, text, rest, start) && iv == old(iv) && boff == 0
      {
        Draw();
        Take(out, inp, 16 * iters, 0, 16, text, rest, start);
      }
      assert text[..len] == text;
    }
  }
}
