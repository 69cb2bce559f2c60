/** Counter mode (impl/mode/ctr.cc). */
module Ctr {
  import opened Words
  import opened Keystream
  import opened Counter

  /** The keystream of counter mode: block k is the encryption of the k-th successor of the first counter. A stream that
      was set in the middle of a block is one block behind: its first block is the first counter itself. */
  ghost function CtrBlocks(enc: Cipher, first: Bytes, late: bool): Blocks {
    (k: nat) => if !late then enc(NextN(first, k)) else if k == 0 then first else enc(NextN(first, k - 1))
  }

  /** Counters taken when `used` blocks were drawn. */
  function Taken(used: nat, late: bool): nat {
    if late && used > 0 then used - 1 else used
  }

  /** What the context holds after `used` counters were taken from the stream that starts at counter `first`. */
  ghost predicate At(enc: Cipher, n: nat, first: Bytes, late: bool, used: nat, ctr: Bytes, buf: Bytes, boff: nat) {
    && n == |first| == |ctr| == |buf|
    && Wide(CtrBlocks(enc, first, late), n)
    && boff < n
    && (late ==> used > 0) && ctr == NextN(first, Taken(used, late))
    && (boff > 0 ==> used > 0 && buf == CtrBlocks(enc, first, late)(used - 1))
  }

  lemma KeyWide(enc: Cipher, n: nat, first: Bytes, late: bool)
    requires 0 < n == |first| && forall b: Bytes :: |b| == n ==> |enc(b)| == n
    ensures Wide(CtrBlocks(enc, first, late), n)
  {
    forall k: nat
      ensures |CtrBlocks(enc, first, late)(k)| == n
    {
      BlockAt(enc, first, k, late);
    }
  }

  lemma BlockAt(enc: Cipher, first: Bytes, k: nat, late: bool)
    ensures late && k == 0 ==> CtrBlocks(enc, first, late)(k) == first
    ensures !late || k > 0 ==> CtrBlocks(enc, first, late)(k) == enc(NextN(first, Taken(k, late)))
  {}

  lemma Origin(n: nat)
    ensures BlockStart(n, 0) == 0
  {}

  class Ctr {
    const n: nat
    const enc: Cipher
    const ctr: array<bv8>
    const buf: array<bv8>
    var iv: Bytes
    var boff: nat
    ghost var used: nat
    ghost var late: bool

    /** struct ctr after init and setblock. */
    ghost predicate Ready()
      reads this, ctr, buf
    {
      && 0 < n <= 32 && ctr.Length == n && buf.Length == n && ctr != buf
      && forall b: Bytes :: |b| == n ==> |enc(b)| == n
    }

    /** In the middle of the stream that setiv started; used counts the counters taken since then. */
    ghost predicate Valid()
      reads this, ctr, buf
    {
      Ready() && At(enc, n, iv, late, used, ctr[..], buf[..], boff)
    }

    constructor (n: nat, enc: Cipher)
      requires 0 < n <= 32 && forall b: Bytes :: |b| == n ==> |enc(b)| == n
      ensures Ready() && fresh(ctr) && fresh(buf) && this.n == n && this.enc == enc && boff == 0
    {
      this.n := n;
      this.enc := enc;
      ctr := new bv8[n](i => 0);
      buf := new bv8[n](i => 0);
      iv := [];
      boff := 0;
      used := 0;
      late := false;
    }

    /** ctr_setiv: a wrong length is refused. The offset into the block is not cleared, so in the middle of a block the
        stream starts with what is left of the block of the initialization vector itself. */
    method SetIv(newIv: Bytes) returns (ok: bool)
      requires Ready() && boff < n
      modifies this`iv, this`used, this`late, ctr, buf
      ensures Ready() && ok == (|newIv| == n)
      ensures !ok ==> iv == old(iv) && used == old(used) && late == old(late)
      ensures !ok ==> ctr[..] == old(ctr[..]) && buf[..] == old(buf[..])
      ensures ok ==> Valid() && iv == newIv && Pos() == boff && late == (boff != 0)
      ensures ok ==> used == (if late then 1 else 0) && ctr[..] == newIv && buf[..] == newIv
    {
      hide BlockStart, Wide;
      ok := |newIv| == n;
      if ok {
        CopyInto(ctr, newIv);
        CopyInto(buf, newIv);
        iv := newIv;
        late := boff != 0;
        used := if late then 1 else 0;
        KeyWide(enc, n, iv, late);
        Origin(n);
      }
    }

    /** ctr_reset: back to the start of the same stream, whatever was done before. */
    method Reset()
      requires Ready() && |iv| == n && boff < n
      modifies this`iv, this`used, this`late, this`boff, ctr, buf
      ensures Valid() && iv == old(iv) && Pos() == 0 && !late
    {
      hide BlockStart, Wide;
      var ok := SetIv(iv);
      boff := 0;
      late := false;
      used := 0;
      KeyWide(enc, n, iv, late);
      Origin(n);
    }

    ghost function Pos(): nat
      requires Valid()
      reads this, ctr, buf
    {
      Position(n, used, boff)
    }

    ghost function Key(): Blocks
      reads this
    {
      CtrBlocks(enc, iv, late)
    }

    /** The first o bytes of the call are done. */
    ghost predicate Done(out: array<bv8>, inp: array<bv8>, o: nat, text: Bytes, rest: Bytes, start: nat)
      reads this, ctr, buf, out, inp
    {
      Valid() && Pos() == start + o && Streamed(out, inp, o, text, rest, Key(), n, start)
    }

    /** ctr_encrypt, also used for decryption; out may be inp. */
    method Encrypt(out: array<bv8>, inp: array<bv8>, len: nat)
      requires Valid() && len <= out.Length && len <= inp.Length && {ctr, buf} !! {out, inp}
      modifies this`boff, this`used, ctr, buf, out
      ensures Valid() && iv == old(iv) && late == old(late)
      ensures Pos() == old(Pos()) + len
      ensures out[..len] == XorStream(Key(), n, old(Pos()), old(inp[..len])) && out[len..] == old(out[len..])
    {
      assert Wide(Key(), n);
      hide XorStream, At, BlockStart;
      ghost var text, rest, start := inp[..len], out[len..], Pos();
      var o := 0;
      if boff != 0 {
        Leftover();
        var b := if n - boff < len then n - boff else len;
        Take(out, inp, 0, boff, b, text, rest, start);
        o := b;
      }
      EncryptFrom(out, inp, o, len, text, rest, start);
      assert text[..len] == text;
    }

    /** The rest of ctr_encrypt, once the buffered bytes are used up: whole blocks, then the start of one more. */
    method EncryptFrom(out: array<bv8>, inp: array<bv8>, from: nat, len: nat,
                       ghost text: Bytes, ghost rest: Bytes, ghost start: nat)
      requires Done(out, inp, from, text, rest, start) && |text| == len && {ctr, buf} !! {out, inp}
      requires boff == 0 || from == len
      modifies this`boff, this`used, ctr, buf, out
      ensures Done(out, inp, len, text, rest, start) && iv == old(iv)
    {
      hide XorStream, At, BlockStart;
      var o := from;
      while len - o >= n
        invariant Done(out, inp, o, text, rest, start) && iv == old(iv)
        invariant boff == 0 || o == len
      {
        Draw();
        Take(out, inp, o, 0, n, text, rest, start);
        o := o + n;
      }
      if o < len {
        Draw();
        Take(out, inp, o, 0, len - o, text, rest, start);
      }
    }

    /** Bytes k to k + m - 1 of the current keystream block go out; the rest of the block stays for later. */
    method Take(out: array<bv8>, inp: array<bv8>, o: nat, k: nat, m: nat,
                ghost text: Bytes, ghost rest: Bytes, ghost start: nat)
      requires Valid() && used > 0 && buf[..] == Key()(used - 1)
      requires Streamed(out, inp, o, text, rest, Key(), n, start) && {ctr, buf} !! {out, inp}
      requires k + m <= n && 0 < k + m && o + m <= |text| && start + o == BlockStart(n, used - 1) + k
      modifies this`boff, out
      ensures Done(out, inp, o + m, text, rest, start)
      ensures boff == if k + m == n then 0 else k + m
    {
      hide XorStream, BlockStart, NextN, CtrBlocks, Wide, Streamed;
      XorPiece(out, inp, o, buf, k, m, Key(), start, text, rest, used - 1);
      boff := k + m;
      if boff == n {
        boff := 0;
        BlockStartNext(n, used - 1);
      }
    }

    lemma Leftover()
      requires Valid() && boff != 0
      ensures 0 < used && boff < n && buf[..] == Key()(used - 1) && Pos() == BlockStart(n, used - 1) + boff
    {}

    /** One keystream block: encrypt the counter, then step it. */
    method Draw()
      requires Valid() && boff == 0
      modifies this`used, ctr, buf
      ensures Valid() && used == old(used) + 1
      ensures buf[..] == Key()(used - 1) && BlockStart(n, used - 1) == old(Pos())
    {
      assert |Key()(used)| == n;
      CopyInto(buf, enc(ctr[..]));
      IncrementCounter(ctr);
      used := used + 1;
    }

    /** ctr_encryptfast, called with 16-byte blocks, whole blocks, at a block boundary; out may be inp.
        One pass of the outer loop: a call takes at most sizeof(tmp) bytes. */
    method EncryptFast(out: array<bv8>, inp: array<bv8>, len: nat)
      requires Valid() && n == 16 && boff == 0
      requires len <= 4096 && len % 16 == 0 && len <= out.Length && len <= inp.Length && {ctr, buf} !! {out, inp}
      modifies this`used, ctr, out
      ensures Valid() && iv == old(iv) && late == old(late) && boff == 0
      ensures Pos() == old(Pos()) + len
      ensures out[..len] == XorStream(Key(), n, old(Pos()), old(inp[..len])) && out[len..] == old(out[len..])
    {
      hide XorStream, XorBytes, NextN, BlockStart, Piece, StoreWords, LoadWords, CtrBlocks;
      ghost var text, first := inp[..len], used;
      var tmp := new bv8[4096];
      var mul := len / 16;
      var w := new bv32[4];
      CopyWords(w, LoadWords(ctr[..]));
      StoreLoadWords(ctr[..]);
      FillCounters(tmp, w, mul, ctr[..]);
      EncryptBlocks(tmp, mul, enc);
      CountersAreKey(enc, iv, first, mul, late);
      BlocksAreStream(Key(), first, tmp[..], text);
      XorInto(out, inp, 0, tmp, 0, len);
      assert tmp[..][..len] == tmp[0..len] && out[..len] == out[0..len];
      CopyInto(ctr, StoreWords(w[..]));
      NextNAdd(iv, Taken(first, late), mul);
      used := used + mul;
      BlockStartAdd(16, first, mul);
    }
  }

  lemma CountersAreKey(enc: Cipher, iv: Bytes, first: nat, mul: nat, late: bool)
    requires late ==> first > 0
    ensures forall k :: 0 <= k < mul ==>
                          enc(NextN(NextN(iv, Taken(first, late)), k)) == CtrBlocks(enc, iv, late)(first + k)
  {
    forall k | 0 <= k < mul
      ensures enc(NextN(NextN(iv, Taken(first, late)), k)) == CtrBlocks(enc, iv, late)(first + k)
    {
      hide NextN, CtrBlocks;
      NextNAdd(iv, Taken(first, late), k);
      BlockAt(enc, iv, first + k, late);
      assert Taken(first + k, late) == Taken(first, late) + k;
    }
  }

  lemma BlockStartAdd(n: nat, q: nat, k: nat)
    ensures BlockStart(n, q + k) == BlockStart(n, q) + k * n
  {}

  /** The counters of the fast path, one a block. */
  method FillCounters(tmp: array<bv8>, w: array<bv32>, mul: nat, ghost first: Bytes)
    requires 16 * mul <= tmp.Length && w.Length == 4 && StoreWords(w[..]) == first
    modifies tmp, w
    ensures forall k :: 0 <= k < mul ==> Piece(tmp[..], k) == NextN(first, k)
    ensures StoreWords(w[..]) == NextN(first, mul)
  {
    hide Next, NextN, StoreWords;
    assert NextN(first, 0) == first by { NextNStep(first, 0); }
    for i := 0 to mul
      invariant StoreWords(w[..]) == NextN(first, i)
      invariant forall k :: 0 <= k < i ==> Piece(tmp[..], k) == NextN(first, k)
    {
      NextNStep(first, i);
      ghost var t := tmp[..];
      StoreWordsLength(w[..]);
      StoreAt(tmp, 16 * i, StoreWords(w[..]));
      OtherPieces(t, tmp[..], i, mul);
      IncrementFast(w);
    }
  }
}
