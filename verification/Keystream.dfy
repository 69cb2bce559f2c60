/** Exclusive-or with a block keystream: the one specification CTR, OFB, CopyAndXor and GCM refine. */
module Keystream {
  import opened Words
  import opened Arithmetic

  /** A block cipher under a fixed key. */
  type Cipher = Bytes -> Bytes

  /** Block k of a keystream; every block has the same length. */
  type Blocks = nat -> Bytes

  ghost predicate Wide(ks: Blocks, n: nat) {
    0 < n && forall k :: |ks(k)| == n
  }

  function KeyByte(ks: Blocks, n: nat, i: nat): bv8
    requires Wide(ks, n)
  {
    ks(i / n)[i % n]
  }

  /** Input bytes xor keystream bytes pos, pos + 1, ... */
  function XorStream(ks: Blocks, n: nat, pos: nat, inp: Bytes): (out: Bytes)
    requires Wide(ks, n)
    ensures |out| == |inp|
    ensures forall i :: 0 <= i < |inp| ==> out[i] == XorByte(inp[i], KeyByte(ks, n, pos + i))
  {
    seq(|inp|, i requires 0 <= i < |inp| => XorByte(inp[i], KeyByte(ks, n, pos + i)))
  }

  /** Encrypting twice at the same position restores the input. */
  lemma XorStreamTwice(ks: Blocks, n: nat, pos: nat, inp: Bytes)
    requires Wide(ks, n)
    ensures XorStream(ks, n, pos, XorStream(ks, n, pos, inp)) == inp
  {
    forall i | 0 <= i < |inp|
      ensures XorStream(ks, n, pos, XorStream(ks, n, pos, inp))[i] == inp[i]
    {
      XorByteTwice(inp[i], KeyByte(ks, n, pos + i));
    }
  }

  lemma XorStreamConcat(ks: Blocks, n: nat, pos: nat, a: Bytes, b: Bytes)
    requires Wide(ks, n)
    ensures XorStream(ks, n, pos, a + b) == XorStream(ks, n, pos, a) + XorStream(ks, n, pos + |a|, b)
  {}

  function XorBytes(a: Bytes, b: Bytes): (r: Bytes)
    requires |a| == |b|
    ensures |r| == |a| && forall i :: 0 <= i < |a| ==> r[i] == XorByte(a[i], b[i])
  {
    seq(|a|, i requires 0 <= i < |a| => XorByte(a[i], b[i]))
  }

  function BlockStart(n: nat, q: nat): nat { q * n }

  lemma BlockStartNext(n: nat, q: nat)
    ensures BlockStart(n, q + 1) == BlockStart(n, q) + n
  {}

  /** The byte position after `used` blocks were drawn and the last one was used up to `boff` (0: entirely). */
  function Position(n: nat, used: nat, boff: nat): nat
    requires boff < n && (boff > 0 ==> used > 0)
  {
    if boff == 0 then BlockStart(n, used) else BlockStart(n, used - 1) + boff
  }

  lemma KeyByteAt(ks: Blocks, n: nat, q: nat, r: nat, i: nat)
    requires Wide(ks, n) && r < n && i == BlockStart(n, q) + r
    ensures KeyByte(ks, n, i) == ks(q)[r]
  {
    Division(i, q, r, n);
  }

  /** Inside one block the keystream is a slice of that block. */
  lemma XorStreamInBlock(ks: Blocks, n: nat, pos: nat, inp: Bytes, q: nat, r: nat)
    requires Wide(ks, n) && r + |inp| <= n && pos == BlockStart(n, q) + r
    ensures XorStream(ks, n, pos, inp) == XorBytes(inp, ks(q)[r..r + |inp|])
  {
    hide KeyByte, XorByte, BlockStart;
    forall i | 0 <= i < |inp|
      ensures XorStream(ks, n, pos, inp)[i] == XorBytes(inp, ks(q)[r..r + |inp|])[i]
    {
      KeyByteAt(ks, n, q, r + i, pos + i);
    }
  }

  /** One more piece of output, all from block q. */
  lemma Advance(ks: Blocks, n: nat, pos: nat, inp: Bytes, o: nat, m: nat, q: nat, r: nat)
    requires Wide(ks, n) && o + m <= |inp| && r + m <= n && pos + o == BlockStart(n, q) + r
    ensures XorStream(ks, n, pos, inp[..o]) + XorBytes(inp[o..o + m], ks(q)[r..r + m])
         == XorStream(ks, n, pos, inp[..o + m])
  {
    hide *;
    var a, b := inp[..o], inp[o..o + m];
    assert inp[..o + m] == a + b;
    assert |a| == o && |b| == m;
    XorStreamInBlock(ks, n, pos + o, b, q, r);
    XorStreamConcat(ks, n, pos, a, b);
  }

  /** The inner loop of every stream routine: out[o + i] = key[k + i] ^ inp[o + i] for i < m, where out may be inp. */
  method XorInto(out: array<bv8>, inp: array<bv8>, o: nat, key: array<bv8>, k: nat, m: nat)
    requires o + m <= out.Length && o + m <= inp.Length && k + m <= key.Length && key != out
    modifies out
    ensures out[..o] == old(out[..o]) && out[o + m..] == old(out[o + m..])
    ensures out[o..o + m] == XorBytes(old(inp[o..o + m]), key[k..k + m])
  {
    for i := 0 to m
      invariant out[..o] == old(out[..o]) && out[o + m..] == old(out[o + m..])
      invariant inp[o + i..] == old(inp[o + i..])
      invariant forall j :: o <= j < o + i ==> out[j] == XorByte(old(inp[j]), key[k + (j - o)])
    {
      assert inp[o + i] == inp[o + i..][0] == old(inp[o + i..])[0];
      out[o + i] := XorByte(inp[o + i], key[k + i]);
    }
  }

  /** The input still to come has not been overwritten, and `done` is the output so far. */
  ghost predicate Flowing(out: array<bv8>, inp: array<bv8>, o: nat, text: Bytes, rest: Bytes, done: Bytes)
    requires o <= |text| <= out.Length && |text| <= inp.Length
    reads out, inp
  {
    inp[o..|text|] == text[o..] && out[|text|..] == rest && out[..o] == done
  }

  /** m more bytes of the text. */
  method XorText(out: array<bv8>, inp: array<bv8>, o: nat, key: array<bv8>, k: nat, m: nat,
                 ghost text: Bytes, ghost rest: Bytes, ghost done: Bytes)
    requires key != out && key != inp && k + m <= key.Length
    requires o + m <= |text| <= out.Length && |text| <= inp.Length && Flowing(out, inp, o, text, rest, done)
    modifies out
    ensures Flowing(out, inp, o + m, text, rest, done + XorBytes(text[o..o + m], key[k..k + m]))
    ensures out[o..o + m] == XorBytes(text[o..o + m], key[k..k + m])
  {
    hide XorBytes;
    ghost var e, later, tail := o + m, inp[o + m..|text|], out[o + m..];
    assert inp[o..e] == inp[o..|text|][..m] == text[o..][..m] == text[o..e];
    assert later == inp[o..|text|][m..] == text[o..][m..] == text[e..];
    XorInto(out, inp, o, key, k, m);
    assert out[..e] == out[..o] + out[o..e];
    assert out[|text|..] == out[e..][|text| - e..] == tail[|text| - e..] == rest;
    if inp == out {
      assert inp[e..|text|] == out[e..][..|text| - e] == tail[..|text| - e] == later;
    }
  }

  /** A call on `text`, `o` bytes of which are done: the output so far is the stream of the input so far. */
  ghost predicate Streamed(out: array<bv8>, inp: array<bv8>, o: nat, text: Bytes, rest: Bytes,
                           ks: Blocks, n: nat, pos: nat)
    reads out, inp
  {
    && Wide(ks, n) && o <= |text| <= out.Length && |text| <= inp.Length
    && Flowing(out, inp, o, text, rest, XorStream(ks, n, pos, text[..o]))
  }

  /** XorInto with keystream block q in the buffer. */
  method XorPiece(out: array<bv8>, inp: array<bv8>, o: nat, buf: array<bv8>, k: nat, m: nat,
                  ghost ks: Blocks, ghost pos: nat, ghost text: Bytes, ghost rest: Bytes, ghost q: nat)
    requires Streamed(out, inp, o, text, rest, ks, buf.Length, pos) && buf != out && buf != inp
    requires o + m <= |text| && k + m <= buf.Length
    requires buf[..] == ks(q) && pos + o == BlockStart(buf.Length, q) + k
    modifies out
    ensures Streamed(out, inp, o + m, text, rest, ks, buf.Length, pos)
    ensures out[o..o + m] == XorBytes(text[o..o + m], buf[k..k + m])
  {
    hide XorStream, XorBytes, BlockStart, Wide, Flowing;
    assert ks(q)[k..k + m] == buf[k..k + m];
    Advance(ks, buf.Length, pos, text, o, m, q, k);
    XorText(out, inp, o, buf, k, m, text, rest, XorStream(ks, buf.Length, pos, text[..o]));
  }

  // ---------------------------------------------------------------- whole blocks in a buffer

  function Piece(s: Bytes, k: nat): Bytes16
    requires 16 * k + 16 <= |s|
  {
    s[16 * k..16 * k + 16]
  }

  /** encryptfast of a block cipher: mul blocks encrypted in place. */
  method EncryptBlocks(tmp: array<bv8>, mul: nat, enc: Cipher)
    requires 16 * mul <= tmp.Length && forall b: Bytes :: |b| == 16 ==> |enc(b)| == 16
    modifies tmp
    ensures forall k :: 0 <= k < mul ==> Piece(tmp[..], k) == enc(old(Piece(tmp[..], k)))
  {
    for i := 0 to mul
      invariant forall k :: 0 <= k < i ==> Piece(tmp[..], k) == enc(old(Piece(tmp[..], k)))
      invariant forall k :: i <= k < mul ==> Piece(tmp[..], k) == old(Piece(tmp[..], k))
    {
      ghost var t := tmp[..];
      StoreAt(tmp, 16 * i, enc(tmp[16 * i..16 * i + 16]));
      OtherPieces(t, tmp[..], i, mul);
    }
  }

  lemma OtherPieces(t: Bytes, u: Bytes, i: nat, mul: nat)
    requires i < mul && 16 * mul <= |t| == |u|
    requires forall j :: 0 <= j < |t| && !(16 * i <= j < 16 * i + 16) ==> u[j] == t[j]
    ensures forall k :: 0 <= k < mul && k != i ==> Piece(u, k) == Piece(t, k)
  {}

  /** Whole keystream blocks laid out in a buffer, xored in one go. */
  lemma BlocksAreStream(ks: Blocks, q: nat, tmp: Bytes, inp: Bytes)
    requires Wide(ks, 16) && |inp| % 16 == 0 && |inp| <= |tmp|
    requires forall k :: 0 <= k < |inp| / 16 ==> Piece(tmp, k) == ks(q + k)
    ensures XorBytes(inp, tmp[..|inp|]) == XorStream(ks, 16, BlockStart(16, q), inp)
  {
    forall i | 0 <= i < |inp|
      ensures XorStream(ks, 16, BlockStart(16, q), inp)[i] == XorBytes(inp, tmp[..|inp|])[i]
    {
      var k, r := i / 16, i % 16;
      assert tmp[i] == Piece(tmp, k)[r];
      KeyByteAt(ks, 16, q + k, r, BlockStart(16, q) + i);
    }
  }

  ghost predicate Agree(ks: Blocks, q: nat, other: Blocks, p: nat, k: nat) {
    ks(q + k) == other(p + k)
  }

  /** Two keystreams that agree on the blocks a text needs encrypt it alike. */
  lemma SameBlocks(ks: Blocks, q: nat, other: Blocks, p: nat, text: Bytes)
    requires Wide(ks, 16) && Wide(other, 16)
    requires forall k :: 0 <= k && 16 * k < |text| ==> Agree(ks, q, other, p, k)
    ensures XorStream(ks, 16, BlockStart(16, q), text) == XorStream(other, 16, BlockStart(16, p), text)
  {
    var a, b := BlockStart(16, q), BlockStart(16, p);
    forall i | 0 <= i < |text|
      ensures XorStream(ks, 16, a, text)[i] == XorStream(other, 16, b, text)[i]
    {
      var k, r := i / 16, i % 16;
      assert Agree(ks, q, other, p, k);
      KeyByteAt(ks, 16, q + k, r, a + i);
      KeyByteAt(other, 16, p + k, r, b + i);
    }
  }
}
