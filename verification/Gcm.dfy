/** The GCM stream of impl/mode/gcm-impl.cc over any of the three multipliers. */
module Gcm {
  import opened Words
  import opened GF128
  import opened Keystream
  import opened Counter
  import opened LongNumbers
  import opened GcmSpec
  import opened GcmCounter
  import opened GcmTag
  import GcmTables
  import GcmPclmul

  /** The mul member of struct gcm. */
  datatype Multiplier = Bitwise | Tables | Pclmul

  /** What the final calls return: a length, DREW_ERR_MORE_INFO or DREW_ERR_VERIFY_FAILED. */
  datatype Outcome = Length(len: nat) | MoreInfo | VerifyFailed

  /** increment_counter: a bytewise carry that stops after the last four bytes. */
  method IncrementLow(ctr: array<bv8>)
    requires ctr.Length == 16
    modifies ctr
    ensures ctr[..] == Inc32(old(ctr[..]))
  {
    ghost var c := ctr[..];
    var i := 15;
    ctr[i] := NextByte(ctr[i]);
    var carry := ctr[i] == 0;
    while carry && i > 12
      invariant 12 <= i < 16
      invariant carry <==> ctr[i] == 0
      invariant forall j :: 0 <= j < i ==> ctr[j] == c[j]
      invariant ctr[i] == NextByte(c[i])
      invariant forall j :: i < j < 16 ==> c[j] == 0xff && ctr[j] == 0
    {
      WrapByte(c[i]);
      i := i - 1;
      ctr[i] := NextByte(ctr[i]);
      carry := ctr[i] == 0;
    }
    WrapByte(c[i]);
    NextShape(c[12..], ctr[12..], i - 12);
    assert ctr[..] == c[..12] + ctr[12..];
  }

  /** The bytes that are hashed: the output when sealing, the input when opening. */
  ghost function CipherOf(opening: bool, ks: Blocks, pos: nat, text: Bytes): Bytes
    requires Wide(ks, 16)
  {
    if opening then text else XorStream(ks, 16, pos, text)
  }

  /** The ciphertext of one piece that lies in keystream block `block`. */
  ghost function CipherPiece(opening: bool, piece: Bytes, key: Bytes): (c: Bytes)
    requires |piece| == |key|
    ensures |c| == |piece|
  {
    if opening then piece else XorBytes(piece, key)
  }

  /** The whole text is done. */
  lemma CipherWhole(out: array<bv8>, inp: array<bv8>, opening: bool, ks: Blocks, pos: nat, text: Bytes, rest: Bytes)
    requires |text| <= out.Length && |text| <= inp.Length && Wide(ks, 16)
    requires Streamed(out, inp, |text|, text, rest, ks, 16, pos)
    ensures out[..|text|] == XorStream(ks, 16, pos, text) && out[|text|..] == rest
    ensures CipherOf(opening, ks, pos, text[..|text|]) == if opening then text else out[..|text|]
  {
    hide XorStream, Wide;
    assert text[..|text|] == text;
  }

  lemma CipherStep(opening: bool, ks: Blocks, pos: nat, text: Bytes, o: nat, m: nat, q: nat, k: nat)
    requires Wide(ks, 16) && o + m <= |text| && k + m <= 16 && pos + o == BlockStart(16, q) + k
    ensures CipherOf(opening, ks, pos, text[..o]) + CipherPiece(opening, text[o..o + m], ks(q)[k..k + m])
         == CipherOf(opening, ks, pos, text[..o + m])
  {
    hide XorStream, XorBytes, BlockStart;
    if opening {
      assert text[..o + m] == text[..o] + text[o..o + m];
    } else {
      Advance(ks, 16, pos, text, o, m, q, k);
    }
  }

  class Gcm {
    const enc: Cipher
    const mul: Multiplier
    const taglen: nat
    const y0: array<bv8>
    const y: array<bv8>
    const h: array<bv8>
    const x: array<bv8>
    const buf: array<bv8>
    const cbuf: array<bv8>
    const table: array<Block>
    var hv: Block
    var iv: Bytes
    var boff: nat
    var alen: bv64
    var clen: bv64
    ghost var aad: Bytes
    ghost var ct: Bytes
    ghost var used: nat

    /** struct gcm after init and setblock. */
    ghost predicate Ready() {
      && Block16(enc) && taglen <= 16 && table.Length == 4096
      && y0.Length == 16 && y.Length == 16 && h.Length == 16
      && x.Length == 16 && buf.Length == 16 && cbuf.Length == 16
      && y0 != y && y0 != h && y0 != x && y0 != buf && y0 != cbuf
      && y != h && y != x && y != buf && y != cbuf
      && h != x && h != buf && h != cbuf
      && x != buf && x != cbuf && buf != cbuf
    }

    /** gcm_init with one of the three multipliers, then gcm_setblock. */
    constructor (enc: Cipher, mul: Multiplier, taglen: nat)
      requires Block16(enc) && taglen <= 16
      ensures Ready() && boff == 0 && this.enc == enc && this.mul == mul && this.taglen == taglen
      ensures fresh(y0) && fresh(y) && fresh(h) && fresh(x) && fresh(buf) && fresh(cbuf) && fresh(table)
    {
      this.enc, this.mul, this.taglen := enc, mul, taglen;
      y0 := new bv8[16](i => 0);
      y := new bv8[16](i => 0);
      h := new bv8[16](i => 0);
      x := new bv8[16](i => 0);
      buf := new bv8[16](i => 0);
      cbuf := new bv8[16](i => 0);
      table := new Block[4096](i => ZERO);
      hv := ZERO;
      iv := [];
      boff := 0;
      alen, clen := 0, 0;
      aad, ct, used := [], [], 0;
    }

    ghost function H(): Block
      requires Ready()
      reads h
    {
      Load(h[..])
    }

    /** The hash key and what the multiplier derives from it. */
    ghost predicate Keyed()
      requires Ready()
      reads this`hv, h, table
    {
      && h[..] == enc(Zeros(16))
      && (mul.Tables? ==> GcmTables.TableFor(table[..], H()))
      && (mul.Pclmul? ==> hv == H())
    }

    /** The hash of the additional data. */
    ghost function X0(): Block
      requires Ready()
      reads this`aad, h
    {
      Ghash(H(), ZERO, PadData(aad))
    }

    ghost function Key(): Blocks
      requires Ready()
      reads y0
    {
      GcmBlocks(enc, y0[..])
    }

    /** o is text xor the keystream of the message from byte pos on. */
    ghost predicate Crypts(pos: nat, text: Bytes, o: Bytes)
      requires Ready()
      reads y0
    {
      Wide(Key(), 16) && o == XorStream(Key(), 16, pos, text)
    }

    /** The tag of the additional data and the ciphertext so far. */
    ghost function Mac(): Bytes
      requires Ready()
      reads `aad, `ct, y0, h
    {
      CodeTag(enc, H(), y0[..], aad, ct, taglen)
    }

    /** A tag of the right length that unmasks, byte by byte, to the hash of the additional data and the ciphertext. */
    ghost predicate Authentic(tag: Bytes)
      requires Ready()
      reads `aad, `ct, y0
    {
      |tag| == taglen && Unmasks(enc, y0[..], PadData(aad), |aad|, ct, tag)
    }

    lemma MacAuthentic(tag: Bytes)
      requires Ready() && Keyed()
      ensures Authentic(tag) <==> tag == Mac()
    {
      hide *;
      KeyedIs();
      CodeUnmasks(enc, y0[..], aad, ct, taglen);
      MacIs();
      AuthenticIs(Mac());
      AuthenticIs(tag);
      if Authentic(tag) {
        OneTag(enc, y0[..], PadData(aad), |aad|, ct, tag, Mac());
      }
    }

    lemma KeyedIs()
      requires Ready() && Keyed()
      ensures Block16(enc) && |y0[..]| == 16 && taglen <= 16 && |Zeros(16)| == 16 && |enc(Zeros(16))| == 16
      ensures H() == Load(enc(Zeros(16)))
    {
      hide Load;
    }

    lemma MacIs()
      requires Ready()
      ensures |enc(y0[..])| == 16 && Mac() == CodeTag(enc, H(), y0[..], aad, ct, taglen) && |Mac()| == taglen
    {
      hide Ghash, FinalHash, PadData, H;
    }

    lemma AuthenticIs(tag: Bytes)
      requires Ready()
      ensures Authentic(tag) <==> |tag| == taglen && Unmasks(enc, y0[..], PadData(aad), |aad|, ct, tag)
    {
      hide Unmasks, PadData;
    }

    ghost predicate Mid()
      reads `hv, `boff, `alen, `aad, `ct, `used, y0, y, h, x, buf, cbuf, table
    {
      && Ready() && Wide(Key(), 16) && Keyed() && alen == Size(|aad|)
      && Counted(enc, y0[..], used, y[..], buf[..], boff)
      && Hashed(H(), X0(), ct, boff, x[..], cbuf[..])
    }

    /** In the middle of a message: ct is the ciphertext so far, aad the additional data. */
    ghost predicate Valid()
      reads this, y0, y, h, x, buf, cbuf, table
    {
      Mid() && Position(16, used, boff) == |ct| && clen == Size(|ct|)
    }

    ghost predicate Outside(a: array<bv8>) {
      && a != y0 && a != y && a != h && a != x && a != buf && a != cbuf
      && (a as object) != table
    }

    /** The caller's buffers are not part of the context; they may be the same buffer. */
    ghost predicate Apart(out: array<bv8>, inp: array<bv8>) {
      Outside(out) && Outside(inp)
    }

    /** hash: a becomes (a xor block) times H. */
    method Hash(a: array<bv8>, block: Bytes)
      requires Ready() && Keyed() && |block| == 16 && (a == x || a == y0)
      modifies a
      ensures a[..] == Store(HashBlock(H(), Load(old(a[..])), block)) && Keyed() && H() == old(H())
    {
      hide Xor, Load, Store, Mul, XorBytes, XorByte;
      ghost var b := a[..];
      for i := 0 to 16
        invariant forall j :: 0 <= j < i ==> a[j] == XorByte(b[j], block[j])
        invariant forall j :: i <= j < 16 ==> a[j] == b[j]
      {
        a[i] := XorByte(a[i], block[i]);
      }
      assert a[..] == XorBytes(b, block);
      LoadXor(b, block);
      match mul {
        case Bitwise => GcmTables.MulBitwise(h[..], a);
        case Tables => GcmTables.MulTable(h[..], table, a);
        case Pclmul => GcmPclmul.MulPclmul(hv, a);
      }
    }

    /** The first o bytes of a call on `text` are done; `before` was the ciphertext when it began. */
    ghost predicate Going(out: array<bv8>, inp: array<bv8>, o: nat, opening: bool,
                          before: Bytes, text: Bytes, rest: Bytes)
      requires Ready()
      reads this`ct, y0, out, inp
    {
      && Wide(Key(), 16) && o <= |text| <= out.Length && |text| <= inp.Length
      && Streamed(out, inp, o, text, rest, Key(), 16, |before|)
      && ct == before + CipherOf(opening, Key(), |before|, text[..o])
    }

    /** Steps the counter and encrypts it into buf. */
    method Draw()
      requires Mid() && boff == 0
      modifies this`used, y, buf
      ensures Mid() && used == old(used) + 1 && buf[..] == Key()(used - 1)
    {
      hide Inc32, GcmBlocks, Hashed, Ghash, PadData, Size;
      IncrementLow(y);
      Wide16(enc, y0[..]);
      used := used + 1;
      assert y[..] == Inc32N(y0[..], used);
      BlockAt(enc, y0[..], used - 1);
      CopyInto(buf, enc(y[..]));
    }

    /** The loop that xors a piece and records the ciphertext in cbuf. */
    method Emit(out: array<bv8>, inp: array<bv8>, o: nat, k: nat, m: nat, opening: bool,
                ghost ks: Blocks, ghost pos: nat, ghost text: Bytes, ghost rest: Bytes, ghost q: nat)
      requires Ready() && Apart(out, inp) && Streamed(out, inp, o, text, rest, ks, 16, pos)
      requires o + m <= |text| && k + m <= 16 && buf[..] == ks(q) && pos + o == BlockStart(16, q) + k
      modifies cbuf, out
      ensures Streamed(out, inp, o + m, text, rest, ks, 16, pos)
      ensures cbuf[..k] == old(cbuf[..k])
      ensures cbuf[k..k + m] == CipherPiece(opening, text[o..o + m], ks(q)[k..k + m])
    {
      hide XorStream, XorBytes, BlockStart;
      assert ks(q)[k..k + m] == buf[k..k + m];
      ghost var c0 := cbuf[..];
      if opening {
        InputAt(out, inp, o, m, text, rest, ks, pos);
        StoreAt(cbuf, k, inp[o..o + m]);
      }
      XorPiece(out, inp, o, buf, k, m, ks, pos, text, rest, q);
      if !opening {
        StoreAt(cbuf, k, out[o..o + m]);
      }
      assert cbuf[..k] == c0[..k];
    }

    /** Bytes k to k + m - 1 of the current keystream block; a ciphertext block that is now complete is hashed. */
    method Take(out: array<bv8>, inp: array<bv8>, o: nat, k: nat, m: nat, opening: bool,
                ghost before: Bytes, ghost text: Bytes, ghost rest: Bytes)
      requires Mid() && Apart(out, inp) && Going(out, inp, o, opening, before, text, rest)
      requires used > 0 && buf[..] == Key()(used - 1) && |before| + o == BlockStart(16, used - 1) + k
      requires k + m <= 16 && 0 < k + m && o + m <= |text| && boff == k
      modifies this`boff, this`ct, x, cbuf, out
      ensures Mid() && Going(out, inp, o + m, opening, before, text, rest)
      ensures boff == if k + m == 16 then 0 else k + m
    {
      hide XorStream, XorBytes, BlockStart, Ghash, GcmBlocks, PadData, Size, Inc32N, HashBlock, Load, Store;
      hide CipherOf, CipherPiece, Hashed, Streamed, Wide;
      ghost var was, c0, x1 := ct, cbuf[..], x[..];
      ghost var c := CipherPiece(opening, text[o..o + m], Key()(used - 1)[k..k + m]);
      CipherStep(opening, Key(), |before|, text, o, m, used - 1, k);
      Emit(out, inp, o, k, m, opening, Key(), |before|, text, rest, used - 1);
      boff := k + m;
      ct := ct + c;
      assert Going(out, inp, o + m, opening, before, text, rest);
      if boff == 16 {
        boff := 0;
        assert cbuf[..] == c0[..k] + c;
        Hash(x, cbuf[..]);
        HashedFull(H(), X0(), was, k, x1, c0, c, x[..], cbuf[..]);
      } else {
        HashedPart(H(), X0(), was, k, x1, c0, c, cbuf[..]);
      }
    }

    /** Xors a whole block; it is hashed from the output when sealing and from the input when opening. */
    method EmitBlock(out: array<bv8>, inp: array<bv8>, o: nat, opening: bool,
                     ghost ks: Blocks, ghost pos: nat, ghost text: Bytes, ghost rest: Bytes, ghost q: nat)
      requires Ready() && Keyed() && Apart(out, inp) && Streamed(out, inp, o, text, rest, ks, 16, pos)
      requires o + 16 <= |text| && buf[..] == ks(q) && pos + o == BlockStart(16, q)
      modifies x, out
      ensures Keyed() && Streamed(out, inp, o + 16, text, rest, ks, 16, pos)
      ensures var c := CipherPiece(opening, text[o..o + 16], ks(q)[0..16]);
              x[..] == Store(HashBlock(H(), Load(old(x[..])), c))
    {
      hide XorStream, XorBytes, BlockStart, HashBlock, Load, Store;
      assert ks(q)[0..16] == buf[0..16];
      if opening {
        InputAt(out, inp, o, 16, text, rest, ks, pos);
        Hash(x, inp[o..o + 16]);
      }
      XorPiece(out, inp, o, buf, 0, 16, ks, pos, text, rest, q);
      if !opening {
        Hash(x, out[o..o + 16]);
      }
    }

    method TakeBlock(out: array<bv8>, inp: array<bv8>, o: nat, opening: bool,
                     ghost before: Bytes, ghost text: Bytes, ghost rest: Bytes)
      requires Mid() && Apart(out, inp) && Going(out, inp, o, opening, before, text, rest)
      requires used > 0 && buf[..] == Key()(used - 1) && |before| + o == BlockStart(16, used - 1)
      requires o + 16 <= |text| && boff == 0
      modifies this`ct, x, out
      ensures Mid() && Going(out, inp, o + 16, opening, before, text, rest)
    {
      hide XorStream, XorBytes, BlockStart, Ghash, GcmBlocks, PadData, Size, Inc32N, HashBlock, Load, Store;
      hide CipherOf, CipherPiece, Hashed, Streamed, Wide;
      ghost var was, x1 := ct, x[..];
      ghost var c := CipherPiece(opening, text[o..o + 16], Key()(used - 1)[0..16]);
      CipherStep(opening, Key(), |before|, text, o, 16, used - 1, 0);
      EmitBlock(out, inp, o, opening, Key(), |before|, text, rest, used - 1);
      ct := ct + c;
      assert Going(out, inp, o + 16, opening, before, text, rest);
      assert cbuf[..0] + c == c;
      HashedFull(H(), X0(), was, 0, x1, cbuf[..], c, x[..], cbuf[..]);
    }

    ghost predicate Done(out: array<bv8>, inp: array<bv8>, o: nat, opening: bool,
                         before: Bytes, text: Bytes, rest: Bytes)
      reads `hv, `boff, `alen, `aad, `ct, `used, y0, y, h, x, buf, cbuf, table, out, inp
    {
      && Ready() && Mid() && Apart(out, inp) && Going(out, inp, o, opening, before, text, rest)
      && boff < 16 && (boff > 0 ==> used > 0) && Position(16, used, boff) == |before| + o
    }

    lemma Leftover()
      requires Mid() && boff != 0
      ensures 0 < used && boff < 16 && buf[..] == Key()(used - 1)
      ensures Position(16, used, boff) == BlockStart(16, used - 1) + boff
    {}

    /** At a block boundary of the text nothing is buffered. */
    lemma AtBlock(len: nat)
      requires Ready() && Valid() && FastAt(y0[..], |ct|, len)
      ensures boff == 0 && len % 16 == 0 && len <= 4096 && |y[..]| == 16 && NoWrap(y[..], len / 16)
    {
      hide Wide, GcmBlocks, Hashed, Ghash, PadData, Inc32N, NoWrap;
    }

    /** Draws a block and takes all of it. */
    method WholeBlock(out: array<bv8>, inp: array<bv8>, o: nat, opening: bool,
                      ghost before: Bytes, ghost text: Bytes, ghost rest: Bytes)
      requires Done(out, inp, o, opening, before, text, rest) && boff == 0 && o + 16 <= |text|
      modifies this`used, this`ct, x, y, buf, out
      ensures Done(out, inp, o + 16, opening, before, text, rest)
    {
      hide Mid, BlockStart, Counted, Wide, CipherOf, XorStream, Streamed, GcmBlocks;
      Draw();
      TakeBlock(out, inp, o, opening, before, text, rest);
      BlockStartNext(16, used - 1);
    }

    /** Draws a block and takes its first m bytes. */
    method PartBlock(out: array<bv8>, inp: array<bv8>, o: nat, m: nat, opening: bool,
                     ghost before: Bytes, ghost text: Bytes, ghost rest: Bytes)
      requires Done(out, inp, o, opening, before, text, rest) && boff == 0 && 0 < m < 16 && o + m <= |text|
      modifies this`boff, this`used, this`ct, x, y, buf, cbuf, out
      ensures Done(out, inp, o + m, opening, before, text, rest)
    {
      hide Mid, BlockStart, Counted, Wide, CipherOf, XorStream, Streamed, GcmBlocks;
      Draw();
      Take(out, inp, o, 0, m, opening, before, text, rest);
    }

    /** Takes m bytes of the keystream that is left over from the last call. */
    method Buffered(out: array<bv8>, inp: array<bv8>, m: nat, opening: bool,
                    ghost before: Bytes, ghost text: Bytes, ghost rest: Bytes)
      requires Done(out, inp, 0, opening, before, text, rest) && boff != 0 && boff + m <= 16 && m <= |text|
      modifies this`boff, this`ct, x, cbuf, out
      ensures Done(out, inp, m, opening, before, text, rest)
      ensures boff == if old(boff) + m == 16 then 0 else old(boff) + m
    {
      hide Mid, BlockStart, Counted, Wide, CipherOf, XorStream, Streamed, GcmBlocks;
      Leftover();
      Take(out, inp, 0, boff, m, opening, before, text, rest);
      BlockStartNext(16, used - 1);
    }

    /** gcm_encrypt and gcm_decrypt, which differ in the bytes they hash: the buffered keystream first, then whole
        blocks, then the start of one more. */
    method Crypt(out: array<bv8>, inp: array<bv8>, len: nat, opening: bool,
                 ghost before: Bytes, ghost text: Bytes, ghost rest: Bytes)
      requires Done(out, inp, 0, opening, before, text, rest) && |text| == len && boff < 16
      modifies this`boff, this`used, this`ct, x, y, buf, cbuf, out
      ensures Done(out, inp, len, opening, before, text, rest)
    {
      hide Done;
      var o := 0;
      if boff != 0 {
        var b := if 16 - boff < len then 16 - boff else len;
        Buffered(out, inp, b, opening, before, text, rest);
        o := b;
      }
      while len - o >= 16
        invariant o <= len && Done(out, inp, o, opening, before, text, rest)
        invariant boff == 0 || o == len
      {
        WholeBlock(out, inp, o, opening, before, text, rest);
        o := o + 16;
      }
      if o < len {
        PartBlock(out, inp, o, len - o, opening, before, text, rest);
      }
    }

    /** gcm_encrypt; out may be inp. */
    method Encrypt(out: array<bv8>, inp: array<bv8>, len: nat)
      requires Ready() && Valid() && Apart(out, inp) && len <= out.Length && len <= inp.Length
      modifies this`boff, this`used, this`ct, this`clen, x, y, buf, cbuf, out
      ensures Valid() && ct == old(ct) + out[..len]
      ensures Crypts(|old(ct)|, old(inp[..len]), out[..len]) && out[len..] == old(out[len..])
    {
      hide *;
      ghost var before, text, rest := ct, inp[..len], out[len..];
      Begin(out, inp, len, false);
      clen := AddWord(clen, Size(len));
      Crypt(out, inp, len, false, before, text, rest);
      End(out, inp, len, false, before, text, rest);
    }

    /** gcm_decrypt; out may be inp. */
    method Decrypt(out: array<bv8>, inp: array<bv8>, len: nat)
      requires Ready() && Valid() && Apart(out, inp) && len <= out.Length && len <= inp.Length
      modifies this`boff, this`used, this`ct, this`clen, x, y, buf, cbuf, out
      ensures Valid() && ct == old(ct) + old(inp[..len])
      ensures Crypts(|old(ct)|, old(inp[..len]), out[..len]) && out[len..] == old(out[len..])
    {
      hide *;
      ghost var before, text, rest := ct, inp[..len], out[len..];
      Begin(out, inp, len, true);
      clen := AddWord(clen, Size(len));
      Crypt(out, inp, len, true, before, text, rest);
      End(out, inp, len, true, before, text, rest);
    }

    lemma Begin(out: array<bv8>, inp: array<bv8>, len: nat, opening: bool)
      requires Valid() && Apart(out, inp) && len <= out.Length && len <= inp.Length
      ensures Done(out, inp, 0, opening, ct, inp[..len], out[len..])
      ensures AddWord(clen, Size(len)) == Size(|ct| + len) && boff < 16
    {
      hide BlockStart, Size, Ghash, PadData, Hashed, Keyed, Wide;
      SizeAdd(|ct|, len);
      assert inp[..len][..0] == [];
    }

    lemma End(out: array<bv8>, inp: array<bv8>, len: nat, opening: bool, before: Bytes, text: Bytes, rest: Bytes)
      requires Done(out, inp, len, opening, before, text, rest) && |text| == len && clen == Size(|before| + len)
      ensures Ready() && Valid() && ct == before + if opening then text else out[..len]
      ensures Crypts(|before|, text, out[..len]) && out[len..] == rest
    {
      hide Position, Size, Ghash, PadData, Hashed, Keyed, Counted, Wide, XorStream, CipherOf, Streamed, GcmBlocks, X0;
      CipherWhole(out, inp, opening, Key(), |before|, text, rest);
    }

    /** The block loops of gcm_setiv and gcm_setdata, and hash_fast: all the whole blocks of data. */
    method HashBlocks(a: array<bv8>, data: Bytes, n: nat, ghost s: Block)
      requires Ready() && Keyed() && (a == x || a == y0) && 16 * n <= |data| && a[..] == Store(s)
      modifies a
      ensures a[..] == Store(Ghash(H(), s, data[..16 * n])) && Keyed()
    {
      hide Load, Store, HashBlock, Keyed;
      assert data[..0] == [];
      for i := 0 to n
        invariant a[..] == Store(Ghash(H(), s, data[..16 * i])) && Keyed()
      {
        var d := data[16 * i..16 * i + 16];
        LoadStore(Ghash(H(), s, data[..16 * i]));
        GhashLast(H(), s, data[..16 * i], d);
        assert data[..16 * i] + d == data[..16 * (i + 1)];
        Hash(a, d);
      }
    }

    /** An incomplete block, padded with zeros in buf, then hashed. */
    method HashTail(a: array<bv8>, tail: Bytes, ghost s: Block)
      requires Ready() && Keyed() && (a == x || a == y0) && |tail| < 16 && a[..] == Store(s)
      modifies a, buf
      ensures Keyed() && a[..] == Store(HashBlock(H(), s, LastBlock(tail)))
    {
      assert LastBlock(tail) == tail + Zeros(16 - |tail|);
      hide Load, Store, HashBlock, LastBlock;
      CopyInto(buf, Zeros(16));
      StoreAt(buf, 0, tail);
      assert buf[..] == LastBlock(tail);
      LoadStore(s);
      Hash(a, buf[..]);
    }

    /** Two bit lengths in buf, then hashed. */
    method HashLengths(a: array<bv8>, l0: bv64, l1: bv64, ghost s: Block, ghost n0: nat, ghost n1: nat)
      requires Ready() && Keyed() && (a == x || a == y0) && a[..] == Store(s) && l0 == Size(n0) && l1 == Size(n1)
      modifies a, buf
      ensures Keyed() && a[..] == Store(HashBlock(H(), s, LenBlock(n0, n1)))
    {
      hide Load, Store, HashBlock, StoreWord, Shl3, Size, Len64;
      Len64Of(n0, l0);
      Len64Of(n1, l1);
      CopyInto(buf, StoreWord(Shl3(l0)) + StoreWord(Shl3(l1)));
      LoadStore(s);
      Hash(a, buf[..]);
    }

    /** The first counter for an initialization vector that is not 12 bytes long. */
    method FirstCounter()
      requires Ready() && Keyed() && |iv| != 12 && y0[..] == Zeros(16)
      modifies y0, buf
      ensures Keyed() && y0[..] == Start(H(), iv)
    {
      hide Load, Store, HashBlock, Ghash, Pad16, LastBlock, LenBlock, Size, Keyed;
      var n := |iv| / 16;
      ZeroBlock();
      assert iv[..0] == [];
      HashBlocks(y0, iv, n, ZERO);
      GhashPad16(H(), ZERO, iv, n);
      if |iv| % 16 != 0 {
        HashTail(y0, iv[16 * n..], Ghash(H(), ZERO, iv[..16 * n]));
      }
      SizeZero();
      HashLengths(y0, 0, Size(|iv|), Ghash(H(), ZERO, Pad16(iv)), 0, |iv|);
    }

    /** The hash key, and what the multiplier needs of it. */
    method Rekey()
      requires Ready()
      modifies `hv, h, table
      ensures Keyed()
    {
      CopyInto(h, Zeros(16));
      CopyInto(h, enc(h[..]));
      if mul.Pclmul? {
        hv := Load(h[..]);
      }
      if mul.Tables? {
        GcmTables.GenTable(Load(h[..]), table);
      }
    }

    /** gcm_setiv. An initialization vector that is not 12 bytes long is refused unless the tag is 16 bytes, but only
        after the context has been keyed and cleared. boff is not cleared: the context is at the start of the new
        message exactly when it was at a block boundary. */
    method SetIv(newIv: Bytes) returns (ok: bool)
      requires Ready()
      modifies `hv, `iv, `alen, `clen, `aad, `ct, `used, y0, y, h, x, buf, cbuf, table
      ensures ok == (|newIv| == 12 || taglen == 16) && iv == newIv && Keyed()
      ensures ok ==> Fresh() && y0[..] == Start(H(), newIv) && (Valid() <==> boff == 0)
      ensures !ok ==> y0[..] == y[..] == x[..] == Zeros(16) && alen == old(alen) && clen == old(clen)
    {
      hide *;
      Distinct();
      Clear();
      Rekey();
      iv := newIv;
      ok := true;
      if |newIv| == 12 {
        TwelveBytes();
      } else if taglen != 16 {
        return false;
      } else {
        FirstCounter();
      }
      CopyInto(y, y0[..]);
      alen, clen := 0, 0;
      aad, ct, used := [], [], 0;
      Begun();
      AtStart();
    }

    lemma Distinct()
      requires Ready()
      ensures y0 != y && y0 != h && y0 != x && y != h && y != x && h != x
      ensures buf != y0 && buf != y && buf != h && buf != x && cbuf != h
      ensures y0.Length == 16 && y.Length == 16 && x.Length == 16
      ensures (table as object) != y0 && (table as object) != y && (table as object) != x && (table as object) != buf
    {}

    method Clear()
      requires Ready()
      modifies y0, y, x, buf, cbuf
      ensures y0[..] == y[..] == x[..] == Zeros(16)
    {
      CopyInto(y, Zeros(16));
      CopyInto(y0, Zeros(16));
      CopyInto(x, Zeros(16));
      CopyInto(buf, Zeros(16));
      CopyInto(cbuf, Zeros(16));
    }

    /** Keyed, with nothing hashed and no counter taken. */
    ghost predicate Fresh()
      reads `hv, `alen, `clen, `aad, `ct, `used, y0, y, h, x, table
    {
      && Ready() && Keyed() && aad == [] && ct == [] && used == 0 && alen == 0 && clen == 0
      && y[..] == y0[..] && x[..] == Zeros(16)
    }

    lemma Begun()
      requires Ready() && Keyed() && aad == [] && ct == [] && used == 0 && alen == 0 && clen == 0
      requires y[..] == y0[..] && x[..] == Zeros(16)
      ensures Fresh()
    {
      hide Ready, Keyed;
    }

    /** The first counter for a 12-byte initialization vector. */
    method TwelveBytes()
      requires Ready() && Keyed() && |iv| == 12 && y0[..] == Zeros(16)
      modifies y0
      ensures Keyed() && y0[..] == Start(H(), iv)
    {
      hide Keyed, Ghash, Load, Store, HashBlock;
      StoreAt(y0, 0, iv);
      StoreAt(y0, 12, Zeros(3));
      y0[15] := 1;
      assert y0[..] == iv + [0, 0, 0, 1];
    }

    lemma AtStart()
      requires Fresh()
      ensures Valid() <==> boff == 0
    {
      hide Keyed, Start, PadData, Load, Store, HashBlock, Wide;
      SizeZero();
      ZeroBlock();
      NoData(H());
      Wide16(enc, y0[..]);
    }

    /** The hash of data from zero, in x: gcm_setdata always hashes one more block. */
    method HashData(data: Bytes)
      requires Ready() && Keyed()
      modifies x, buf
      ensures Ready() && Keyed() && H() == old(H()) && x[..] == Store(Ghash(H(), ZERO, PadData(data)))
    {
      hide Keyed, PadData, Load, Store, HashBlock, Ghash, LastBlock;
      var n := |data| / 16;
      ZeroBlock();
      CopyInto(x, Zeros(16));
      HashBlocks(x, data, n, ZERO);
      HashTail(x, data[16 * n..], Ghash(H(), ZERO, data[..16 * n]));
      GhashPadData(H(), ZERO, data, n);
    }

    /** gcm_setdata, before any text: the additional data is hashed. */
    method SetData(data: Bytes)
      requires Valid() && ct == []
      modifies `alen, `aad, x, buf
      ensures Valid() && aad == data
    {
      hide *;
      NoText();
      HashData(data);
      alen := Size(|data|);
      aad := data;
      WithData();
    }

    lemma NoText()
      requires Valid() && ct == []
      ensures Ready() && Keyed() && Wide(Key(), 16) && clen == Size(0)
      ensures boff == 0 && Position(16, used, boff) == 0 && Counted(enc, y0[..], used, y[..], [], 0)
      ensures x != y0 && x != y && buf != y0 && buf != y
    {
      hide Keyed, PadData, Store, Ghash, Wide, Size, BlockStart, Inc32N, GcmBlocks;
    }

    lemma WithData()
      requires Ready() && Keyed() && Wide(Key(), 16) && clen == Size(0)
      requires boff == 0 && Position(16, used, boff) == 0 && Counted(enc, y0[..], used, y[..], [], 0)
      requires ct == [] && alen == Size(|aad|) && x[..] == Store(Ghash(H(), ZERO, PadData(aad)))
      ensures Valid()
    {
      hide Keyed, PadData, Store, Wide, Size, Position, Inc32N, GcmBlocks, Ghash;
      GhashNone(H(), X0());
    }

    /** gcm_reset: the same message from the start, whatever was done before. */
    method Reset() returns (ok: bool)
      requires Ready()
      modifies `hv, `iv, `alen, `clen, `aad, `ct, `used, `boff, y0, y, h, x, buf, cbuf, table
      ensures ok == (|old(iv)| == 12 || taglen == 16) && iv == old(iv) && Keyed()
      ensures ok ==> Valid() && y0[..] == Start(H(), iv) && aad == [] && ct == []
    {
      hide Keyed, Start, PadData, Load, Store, HashBlock, Ghash, Wide, Size;
      ok := SetIv(iv);
      if ok {
        boff := 0;
        AtStart();
      }
    }

    /** The end of a message: the incomplete ciphertext block padded with zeros, then the lengths. */
    method FinishHash()
      requires Valid()
      modifies x, buf, cbuf
      ensures Keyed() && x[..] == Store(FinalHash(H(), X0(), |aad|, ct))
    {
      hide Keyed, Ghash, Load, Store, HashBlock, LastBlock, Pad16, PadData, Size, LenBlock, Wide, BlockStart, Counted;
      ghost var n := (|ct| - boff) / 16;
      assert 16 * n == |ct| - boff;
      GhashPad16(H(), X0(), ct, n);
      if boff != 0 {
        var b := boff;
        var pad := Zeros(16 - b);
        assert LastBlock(ct[16 * n..]) == ct[16 * n..] + pad by { Padded(ct[16 * n..]); }
        LoadStore(Ghash(H(), X0(), ct[..16 * n]));
        StoreAt(cbuf, b, pad);
        assert cbuf[..] == cbuf[..b] + cbuf[b..b + |pad|];
        assert cbuf[..] == LastBlock(ct[16 * n..]);
        Hash(x, cbuf[..]);
      }
      HashLengths(x, alen, clen, Ghash(H(), X0(), Pad16(ct)), |aad|, |ct|);
    }

    /** The tag, left in x. */
    method FinishTag()
      requires Valid()
      modifies x, buf, cbuf
      ensures Ready() && Keyed() && x[..taglen] == Mac()
    {
      hide Keyed, Ghash, Load, Store, HashBlock, FinalHash, PadData, Size, Wide, BlockStart, Counted, XorBytes;
      FinishHash();
      CopyInto(buf, enc(y0[..]));
      XorInto(x, x, 0, buf, 0, 16);
      assert x[..] == x[0..16] && buf[..] == buf[0..16];
    }

    /** gcm_encryptfinal: the last text and the tag after it, or an error before anything is done. */
    method EncryptFinal(out: array<bv8>, outlen: nat, inp: array<bv8>, inlen: nat) returns (r: Outcome)
      requires Ready() && Valid() && Apart(out, inp) && outlen <= out.Length && inlen <= inp.Length
      modifies `boff, `used, `ct, `clen, x, y, buf, cbuf, out
      ensures outlen < inlen + taglen ==> r == MoreInfo && Valid() && ct == old(ct) && out[..] == old(out[..])
      ensures outlen >= inlen + taglen ==>
                && r == Length(outlen) && Keyed() && ct == old(ct) + out[..inlen]
                && Crypts(|old(ct)|, old(inp[..inlen]), out[..inlen])
                && out[inlen..inlen + taglen] == Mac() && Authentic(out[inlen..inlen + taglen])
                && out[inlen + taglen..] == old(out[inlen + taglen..])
    {
      hide *;
      Separate(out, inp);
      if outlen < inlen + taglen {
        return MoreInfo;
      }
      Encrypt(out, inp, inlen);
      ghost var done, rest := out[..inlen], out[inlen..];
      FinishTag();
      ghost var tail := out[inlen..];
      StoreAt(out, inlen, x[..taglen]);
      assert out[..inlen] == done;
      assert out[inlen + taglen..] == tail[taglen..];
      MacAuthentic(out[inlen..inlen + taglen]);
      r := Length(outlen);
    }

    lemma Separate(out: array<bv8>, inp: array<bv8>)
      requires Valid() && Apart(out, inp)
      ensures Ready() && taglen <= 16 && x.Length == 16 && y0 != x && y0 != y && y0 != buf && y0 != cbuf
      ensures out != x && out != buf && out != cbuf && out != y0 && out != h && (out as object) != table
      ensures inp != x && inp != y && inp != buf && inp != cbuf && out != y && h != x && h != y && h != buf && h != cbuf
    {
      hide Keyed, Counted, Hashed, Wide;
    }

    /** gcm_decryptfinal: the last text, and whether the tag after it is right. The text is written either way. */
    method DecryptFinal(out: array<bv8>, outlen: nat, inp: array<bv8>) returns (r: Outcome)
      requires Ready() && Valid() && Apart(out, inp) && outlen <= out.Length && outlen + taglen <= inp.Length
      modifies `boff, `used, `ct, `clen, x, y, buf, cbuf, out
      ensures Keyed() && ct == old(ct) + old(inp[..outlen])
      ensures Crypts(|old(ct)|, old(inp[..outlen]), out[..outlen]) && out[outlen..] == old(out[outlen..])
      ensures r == if old(inp[outlen..outlen + taglen]) == Mac() then Length(outlen) else VerifyFailed
      ensures r == if Authentic(old(inp[outlen..outlen + taglen])) then Length(outlen) else VerifyFailed
    {
      hide *;
      Separate(out, inp);
      ghost var tag := inp[outlen..outlen + taglen];
      ghost var rest := inp[outlen..];
      Decrypt(out, inp, outlen);
      FinishTag();
      if inp == out {
        assert inp[outlen..] == rest;
      }
      assert inp[outlen..outlen + taglen] == inp[outlen..][..taglen] == rest[..taglen] == tag;
      MacAuthentic(tag);
      r := if inp[outlen..outlen + taglen] == x[..taglen] then Length(outlen) else VerifyFailed;
    }

    /** The counters and the encryption of the fast path: one keystream block a chunk. */
    method FastKeys(tmp: array<bv8>, mul: nat)
      requires Ready() && 16 * mul <= tmp.Length && Outside(tmp)
      modifies tmp, y
      ensures forall k :: 0 <= k < mul ==> Piece(tmp[..], k) == enc(NextN(old(y[..]), k + 1))
      ensures y[..] == NextN(old(y[..]), mul)
    {
      hide Next, NextN, StoreWords, Inc32N, Piece;
      var w := new bv32[4];
      CopyWords(w, LoadWords(y[..]));
      StoreLoadWords(y[..]);
      ghost var first := y[..];
      NextNStep(first, 0);
      for i := 0 to mul
        invariant y[..] == first
        invariant StoreWords(w[..]) == NextN(first, i)
        invariant forall k :: 0 <= k < i ==> Piece(tmp[..], k) == NextN(first, k + 1)
      {
        NextNStep(first, i);
        IncrementFast(w);
        ghost var t := tmp[..];
        StoreWordsLength(w[..]);
        StoreAt(tmp, 16 * i, StoreWords(w[..]));
        assert Piece(tmp[..], i) == NextN(first, i + 1) by { PieceAt(tmp[..], i); }
        OtherPieces(t, tmp[..], i, mul);
      }
      EncryptBlocks(tmp, mul, enc);
      CopyInto(y, StoreWords(w[..]));
    }

    /** One pass of the loop of gcm_encryptfast and gcm_decryptfast. */
    method FastPass(out: array<bv8>, inp: array<bv8>, len: nat, opening: bool, ghost s: Block)
      requires Ready() && Keyed() && x[..] == Store(s) && Apart(out, inp)
      requires len <= 4096 && len % 16 == 0 && len <= out.Length && len <= inp.Length
      requires Wide(FastBlocks(enc, y[..]), 16)
      modifies x, y, out
      ensures Keyed() && y[..] == NextN(old(y[..]), len / 16) && out[len..] == old(out[len..])
      ensures out[..len] == XorStream(FastBlocks(enc, old(y[..])), 16, 0, old(inp[..len]))
      ensures x[..] == Store(Ghash(H(), s, if opening then old(inp[..len]) else out[..len]))
    {
      hide Wide, XorStream, XorBytes, XorByte, Keyed, Ghash, Store, NextN, FastBlocks;
      ghost var text, from := inp[..len], y[..];
      var mul := len / 16;
      var tmp := new bv8[4096];
      if opening {
        HashBlocks(x, inp[..len], mul, s);
        assert text[..16 * mul] == text;
      }
      FastKeys(tmp, mul);
      FastStream(enc, from, tmp[..], text);
      XorInto(out, inp, 0, tmp, 0, len);
      assert tmp[..][..len] == tmp[0..len] && out[..len] == out[0..len];
      if !opening {
        HashBlocks(x, out[..len], mul, s);
        assert out[..len][..16 * mul] == out[..len];
      }
    }

    /** gcm_encryptfast and gcm_decryptfast, called with whole blocks at a block boundary; out may be inp. The counter
        carries beyond its low 32 bits, so the call continues the message exactly when those bits do not wrap. */
    method CryptFast(out: array<bv8>, inp: array<bv8>, len: nat, opening: bool)
      requires Ready() && Valid() && boff == 0 && Apart(out, inp) && len <= out.Length && len <= inp.Length
      requires len <= 4096 && len % 16 == 0
      modifies `used, `ct, `clen, x, y, out
      ensures ct == old(ct) + (if opening then old(inp[..len]) else out[..len]) && out[len..] == old(out[len..])
      ensures Wide(FastBlocks(enc, old(y[..])), 16)
      ensures out[..len] == XorStream(FastBlocks(enc, old(y[..])), 16, 0, old(inp[..len]))
      ensures Keyed() && clen == Size(|ct|) && Hashed(H(), X0(), ct, 0, x[..], cbuf[..])
      ensures y[..] == NextN(old(y[..]), len / 16)
      ensures Valid() <==> NoWrap(old(y[..]), len / 16)
      ensures Valid() ==> Crypts(|old(ct)|, old(inp[..len]), out[..len])
    {
      hide Wide, XorStream, Keyed, Ghash, PadData, Size, Load, Store, NextN, Inc32N, BlockStart, FastBlocks, GcmBlocks;
      hide Hashed;
      ghost var text, from, s := inp[..len], y[..], Ghash(H(), X0(), ct);
      ghost var before, x1, key, first := ct, x[..], Key(), used;
      HashedNow(H(), X0(), ct, x[..], cbuf[..]);
      FastWide(enc, from);
      clen := AddWord(clen, Size(len));
      SizeAdd(|ct|, len);
      FastPass(out, inp, len, opening, s);
      ct := ct + if opening then text else out[..len];
      used := used + len / 16;
      HashedMore(H(), X0(), before, x1, cbuf[..], ct[|before|..], x[..]);
      assert before + ct[|before|..] == ct;
      BlockStartAdd16(first, len);
      PowFour();
      FastPosition(y0[..], first, from, len / 16);
      if NoWrap(from, len / 16) {
        FastSame(enc, y0[..], first, from, text);
      }
    }
  }

  lemma HashedNow(h: Block, x0: Block, ct: Bytes, x: Bytes, cbuf: Bytes)
    requires Hashed(h, x0, ct, 0, x, cbuf)
    ensures x == Store(Ghash(h, x0, ct))
  {
    assert ct[..|ct| - 0] == ct;
  }

  lemma BlockStartAdd16(q: nat, len: nat)
    requires len % 16 == 0
    ensures BlockStart(16, q + len / 16) == BlockStart(16, q) + len
  {}

  lemma FastStream(enc: Cipher, y: Bytes, tmp: Bytes, text: Bytes)
    requires Wide(FastBlocks(enc, y), 16) && |text| % 16 == 0 && |text| <= |tmp|
    requires forall k :: 0 <= k < |text| / 16 ==> Piece(tmp, k) == enc(NextN(y, k + 1))
    ensures XorBytes(text, tmp[..|text|]) == XorStream(FastBlocks(enc, y), 16, 0, text)
  {
    hide XorStream, Piece, Wide, NextN;
    assert BlockStart(16, 0) == 0;
    BlocksAreStream(FastBlocks(enc, y), 0, tmp, text);
  }

  lemma PieceAt(t: Bytes, k: nat)
    requires 16 * k + 16 <= |t|
    ensures Piece(t, k) == t[16 * k..16 * k + 16]
  {}

  lemma Padded(tail: Bytes)
    requires |tail| < 16
    ensures LastBlock(tail) == tail + Zeros(16 - |tail|)
  {}

  lemma ZeroBlock()
    ensures Store(ZERO) == Zeros(16)
  {
    LoadZeros(Zeros(16));
    StoreLoad(Zeros(16));
  }

  lemma Wide16(enc: Cipher, j0: Bytes)
    requires Block16(enc) && |j0| == 16
    ensures Wide(GcmBlocks(enc, j0), 16)
  {
    forall k: nat
      ensures |GcmBlocks(enc, j0)(k)| == 16
    {
      BlockAt(enc, j0, k);
    }
  }

  lemma BlockAt(enc: Cipher, j0: Bytes, k: nat)
    requires |j0| == 16
    ensures GcmBlocks(enc, j0)(k) == enc(Inc32N(j0, k + 1))
  {}

  lemma InputAt(out: array<bv8>, inp: array<bv8>, o: nat, m: nat, text: Bytes, rest: Bytes,
                ks: Blocks, pos: nat)
    requires Streamed(out, inp, o, text, rest, ks, 16, pos) && o + m <= |text|
    ensures inp[o..o + m] == text[o..o + m]
  {
    assert inp[o..o + m] == inp[o..|text|][..m] == text[o..][..m];
  }
}
