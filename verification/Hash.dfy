/** The Merkle-Damgard frame of impl/hash/hash.hh: buffering, the two-word length, padding and the digest. */
module Hash {
  import opened Words
  import opened Arithmetic
  import opened Counter
  import opened Endian

  type State = seq<nat>
  type Compression = (State, Bytes) -> State

  /** The state after the whole blocks of data. */
  function Absorb(f: Compression, s: State, n: nat, data: Bytes): State {
    if n == 0 || |data| < n then s
    else f(Absorb(f, s, n, data[..|data| - n]), data[|data| - n..])
  }

  lemma AbsorbBlock(f: Compression, s: State, n: nat, data: Bytes, b: Bytes)
    requires 0 < n == |b|
    ensures Absorb(f, s, n, data + b) == f(Absorb(f, s, n, data), b)
  {
    assert (data + b)[..|data + b| - n] == data;
    assert (data + b)[|data + b| - n..] == b;
  }

  // ---------------------------------------------------------------- the length

  /** The two words count the bytes hashed modulo 2^(16 w). */
  predicate Counts(m: nat, len0: nat, len1: nat, n: nat)
    requires 0 < m
  {
    len0 == Remainder(n, m) && len1 == Remainder(Quotient(n, m), m)
  }

  /** The carry of Update: one when the low word became smaller. */
  function Carried(m: nat, t: nat, len0: nat, len1: nat): nat
    requires 0 < m
  {
    if len0 < t then (len1 + 1) % m else len1
  }

  lemma CarriedIs(m: nat, a: nat, d: nat, t: nat, len0: nat)
    requires 0 < m && d == if len0 < t then 1 else 0
    ensures Carried(m, t, len0, Remainder(a, m)) == Remainder(a + d, m)
  {
    SumDivMod(a, d, m);
    if d == 0 {
      Division(a % m, 0, a % m, m);
    }
  }

  /** The carry is right exactly for calls shorter than the low word can count. */
  lemma CarryExactly(m: nat, len0: nat, len1: nat, n: nat, len: nat)
    requires 2 < m && Counts(m, len0, len1, n) && len < m * m
    ensures Counts(m, Remainder(len0 + len, m), Carried(m, len0, Remainder(len0 + len, m), len1), n + len)
       <==> len < m
  {
    hide Carried, Quotient, Remainder;
    var s, q, a := Remainder(len0 + len, m), Quotient(len0 + len, m), Quotient(n, m);
    var d := if s < len0 then 1 else 0;
    DivMod(n, m);
    DivMod(len0 + len, m);
    SumQuotient(n, len, m);
    CarriedIs(m, a, d, len0, s);
    QuotientRange(len0, len, m, q, s);
    RemainderMoves(a + d, if q >= d && q - d < m then q - d else 0, m);
  }

  /** With 32-bit length words one call of 2^32 bytes is counted as none at all. */
  lemma LongCall()
    ensures !Counts(Pow256(4), Remainder(0 + 0x1_0000_0000, Pow256(4)),
                    Carried(Pow256(4), 0, Remainder(0 + 0x1_0000_0000, Pow256(4)), 0), 0 + 0x1_0000_0000)
    ensures Remainder(0 + 0x1_0000_0000, Pow256(4)) == 0
  {
    PowFour();
    CarryExactly(Pow256(4), 0, 0, 0, 0x1_0000_0000);
  }

  /** How often a sum of len0 < m and len passes m, and what is left. */
  lemma QuotientRange(len0: nat, len: nat, m: nat, q: nat, s: nat)
    requires 2 < m && len0 < m && len < m * m && len0 + len == m * q + s && s < m
    ensures q <= m
    ensures len < m ==> q == if s < len0 then 1 else 0
    ensures len >= m ==> q >= 1 && (q == 1 ==> s >= len0) && (q == m ==> s < len0)
  {
    MulAtLeast(m, q - m - 1);
    assert m * (q - m - 1) == m * q - m * m - m;
    MulAtLeast(m, q - 1);
    assert m * (q - 1) == m * q - m;
  }

  // ---------------------------------------------------------------- the padding

  /** The zeros between the 0x80 byte and the length field, as Pad writes them: into the block of the last byte if
      the length still fits there, otherwise through the next one. */
  function Fill(noff: nat, blk: nat, field: nat): nat
    requires noff < blk && field < blk
  {
    var trip := blk - field;
    if noff >= trip then blk - (noff + 1) + trip else trip - (noff + 1)
  }

  /** Fill is the least number of zeros that ends a block. */
  lemma FillLeast(n: nat, blk: nat, field: nat, z: nat)
    requires 0 < blk && field < blk
    ensures (n + 1 + Fill(n % blk, blk, field) + field) % blk == 0
    ensures (n + 1 + z + field) % blk == 0 ==> Fill(n % blk, blk, field) <= z
  {
    var r, f := n % blk, Fill(n % blk, blk, field);
    SumDivMod(n, 1 + f + field, blk);
    if r >= blk - field {
      Division(r + (1 + f + field), 2, 0, blk);
    } else {
      Division(r + (1 + f + field), 1, 0, blk);
    }
    if z < f {
      SumDivMod(n, 1 + z + field, blk);
      var v := r + 1 + z + field;
      if v < blk {
        Division(v, 0, v, blk);
      } else {
        Division(v, 1, v - blk, blk);
      }
    }
  }

  function Field(order: Order, w: nat, n: nat): (b: Bytes)
    ensures |b| == 2 * w
  {
    Bytesof(order, 2 * w, Remainder(8 * n, Pow256(w) * Pow256(w)))
  }

  /** The message, 0x80, the zeros, and the bit length modulo 2^(16 w). */
  function Padded(order: Order, w: nat, blk: nat, msg: Bytes): Bytes
    requires 2 * w < blk
  {
    msg + ([0x80] + Zeros(Fill(|msg| % blk, blk, 2 * w)) + Field(order, w, |msg|))
  }

  lemma PowEight()
    ensures Pow256(8) == 0x1_0000_0000_0000_0000
  {
    PowFour();
    assert Pow256(6) == 0x1_0000_0000_0000;
  }

  /** A word shifted left by three, with the three top bits of the word below. */
  function HighBits(m: nat, len0: nat, len1: nat): nat
    requires 8 <= m
  {
    Remainder(len1 * 8, m) + Quotient(len0, m / 8)
  }

  lemma LowBits(m: nat, e: nat, len0: nat, c: nat, r: nat)
    requires m == 8 * e && len0 < m && len0 == e * c + r && r < e
    ensures len0 * 8 % m == 8 * r && c < 8 && len0 * 8 == m * c + 8 * r
  {
    assert len0 * 8 == m * c + 8 * r by { assert 8 * (e * c) == m * c; }
    Division(len0 * 8, c, 8 * r, m);
    MulAtLeast(e, c - 7);
    assert e * (c - 7) == e * c - e * 7;
  }

  lemma MultipleOfEight(m: nat, e: nat, len1: nat, g: nat, h: nat)
    requires m == 8 * e && len1 * 8 == m * g + h && h < m
    ensures h <= m - 8
  {
    assert m * g == 8 * (e * g);
  }

  lemma ExpandBits(m: nat, b: nat, len1: nat, len0: nat)
    ensures 8 * (m * (m * b + len1) + len0) == m * (8 * (m * b) + len1 * 8) + len0 * 8
  {}

  lemma CollectBits(m: nat, b: nat, c: nat, lo: nat, g: nat, h: nat)
    ensures m * (8 * (m * b) + (m * g + h)) + (m * c + lo) == (8 * b + g) * (m * m) + ((h + c) * m + lo)
  {}

  lemma BelowSquare(m: nat, k: nat, lo: nat)
    requires k < m && lo < m
    ensures k * m + lo < m * m
  {
    MulAtLeast(m, m - k);
    assert m * (m - k) == m * m - k * m;
  }

  lemma BitLengthOf(m: nat, n: nat, a: nat, b: nat, len1: nat, len0: nat, c: nat, lo: nat, g: nat, h: nat)
    requires 8 <= m && n == m * a + len0 && a == m * b + len1
    requires len0 * 8 == m * c + lo && lo < m && len1 * 8 == m * g + h && h + c < m
    ensures 8 * n % (m * m) == (h + c) * m + lo
  {
    BelowSquare(m, h + c, lo);
    ExpandBits(m, b, len1, len0);
    CollectBits(m, b, c, lo, g, h);
    Division(8 * n, 8 * b + g, (h + c) * m + lo, m * m);
  }

  lemma ShiftedLength(m: nat, e: nat, n: nat, a: nat, b: nat, len1: nat, len0: nat, c: nat, r: nat, g: nat, h: nat)
    requires 0 < e && m == 8 * e && n == m * a + len0 && a == m * b + len1 && len0 < m
    requires len0 == e * c + r && r < e && len1 * 8 == m * g + h && h < m
    ensures Remainder(8 * n, m * m) == (h + c) * m + Remainder(len0 * 8, m) && h + c < m
  {
    LowBits(m, e, len0, c, r);
    MultipleOfEight(m, e, len1, g, h);
    BitLengthOf(m, n, a, b, len1, len0, c, 8 * r, g, h);
  }

  lemma LengthWords(m: nat, e: nat, n: nat, len0: nat, len1: nat)
    requires 0 < e && m == 8 * e && len0 == Remainder(n, m) && len1 == Remainder(Quotient(n, m), m)
    ensures Remainder(8 * n, m * m)
         == (Remainder(len1 * 8, m) + Quotient(len0, e)) * m + Remainder(len0 * 8, m)
    ensures Remainder(len1 * 8, m) + Quotient(len0, e) < m
  {
    hide Quotient, Remainder;
    var a := Quotient(n, m);
    DivMod(n, m);
    DivMod(a, m);
    DivMod(len0, e);
    DivMod(len1 * 8, m);
    ShiftedLength(m, e, n, a, Quotient(a, m), len1, len0, Quotient(len0, e), Remainder(len0, e),
                  Quotient(len1 * 8, m), Remainder(len1 * 8, m));
  }

  /** The two shifted words are the bit length. */
  lemma BitLength(m: nat, n: nat, len0: nat, len1: nat)
    requires 8 <= m && m % 8 == 0 && Counts(m, len0, len1, n)
    ensures HighBits(m, len0, len1) * m + Remainder(len0 * 8, m) == Remainder(8 * n, m * m)
    ensures HighBits(m, len0, len1) < m
  {
    LengthWords(m, m / 8, n, len0, len1);
  }

  // ---------------------------------------------------------------- the class

  /** The whole blocks of msg are in the state, what is left of it is in the buffer. */
  ghost predicate Buffered(f: Compression, iv: State, blk: nat, msg: Bytes, blocks: nat, hash: State, buf: Bytes) {
    && 0 < blk == |buf|
    && Span(blk, blocks) <= |msg| < Span(blk, blocks) + blk
    && hash == Absorb(f, iv, blk, msg[..Span(blk, blocks)])
    && buf[..|msg| - Span(blk, blocks)] == msg[Span(blk, blocks)..]
  }

  lemma BufferedPart(f: Compression, iv: State, blk: nat, msg: Bytes, blocks: nat, hash: State, buf: Bytes,
                     off: nat, d: Bytes, next: Bytes)
    requires Buffered(f, iv, blk, msg, blocks, hash, buf) && off == |msg| - Span(blk, blocks) && off + |d| < blk
    requires |next| == blk && next[..off] == buf[..off] && next[off..off + |d|] == d
    ensures Buffered(f, iv, blk, msg + d, blocks, hash, next)
  {
    hide Span, Absorb;
    var m := Span(blk, blocks);
    assert (msg + d)[..m] == msg[..m] && (msg + d)[m..] == msg[m..] + d;
    assert next[..off + |d|] == next[..off] + next[off..off + |d|];
  }

  lemma BufferedFull(f: Compression, iv: State, blk: nat, msg: Bytes, blocks: nat, hash: State, buf: Bytes,
                     off: nat, d: Bytes, next: Bytes)
    requires Buffered(f, iv, blk, msg, blocks, hash, buf) && off == |msg| - Span(blk, blocks) && off + |d| == blk
    requires |next| == blk
    ensures Buffered(f, iv, blk, msg + d, blocks + 1, f(hash, buf[..off] + d), next)
    ensures Span(blk, blocks + 1) == |msg + d|
  {
    hide Span, Absorb;
    var m := Span(blk, blocks);
    SpanStep(blk, blocks + 1, 0);
    AbsorbBlock(f, iv, blk, msg[..m], buf[..off] + d);
    assert msg + d == msg[..m] + (buf[..off] + d);
    assert (msg + d)[..m + blk] == msg + d;
  }

  class Hash {
    const w: nat
    const blk: nat
    const order: Order
    const host: Order
    const f: Compression
    const iv: State
    const buf: array<bv8>
    var len0: nat
    var len1: nat
    var hash: State
    ghost var msg: Bytes
    ghost var blocks: nat

    /** An instance of the template: T is four or eight bytes, and BlkSize has room for the length and one byte more
        and divides the range of T. */
    ghost predicate Ready() {
      && (w == 4 || w == 8) && buf.Length == blk && 2 * w < blk && Pow256(w) % blk == 0
    }

    /** What does not depend on the carry into the high length word. */
    ghost predicate Hashing()
      reads this, buf
    {
      && Ready() && len0 == Remainder(|msg|, Pow256(w))
      && Buffered(f, iv, blk, msg, blocks, hash, buf[..])
    }

    ghost predicate Valid()
      reads this, buf
    {
      Hashing() && Counts(Pow256(w), len0, len1, |msg|)
    }

    constructor (w: nat, blk: nat, order: Order, host: Order, f: Compression, iv: State)
      requires (w == 4 || w == 8) && 2 * w < blk && Pow256(w) % blk == 0
      ensures Valid() && fresh(buf) && msg == []
      ensures this.w == w && this.blk == blk && this.order == order && this.host == host
      ensures this.f == f && this.iv == iv
    {
      this.w := w;
      this.blk := blk;
      this.order := order;
      this.host := host;
      this.f := f;
      this.iv := iv;
      buf := new bv8[blk](i => 0);
      len0, len1, hash := 0, 0, iv;
      msg, blocks := [], 0;
    }

    /** Reset and Initialize. */
    method Reset()
      requires Ready()
      modifies this, buf
      ensures Valid() && msg == []
    {
      CopyInto(buf, Zeros(blk));
      len0, len1, hash := 0, 0, iv;
      msg, blocks := [], 0;
    }

    /** The position in the buffer, as the code computes it from the low length word. */
    lemma Offset()
      requires Hashing()
      ensures len0 % blk == |msg| - Span(blk, blocks) == |msg| % blk
    {
      ModMod(|msg|, Pow256(w), blk);
      Division(|msg|, blocks, |msg| - Span(blk, blocks), blk);
    }

    /** The two length words of Update. */
    method AddLength(len: nat)
      requires Ready()
      modifies this`len0, this`len1
      ensures len0 == Remainder(old(len0) + len, Pow256(w))
      ensures len1 == Carried(Pow256(w), old(len0), len0, old(len1))
    {
      var t := len0;
      len0 := (len0 + len) % Pow256(w);
      if len0 < t {
        len1 := (len1 + 1) % Pow256(w);
      }
    }

    /** The first part of Update: the bytes that complete the buffered block, or all of them if they do not. */
    method FillBuffer(data: Bytes, off: nat) returns (i: nat)
      requires Ready() && Buffered(f, iv, blk, msg, blocks, hash, buf[..])
      requires 0 < off == |msg| - Span(blk, blocks)
      modifies this`hash, this`msg, this`blocks, buf
      ensures i <= |data| && Buffered(f, iv, blk, msg, blocks, hash, buf[..]) && msg == old(msg) + data[..i]
      ensures i == |data| || |msg| == Span(blk, blocks)
    {
      assert off < blk;
      hide Buffered, Absorb, Span;
      i := if blk - off < |data| then blk - off else |data|;
      ghost var b, h, d := buf[..], hash, data[..i];
      StoreAt(buf, off, data[..i]);
      assert buf[..off] == b[..off];
      if i + off == blk {
        assert buf[..] == b[..off] + d;
        hash := f(hash, buf[..]);
        BufferedFull(f, iv, blk, msg, blocks, h, b, off, d, buf[..]);
        blocks := blocks + 1;
      } else {
        BufferedPart(f, iv, blk, msg, blocks, h, b, off, d, buf[..]);
      }
      msg := msg + d;
    }

    /** Transform on a block of the caller's data. */
    method TransformBlock(d: Bytes)
      requires Ready() && Buffered(f, iv, blk, msg, blocks, hash, buf[..])
      requires |msg| == Span(blk, blocks) && |d| == blk
      modifies this`hash, this`msg, this`blocks
      ensures Buffered(f, iv, blk, msg, blocks, hash, buf[..]) && msg == old(msg) + d && |msg| == Span(blk, blocks)
    {
      hide *;
      Positive();
      assert buf[..0] + d == d;
      BufferedFull(f, iv, blk, msg, blocks, hash, buf[..], 0, d, buf[..]);
      hash := f(hash, d);
      blocks := blocks + 1;
      msg := msg + d;
    }

    lemma Positive()
      requires Ready()
      ensures 0 < blk == buf.Length
    {}

    /** The rest of Update: whole blocks straight from the data, then what is left into the buffer. */
    method WholeBlocks(data: Bytes, from: nat)
      requires Ready() && Buffered(f, iv, blk, msg, blocks, hash, buf[..])
      requires from <= |data| && (from == |data| || |msg| == Span(blk, blocks))
      modifies this`hash, this`msg, this`blocks, buf
      ensures Buffered(f, iv, blk, msg, blocks, hash, buf[..]) && msg == old(msg) + data[from..]
    {
      hide *;
      Positive();
      var p := from;
      while |data| - p >= blk
        invariant from <= p <= |data| && (p == |data| || |msg| == Span(blk, blocks))
        invariant Buffered(f, iv, blk, msg, blocks, hash, buf[..]) && msg == old(msg) + data[from..p]
      {
        var d := data[p..p + blk];
        assert data[from..p + blk] == data[from..p] + d;
        TransformBlock(d);
        p := p + blk;
      }
      KeepTail(data, p);
      assert data[from..] == data[from..p] + data[p..];
    }

    /** The last memcpy of Update. */
    method KeepTail(data: Bytes, p: nat)
      requires Ready() && Buffered(f, iv, blk, msg, blocks, hash, buf[..])
      requires p <= |data| < p + blk && (p == |data| || |msg| == Span(blk, blocks))
      modifies this`msg, buf
      ensures Buffered(f, iv, blk, msg, blocks, hash, buf[..]) && msg == old(msg) + data[p..]
    {
      hide Buffered, Absorb, Span;
      ghost var b, d := buf[..], data[p..];
      StoreAt(buf, 0, data[p..]);
      if p < |data| {
        BufferedPart(f, iv, blk, msg, blocks, hash, b, 0, d, buf[..]);
      } else {
        assert buf[..] == b && msg + d == msg;
      }
      msg := msg + d;
    }

    lemma LengthStep(n: nat, len: nat)
      requires Ready() && Counts(Pow256(w), len0, len1, n)
      requires len < 0x1_0000_0000_0000_0000
      ensures var low := Remainder(len0 + len, Pow256(w));
              Counts(Pow256(w), low, Carried(Pow256(w), len0, low, len1), n + len) <==> len < Pow256(w)
    {
      PowFour();
      PowEight();
      CarryExactly(Pow256(w), len0, len1, n, len);
    }

    lemma LowStep(n: nat, len: nat)
      requires Ready() && len0 == Remainder(n, Pow256(w))
      ensures Remainder(len0 + len, Pow256(w)) == Remainder(n + len, Pow256(w))
    {
      SumQuotient(n, len, Pow256(w));
    }

    /** Update, for any length that a size_t can hold. The high length word stays right exactly for calls that the low
        word can count; the state and the buffer are right in any case. */
    method Update(data: Bytes)
      requires Hashing() && |data| < 0x1_0000_0000_0000_0000
      modifies this`len0, this`len1, this`hash, this`msg, this`blocks, buf
      ensures Hashing() && msg == old(msg) + data
      ensures old(Valid()) ==> (Valid() <==> |data| < Pow256(w))
    {
      hide Remainder, Quotient, Buffered, Absorb, Span, Counts;
      var off := len0 % blk;
      Offset();
      LowStep(|msg|, |data|);
      if Valid() {
        LengthStep(|msg|, |data|);
      }
      AddLength(|data|);
      var p := 0;
      if off != 0 {
        p := FillBuffer(data, off);
      }
      WholeBlocks(data, p);
      assert data == data[..p] + data[p..];
    }

    /** UpdateFast, called at a block boundary with whole blocks: the same, without the buffer. */
    method UpdateFast(data: Bytes)
      requires Hashing() && |msg| % blk == 0 && |data| % blk == 0 && |data| < 0x1_0000_0000_0000_0000
      modifies this`len0, this`len1, this`hash, this`msg, this`blocks
      ensures Hashing() && msg == old(msg) + data
      ensures old(Valid()) ==> (Valid() <==> |data| < Pow256(w))
    {
      Offset();
      hide Remainder, Quotient, Buffered, Absorb, Span, Counts;
      LowStep(|msg|, |data|);
      if Valid() {
        LengthStep(|msg|, |data|);
      }
      AddLength(|data|);
      WholeData(data);
    }

    lemma WholeBlocksOf(data: Bytes, n: nat)
      requires Ready() && |data| % blk == 0 && n == |data| / blk
      ensures |data| == Span(blk, n) && 0 == Span(blk, 0) && 0 < blk
    {}

    /** The loop of UpdateFast. */
    method WholeData(data: Bytes)
      requires Ready() && Buffered(f, iv, blk, msg, blocks, hash, buf[..]) && |msg| == Span(blk, blocks)
      requires |data| % blk == 0
      modifies this`hash, this`msg, this`blocks
      ensures Buffered(f, iv, blk, msg, blocks, hash, buf[..]) && msg == old(msg) + data
    {
      hide *;
      Positive();
      var n := |data| / blk;
      WholeBlocksOf(data, n);
      var p := 0;
      for i := 0 to n
        invariant p == Span(blk, i) <= |data| && |msg| == Span(blk, blocks)
        invariant Buffered(f, iv, blk, msg, blocks, hash, buf[..]) && msg == old(msg) + data[..p]
      {
        SpanStep(blk, n, i);
        SpanStep(blk, i + 1, i);
        var d := data[p..p + blk];
        assert data[..p + blk] == data[..p] + d;
        TransformBlock(d);
        p := p + blk;
      }
      assert data[..p] == data;
    }

    /** The last bytes of the block: the two length words, converted to bits and to the byte order of the hash. */
    method StoreLength()
      requires Ready() && Counts(Pow256(w), len0, len1, |msg|)
      modifies buf
      ensures buf[..blk - 2 * w] == old(buf[..blk - 2 * w]) && buf[blk - 2 * w..] == Field(order, w, |msg|)
    {
      hide *;
      Widths();
      var m := Pow256(w);
      BitLength(m, |msg|, len0, len1);
      var hi, lo := HighBits(m, len0, len1), Remainder(len0 * 8, m);
      DivMod(len0 * 8, m);
      DoubleWord(host, w, hi, lo);
      var words := if host.Big? then [hi, lo] else [lo, hi];
      var v := hi * m + lo;
      OneWord(order, 2 * w, v);
      FieldIs(v);
      CopyOut(buf, blk - 2 * w, host, order, Memory(host, w, words), 2 * w, 2 * w, [v]);
      assert buf[blk - 2 * w..] == buf[blk - 2 * w..(blk - 2 * w) + 2 * w];
      assert Bytesof(order, 2 * w, v)[..2 * w] == Bytesof(order, 2 * w, v);
    }

    lemma Widths()
      requires Ready()
      ensures 0 < w && 2 * w < blk == buf.Length && 8 <= Pow256(w) && Pow256(w) % 8 == 0
      ensures forall host: Order, words: seq<nat> :: |words| == 2 ==> |Memory(host, w, words)| == 2 * w
    {
      PowFour();
      PowEight();
      hide Memory;
    }

    lemma FieldIs(v: nat)
      requires Ready() && v == Remainder(8 * |msg|, Pow256(w) * Pow256(w))
      ensures Field(order, w, |msg|) == Bytesof(order, 2 * w, v)
    {}

    /** Pad: the message in the state becomes the padded message. */
    method Pad()
      requires Valid()
      modifies this`hash, buf
      ensures hash == Absorb(f, iv, blk, Padded(order, w, blk, msg))
    {
      Offset();
      var noff := len0 % blk;
      ghost var front, tail := msg[..|msg| - noff], msg[|msg| - noff..];
      assert hash == Absorb(f, iv, blk, front) && buf[..noff] == tail && noff == |tail| == |msg| % blk;
      assert front + tail == msg;
      hide Absorb, Padded, Field, Fill, Buffered, Span, Counts, Remainder;
      buf[noff] := 0x80;
      assert buf[..noff] == tail;
      assert buf[..noff + 1] == tail + [0x80];
      if noff >= blk - 2 * w {
        PadLong(noff, front, tail);
      } else {
        PadShort(noff, front, tail);
      }
    }

    /** The length still fits into the block. */
    method PadShort(noff: nat, ghost front: Bytes, ghost tail: Bytes)
      requires Ready() && Counts(Pow256(w), len0, len1, |msg|) && front + tail == msg && |tail| == noff == |msg| % blk
      requires noff < blk - 2 * w && buf[..noff + 1] == tail + [0x80] && hash == Absorb(f, iv, blk, front)
      modifies this`hash, buf
      ensures hash == Absorb(f, iv, blk, Padded(order, w, blk, msg))
    {
      var off, trip := noff + 1, blk - 2 * w;
      assert buf.Length == blk;
      ghost var b := buf[..off];
      hide *;
      StoreAt(buf, off, Zeros(trip - off));
      assert buf[..off] == b;
      ghost var z := buf[..trip];
      assert z == b + Zeros(trip - off) by { assert z == buf[..off] + buf[off..off + (trip - off)]; }
      StoreLength();
      assert buf[..] == buf[..trip] + buf[trip..];
      PadOne(f, iv, order, w, blk, front, tail, buf[..]);
      hash := f(hash, buf[..]);
    }

    /** The length needs one more block. */
    method PadLong(noff: nat, ghost front: Bytes, ghost tail: Bytes)
      requires Ready() && Counts(Pow256(w), len0, len1, |msg|) && front + tail == msg && |tail| == noff == |msg| % blk
      requires noff >= blk - 2 * w && noff < blk && buf[..noff + 1] == tail + [0x80]
      requires hash == Absorb(f, iv, blk, front)
      modifies this`hash, buf
      ensures hash == Absorb(f, iv, blk, Padded(order, w, blk, msg))
    {
      var off, trip := noff + 1, blk - 2 * w;
      assert buf.Length == blk && 0 < trip;
      hide *;
      ghost var a := buf[..off];
      StoreAt(buf, off, Zeros(blk - off));
      assert buf[..off] == a;
      ghost var b := buf[..];
      assert b == buf[..off] + buf[off..off + (blk - off)];
      hash := f(hash, buf[..]);
      StoreAt(buf, 0, Zeros(trip));
      ghost var z := buf[..trip];
      assert z == buf[0..0 + trip];
      StoreLength();
      assert buf[..] == buf[..trip] + buf[trip..];
      PadTwo(f, iv, order, w, blk, front, tail, b, buf[..]);
      hash := f(hash, buf[..]);
    }

    /** GetDigest: len bytes of the state words in the byte order of the hash, after padding unless nopad is set. */
    method GetDigest(digest: array<bv8>, len: nat, nopad: bool)
      requires Valid() && digest != buf && len <= digest.Length
      requires forall s: State, b: Bytes :: |b| == blk ==> |f(s, b)| == |s|
      requires len <= w * |iv|
      modifies this`hash, buf, digest
      ensures nopad ==> hash == old(hash)
      ensures !nopad ==> hash == Absorb(f, iv, blk, Padded(order, w, blk, msg))
      ensures len <= |Memory(order, w, hash)| && digest[..len] == Memory(order, w, hash)[..len]
      ensures digest[len..] == old(digest[len..])
    {
      if !nopad {
        Pad();
        AbsorbSize(f, iv, blk, Padded(order, w, blk, msg));
      } else {
        AbsorbSize(f, iv, blk, msg[..Span(blk, blocks)]);
      }
      CopyOut(digest, 0, host, order, Memory(host, w, hash), len, w, hash);
    }
  }

  lemma OneWord(order: Order, w: nat, v: nat)
    ensures Memory(order, w, [v]) == Bytesof(order, w, v)
  {
    assert [v][..0] == [];
  }

  lemma Regrouped(x: Bytes, y: Bytes, a: Bytes, z: Bytes, c: Bytes)
    ensures (x + y) + (a + z + c) == x + (y + a + z + c)
  {}

  lemma RegroupedTwice(x: Bytes, y: Bytes, a: Bytes, z: Bytes, u: Bytes, c: Bytes)
    ensures (x + y) + (a + (z + u) + c) == (x + (y + a + z)) + (u + c)
  {}

  /** Room for the length in the block of the last byte. */
  lemma PadOne(f: Compression, iv: State, order: Order, w: nat, blk: nat, front: Bytes, tail: Bytes, b: Bytes)
    requires 2 * w < blk && |tail| == |front + tail| % blk && |tail| < blk - 2 * w && |b| == blk
    requires b == tail + [0x80] + Zeros(blk - 2 * w - (|tail| + 1)) + Field(order, w, |front + tail|)
    ensures Absorb(f, iv, blk, Padded(order, w, blk, front + tail)) == f(Absorb(f, iv, blk, front), b)
  {
    var z, c := Zeros(blk - 2 * w - (|tail| + 1)), Field(order, w, |front + tail|);
    assert Padded(order, w, blk, front + tail) == (front + tail) + ([0x80] + z + c);
    hide *;
    Regrouped(front, tail, [0x80], z, c);
    AbsorbBlock(f, iv, blk, front, b);
  }

  /** No room: the zeros go on through one more block. */
  lemma PadTwo(f: Compression, iv: State, order: Order, w: nat, blk: nat, front: Bytes, tail: Bytes, b: Bytes, c: Bytes)
    requires 2 * w < blk && |tail| == |front + tail| % blk && |tail| >= blk - 2 * w && |b| == |c| == blk
    requires b == tail + [0x80] + Zeros(blk - (|tail| + 1))
    requires c == Zeros(blk - 2 * w) + Field(order, w, |front + tail|)
    ensures Absorb(f, iv, blk, Padded(order, w, blk, front + tail)) == f(f(Absorb(f, iv, blk, front), b), c)
  {
    var z, u, l := Zeros(blk - (|tail| + 1)), Zeros(blk - 2 * w), Field(order, w, |front + tail|);
    assert Zeros(Fill(|tail|, blk, 2 * w)) == z + u;
    assert Padded(order, w, blk, front + tail) == (front + tail) + ([0x80] + (z + u) + l);
    hide *;
    RegroupedTwice(front, tail, [0x80], z, u, l);
    AbsorbBlock(f, iv, blk, front, b);
    AbsorbBlock(f, iv, blk, front + b, c);
  }

  lemma {:induction false} AbsorbSize(f: Compression, s: State, n: nat, data: Bytes)
    requires forall s: State, b: Bytes :: |b| == n ==> |f(s, b)| == |s|
    ensures |Absorb(f, s, n, data)| == |s|
  {
    if 0 < n <= |data| {
      AbsorbSize(f, s, n, data[..|data| - n]);
    }
  }
}
