/** Byte order (include/util.hh): numbers as bytes, and the copies that convert between host and wire order. */
module Endian {
  import opened Words
  import opened Arithmetic
  import opened Counter

  datatype Order = Big | Little

  function ToByte(v: nat): bv8 { (v % 256) as bv8 }

  lemma ToByteOf(v: nat)
    ensures ByteValue(ToByte(v)) == v % 256
  {
    SmallByte(v % 256);
  }

  lemma SmallByte(r: nat)
    requires r < 256
    ensures r as bv8 as nat == r
  {
    if r < 128 {
      if r < 64 {
        if r < 32 {
          if r < 16 {
          } else {
          }
        } else {
          if r < 48 {
          } else {
          }
        }
      } else {
        if r < 96 {
          if r < 80 {
          } else {
          }
        } else {
          if r < 112 {
          } else {
          }
        }
      }
    } else {
      if r < 192 {
        if r < 160 {
          if r < 144 {
          } else {
          }
        } else {
          if r < 176 {
          } else {
          }
        }
      } else {
        if r < 224 {
          if r < 208 {
          } else {
          }
        } else {
          if r < 240 {
          } else {
          }
        }
      }
    }
  }

  lemma ByteBack(z: bv8, v: nat)
    ensures ToByte(256 * v + ByteValue(z)) == z
  {
    assert (256 * v + z as nat) % 256 == z as nat;
  }

  /** The low n bytes of v, most significant first. */
  function BigBytes(n: nat, v: nat): (b: Bytes)
    ensures |b| == n
  {
    if n == 0 then [] else BigBytes(n - 1, v / 256) + [ToByte(v)]
  }

  /** The low n bytes of v, least significant first. */
  function LittleBytes(n: nat, v: nat): (b: Bytes)
    ensures |b| == n
  {
    if n == 0 then [] else [ToByte(v)] + LittleBytes(n - 1, v / 256)
  }

  function Bytesof(order: Order, n: nat, v: nat): (b: Bytes)
    ensures |b| == n
  {
    if order.Big? then BigBytes(n, v) else LittleBytes(n, v)
  }

  /** BigBytes writes the number that Value reads. */
  lemma {:induction false} ValueOfBytes(n: nat, v: nat)
    requires v < Pow256(n)
    ensures Value(BigBytes(n, v)) == v
  {
    hide ToByte, ByteValue;
    if n > 0 {
      ValueOfBytes(n - 1, v / 256);
      ToByteOf(v);
      assert (BigBytes(n - 1, v / 256) + [ToByte(v)])[..n - 1] == BigBytes(n - 1, v / 256);
    }
  }

  /** The bytes of one order are those of the other backwards. */
  lemma {:induction false} Backwards(n: nat, v: nat, k: nat)
    requires k < n
    ensures BigBytes(n, v)[k] == LittleBytes(n, v)[n - 1 - k]
  {
    hide ToByte;
    if k < n - 1 {
      Backwards(n - 1, v / 256, k);
    }
  }

  function Span(w: nat, n: nat): nat { w * n }

  lemma SpanStep(w: nat, n: nat, q: nat)
    requires n > 0
    ensures Span(w, n) == Span(w, n - 1) + w
    ensures q < n ==> Span(w, q) + w <= Span(w, n)
  {
    assert w * n == w * (n - 1) + w;
    if q < n {
      assert w * n == w * q + w * (n - q);
      assert w * (n - q) == w + w * (n - q - 1);
    }
  }

  /** An array of words in the host's memory. */
  function Memory(host: Order, w: nat, words: seq<nat>): (b: Bytes)
    ensures |b| == Span(w, |words|)
  {
    if words == [] then []
    else
      assert Span(w, |words|) == Span(w, |words| - 1) + w;
      Memory(host, w, words[..|words| - 1]) + Bytesof(host, w, words[|words| - 1])
  }

  /** Every whole chunk of sz bytes backwards. */
  predicate Swapped(src: Bytes, dest: Bytes, sz: nat, len: nat)
    requires 0 < sz && len <= |dest|
  {
    forall k :: 0 <= k < len ==> SourceOf(k, sz) < |src| && dest[k] == src[SourceOf(k, sz)]
  }

  function SourceOf(k: nat, sz: nat): nat
    requires 0 < sz
  {
    k / sz * sz + (sz - 1 - k % sz)
  }

  /** CopyBackwards: sz bytes at a time, each chunk reversed; the last one may be cut short by len. */
  method CopyBackwards(dest: array<bv8>, o: nat, src: Bytes, len: nat, sz: nat)
    requires 0 < sz && o + len <= dest.Length
    requires forall k :: 0 <= k < len ==> SourceOf(k, sz) < |src|
    modifies dest
    ensures Swapped(src, dest[o..], sz, len)
    ensures dest[..o] == old(dest[..o]) && dest[o + len..] == old(dest[o + len..])
  {
    hide SourceOf, Span;
    SpanZero(sz);
    var i, q := 0, 0;
    while i < len
      invariant i <= len && (i == len || i == Span(sz, q))
      invariant forall k :: 0 <= k < i ==> dest[o + k] == src[SourceOf(k, sz)]
      invariant dest[..o] == old(dest[..o]) && dest[o + len..] == old(dest[o + len..])
    {
      var blk := i;
      var j := 0;
      SpanStep(sz, q + 1, q);
      while i < len && j < sz
        invariant j <= sz && i == blk + j <= len
        invariant forall k :: 0 <= k < i ==> dest[o + k] == src[SourceOf(k, sz)]
        invariant dest[..o] == old(dest[..o]) && dest[o + len..] == old(dest[o + len..])
      {
        InChunk(i, q, j, sz);
        dest[o + (blk + j)] := src[blk + (sz - j - 1)];
        j := j + 1;
        i := i + 1;
      }
      q := q + 1;
    }
    assert forall k :: 0 <= k < len ==> dest[o..][k] == dest[o + k];
  }

  lemma SpanZero(w: nat)
    ensures Span(w, 0) == 0
  {}

  lemma InChunk(i: nat, q: nat, j: nat, sz: nat)
    requires j < sz && i == Span(sz, q) + j
    ensures SourceOf(i, sz) == Span(sz, q) + (sz - j - 1)
  {
    Division(i, q, j, sz);
  }

  lemma {:induction false} MemoryAt(host: Order, w: nat, words: seq<nat>, q: nat, r: nat)
    requires q < |words| && r < w
    ensures Span(w, q) + r < |Memory(host, w, words)|
    ensures Memory(host, w, words)[Span(w, q) + r] == Bytesof(host, w, words[q])[r]
  {
    hide Bytesof, Span;
    var m := |words| - 1;
    SpanStep(w, |words|, q);
    if q < m {
      SpanStep(w, m, q);
      MemoryAt(host, w, words[..m], q, r);
    }
  }

  lemma BytesBackwards(host: Order, order: Order, w: nat, v: nat, r: nat)
    requires r < w && host != order
    ensures Bytesof(host, w, v)[w - 1 - r] == Bytesof(order, w, v)[r]
  {
    hide BigBytes, LittleBytes;
    Backwards(w, v, r);
    Backwards(w, v, w - 1 - r);
  }

  /** Chunks the size of a word, backwards: the same words in the other order. */
  lemma SwappedMemory(host: Order, order: Order, w: nat, words: seq<nat>, dest: Bytes, len: nat)
    requires 0 < w && host != order && len <= |dest| && len <= w * |words|
    requires Swapped(Memory(host, w, words), dest, w, len)
    ensures dest[..len] == Memory(order, w, words)[..len]
  {
    hide Memory, Bytesof;
    forall k | 0 <= k < len
      ensures dest[k] == Memory(order, w, words)[k]
    {
      SwappedAt(host, order, w, words, k);
    }
  }

  lemma SwappedAt(host: Order, order: Order, w: nat, words: seq<nat>, k: nat)
    requires 0 < w && host != order && k < w * |words|
    ensures SourceOf(k, w) < |Memory(host, w, words)|
    ensures Memory(host, w, words)[SourceOf(k, w)] == Memory(order, w, words)[k]
  {
    hide Memory, Bytesof;
    var q, r := k / w, k % w;
    assert k == Span(w, q) + r;
    QuotientBelow(k, w, |words|);
    MemoryAt(host, w, words, q, w - 1 - r);
    MemoryAt(order, w, words, q, r);
    BytesBackwards(host, order, w, words[q], r);
  }

  /** E::Copy and E::CopyCarefully from memory, sz bytes at a time: a plain copy when the orders agree. */
  method CopyOut(dest: array<bv8>, o: nat, host: Order, order: Order, src: Bytes, len: nat, sz: nat,
                 ghost words: seq<nat>)
    requires 0 < sz && o + len <= dest.Length && len <= |src| && src == Memory(host, sz, words)
    modifies dest
    ensures len <= |Memory(order, sz, words)| && dest[o..o + len] == Memory(order, sz, words)[..len]
    ensures dest[..o] == old(dest[..o]) && dest[o + len..] == old(dest[o + len..])
  {
    assert len <= sz * |words|;
    hide Memory, Swapped, SourceOf;
    ghost var was := dest[..];
    if host == order {
      StoreAt(dest, o, src[..len]);
      assert dest[..o] == was[..o] && dest[o + len..] == was[o + len..];
    } else {
      forall k | 0 <= k < len
        ensures SourceOf(k, sz) < |src|
      {
        SwappedAt(host, order, sz, words, k);
      }
      CopyBackwards(dest, o, src, len, sz);
      SwappedMemory(host, order, sz, words, dest[o..], len);
      assert dest[o..o + len] == dest[o..][..len];
    }
  }

  // ---------------------------------------------------------------- double words

  /** One byte off both sides of hi 256^n + lo. */
  lemma SplitStep(n: nat, hi: nat, lo: nat)
    requires 0 < n && lo < Pow256(n)
    ensures lo / 256 < Pow256(n - 1)
    ensures (hi * Pow256(n) + lo) / 256 == hi * Pow256(n - 1) + lo / 256
    ensures ToByte(hi * Pow256(n) + lo) == ToByte(lo)
  {
    hide ToByte;
    var p := hi * Pow256(n - 1);
    assert hi * Pow256(n) == 256 * p;
    assert (256 * p + lo) / 256 == p + lo / 256;
    ToByteLow(p, lo);
  }

  lemma NoBytes(hi: nat, lo: nat)
    requires lo < Pow256(0)
    ensures hi * Pow256(0) + lo == hi
  {}

  lemma {:induction false} BigSplit(m: nat, n: nat, hi: nat, lo: nat)
    requires lo < Pow256(n)
    ensures BigBytes(m + n, hi * Pow256(n) + lo) == BigBytes(m, hi) + BigBytes(n, lo)
  {
    hide ToByte, Pow256;
    if n == 0 {
      NoBytes(hi, lo);
    } else {
      SplitStep(n, hi, lo);
      BigSplit(m, n - 1, hi, lo / 256);
      assert BigBytes(m + n, hi * Pow256(n) + lo)
          == BigBytes(m + (n - 1), hi * Pow256(n - 1) + lo / 256) + [ToByte(lo)];
    }
  }

  lemma {:induction false} LittleSplit(m: nat, n: nat, hi: nat, lo: nat)
    requires lo < Pow256(n)
    ensures LittleBytes(m + n, hi * Pow256(n) + lo) == LittleBytes(n, lo) + LittleBytes(m, hi)
  {
    hide ToByte, Pow256;
    if n == 0 {
      NoBytes(hi, lo);
    } else {
      SplitStep(n, hi, lo);
      LittleSplit(m, n - 1, hi, lo / 256);
      assert LittleBytes(m + n, hi * Pow256(n) + lo)
          == [ToByte(lo)] + LittleBytes(m + (n - 1), hi * Pow256(n - 1) + lo / 256);
    }
  }

  lemma ToByteLow(p: nat, lo: nat)
    ensures ToByte(256 * p + lo) == ToByte(lo)
  {
    assert (256 * p + lo) % 256 == lo % 256;
  }

  /** Two words in memory, placed by the host's order, are one word of twice the size. */
  lemma DoubleWord(host: Order, w: nat, hi: nat, lo: nat)
    requires lo < Pow256(w)
    ensures Memory(host, w, if host.Big? then [hi, lo] else [lo, hi])
         == Memory(host, 2 * w, [hi * Pow256(w) + lo])
  {
    hide BigBytes, LittleBytes;
    BigSplit(w, w, hi, lo);
    LittleSplit(w, w, hi, lo);
    var v := hi * Pow256(w) + lo;
    var a, b := if host.Big? then hi else lo, if host.Big? then lo else hi;
    assert [a, b][..1] == [a] && [a][..0] == [] && [v][..0] == [];
    assert Memory(host, w, [a]) == Bytesof(host, w, a);
    assert Memory(host, w, [a, b]) == Bytesof(host, w, a) + Bytesof(host, w, b);
    assert Memory(host, 2 * w, [v]) == Bytesof(host, 2 * w, v);
  }
}
