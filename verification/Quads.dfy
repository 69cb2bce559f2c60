/** Blocks of four little-endian words (include/util.hh). */
module Quads {
  import opened Bits
  import opened Counter
  import Words

  type Bytes = Words.Bytes

  /** The four words of a block. */
  datatype Quad = Quad(a: Word, b: Word, c: Word, d: Word)

  /** E::Convert: a little-endian word. */
  function LoadLe(b: Bytes, o: nat): Word
    requires o + 4 <= |b|
  {
    LoadWord32([b[o + 3], b[o + 2], b[o + 1], b[o]])
  }

  function StoreLe(w: Word): (b: Bytes)
    ensures |b| == 4
  {
    var r := StoreWord32(w);
    [r[3], r[2], r[1], r[0]]
  }

  function QuadOf(b: Bytes): Quad
    requires |b| >= 16
  {
    Quad(LoadLe(b, 0), LoadLe(b, 4), LoadLe(b, 8), LoadLe(b, 12))
  }

  function BytesOf(q: Quad): (b: Bytes)
    ensures |b| == 16
  {
    StoreLe(q.a) + StoreLe(q.b) + StoreLe(q.c) + StoreLe(q.d)
  }

  lemma LoadStoreLe(w: Word, b: Bytes, o: nat)
    requires o + 4 <= |b| && b[o..o + 4] == StoreLe(w)
    ensures LoadLe(b, o) == w
  {
    hide LoadWord32, StoreWord32;
    var r, s := StoreWord32(w), b[o..o + 4];
    LoadStore32(w);
    assert b[o] == s[0] && b[o + 1] == s[1] && b[o + 2] == s[2] && b[o + 3] == s[3];
    assert [b[o + 3], b[o + 2], b[o + 1], b[o]] == r;
  }

  lemma StoreLoadLe(b: Bytes, o: nat)
    requires o + 4 <= |b|
    ensures StoreLe(LoadLe(b, o)) == b[o..o + 4]
  {
    hide LoadWord32, StoreWord32;
    StoreLoadWord32([b[o + 3], b[o + 2], b[o + 1], b[o]]);
  }

  lemma QuadOfBytes(q: Quad)
    ensures QuadOf(BytesOf(q)) == q
  {
    hide LoadLe, StoreLe;
    var b := BytesOf(q);
    assert b[0..4] == StoreLe(q.a) && b[4..8] == StoreLe(q.b) && b[8..12] == StoreLe(q.c) && b[12..16] == StoreLe(q.d);
    LoadStoreLe(q.a, b, 0);
    LoadStoreLe(q.b, b, 4);
    LoadStoreLe(q.c, b, 8);
    LoadStoreLe(q.d, b, 12);
  }

  lemma BytesOfQuad(b: Bytes)
    requires |b| == 16
    ensures BytesOf(QuadOf(b)) == b
  {
    hide LoadLe, StoreLe;
    StoreLoadLe(b, 0);
    StoreLoadLe(b, 4);
    StoreLoadLe(b, 8);
    StoreLoadLe(b, 12);
    assert b == b[0..4] + b[4..8] + b[8..12] + b[12..16];
  }
}
