/** Rijndael for all five block sizes (impl/block/rijndael/rijndael.cc). A uint64_t that holds a row of the state is
    modelled as its eight bytes, lowest first: the code shifts such words by whole bytes only. */
module Rijndael {
  import opened Words
  import opened Arithmetic
  import opened Sbox
  import opened RijndaelSpec
  import opened AesTables

  // ---------------------------------------------------------------- words that hold a row

  type Row = b: seq<bv8> | |b| == 8 witness [0, 0, 0, 0, 0, 0, 0, 0]

  lemma OrByteZero(a: bv8)
    ensures OrByte(0, a) == a && OrByte(a, 0) == a
  {}

  function OrRow(v: Row, w: Row): Row {
    seq(8, c requires 0 <= c < 8 => OrByte(v[c], w[c]))
  }

  function XorRow(v: Row, w: Row): Row {
    seq(8, c requires 0 <= c < 8 => XorByte(v[c], w[c]))
  }

  /** w << 8 k. */
  function ShiftUp(w: Row, k: nat): Row {
    seq(8, c requires 0 <= c < 8 => if c >= k then w[c - k] else 0)
  }

  /** w >> 8 k. */
  function ShiftDown(w: Row, k: nat): Row {
    seq(8, c requires 0 <= c < 8 => if c + k < 8 then w[c + k] else 0)
  }

  /** w & m_bcmask. */
  function Mask(w: Row, nb: nat): Row {
    seq(8, c requires 0 <= c < 8 => if c < nb then w[c] else 0)
  }

  /** uint64_t(b). */
  function Widen(b: bv8): Row {
    seq(8, c requires 0 <= c < 8 => if c == 0 then b else 0)
  }

  function NoRow(): Row { seq(8, c => 0) }

  /** The row w holds row r of the state s and nothing else. */
  predicate IsRow(w: Row, s: Bytes, nb: nat, r: nat)
    requires State(s, nb) && r < 4
  {
    forall c :: 0 <= c < 8 ==> w[c] == if c < nb then At(s, nb, c, r) else 0
  }

  /** m_rk and the state of DecryptBlock: four rows. */
  datatype Rows = Rows(r0: Row, r1: Row, r2: Row, r3: Row)

  predicate Holds(w: Rows, s: Bytes, nb: nat)
    requires State(s, nb)
  {
    IsRow(w.r0, s, nb, 0) && IsRow(w.r1, s, nb, 1) && IsRow(w.r2, s, nb, 2) && IsRow(w.r3, s, nb, 3)
  }

  // ---------------------------------------------------------------- the steps of decryption

  /** KeyAddition. */
  function KeyAddition(w: Rows, k: Rows): Rows {
    Rows(XorRow(w.r0, k.r0), XorRow(w.r1, k.r1), XorRow(w.r2, k.r2), XorRow(w.r3, k.r3))
  }

  lemma XorRowIs(w: Row, k: Row, s: Bytes, t: Bytes, nb: nat, r: nat)
    requires State(s, nb) && State(t, nb) && r < 4 && IsRow(w, s, nb, r) && IsRow(k, t, nb, r)
    ensures State(AddKey(s, t), nb) && IsRow(XorRow(w, k), AddKey(s, t), nb, r)
  {
    hide XorByte, At;
    XorNothing();
    forall c | 0 <= c < nb
      ensures At(AddKey(s, t), nb, c, r) == XorByte(At(s, nb, c, r), At(t, nb, c, r))
    {
      AddKeyAt(s, t, nb, c, r);
    }
  }

  lemma XorNothing()
    ensures XorByte(0, 0) == 0
  {}

  lemma KeyAdditionIs(w: Rows, k: Rows, s: Bytes, t: Bytes, nb: nat)
    requires State(s, nb) && State(t, nb) && Holds(w, s, nb) && Holds(k, t, nb)
    ensures State(AddKey(s, t), nb) && Holds(KeyAddition(w, k), AddKey(s, t), nb)
  {
    hide IsRow, AddKey, XorRow;
    XorRowIs(w.r0, k.r0, s, t, nb, 0);
    XorRowIs(w.r1, k.r1, s, t, nb, 1);
    XorRowIs(w.r2, k.r2, s, t, nb, 2);
    XorRowIs(w.r3, k.r3, s, t, nb, 3);
  }

  /** ApplyS with the inverse box: all eight bytes are substituted from the top down, then those beyond the row are
      masked off. */
  method ApplyInvS(w: Row, nb: nat, ghost s: Bytes, ghost r: nat) returns (res: Row)
    requires State(s, nb) && r < 4 && IsRow(w, s, nb, r)
    ensures IsRow(res, InvSubBytes(s), nb, r)
  {
    hide InvSub;
    res := NoRow();
    var i := 7;
    while i >= 0
      invariant -1 <= i <= 7
      invariant forall c :: 0 <= c < 7 - i ==> res[c] == InvSub(w[c + (i + 1)])
      invariant forall c :: 7 - i <= c < 8 ==> res[c] == 0
    {
      OrNew(ShiftUp(res, 1), Widen(InvSub(w[i])), InvSub(w[i]));
      res := OrRow(ShiftUp(res, 1), Widen(InvSub(w[i])));
      i := i - 1;
    }
    res := Mask(res, nb);
    forall c | 0 <= c < nb
      ensures At(InvSubBytes(s), nb, c, r) == InvSub(w[c])
    {
      SubBytesAt(s, nb, c, r);
    }
  }

  /** Or-ing a byte into the free lowest place of a word. */
  lemma OrNew(v: Row, w: Row, b: bv8)
    requires v[0] == 0 && w[0] == b && forall c :: 0 < c < 8 ==> w[c] == 0
    ensures OrRow(v, w)[0] == b && forall c :: 0 < c < 8 ==> OrRow(v, w)[c] == v[c]
  {
    hide OrByte;
    OrByteZero(b);
    forall c | 0 < c < 8
      ensures OrByte(v[c], 0) == v[c]
    {
      OrByteZero(v[c]);
    }
  }

  method Substitution(w: Rows, nb: nat, ghost s: Bytes) returns (v: Rows)
    requires State(s, nb) && Holds(w, s, nb)
    ensures State(InvSubBytes(s), nb) && Holds(v, InvSubBytes(s), nb)
  {
    SubBytesState(s, nb);
    hide IsRow, InvSubBytes;
    var r0 := ApplyInvS(w.r0, nb, s, 0);
    var r1 := ApplyInvS(w.r1, nb, s, 1);
    var r2 := ApplyInvS(w.r2, nb, s, 2);
    var r3 := ApplyInvS(w.r3, nb, s, 3);
    v := Rows(r0, r1, r2, r3);
  }

  /** shifts1[nb - 4][r] divided by eight. */
  function Shift1(nb: nat, r: nat): nat
    requires Columns(nb) && 0 < r < 4
  {
    if nb == 4 then [3, 2, 1][r - 1]
    else if nb == 5 then [4, 3, 2][r - 1]
    else if nb == 6 then [5, 4, 3][r - 1]
    else if nb == 7 then [6, 5, 3][r - 1]
    else [7, 5, 4][r - 1]
  }

  lemma Shift1Is(nb: nat, r: nat)
    requires Columns(nb) && 0 < r < 4
    ensures Shift1(nb, r) == nb - Offset(nb, r)
  {}

  /** shift: a rotation of the nb bytes of a row. */
  function RotateRow(w: Row, nb: nat, k: nat): Row
    requires k <= nb <= 8
  {
    Mask(OrRow(ShiftDown(w, k), ShiftUp(w, nb - k)), nb)
  }

  lemma RotateRowIs(w: Row, s: Bytes, nb: nat, r: nat, k: nat)
    requires State(s, nb) && r < 4 && IsRow(w, s, nb, r) && k == nb - Offset(nb, r)
    ensures IsRow(RotateRow(w, nb, k), InvShiftRows(s, nb), nb, r)
  {
    hide At, OrByte, InvShiftRows, Offset;
    forall c | 0 <= c < nb
      ensures RotateRow(w, nb, k)[c] == At(InvShiftRows(s, nb), nb, c, r)
    {
      ShiftRowsAt(s, nb, c, r);
      OrByteZero(w[Around(nb, c, k)]);
      OrByteZero(0);
    }
  }

  lemma RowUnmoved(w: Row, s: Bytes, nb: nat)
    requires State(s, nb) && IsRow(w, s, nb, 0)
    ensures IsRow(w, InvShiftRows(s, nb), nb, 0)
  {
    hide At, InvShiftRows;
    forall c | 0 <= c < nb
      ensures At(InvShiftRows(s, nb), nb, c, 0) == At(s, nb, c, 0)
    {
      ShiftRowsAt(s, nb, c, 0);
    }
  }

  /** ShiftRow with shifts1. */
  method ShiftRow(w: Rows, nb: nat, ghost s: Bytes) returns (v: Rows)
    requires State(s, nb) && Holds(w, s, nb)
    ensures Holds(v, InvShiftRows(s, nb), nb)
  {
    hide IsRow, InvShiftRows, RotateRow, Shift1, Offset;
    Shift1Is(nb, 1);
    Shift1Is(nb, 2);
    Shift1Is(nb, 3);
    RowUnmoved(w.r0, s, nb);
    RotateRowIs(w.r1, s, nb, 1, Shift1(nb, 1));
    RotateRowIs(w.r2, s, nb, 2, Shift1(nb, 2));
    RotateRowIs(w.r3, s, nb, 3, Shift1(nb, 3));
    v := Rows(w.r0, RotateRow(w.r1, nb, Shift1(nb, 1)), RotateRow(w.r2, nb, Shift1(nb, 2)),
              RotateRow(w.r3, nb, Shift1(nb, 3)));
  }

  /** One byte of InvMixColumn put in its place. */
  function PutByte(w: Row, c: nat, b: bv8): Row { OrRow(w, ShiftUp(Widen(b), c)) }

  lemma PutByteAt(w: Row, c: nat, b: bv8)
    requires c < 8 && w[c] == 0
    ensures PutByte(w, c, b)[c] == b
    ensures forall d :: 0 <= d < 8 && d != c ==> PutByte(w, c, b)[d] == w[d]
  {
    hide OrByte;
    OrByteZero(b);
    forall d | 0 <= d < 8 && d != c
      ensures PutByte(w, c, b)[d] == w[d]
    {
      OrByteZero(w[d]);
    }
  }

  /** The first n columns of row r of the state s. */
  predicate IsPart(w: Row, s: Bytes, nb: nat, r: nat, n: nat)
    requires State(s, nb) && r < 4 && n <= nb
  {
    forall c :: 0 <= c < 8 ==> w[c] == if c < n then At(s, nb, c, r) else 0
  }

  lemma PartStep(w: Row, s: Bytes, nb: nat, r: nat, n: nat, b: bv8)
    requires State(s, nb) && r < 4 && n < nb && IsPart(w, s, nb, r, n) && b == At(s, nb, n, r)
    ensures IsPart(PutByte(w, n, b), s, nb, r, n + 1)
  {
    hide At, PutByte;
    PutByteAt(w, n, b);
  }

  lemma InvMixBytes(w: Rows, s: Bytes, nb: nat, c: nat, a0: bv8, a1: bv8, a2: bv8, a3: bv8)
    requires State(s, nb) && Holds(w, s, nb) && c < nb
    requires a0 == w.r0[c] && a1 == w.r1[c] && a2 == w.r2[c] && a3 == w.r3[c]
    ensures At(InvMixColumns(s, nb), nb, c, 0) == Xor4(MulE(a0), MulB(a1), MulD(a2), Mul9(a3))
    ensures At(InvMixColumns(s, nb), nb, c, 1) == Xor4(MulE(a1), MulB(a2), MulD(a3), Mul9(a0))
    ensures At(InvMixColumns(s, nb), nb, c, 2) == Xor4(MulE(a2), MulB(a3), MulD(a0), Mul9(a1))
    ensures At(InvMixColumns(s, nb), nb, c, 3) == Xor4(MulE(a3), MulB(a0), MulD(a1), Mul9(a2))
  {
    hide At, InvMixColumns, MulE, MulB, MulD, Mul9, Xor4;
    MixColumnsAt(s, nb, c, 0);
    MixColumnsAt(s, nb, c, 1);
    MixColumnsAt(s, nb, c, 2);
    MixColumnsAt(s, nb, c, 3);
  }

  /** InvMixColumn, a column at a time. */
  method InvMixColumn(w: Rows, nb: nat, ghost s: Bytes) returns (v: Rows)
    requires State(s, nb) && Holds(w, s, nb)
    ensures Holds(v, InvMixColumns(s, nb), nb)
  {
    hide At, IsRow, InvMixColumns, MulE, MulB, MulD, Mul9, Xor4, PutByte;
    var r0, r1, r2, r3 := NoRow(), NoRow(), NoRow(), NoRow();
    ghost var t := InvMixColumns(s, nb);
    for c := 0 to nb
      invariant IsPart(r0, t, nb, 0, c) && IsPart(r1, t, nb, 1, c) && IsPart(r2, t, nb, 2, c) && IsPart(r3, t, nb, 3, c)
    {
      hide IsPart;
      var a0, a1, a2, a3 := w.r0[c], w.r1[c], w.r2[c], w.r3[c];
      InvMixBytes(w, s, nb, c, a0, a1, a2, a3);
      PartStep(r0, t, nb, 0, c, Xor4(MulE(a0), MulB(a1), MulD(a2), Mul9(a3)));
      PartStep(r1, t, nb, 1, c, Xor4(MulE(a1), MulB(a2), MulD(a3), Mul9(a0)));
      PartStep(r2, t, nb, 2, c, Xor4(MulE(a2), MulB(a3), MulD(a0), Mul9(a1)));
      PartStep(r3, t, nb, 3, c, Xor4(MulE(a3), MulB(a0), MulD(a1), Mul9(a2)));
      r0 := PutByte(r0, c, Xor4(MulE(a0), MulB(a1), MulD(a2), Mul9(a3)));
      r1 := PutByte(r1, c, Xor4(MulE(a1), MulB(a2), MulD(a3), Mul9(a0)));
      r2 := PutByte(r2, c, Xor4(MulE(a2), MulB(a3), MulD(a0), Mul9(a1)));
      r3 := PutByte(r3, c, Xor4(MulE(a3), MulB(a0), MulD(a1), Mul9(a2)));
    }
    v := Rows(r0, r1, r2, r3);
    WholeRow(r0, t, nb, 0);
    WholeRow(r1, t, nb, 1);
    WholeRow(r2, t, nb, 2);
    WholeRow(r3, t, nb, 3);
  }

  lemma WholeRow(w: Row, s: Bytes, nb: nat, r: nat)
    requires State(s, nb) && r < 4 && IsPart(w, s, nb, r, nb)
    ensures IsRow(w, s, nb, r)
  {}

  /** UnpackBlock: the first column, then the others or-ed in. */
  method UnpackBlock(s: Bytes, nb: nat) returns (w: Rows)
    requires State(s, nb)
    ensures Holds(w, s, nb)
  {
    hide IsRow, PutByte;
    var r0, r1, r2, r3 := Widen(s[0]), Widen(s[1]), Widen(s[2]), Widen(s[3]);
    for c := 1 to nb
      invariant IsPart(r0, s, nb, 0, c) && IsPart(r1, s, nb, 1, c) && IsPart(r2, s, nb, 2, c) && IsPart(r3, s, nb, 3, c)
    {
      hide IsPart, At;
      AtIndex(s, nb, c, 0);
      AtIndex(s, nb, c, 1);
      AtIndex(s, nb, c, 2);
      AtIndex(s, nb, c, 3);
      PartStep(r0, s, nb, 0, c, s[4 * c]);
      PartStep(r1, s, nb, 1, c, s[4 * c + 1]);
      PartStep(r2, s, nb, 2, c, s[4 * c + 2]);
      PartStep(r3, s, nb, 3, c, s[4 * c + 3]);
      r0, r1 := PutByte(r0, c, s[4 * c]), PutByte(r1, c, s[4 * c + 1]);
      r2, r3 := PutByte(r2, c, s[4 * c + 2]), PutByte(r3, c, s[4 * c + 3]);
    }
    WholeRow(r0, s, nb, 0);
    WholeRow(r1, s, nb, 1);
    WholeRow(r2, s, nb, 2);
    WholeRow(r3, s, nb, 3);
    w := Rows(r0, r1, r2, r3);
  }

  /** PackBlock. */
  method PackBlock(out: array<bv8>, w: Rows, nb: nat, ghost s: Bytes)
    requires State(s, nb) && Holds(w, s, nb) && out.Length >= 4 * nb
    modifies out
    ensures out[..4 * nb] == s && out[4 * nb..] == old(out[4 * nb..])
  {
    for c := 0 to nb
      invariant out[..][..4 * c] == s[..4 * c] && out[4 * nb..] == old(out[4 * nb..])
    {
      ghost var was := out[..];
      out[4 * c] := w.r0[c];
      out[4 * c + 1] := w.r1[c];
      out[4 * c + 2] := w.r2[c];
      out[4 * c + 3] := w.r3[c];
      FourMore(s, was, out[..], c, nb);
    }
  }

  lemma FourMore<T>(s: seq<T>, was: seq<T>, now: seq<T>, c: nat, nb: nat)
    requires c < nb && |s| == 4 * nb <= |was| && was[..4 * c] == s[..4 * c]
    requires var o := 4 * c;
             now == was[o := s[o]][o + 1 := s[o + 1]][o + 2 := s[o + 2]][o + 3 := s[o + 3]]
    ensures now[..4 * (c + 1)] == s[..4 * (c + 1)] && now[4 * nb..] == was[4 * nb..]
  {
    assert now[..4 * c] == was[..4 * c];
    assert s[..4 * c + 4] == s[..4 * c] + [s[4 * c], s[4 * c + 1], s[4 * c + 2], s[4 * c + 3]];
    assert now[..4 * c + 4] == now[..4 * c] + [s[4 * c], s[4 * c + 1], s[4 * c + 2], s[4 * c + 3]];
  }

  // ---------------------------------------------------------------- encryption on bytes

  /** Where column j takes its row r from when rows are shifted. */
  function Source(nb: nat, j: nat, r: nat): nat
    requires Columns(nb) && j < nb && r < 4
  {
    4 * Around(nb, j, Offset(nb, r)) + r
  }

  /** Where m_rkb has the byte for column c, row r: every row is eight bytes, highest column first. */
  function KeyIndex(c: nat, r: nat): nat
    requires c < 8
  {
    8 * r + (7 - c)
  }

  predicate KeyBytes(rk: Bytes, k: Bytes, nb: nat) {
    && State(k, nb) && |rk| >= 32
    && forall c, r :: 0 <= c < nb && 0 <= r < 4 ==> rk[KeyIndex(c, r)] == At(k, nb, c, r)
  }

  /** A round without its key: the key comes with the next round. */
  function Mixed(s: Bytes, k: Bytes, nb: nat): (t: Bytes)
    requires State(s, nb) && State(k, nb)
    ensures State(t, nb)
  {
    MixColumns(ShiftRows(SubBytes(AddKey(s, k)), nb), nb)
  }

  /** The last round, with its two keys. */
  function Last(s: Bytes, k: Bytes, l: Bytes, nb: nat): (t: Bytes)
    requires State(s, nb) && State(k, nb) && State(l, nb)
    ensures State(t, nb)
  {
    AddKey(ShiftRows(SubBytes(AddKey(s, k)), nb), l)
  }

  /** The call of a round: block s in buf, key k in rk. */
  ghost predicate Setting(obuf: array<bv8>, buf: array<bv8>, rk: Bytes, s: Bytes, k: Bytes, nb: nat)
    reads buf
  {
    && State(s, nb) && |rk| >= 32 && KeyBytes(rk, k, nb) && 4 * nb <= obuf.Length && 4 * nb <= buf.Length
    && buf[..4 * nb] == s
  }

  /** The key of the round after. */
  predicate NextKey(rk: Bytes, l: Bytes, nb: nat) {
    |rk| == 64 && KeyBytes(rk[32..], l, nb)
  }

  /** Columns lo to hi - 1 of the output are those of t. */
  predicate ColumnsDone(o: Bytes, t: Bytes, nb: nat, lo: nat, hi: nat) {
    && State(t, nb) && 4 * nb <= |o| && lo <= hi <= nb
    && forall j, r :: lo <= j < hi && 0 <= r < 4 ==> o[4 * j + r] == At(t, nb, j, r)
  }

  lemma NoColumns(o: Bytes, t: Bytes, nb: nat, lo: nat)
    requires State(t, nb) && 4 * nb <= |o| && lo <= nb
    ensures ColumnsDone(o, t, nb, lo, lo)
  {}

  lemma Begin(obuf: array<bv8>, buf: array<bv8>, rk: Bytes, s: Bytes, k: Bytes, nb: nat)
    requires Setting(obuf, buf, rk, s, k, nb)
    ensures State(s, nb) && State(k, nb) && 4 * nb <= obuf.Length
    ensures ColumnsDone(obuf[..], Mixed(s, k, nb), nb, 0, 0)
  {}

  lemma BeginLast(rk: Bytes, l: Bytes, nb: nat)
    requires NextKey(rk, l, nb)
    ensures State(l, nb)
  {}

  lemma AllColumns(o: Bytes, t: Bytes, nb: nat)
    requires ColumnsDone(o, t, nb, 0, nb)
    ensures 4 * nb <= |o| && o[..4 * nb] == t
  {
    hide At;
    forall i | 0 <= i < 4 * nb
      ensures o[i] == t[i]
    {
      var j, r := i / 4, i % 4;
      assert o[4 * j + r] == At(t, nb, j, r);
      AtIndex(t, nb, j, r);
    }
  }

  /** One more column of four bytes, next to those that are done. */
  lemma ColumnDone(o: Bytes, o1: Bytes, t: Bytes, nb: nat, lo: nat, hi: nat, j: nat)
    requires ColumnsDone(o, t, nb, lo, hi) && j < nb && (j == hi || j + 1 == lo) && |o1| == |o|
    requires forall u :: 0 <= u < |o| && !(4 * j <= u < 4 * j + 4) ==> o1[u] == o[u]
    requires o1[4 * j] == At(t, nb, j, 0) && o1[4 * j + 1] == At(t, nb, j, 1)
    requires o1[4 * j + 2] == At(t, nb, j, 2) && o1[4 * j + 3] == At(t, nb, j, 3)
    ensures if j == hi then ColumnsDone(o1, t, nb, lo, hi + 1) else ColumnsDone(o1, t, nb, j, hi)
  {
    hide At;
  }

  /** Substituted byte r of column j, after key and row shift. */
  function Shifted(s: Bytes, k: Bytes, nb: nat, j: nat, r: nat): bv8
    requires State(s, nb) && State(k, nb) && j < nb && r < 4
  {
    Sub(XorByte(At(s, nb, Around(nb, j, Offset(nb, r)), r), At(k, nb, Around(nb, j, Offset(nb, r)), r)))
  }

  lemma ShiftedAt(s: Bytes, k: Bytes, nb: nat, j: nat, r: nat)
    requires State(s, nb) && State(k, nb) && j < nb && r < 4
    ensures At(ShiftRows(SubBytes(AddKey(s, k)), nb), nb, j, r) == Shifted(s, k, nb, j, r)
  {
    hide At, Sub, XorByte, Offset, Around, AddKey, SubBytes, ShiftRows;
    AddKeyState(s, k, nb);
    SubBytesState(AddKey(s, k), nb);
    ShiftRowsAt(SubBytes(AddKey(s, k)), nb, j, r);
    var c := Around(nb, j, Offset(nb, r));
    SubBytesAt(AddKey(s, k), nb, c, r);
    AddKeyAt(s, k, nb, c, r);
  }

  // Et0 to Et3: a column of MixColumns for a substituted byte, lowest byte first.
  function Et0(x: bv8): bv32 { Pack(Mul3(x), x, x, Mul2(x)) }
  function Et1(x: bv8): bv32 { Pack(x, x, Mul2(x), Mul3(x)) }
  function Et2(x: bv8): bv32 { Pack(x, Mul2(x), Mul3(x), x) }
  function Et3(x: bv8): bv32 { Pack(Mul2(x), Mul3(x), x, x) }

  function ColumnWord(a: bv8, b: bv8, c: bv8, d: bv8): bv32 {
    XorW(XorW(XorW(Et0(a), Et1(b)), Et2(c)), Et3(d))
  }

  lemma ColumnWordIs(a: bv8, b: bv8, c: bv8, d: bv8)
    ensures Split(ColumnWord(a, b, c, d)) == Col(Mix(d, a, b, c), Mix(c, d, a, b), Mix(b, c, d, a), Mix(a, b, c, d))
  {
    hide Mul2, Mul3, Xor4, XorByte, XorW, Pack, Byte0, Byte1, Byte2, Byte3;
    SplitPack(Mul3(a), a, a, Mul2(a));
    SplitPack(b, b, Mul2(b), Mul3(b));
    SplitPack(c, Mul2(c), Mul3(c), c);
    SplitPack(Mul2(d), Mul3(d), d, d);
    SplitXor(Et0(a), Et1(b));
    SplitXor(XorW(Et0(a), Et1(b)), Et2(c));
    SplitXor(XorW(XorW(Et0(a), Et1(b)), Et2(c)), Et3(d));
    Xor4Chain(Mul3(a), b, c, Mul2(d));
    Xor4Chain(a, b, Mul2(c), Mul3(d));
    Xor4Chain(a, Mul2(b), Mul3(c), d);
    Xor4Chain(Mul2(a), Mul3(b), c, d);
    Xor4Rotate(Mul2(d), Mul3(a), b, c);
    Xor4Rotate(Mul2(c), Mul3(d), a, b);
    Xor4Rotate(Mul2(b), Mul3(c), d, a);
  }

  /** What a table row of Round must say to be the shifted column. */
  predicate Hits(nb: nat, j: nat, r: nat, e: nat, w: nat)
    requires Columns(nb) && j < nb && r < 4
  {
    e == Source(nb, j, r) && w == KeyIndex(Around(nb, j, Offset(nb, r)), r)
  }

  predicate RowHits(nb: nat, j: nat, e: nat, f: nat, g: nat, h: nat, w: nat, x: nat, y: nat, z: nat)
    requires Columns(nb) && j < nb
  {
    Hits(nb, j, 0, e, w) && Hits(nb, j, 1, f, x) && Hits(nb, j, 2, g, y) && Hits(nb, j, 3, h, z)
  }

  lemma HitIs(buf: Bytes, rk: Bytes, s: Bytes, k: Bytes, nb: nat, j: nat, r: nat, e: nat, w: nat)
    requires State(s, nb) && KeyBytes(rk, k, nb) && 4 * nb <= |buf| && buf[..4 * nb] == s
    requires j < nb && r < 4 && Hits(nb, j, r, e, w)
    ensures e < |buf| && w < 32 && Sub(XorByte(buf[e], rk[w])) == Shifted(s, k, nb, j, r)
  {
    hide At, Sub, XorByte, Offset, Around;
    var c := Around(nb, j, Offset(nb, r));
    AtIndex(s, nb, c, r);
    assert rk[KeyIndex(c, r)] == At(k, nb, c, r);
    assert s[e] == buf[e];
  }

  /** A table row that is the shifted column j. */
  lemma RowTable(nb: nat, j: nat, e: nat, f: nat, g: nat, h: nat, w: nat, x: nat, y: nat, z: nat)
    requires j < nb
    requires 4 <= nb <= 8 && e == j * 4 && w == 7 - j
    requires f % 4 == 1 && x == 15 - f / 4 && f / 4 == if j + 1 < nb then j + 1 else j + 1 - nb
    requires g % 4 == 2 && y == 23 - g / 4
    requires g / 4 == if j + (if nb == 8 then 3 else 2) < nb then j + (if nb == 8 then 3 else 2)
                       else j + (if nb == 8 then 3 else 2) - nb
    requires h % 4 == 3 && z == 31 - h / 4
    requires h / 4 == if j + (if nb < 7 then 3 else 4) < nb then j + (if nb < 7 then 3 else 4)
                       else j + (if nb < 7 then 3 else 4) - nb
    ensures Columns(nb) && RowHits(nb, j, e, f, g, h, w, x, y, z)
  {}

  /** The macro R128R: one column of a round. */
  method RoundColumn(obuf: array<bv8>, buf: array<bv8>, rk: Bytes, i: nat, e: nat, f: nat, g: nat, h: nat,
                     w: nat, x: nat, y: nat, z: nat, ghost s: Bytes, ghost k: Bytes, ghost nb: nat, ghost rest: Bytes)
    requires obuf != buf && Setting(obuf, buf, rk, s, k, nb) && State(s, nb) && State(k, nb) && i < 4 * nb && i % 4 == 0
    requires 4 <= nb <= 8 && e == i && w == 7 - (i / 4)
    requires f % 4 == 1 && x == 15 - f / 4 && f / 4 == if (i / 4) + 1 < nb then (i / 4) + 1 else (i / 4) + 1 - nb
    requires g % 4 == 2 && y == 23 - g / 4
    requires g / 4 == if (i / 4) + (if nb == 8 then 3 else 2) < nb then (i / 4) + (if nb == 8 then 3 else 2)
                       else (i / 4) + (if nb == 8 then 3 else 2) - nb
    requires h % 4 == 3 && z == 31 - h / 4
    requires h / 4 == if (i / 4) + (if nb < 7 then 3 else 4) < nb then (i / 4) + (if nb < 7 then 3 else 4)
                       else (i / 4) + (if nb < 7 then 3 else 4) - nb
    requires ColumnsDone(obuf[..], Mixed(s, k, nb), nb, 0, i / 4) && obuf[4 * nb..] == rest
    modifies obuf
    ensures ColumnsDone(obuf[..], Mixed(s, k, nb), nb, 0, i / 4 + 1) && obuf[4 * nb..] == rest
  {
    hide Sub, XorByte, At, Hits, KeyBytes, Mixed, ColumnWord, Byte0, Byte1, Byte2, Byte3, ColumnsDone;
    ghost var j, o := i / 4, obuf[..];
    RowTable(nb, j, e, f, g, h, w, x, y, z);
    HitIs(buf[..], rk, s, k, nb, j, 0, e, w);
    HitIs(buf[..], rk, s, k, nb, j, 1, f, x);
    HitIs(buf[..], rk, s, k, nb, j, 2, g, y);
    HitIs(buf[..], rk, s, k, nb, j, 3, h, z);
    var a, b := Sub(XorByte(buf[e], rk[w])), Sub(XorByte(buf[f], rk[x]));
    var c, d := Sub(XorByte(buf[g], rk[y])), Sub(XorByte(buf[h], rk[z]));
    var t := ColumnWord(a, b, c, d);
    MixedColumn(s, k, nb, j, a, b, c, d);
    obuf[i], obuf[i + 1], obuf[i + 2], obuf[i + 3] := Byte0(t), Byte1(t), Byte2(t), Byte3(t);
    ColumnDone(o, obuf[..], Mixed(s, k, nb), nb, 0, j, j);
  }

  lemma MixedColumn(s: Bytes, k: Bytes, nb: nat, j: nat, a: bv8, b: bv8, c: bv8, d: bv8)
    requires State(s, nb) && State(k, nb) && j < nb
    requires a == Shifted(s, k, nb, j, 0) && b == Shifted(s, k, nb, j, 1)
    requires c == Shifted(s, k, nb, j, 2) && d == Shifted(s, k, nb, j, 3)
    ensures At(Mixed(s, k, nb), nb, j, 0) == Byte0(ColumnWord(a, b, c, d))
    ensures At(Mixed(s, k, nb), nb, j, 1) == Byte1(ColumnWord(a, b, c, d))
    ensures At(Mixed(s, k, nb), nb, j, 2) == Byte2(ColumnWord(a, b, c, d))
    ensures At(Mixed(s, k, nb), nb, j, 3) == Byte3(ColumnWord(a, b, c, d))
  {
    hide At, Shifted, Mix, ShiftRows, SubBytes, AddKey, ColumnWord, Byte0, Byte1, Byte2, Byte3;
    var m := ShiftRows(SubBytes(AddKey(s, k)), nb);
    ColumnWordIs(a, b, c, d);
    ShiftedAt(s, k, nb, j, 0);
    ShiftedAt(s, k, nb, j, 1);
    ShiftedAt(s, k, nb, j, 2);
    ShiftedAt(s, k, nb, j, 3);
    MixColumnsAt(m, nb, j, 0);
    MixColumnsAt(m, nb, j, 1);
    MixColumnsAt(m, nb, j, 2);
    MixColumnsAt(m, nb, j, 3);
  }

  lemma FinalByte(obuf: array<bv8>, buf: array<bv8>, rk: Bytes, s: Bytes, k: Bytes, l: Bytes, nb: nat,
                  j: nat, r: nat, y: nat, w: nat, z: nat)
    requires Setting(obuf, buf, rk, s, k, nb) && NextKey(rk, l, nb) && State(s, nb) && State(k, nb) && State(l, nb)
    requires j < nb && r < 4 && Hits(nb, j, r, y, w) && z == KeyIndex(j, r)
    ensures y < buf.Length && w < 32 && z < 32 && |rk| == 64
    ensures XorByte(Sub(XorByte(buf[y], rk[w])), rk[z + 32]) == At(Last(s, k, l, nb), nb, j, r)
  {
    hide Sub, XorByte, At, Last, Shifted, KeyBytes, Hits;
    HitIs(buf[..], rk, s, k, nb, j, r, y, w);
    LastAt(s, k, l, nb, j, r, rk[32..]);
    assert rk[32..][z] == rk[z + 32];
  }

  /** Four uses of the macro R128F, for the rows of one column: x the byte written, z and w the key bytes, y the byte
      read. */
  method FinalColumn(obuf: array<bv8>, buf: array<bv8>, rk: Bytes, x0: nat, z0: nat, y0: nat, w0: nat,
                     x1: nat, z1: nat, y1: nat, w1: nat, x2: nat, z2: nat, y2: nat, w2: nat,
                     x3: nat, z3: nat, y3: nat, w3: nat, ghost s: Bytes, ghost k: Bytes, ghost l: Bytes, ghost nb: nat,
                     ghost lo: nat, ghost hi: nat, ghost rest: Bytes)
    requires obuf != buf && Setting(obuf, buf, rk, s, k, nb) && NextKey(rk, l, nb)
    requires State(s, nb) && State(k, nb) && State(l, nb) && obuf[4 * nb..] == rest
    requires x0 < 4 * nb && x0 % 4 == 0 && x1 == x0 + 1 && x2 == x0 + 2 && x3 == x0 + 3
    requires 4 <= nb <= 8 && y0 == x0 && w0 == 7 - (x0 / 4)
    requires y1 % 4 == 1 && w1 == 15 - y1 / 4 && y1 / 4 == if (x0 / 4) + 1 < nb then (x0 / 4) + 1 else (x0 / 4) + 1 - nb
    requires y2 % 4 == 2 && w2 == 23 - y2 / 4
    requires y2 / 4 == if (x0 / 4) + (if nb == 8 then 3 else 2) < nb then (x0 / 4) + (if nb == 8 then 3 else 2)
                       else (x0 / 4) + (if nb == 8 then 3 else 2) - nb
    requires y3 % 4 == 3 && w3 == 31 - y3 / 4
    requires y3 / 4 == if (x0 / 4) + (if nb < 7 then 3 else 4) < nb then (x0 / 4) + (if nb < 7 then 3 else 4)
                       else (x0 / 4) + (if nb < 7 then 3 else 4) - nb
    requires z0 == 7 - x0 / 4 && z1 == 15 - x0 / 4 && z2 == 23 - x0 / 4 && z3 == 31 - x0 / 4
    requires ColumnsDone(obuf[..], Last(s, k, l, nb), nb, lo, hi) && (x0 / 4 == hi || x0 / 4 + 1 == lo)
    modifies obuf
    ensures if x0 / 4 == hi then ColumnsDone(obuf[..], Last(s, k, l, nb), nb, lo, hi + 1)
            else ColumnsDone(obuf[..], Last(s, k, l, nb), nb, x0 / 4, hi)
    ensures obuf[4 * nb..] == rest
  {
    hide *;
    ghost var j, o := x0 / 4, obuf[..];
    RowTable(nb, j, y0, y1, y2, y3, w0, w1, w2, w3);
    Begin(obuf, buf, rk, s, k, nb);
    var a, b, c, d := FinalBytes(obuf, buf, rk, z0, y0, w0, z1, y1, w1, z2, y2, w2, z3, y3, w3, s, k, l, nb, j);
    obuf[x0], obuf[x1], obuf[x2], obuf[x3] := a, b, c, d;
    ColumnDone(o, obuf[..], Last(s, k, l, nb), nb, lo, hi, j);
  }

  method FinalBytes(ghost obuf: array<bv8>, buf: array<bv8>, rk: Bytes, z0: nat, y0: nat, w0: nat, z1: nat, y1: nat,
                    w1: nat,
                    z2: nat, y2: nat, w2: nat, z3: nat, y3: nat, w3: nat,
                    ghost s: Bytes, ghost k: Bytes, ghost l: Bytes, ghost nb: nat, ghost j: nat)
    returns (a: bv8, b: bv8, c: bv8, d: bv8)
    requires Setting(obuf, buf, rk, s, k, nb) && NextKey(rk, l, nb) && State(s, nb) && State(k, nb) && State(l, nb)
    requires j < nb && RowHits(nb, j, y0, y1, y2, y3, w0, w1, w2, w3)
    requires z0 == 7 - j && z1 == 15 - j && z2 == 23 - j && z3 == 31 - j
    ensures a == At(Last(s, k, l, nb), nb, j, 0) && b == At(Last(s, k, l, nb), nb, j, 1)
    ensures c == At(Last(s, k, l, nb), nb, j, 2) && d == At(Last(s, k, l, nb), nb, j, 3)
  {
    hide Sub, XorByte, At, Hits, Last, Setting, NextKey;
    FinalByte(obuf, buf, rk, s, k, l, nb, j, 0, y0, w0, z0);
    FinalByte(obuf, buf, rk, s, k, l, nb, j, 1, y1, w1, z1);
    FinalByte(obuf, buf, rk, s, k, l, nb, j, 2, y2, w2, z2);
    FinalByte(obuf, buf, rk, s, k, l, nb, j, 3, y3, w3, z3);
    a := XorByte(Sub(XorByte(buf[y0], rk[w0])), rk[z0 + 32]);
    b := XorByte(Sub(XorByte(buf[y1], rk[w1])), rk[z1 + 32]);
    c := XorByte(Sub(XorByte(buf[y2], rk[w2])), rk[z2 + 32]);
    d := XorByte(Sub(XorByte(buf[y3], rk[w3])), rk[z3 + 32]);
  }

  lemma LastAt(s: Bytes, k: Bytes, l: Bytes, nb: nat, j: nat, r: nat, rk: Bytes)
    requires State(s, nb) && State(k, nb) && State(l, nb) && j < nb && r < 4 && KeyBytes(rk, l, nb)
    ensures At(Last(s, k, l, nb), nb, j, r) == XorByte(Shifted(s, k, nb, j, r), rk[KeyIndex(j, r)])
  {
    hide At, Shifted, XorByte, ShiftRows, SubBytes, AddKey;
    ShiftedAt(s, k, nb, j, r);
    AddKeyAt(ShiftRows(SubBytes(AddKey(s, k)), nb), l, nb, j, r);
  }

  /** Rijndael128::Round. */
  method Round128(obuf: array<bv8>, buf: array<bv8>, rk: Bytes, ghost s: Bytes, ghost k: Bytes)
    requires obuf != buf && Setting(obuf, buf, rk, s, k, 4)
    modifies obuf
    ensures State(s, 4) && State(k, 4) && obuf[..16] == Mixed(s, k, 4)
    ensures obuf[16..] == old(obuf[16..])
  {
    hide *;
    Begin(obuf, buf, rk, s, k, 4);
    ghost var rest := obuf[16..];
    RoundColumn(obuf, buf, rk, 0, 0, 5, 10, 15, 7, 14, 21, 28, s, k, 4, rest);
    RoundColumn(obuf, buf, rk, 4, 4, 9, 14, 3, 6, 13, 20, 31, s, k, 4, rest);
    RoundColumn(obuf, buf, rk, 8, 8, 13, 2, 7, 5, 12, 23, 30, s, k, 4, rest);
    RoundColumn(obuf, buf, rk, 12, 12, 1, 6, 11, 4, 15, 22, 29, s, k, 4, rest);
    AllColumns(obuf[..], Mixed(s, k, 4), 4);
  }

  /** Rijndael160::Round. */
  method Round160(obuf: array<bv8>, buf: array<bv8>, rk: Bytes, ghost s: Bytes, ghost k: Bytes)
    requires obuf != buf && Setting(obuf, buf, rk, s, k, 5)
    modifies obuf
    ensures State(s, 5) && State(k, 5) && obuf[..20] == Mixed(s, k, 5)
    ensures obuf[20..] == old(obuf[20..])
  {
    hide *;
    Begin(obuf, buf, rk, s, k, 5);
    ghost var rest := obuf[20..];
    RoundColumn(obuf, buf, rk, 0, 0, 5, 10, 15, 7, 14, 21, 28, s, k, 5, rest);
    RoundColumn(obuf, buf, rk, 4, 4, 9, 14, 19, 6, 13, 20, 27, s, k, 5, rest);
    RoundColumn(obuf, buf, rk, 8, 8, 13, 18, 3, 5, 12, 19, 31, s, k, 5, rest);
    RoundColumn(obuf, buf, rk, 12, 12, 17, 2, 7, 4, 11, 23, 30, s, k, 5, rest);
    RoundColumn(obuf, buf, rk, 16, 16, 1, 6, 11, 3, 15, 22, 29, s, k, 5, rest);
    AllColumns(obuf[..], Mixed(s, k, 5), 5);
  }

  /** Rijndael192::Round. */
  method Round192(obuf: array<bv8>, buf: array<bv8>, rk: Bytes, ghost s: Bytes, ghost k: Bytes)
    requires obuf != buf && Setting(obuf, buf, rk, s, k, 6)
    modifies obuf
    ensures State(s, 6) && State(k, 6) && obuf[..24] == Mixed(s, k, 6)
    ensures obuf[24..] == old(obuf[24..])
  {
    hide *;
    Begin(obuf, buf, rk, s, k, 6);
    ghost var rest := obuf[24..];
    RoundColumn(obuf, buf, rk, 0, 0, 5, 10, 15, 7, 14, 21, 28, s, k, 6, rest);
    RoundColumn(obuf, buf, rk, 4, 4, 9, 14, 19, 6, 13, 20, 27, s, k, 6, rest);
    RoundColumn(obuf, buf, rk, 8, 8, 13, 18, 23, 5, 12, 19, 26, s, k, 6, rest);
    RoundColumn(obuf, buf, rk, 12, 12, 17, 22, 3, 4, 11, 18, 31, s, k, 6, rest);
    RoundColumn(obuf, buf, rk, 16, 16, 21, 2, 7, 3, 10, 23, 30, s, k, 6, rest);
    RoundColumn(obuf, buf, rk, 20, 20, 1, 6, 11, 2, 15, 22, 29, s, k, 6, rest);
    AllColumns(obuf[..], Mixed(s, k, 6), 6);
  }

  /** Rijndael224::Round. */
  method Round224(obuf: array<bv8>, buf: array<bv8>, rk: Bytes, ghost s: Bytes, ghost k: Bytes)
    requires obuf != buf && Setting(obuf, buf, rk, s, k, 7)
    modifies obuf
    ensures State(s, 7) && State(k, 7) && obuf[..28] == Mixed(s, k, 7)
    ensures obuf[28..] == old(obuf[28..])
  {
    hide *;
    Begin(obuf, buf, rk, s, k, 7);
    ghost var rest := obuf[28..];
    RoundColumn(obuf, buf, rk, 0, 0, 5, 10, 19, 7, 14, 21, 27, s, k, 7, rest);
    RoundColumn(obuf, buf, rk, 4, 4, 9, 14, 23, 6, 13, 20, 26, s, k, 7, rest);
    RoundColumn(obuf, buf, rk, 8, 8, 13, 18, 27, 5, 12, 19, 25, s, k, 7, rest);
    RoundColumn(obuf, buf, rk, 12, 12, 17, 22, 3, 4, 11, 18, 31, s, k, 7, rest);
    RoundColumn(obuf, buf, rk, 16, 16, 21, 26, 7, 3, 10, 17, 30, s, k, 7, rest);
    RoundColumn(obuf, buf, rk, 20, 20, 25, 2, 11, 2, 9, 23, 29, s, k, 7, rest);
    RoundColumn(obuf, buf, rk, 24, 24, 1, 6, 15, 1, 15, 22, 28, s, k, 7, rest);
    AllColumns(obuf[..], Mixed(s, k, 7), 7);
  }

  /** Rijndael256::Round. */
  method Round256(obuf: array<bv8>, buf: array<bv8>, rk: Bytes, ghost s: Bytes, ghost k: Bytes)
    requires obuf != buf && Setting(obuf, buf, rk, s, k, 8)
    modifies obuf
    ensures State(s, 8) && State(k, 8) && obuf[..32] == Mixed(s, k, 8)
    ensures obuf[32..] == old(obuf[32..])
  {
    hide *;
    Begin(obuf, buf, rk, s, k, 8);
    ghost var rest := obuf[32..];
    RoundColumn(obuf, buf, rk, 0, 0, 5, 14, 19, 7, 14, 20, 27, s, k, 8, rest);
    RoundColumn(obuf, buf, rk, 4, 4, 9, 18, 23, 6, 13, 19, 26, s, k, 8, rest);
    RoundColumn(obuf, buf, rk, 8, 8, 13, 22, 27, 5, 12, 18, 25, s, k, 8, rest);
    RoundColumn(obuf, buf, rk, 12, 12, 17, 26, 31, 4, 11, 17, 24, s, k, 8, rest);
    RoundColumn(obuf, buf, rk, 16, 16, 21, 30, 3, 3, 10, 16, 31, s, k, 8, rest);
    RoundColumn(obuf, buf, rk, 20, 20, 25, 2, 7, 2, 9, 23, 30, s, k, 8, rest);
    RoundColumn(obuf, buf, rk, 24, 24, 29, 6, 11, 1, 8, 22, 29, s, k, 8, rest);
    RoundColumn(obuf, buf, rk, 28, 28, 1, 10, 15, 0, 15, 21, 28, s, k, 8, rest);
    AllColumns(obuf[..], Mixed(s, k, 8), 8);
  }

  /** Rijndael128::Final. */
  method Final128(obuf: array<bv8>, buf: array<bv8>, rk: Bytes, ghost s: Bytes, ghost k: Bytes, ghost l: Bytes)
    requires obuf != buf && Setting(obuf, buf, rk, s, k, 4) && NextKey(rk, l, 4)
    modifies obuf
    ensures State(s, 4) && State(k, 4) && State(l, 4) && obuf[..16] == Last(s, k, l, 4)
    ensures obuf[16..] == old(obuf[16..])
  {
    hide *;
    Begin(obuf, buf, rk, s, k, 4);
    BeginLast(rk, l, 4);
    ghost var rest := obuf[16..];
    NoColumns(obuf[..], Last(s, k, l, 4), 4, 4);
    FinalColumn(obuf, buf, rk, 12, 4, 12, 4, 13, 12, 1, 15,
                14, 20, 6, 22, 15, 28, 11, 29, s, k, l, 4, 4, 4, rest);
    FinalColumn(obuf, buf, rk, 8, 5, 8, 5, 9, 13, 13, 12,
                10, 21, 2, 23, 11, 29, 7, 30, s, k, l, 4, 3, 4, rest);
    FinalColumn(obuf, buf, rk, 4, 6, 4, 6, 5, 14, 9, 13,
                6, 22, 14, 20, 7, 30, 3, 31, s, k, l, 4, 2, 4, rest);
    FinalColumn(obuf, buf, rk, 0, 7, 0, 7, 1, 15, 5, 14,
                2, 23, 10, 21, 3, 31, 15, 28, s, k, l, 4, 1, 4, rest);
    AllColumns(obuf[..], Last(s, k, l, 4), 4);
  }

  /** Rijndael160::Final. */
  method Final160(obuf: array<bv8>, buf: array<bv8>, rk: Bytes, ghost s: Bytes, ghost k: Bytes, ghost l: Bytes)
    requires obuf != buf && Setting(obuf, buf, rk, s, k, 5) && NextKey(rk, l, 5)
    modifies obuf
    ensures State(s, 5) && State(k, 5) && State(l, 5) && obuf[..20] == Last(s, k, l, 5)
    ensures obuf[20..] == old(obuf[20..])
  {
    hide *;
    Begin(obuf, buf, rk, s, k, 5);
    BeginLast(rk, l, 5);
    ghost var rest := obuf[20..];
    NoColumns(obuf[..], Last(s, k, l, 5), 5, 0);
    FinalColumn(obuf, buf, rk, 0, 7, 0, 7, 1, 15, 5, 14,
                2, 23, 10, 21, 3, 31, 15, 28, s, k, l, 5, 0, 0, rest);
    FinalColumn(obuf, buf, rk, 4, 6, 4, 6, 5, 14, 9, 13,
                6, 22, 14, 20, 7, 30, 19, 27, s, k, l, 5, 0, 1, rest);
    FinalColumn(obuf, buf, rk, 8, 5, 8, 5, 9, 13, 13, 12,
                10, 21, 18, 19, 11, 29, 3, 31, s, k, l, 5, 0, 2, rest);
    FinalColumn(obuf, buf, rk, 12, 4, 12, 4, 13, 12, 17, 11,
                14, 20, 2, 23, 15, 28, 7, 30, s, k, l, 5, 0, 3, rest);
    FinalColumn(obuf, buf, rk, 16, 3, 16, 3, 17, 11, 1, 15,
                18, 19, 6, 22, 19, 27, 11, 29, s, k, l, 5, 0, 4, rest);
    AllColumns(obuf[..], Last(s, k, l, 5), 5);
  }

  /** Rijndael192::Final. */
  method Final192(obuf: array<bv8>, buf: array<bv8>, rk: Bytes, ghost s: Bytes, ghost k: Bytes, ghost l: Bytes)
    requires obuf != buf && Setting(obuf, buf, rk, s, k, 6) && NextKey(rk, l, 6)
    modifies obuf
    ensures State(s, 6) && State(k, 6) && State(l, 6) && obuf[..24] == Last(s, k, l, 6)
    ensures obuf[24..] == old(obuf[24..])
  {
    hide *;
    Begin(obuf, buf, rk, s, k, 6);
    BeginLast(rk, l, 6);
    ghost var rest := obuf[24..];
    NoColumns(obuf[..], Last(s, k, l, 6), 6, 0);
    FinalColumn(obuf, buf, rk, 0, 7, 0, 7, 1, 15, 5, 14,
                2, 23, 10, 21, 3, 31, 15, 28, s, k, l, 6, 0, 0, rest);
    FinalColumn(obuf, buf, rk, 4, 6, 4, 6, 5, 14, 9, 13,
                6, 22, 14, 20, 7, 30, 19, 27, s, k, l, 6, 0, 1, rest);
    FinalColumn(obuf, buf, rk, 8, 5, 8, 5, 9, 13, 13, 12,
                10, 21, 18, 19, 11, 29, 23, 26, s, k, l, 6, 0, 2, rest);
    FinalColumn(obuf, buf, rk, 12, 4, 12, 4, 13, 12, 17, 11,
                14, 20, 22, 18, 15, 28, 3, 31, s, k, l, 6, 0, 3, rest);
    FinalColumn(obuf, buf, rk, 16, 3, 16, 3, 17, 11, 21, 10,
                18, 19, 2, 23, 19, 27, 7, 30, s, k, l, 6, 0, 4, rest);
    FinalColumn(obuf, buf, rk, 20, 2, 20, 2, 21, 10, 1, 15,
                22, 18, 6, 22, 23, 26, 11, 29, s, k, l, 6, 0, 5, rest);
    AllColumns(obuf[..], Last(s, k, l, 6), 6);
  }

  /** Rijndael224::Final. */
  method Final224(obuf: array<bv8>, buf: array<bv8>, rk: Bytes, ghost s: Bytes, ghost k: Bytes, ghost l: Bytes)
    requires obuf != buf && Setting(obuf, buf, rk, s, k, 7) && NextKey(rk, l, 7)
    modifies obuf
    ensures State(s, 7) && State(k, 7) && State(l, 7) && obuf[..28] == Last(s, k, l, 7)
    ensures obuf[28..] == old(obuf[28..])
  {
    hide *;
    Begin(obuf, buf, rk, s, k, 7);
    BeginLast(rk, l, 7);
    ghost var rest := obuf[28..];
    NoColumns(obuf[..], Last(s, k, l, 7), 7, 0);
    FinalColumn(obuf, buf, rk, 0, 7, 0, 7, 1, 15, 5, 14,
                2, 23, 10, 21, 3, 31, 19, 27, s, k, l, 7, 0, 0, rest);
    FinalColumn(obuf, buf, rk, 4, 6, 4, 6, 5, 14, 9, 13,
                6, 22, 14, 20, 7, 30, 23, 26, s, k, l, 7, 0, 1, rest);
    FinalColumn(obuf, buf, rk, 8, 5, 8, 5, 9, 13, 13, 12,
                10, 21, 18, 19, 11, 29, 27, 25, s, k, l, 7, 0, 2, rest);
    FinalColumn(obuf, buf, rk, 12, 4, 12, 4, 13, 12, 17, 11,
                14, 20, 22, 18, 15, 28, 3, 31, s, k, l, 7, 0, 3, rest);
    FinalColumn(obuf, buf, rk, 16, 3, 16, 3, 17, 11, 21, 10,
                18, 19, 26, 17, 19, 27, 7, 30, s, k, l, 7, 0, 4, rest);
    FinalColumn(obuf, buf, rk, 20, 2, 20, 2, 21, 10, 25, 9,
                22, 18, 2, 23, 23, 26, 11, 29, s, k, l, 7, 0, 5, rest);
    FinalColumn(obuf, buf, rk, 24, 1, 24, 1, 25, 9, 1, 15,
                26, 17, 6, 22, 27, 25, 15, 28, s, k, l, 7, 0, 6, rest);
    AllColumns(obuf[..], Last(s, k, l, 7), 7);
  }

  /** Rijndael256::Final. */
  method Final256(obuf: array<bv8>, buf: array<bv8>, rk: Bytes, ghost s: Bytes, ghost k: Bytes, ghost l: Bytes)
    requires obuf != buf && Setting(obuf, buf, rk, s, k, 8) && NextKey(rk, l, 8)
    modifies obuf
    ensures State(s, 8) && State(k, 8) && State(l, 8) && obuf[..32] == Last(s, k, l, 8)
    ensures obuf[32..] == old(obuf[32..])
  {
    hide *;
    Begin(obuf, buf, rk, s, k, 8);
    BeginLast(rk, l, 8);
    ghost var rest := obuf[32..];
    NoColumns(obuf[..], Last(s, k, l, 8), 8, 0);
    FinalColumn(obuf, buf, rk, 0, 7, 0, 7, 1, 15, 5, 14,
                2, 23, 14, 20, 3, 31, 19, 27, s, k, l, 8, 0, 0, rest);
    FinalColumn(obuf, buf, rk, 4, 6, 4, 6, 5, 14, 9, 13,
                6, 22, 18, 19, 7, 30, 23, 26, s, k, l, 8, 0, 1, rest);
    FinalColumn(obuf, buf, rk, 8, 5, 8, 5, 9, 13, 13, 12,
                10, 21, 22, 18, 11, 29, 27, 25, s, k, l, 8, 0, 2, rest);
    FinalColumn(obuf, buf, rk, 12, 4, 12, 4, 13, 12, 17, 11,
                14, 20, 26, 17, 15, 28, 31, 24, s, k, l, 8, 0, 3, rest);
    FinalColumn(obuf, buf, rk, 16, 3, 16, 3, 17, 11, 21, 10,
                18, 19, 30, 16, 19, 27, 3, 31, s, k, l, 8, 0, 4, rest);
    FinalColumn(obuf, buf, rk, 20, 2, 20, 2, 21, 10, 25, 9,
                22, 18, 2, 23, 23, 26, 7, 30, s, k, l, 8, 0, 5, rest);
    FinalColumn(obuf, buf, rk, 24, 1, 24, 1, 25, 9, 29, 8,
                26, 17, 6, 22, 27, 25, 11, 29, s, k, l, 8, 0, 6, rest);
    FinalColumn(obuf, buf, rk, 28, 0, 28, 0, 29, 8, 1, 15,
                30, 16, 10, 21, 31, 24, 15, 28, s, k, l, 8, 0, 7, rest);
    AllColumns(obuf[..], Last(s, k, l, 8), 8);
  }

  // ---------------------------------------------------------------- the key schedule

  /** The largest schedule takes 29 groups after the key: the table is long enough. */
  lemma GroupBound(nk: nat, nb: nat, g: nat)
    requires 4 <= nk <= 8 && Columns(nb) && (g + 1) * nk < (RoundCount(nk, nb) + 1) * nb
    ensures g < 29
  {
    var n := (RoundCount(nk, nb) + 1) * nb;
    if nb == 4 {
      assert n <= 60;
    } else if nb == 5 {
      assert n <= 75;
    } else if nb == 6 {
      assert n <= 90;
    } else if nb == 7 {
      assert n <= 105;
    } else {
      assert n <= 120;
    }
    if nk == 4 {
      assert (g + 1) * nk == 4 * (g + 1);
    } else if nk == 5 {
      assert (g + 1) * nk == 5 * (g + 1);
    } else if nk == 6 {
      assert (g + 1) * nk == 6 * (g + 1);
    } else if nk == 7 {
      assert (g + 1) * nk == 7 * (g + 1);
    } else {
      assert (g + 1) * nk == 8 * (g + 1);
    }
  }

  /** Column j of tk. */
  function TkCol(tk: array2<bv8>, j: nat): Col
    requires tk.Length0 == 4 && j < tk.Length1
    reads tk
  {
    Col(tk[0, j], tk[1, j], tk[2, j], tk[3, j])
  }

  method SetCol(tk: array2<bv8>, j: nat, x: Col)
    requires tk.Length0 == 4 && j < tk.Length1
    modifies tk
    ensures TkCol(tk, j) == x
    ensures forall k :: 0 <= k < tk.Length1 && k != j ==> TkCol(tk, k) == old(TkCol(tk, k))
  {
    tk[0, j], tk[1, j], tk[2, j], tk[3, j] := x.b0, x.b1, x.b2, x.b3;
  }

  /** tk holds group g of the schedule up to column n, and the group before it from there on. */
  ghost predicate Group(tk: array2<bv8>, key: Bytes, nk: nat, g: nat, n: nat)
    requires Key(key, nk)
    reads tk
  {
    && tk.Length0 == 4 && tk.Length1 == 8 && n <= nk && (n < nk ==> g > 0)
    && (forall j :: 0 <= j < n ==> TkCol(tk, j) == Word(key, nk, WordAt(nk, g, j)))
    && (forall j :: n <= j < nk ==> TkCol(tk, j) == Word(key, nk, WordAt(nk, g - 1, j)))
  }

  function WordAt(nk: nat, g: nat, j: nat): nat { g * nk + j }

  /** for (i < 4) tk[i][j] ^= tk[i][j - 1]. */
  method XorPrevious(tk: array2<bv8>, j: nat, ghost key: Bytes, ghost nk: nat, ghost g: nat)
    requires Key(key, nk) && 0 < j < nk && g > 0 && Group(tk, key, nk, g, j) && (nk <= 6 || j != 4)
    modifies tk
    ensures Group(tk, key, nk, g, j + 1)
  {
    hide Word, XorCol;
    LaterWord(key, nk, g, j);
    SetCol(tk, j, XorCol(TkCol(tk, j), TkCol(tk, j - 1)));
  }

  /** for (i < 4) tk[i][4] ^= S[tk[i][3]]. */
  method XorSubstituted(tk: array2<bv8>, ghost key: Bytes, ghost nk: nat, ghost g: nat)
    requires Key(key, nk) && nk > 6 && g > 0 && Group(tk, key, nk, g, 4)
    modifies tk
    ensures Group(tk, key, nk, g, 5)
  {
    hide Word, XorCol, SubCol;
    LaterWord(key, nk, g, 4);
    SetCol(tk, 4, XorCol(TkCol(tk, 4), SubCol(TkCol(tk, 3))));
  }

  lemma LaterWord(key: Bytes, nk: nat, g: nat, j: nat)
    requires Key(key, nk) && 0 < j < nk && g > 0
    ensures Word(key, nk, WordAt(nk, g, j))
         == XorCol(Word(key, nk, WordAt(nk, g - 1, j)),
                   if nk > 6 && j == 4 then SubCol(Word(key, nk, WordAt(nk, g, j - 1)))
                   else Word(key, nk, WordAt(nk, g, j - 1)))
  {
    hide Word, XorCol, SubCol;
    Division(WordAt(nk, g, j), g, j, nk);
    GroupBefore(nk, g, j);
    LaterWordAt(key, nk, WordAt(nk, g, j), j);
  }

  lemma GroupBefore(nk: nat, g: nat, j: nat)
    requires g > 0
    ensures nk <= WordAt(nk, g, j) && WordAt(nk, g, j) - nk == WordAt(nk, g - 1, j)
    ensures j > 0 ==> WordAt(nk, g, j) - 1 == WordAt(nk, g, j - 1)
  {
    assert g * nk == (g - 1) * nk + nk;
  }

  lemma GroupEnd(nk: nat, g: nat)
    requires nk > 0
    ensures WordAt(nk, g + 1, 0) - 1 == WordAt(nk, g, nk - 1) && WordAt(nk, g + 1, 0) == (g + 1) * nk
  {}

  lemma LaterWordAt(key: Bytes, nk: nat, t: nat, j: nat)
    requires Key(key, nk) && nk <= t && t % nk == j && 0 < j
    ensures Word(key, nk, t)
         == XorCol(Word(key, nk, t - nk),
                   if nk > 6 && j == 4 then SubCol(Word(key, nk, t - 1)) else Word(key, nk, t - 1))
  {
    hide XorCol, SubCol, ColAt;
  }

  /** The first column of the next group. */
  method NextGroup(tk: array2<bv8>, ri: nat, nk: nat, ghost key: Bytes)
    requires Key(key, nk) && Group(tk, key, nk, ri, nk) && ri < 29
    modifies tk
    ensures Group(tk, key, nk, ri + 1, 1)
  {
    hide Word, XorCol, SubCol, RotCol, RconCol, WordAt;
    ghost var first, last := TkCol(tk, 0), TkCol(tk, nk - 1);
    GroupEnd(nk, ri);
    FirstWord(key, nk, WordAt(nk, ri + 1, 0), ri);
    GroupBefore(nk, ri + 1, 0);
    XorColAssoc(first, SubCol(RotCol(last)), RconCol(ri + 1));
    SetCol(tk, 0, XorCol(TkCol(tk, 0), SubCol(RotCol(TkCol(tk, nk - 1)))));
    RconTableIs(ri);
    RconRow(TkCol(tk, 0), ri + 1);
    tk[0, 0] := XorByte(tk[0, 0], RconTable(ri));
  }

  /** Only the first row of a column is touched by the round constant. */
  lemma RconRow(x: Col, i: nat)
    requires i > 0
    ensures XorCol(x, RconCol(i)) == Col(XorByte(x.b0, Rcon(i)), x.b1, x.b2, x.b3)
  {
    hide XorByte;
    XorByteUnit(x.b1);
    XorByteUnit(x.b2);
    XorByteUnit(x.b3);
  }

  /** One pass of the expansion loop, up to the storing. */
  method ExpandGroup(tk: array2<bv8>, ri: nat, nk: nat, ghost key: Bytes)
    requires Key(key, nk) && Group(tk, key, nk, ri, nk) && ri < 29
    modifies tk
    ensures Group(tk, key, nk, ri + 1, nk)
  {
    hide Group;
    NextGroup(tk, ri, nk, key);
    if nk <= 6 {
      for j := 1 to nk
        invariant Group(tk, key, nk, ri + 1, j)
      {
        XorPrevious(tk, j, key, nk, ri + 1);
      }
    } else {
      for j := 1 to 4
        invariant Group(tk, key, nk, ri + 1, j)
      {
        XorPrevious(tk, j, key, nk, ri + 1);
      }
      XorSubstituted(tk, key, nk, ri + 1);
      for j := 5 to nk
        invariant Group(tk, key, nk, ri + 1, j)
      {
        XorPrevious(tk, j, key, nk, ri + 1);
      }
    }
  }

  /** Column c of round key q, as word number q nb + c of the schedule. */
  function Place(nb: nat, q: nat, c: nat): nat { q * nb + c }

  /** The first n words of the schedule are in the rows of m_rk, and nothing else is. */
  ghost predicate Stored(rk: array2<Row>, key: Bytes, nk: nat, nb: nat, n: nat)
    requires Key(key, nk)
    reads rk
  {
    && rk.Length0 == 15 && rk.Length1 == 4 && Columns(nb)
    && forall q, i, c :: 0 <= q < 15 && 0 <= i < 4 && 0 <= c < 8 ==>
         rk[q, i][c] == if c < nb && Place(nb, q, c) < n then ColByte(Word(key, nk, Place(nb, q, c)), i) else 0
  }

  /** m_rk[t / m_nb][i] |= uint64_t(tk[i][j]) << ((t * 8) % m_bc), for the four rows. */
  method StoreColumn(rk: array2<Row>, t: nat, nb: nat, x: Col, ghost key: Bytes, ghost nk: nat)
    requires Key(key, nk) && Stored(rk, key, nk, nb, t) && t < 15 * nb && x == Word(key, nk, t)
    modifies rk
    ensures Stored(rk, key, nk, nb, t + 1)
  {
    hide Word, ColByte, PutByte;
    var q, c := t / nb, (t * 8) % (8 * nb) / 8;
    ColumnOf(t, nb);
    QuotientBelow(t, nb, 15);
    assert Place(nb, q, c) == t;
    PutByteAt(rk[q, 0], c, x.b0);
    PutByteAt(rk[q, 1], c, x.b1);
    PutByteAt(rk[q, 2], c, x.b2);
    PutByteAt(rk[q, 3], c, x.b3);
    ColBytes(x);
    rk[q, 0], rk[q, 1] := PutByte(rk[q, 0], c, x.b0), PutByte(rk[q, 1], c, x.b1);
    rk[q, 2], rk[q, 3] := PutByte(rk[q, 2], c, x.b2), PutByte(rk[q, 3], c, x.b3);
    forall p, i, d | 0 <= p < 15 && 0 <= i < 4 && 0 <= d < 8
      ensures rk[p, i][d] == if d < nb && Place(nb, p, d) < t + 1 then ColByte(Word(key, nk, Place(nb, p, d)), i) else 0
    {
      if d < nb && Place(nb, p, d) == t {
        OnePlace(nb, p, d, q, c);
      }
    }
  }

  lemma ColBytes(x: Col)
    ensures ColByte(x, 0) == x.b0 && ColByte(x, 1) == x.b1 && ColByte(x, 2) == x.b2 && ColByte(x, 3) == x.b3
  {}

  lemma ColumnOf(t: nat, nb: nat)
    requires Columns(nb)
    ensures (t * 8) % (8 * nb) / 8 == t % nb < nb && Place(nb, t / nb, t % nb) == t
  {
    assert t == (t / nb) * nb + t % nb;
    assert t * 8 == (t / nb) * (8 * nb) + 8 * (t % nb);
    Division(t * 8, t / nb, 8 * (t % nb), 8 * nb);
  }

  lemma OnePlace(nb: nat, p: nat, d: nat, q: nat, c: nat)
    requires d < nb && c < nb && Place(nb, p, d) == Place(nb, q, c)
    ensures p == q && d == c
  {
    Division(Place(nb, p, d), p, d, nb);
    Division(Place(nb, q, c), q, c, nb);
  }

  /** The rows of round key q. */
  function KeyRows(rk: array2<Row>, q: nat): Rows
    requires rk.Length0 == 15 && rk.Length1 == 4 && q < 15
    reads rk
  {
    Rows(rk[q, 0], rk[q, 1], rk[q, 2], rk[q, 3])
  }

  lemma StoredKey(rk: array2<Row>, key: Bytes, nk: nat, nb: nat, n: nat, q: nat)
    requires Key(key, nk) && Stored(rk, key, nk, nb, n) && q < 15 && Place(nb, q + 1, 0) <= n
    ensures Holds(KeyRows(rk, q), RoundKey(key, nk, nb, q), nb)
  {
    hide Word, ColByte, RoundKey, At;
    forall c, r | 0 <= c < nb && 0 <= r < 4
      ensures rk[q, r][c] == At(RoundKey(key, nk, nb, q), nb, c, r)
    {
      RoundKeyAt(key, nk, nb, q, c, r);
      BeforeNext(nb, q, c);
    }
  }

  lemma BeforeNext(nb: nat, q: nat, c: nat)
    requires c < nb
    ensures Place(nb, q, c) < Place(nb, q + 1, 0)
  {}

  /** The bytes of m_rkb that Encrypt uses are the round keys. */
  ghost predicate Copied(rkb: Bytes, key: Bytes, nk: nat, nb: nat, n: nat)
    requires Key(key, nk)
  {
    && |rkb| == 480 && Columns(nb) && n <= 15
    && forall q :: 0 <= q < n ==> KeyBytes(rkb[32 * q..32 * q + 32], RoundKey(key, nk, nb, q), nb)
  }

  class Rijndael {
    const nb: nat
    const rk: array2<Row>
    const rkb: array<bv8>
    var nk: nat
    var nr: nat
    ghost var key: Bytes

    constructor (nb: nat)
      requires Columns(nb)
      ensures Ready() && fresh(rk) && fresh(rkb) && this.nb == nb
    {
      this.nb := nb;
      rk := new Row[15, 4]((i, j) => NoRow());
      rkb := new bv8[480](i => 0);
      nk, nr := 0, 0;
      key := [];
    }

    ghost predicate Ready() {
      Columns(nb) && rk.Length0 == 15 && rk.Length1 == 4 && rkb.Length == 480
    }

    ghost predicate Keyed()
      reads this, rk, rkb
    {
      && Ready() && Key(key, nk) && nr == RoundCount(nk, nb)
      && Stored(rk, key, nk, nb, Place(nb, nr + 1, 0)) && Copied(rkb[..], key, nk, nb, nr + 1)
    }

    /** SetKeyInternal: every word of the schedule is stored once, and the expansion stops with the last round key. */
    method SetKey(k: Bytes)
      requires Ready() && (|k| == 16 || |k| == 20 || |k| == 24 || |k| == 28 || |k| == 32)
      modifies this, rk, rkb
      ensures Keyed() && key == k && nk == |k| / 4
    {
      hide Stored, Copied;
      nk := |k| / 4;
      nr := 6 + if nb > nk then nb else nk;
      key := k;
      Expand(k);
      CopyKeys();
    }

    /** The words of the schedule, a group of nk at a time. */
    method Expand(k: Bytes)
      requires Ready() && Key(k, nk) && nr == RoundCount(nk, nb)
      modifies rk
      ensures Stored(rk, k, nk, nb, Place(nb, nr + 1, 0))
    {
      var tk := FillColumns(k, nk);
      Clear(k);
      hide Word, Stored, Group;
      var total := (nr + 1) * nb;
      TotalWords(nk, nb);
      var t := StoreGroup(tk, 0, total, k, 0);
      var ri := 0;
      while t < total
        invariant Group(tk, k, nk, ri, nk) && Stored(rk, k, nk, nb, t) && t <= total
        invariant t == (ri + 1) * nk || t == total
        decreases total - t
      {
        GroupBound(nk, nb, ri);
        ExpandGroup(tk, ri, nk, k);
        ri := ri + 1;
        GroupEnd(nk, ri);
        t := StoreGroup(tk, t, total, k, ri);
      }
    }

    /** The columns of tk that still fit. */
    method StoreGroup(tk: array2<bv8>, from: nat, total: nat, ghost k: Bytes, ghost g: nat) returns (t: nat)
      requires Ready() && Key(k, nk) && Group(tk, k, nk, g, nk) && Stored(rk, k, nk, nb, from)
      requires from == g * nk && from < total <= 15 * nb
      modifies rk
      ensures Stored(rk, k, nk, nb, t) && Group(tk, k, nk, g, nk) && from < t <= total
      ensures t == (g + 1) * nk || t == total
    {
      hide Word, Stored;
      t := from;
      var j := 0;
      while j < nk && t < total
        invariant j <= nk && t == from + j <= total && Stored(rk, k, nk, nb, t) && Group(tk, k, nk, g, nk)
      {
        assert TkCol(tk, j) == Word(k, nk, WordAt(nk, g, j));
        StoreColumn(rk, t, nb, TkCol(tk, j), k, nk);
        j := j + 1;
        t := t + 1;
      }
    }

    /** memset(m_rk, 0). */
    method Clear(ghost k: Bytes)
      requires Ready() && Key(k, nk)
      modifies rk
      ensures Stored(rk, k, nk, nb, 0)
    {
      forall q, i | 0 <= q < 15 && 0 <= i < 4 {
        rk[q, i] := NoRow();
      }
    }

    /** E::Copy of the rows into m_rkb, highest byte first. */
    method CopyKeys()
      requires Ready() && Key(key, nk) && nr == RoundCount(nk, nb) && Stored(rk, key, nk, nb, Place(nb, nr + 1, 0))
      modifies rkb
      ensures Copied(rkb[..], key, nk, nb, nr + 1)
    {
      hide Word, RoundKey, Stored, KeyBytes;
      for q := 0 to nr + 1
        invariant Copied(rkb[..], key, nk, nb, q)
      {
        PlaceLater(nb, q + 1, nr + 1);
        StoredKey(rk, key, nk, nb, Place(nb, nr + 1, 0), q);
        ghost var was := rkb[..];
        CopyKey(q);
        forall p | 0 <= p < q + 1
          ensures KeyBytes(rkb[32 * p..32 * p + 32], RoundKey(key, nk, nb, p), nb)
        {
          if p < q {
            assert rkb[32 * p..32 * p + 32] == was[32 * p..32 * p + 32];
          }
        }
      }
    }

    method CopyKey(q: nat)
      requires Ready() && Key(key, nk) && q < 15 && Holds(KeyRows(rk, q), RoundKey(key, nk, nb, q), nb)
      modifies rkb
      ensures KeyBytes(rkb[32 * q..32 * q + 32], RoundKey(key, nk, nb, q), nb)
      ensures forall u :: 0 <= u < 480 && !(32 * q <= u < 32 * q + 32) ==> rkb[u] == old(rkb[u])
    {
      hide RoundKey, At;
      forall i, c | 0 <= i < 4 && 0 <= c < 8 {
        rkb[32 * q + (8 * i + (7 - c))] := rk[q, i][c];
      }
    }

    /** Round of the block size, with round key i. */
    method Round(obuf: array<bv8>, buf: array<bv8>, part: Bytes, ghost s: Bytes, ghost k: Bytes)
      requires Ready() && obuf != buf && Setting(obuf, buf, part, s, k, nb)
      modifies obuf
      ensures State(s, nb) && State(k, nb) && obuf[..4 * nb] == Mixed(s, k, nb) && obuf[4 * nb..] == old(obuf[4 * nb..])
    {
      hide Setting, Mixed;
      if nb == 4 {
        Round128(obuf, buf, part, s, k);
      } else if nb == 5 {
        Round160(obuf, buf, part, s, k);
      } else if nb == 6 {
        Round192(obuf, buf, part, s, k);
      } else if nb == 7 {
        Round224(obuf, buf, part, s, k);
      } else {
        Round256(obuf, buf, part, s, k);
      }
    }

    /** Final of the block size. */
    method Final(obuf: array<bv8>, buf: array<bv8>, part: Bytes, ghost s: Bytes, ghost k: Bytes, ghost l: Bytes)
      requires Ready() && obuf != buf && Setting(obuf, buf, part, s, k, nb) && NextKey(part, l, nb)
      modifies obuf
      ensures State(s, nb) && State(k, nb) && State(l, nb)
      ensures obuf[..4 * nb] == Last(s, k, l, nb) && obuf[4 * nb..] == old(obuf[4 * nb..])
    {
      hide Setting, Last, NextKey;
      if nb == 4 {
        Final128(obuf, buf, part, s, k, l);
      } else if nb == 5 {
        Final160(obuf, buf, part, s, k, l);
      } else if nb == 6 {
        Final192(obuf, buf, part, s, k, l);
      } else if nb == 7 {
        Final224(obuf, buf, part, s, k, l);
      } else {
        Final256(obuf, buf, part, s, k, l);
      }
    }

    /** The state before key i is added, after i rounds of the block x. */
    ghost predicate Before(s: Bytes, x: Bytes, i: nat)
      reads this
    {
      && Columns(nb) && Key(key, nk) && nr == RoundCount(nk, nb) && i < nr && State(s, nb) && State(x, nb)
      && AddKey(s, RoundKeys(key, nk, nb)[i]) == Rounds(x, RoundKeys(key, nk, nb), nb, i)
    }

    lemma RoundStep(s: Bytes, x: Bytes, i: nat)
      requires Before(s, x, i) && i + 1 < nr
      ensures Before(Mixed(s, RoundKeys(key, nk, nb)[i], nb), x, i + 1)
    {
      hide AddKey, MixColumns, ShiftRows, SubBytes, RoundKeys;
    }

    lemma LastStep(s: Bytes, x: Bytes)
      requires 0 < nr && Before(s, x, nr - 1)
      ensures Last(s, RoundKeys(key, nk, nb)[nr - 1], RoundKeys(key, nk, nb)[nr], nb)
           == RijndaelSpec.Encrypt(x, RoundKeys(key, nk, nb), nb, nr)
    {
      hide AddKey, ShiftRows, SubBytes, RoundKeys, Rounds;
    }

    /** What a round finds in buf and m_rkb. */
    lemma Ready32(obuf: array<bv8>, buf: array<bv8>, i: nat)
      requires Keyed() && i <= nr && 4 * nb <= obuf.Length && 4 * nb <= buf.Length
      ensures 32 * i + 32 <= 480
      ensures Setting(obuf, buf, rkb[32 * i..32 * i + 32], buf[..4 * nb], RoundKeys(key, nk, nb)[i], nb)
    {
      hide Stored, RoundKey, At;
      assert RoundKeys(key, nk, nb)[i] == RoundKey(key, nk, nb, i);
    }

    lemma Ready64(obuf: array<bv8>, buf: array<bv8>)
      requires Keyed() && 4 * nb <= obuf.Length && 4 * nb <= buf.Length
      ensures 0 < nr <= 14
      ensures Setting(obuf, buf, rkb[32 * (nr - 1)..32 * nr + 32], buf[..4 * nb], RoundKeys(key, nk, nb)[nr - 1], nb)
      ensures NextKey(rkb[32 * (nr - 1)..32 * nr + 32], RoundKeys(key, nk, nb)[nr], nb)
    {
      hide Stored, RoundKey, At;
      var a := 32 * (nr - 1);
      assert RoundKeys(key, nk, nb)[nr - 1] == RoundKey(key, nk, nb, nr - 1);
      assert RoundKeys(key, nk, nb)[nr] == RoundKey(key, nk, nb, nr);
      assert rkb[a..a + 64][32..] == rkb[32 * nr..32 * nr + 32];
      assert rkb[a..a + 64][..32] == rkb[a..a + 32];
      LongerKey(rkb[a..a + 64], rkb[a..a + 32], RoundKey(key, nk, nb, nr - 1), nb);
    }

    lemma Begins(x: Bytes)
      requires Keyed() && |x| == 4 * nb
      ensures Before(x, x, 0) && nr <= 14
    {
      hide Stored, Copied, AddKey, RoundKey;
    }

    /** EncryptBlock: rounds from p into q, the buffers changing places. */
    method EncryptBlock(state: array<bv8>)
      requires Keyed() && 4 * nb <= state.Length && state != rkb
      modifies state
      ensures State(old(state[..4 * nb]), nb) && Keys(RoundKeys(key, nk, nb), nb, nr)
      ensures state[..4 * nb] == RijndaelSpec.Encrypt(old(state[..4 * nb]), RoundKeys(key, nk, nb), nb, nr)
      ensures state[4 * nb..] == old(state[4 * nb..])
    {
      hide *;
      ghost var x, rest := state[..4 * nb], state[4 * nb..];
      Begins(x);
      var buf := new bv8[32](i => 0);
      Sizes(state, buf);
      var p, q, i := state, buf, 0;
      while i < nr - 1
        invariant i <= nr - 1 && ((p == state && q == buf) || (p == buf && q == state))
        invariant Before(p[..4 * nb], x, i) && state[4 * nb..] == rest
        invariant rkb[..] == old(rkb[..])
      {
        Ready32(q, p, i);
        RoundStep(p[..4 * nb], x, i);
        Round(q, p, rkb[32 * i..32 * i + 32], p[..4 * nb], RoundKeys(key, nk, nb)[i]);
        p, q := q, p;
        i := i + 1;
      }
      Ready64(q, p);
      LastStep(p[..4 * nb], x);
      Final(q, p, rkb[32 * (nr - 1)..32 * nr + 32], p[..4 * nb], RoundKeys(key, nk, nb)[nr - 1],
            RoundKeys(key, nk, nb)[nr]);
      if q != state {
        StoreAt(state, 0, q[..4 * nb]);
        assert state[..4 * nb] == state[0..0 + |q[..4 * nb]|];
      }
    }

    lemma Sizes(state: array<bv8>, buf: array<bv8>)
      requires Keyed() && 4 * nb <= state.Length && buf.Length == 32
      ensures Ready() && Key(key, nk) && Columns(nb) && 4 * nb <= 32 && 10 <= nr <= 14 && nr == RoundCount(nk, nb)
      ensures rkb.Length == 480
      ensures State(state[..4 * nb], nb) && Keys(RoundKeys(key, nk, nb), nb, nr) && |RoundKeys(key, nk, nb)| == nr + 1
    {
      hide Stored, Copied;
    }

    /** Encrypt: in place after a copy; out may be inp. */
    method Encrypt(out: array<bv8>, inp: array<bv8>)
      requires Keyed() && 4 * nb <= out.Length && 4 * nb <= inp.Length && out != rkb
      modifies out
      ensures State(old(inp[..4 * nb]), nb) && Keys(RoundKeys(key, nk, nb), nb, nr)
      ensures out[..4 * nb] == RijndaelSpec.Encrypt(old(inp[..4 * nb]), RoundKeys(key, nk, nb), nb, nr)
      ensures out[4 * nb..] == old(out[4 * nb..])
    {
      hide *;
      ghost var x, rest := inp[..4 * nb], out[4 * nb..];
      StoreAt(out, 0, inp[..4 * nb]);
      assert out[..4 * nb] == out[0..0 + |x|] == x && out[4 * nb..] == rest;
      EncryptBlock(out);
    }

    /** What decryption still has to do after the state has lost key i + 1 and the substitution and shifts of that
        round. */
    ghost predicate Undone(s: Bytes, x: Bytes, i: nat)
      reads this
    {
      && Columns(nb) && Key(key, nk) && nr == RoundCount(nk, nb) && i < nr && State(s, nb) && State(x, nb)
      && InvRounds(s, RoundKeys(key, nk, nb), nb, i) == RijndaelSpec.Decrypt(x, RoundKeys(key, nk, nb), nb, nr)
    }

    lemma KeyHeld(i: nat)
      requires Keyed() && i <= nr
      ensures nr == RoundCount(nk, nb) <= 14 && |RoundKeys(key, nk, nb)| == nr + 1
      ensures State(RoundKeys(key, nk, nb)[i], nb) && Holds(KeyRows(rk, i), RoundKeys(key, nk, nb)[i], nb)
    {
      hide Stored, RoundKey, Copied;
      PlaceLater(nb, i + 1, nr + 1);
      StoredKey(rk, key, nk, nb, Place(nb, nr + 1, 0), i);
      assert RoundKeys(key, nk, nb)[i] == RoundKey(key, nk, nb, i);
    }

    lemma KeyIs(i: nat)
      requires Keyed() && i <= nr
      ensures Key(key, nk) && Columns(nb) && i < |RoundKeys(key, nk, nb)|
      ensures RoundKeys(key, nk, nb)[i] == RoundKey(key, nk, nb, i)
    {
      hide Stored, Copied, RoundKey;
    }

    lemma UndoFirst(x: Bytes)
      requires Keyed() && State(x, nb)
      ensures State(AddKey(x, RoundKeys(key, nk, nb)[nr]), nb)
      ensures Undone(InvShiftRows(InvSubBytes(AddKey(x, RoundKeys(key, nk, nb)[nr])), nb), x, nr - 1)
    {
      hide Stored, Copied, AddKey, InvShiftRows, InvSubBytes, InvRounds, RoundKey;
      InvSubShift(AddKey(x, RoundKeys(key, nk, nb)[nr]), nb);
    }

    lemma UndoRound(s: Bytes, x: Bytes, i: nat)
      requires Undone(s, x, i) && 0 < i
      ensures var k := RoundKeys(key, nk, nb)[i];
              && State(AddKey(s, k), nb)
              && Undone(InvShiftRows(InvSubBytes(InvMixColumns(AddKey(s, k), nb)), nb), x, i - 1)
    {
      hide AddKey, InvShiftRows, InvSubBytes, InvMixColumns, RoundKeys, RijndaelSpec.Decrypt;
      var k := RoundKeys(key, nk, nb)[i];
      InvSubShift(InvMixColumns(AddKey(s, k), nb), nb);
    }

    lemma UndoLast(s: Bytes, x: Bytes)
      requires Undone(s, x, 0)
      ensures AddKey(s, RoundKeys(key, nk, nb)[0]) == RijndaelSpec.Decrypt(x, RoundKeys(key, nk, nb), nb, nr)
    {
      hide AddKey, RoundKeys, RijndaelSpec.Decrypt;
    }

    /** DecryptBlock on packed rows. */
    method DecryptBlock(w: Rows, ghost x: Bytes) returns (v: Rows)
      requires Keyed() && State(x, nb) && Holds(w, x, nb)
      ensures Keys(RoundKeys(key, nk, nb), nb, nr)
      ensures Holds(v, RijndaelSpec.Decrypt(x, RoundKeys(key, nk, nb), nb, nr), nb)
    {
      hide *;
      KeysHeld();
      ghost var keys := RoundKeys(key, nk, nb);
      KeyHeld(nr);
      AddKeyState(x, keys[nr], nb);
      UndoFirst(x);
      KeyAdditionIs(w, KeyRows(rk, nr), x, keys[nr], nb);
      ghost var s := AddKey(x, keys[nr]);
      v := KeyAddition(w, KeyRows(rk, nr));
      v := Substitution(v, nb, s);
      v := ShiftRow(v, nb, InvSubBytes(s));
      s := InvShiftRows(InvSubBytes(s), nb);
      var i: nat := nr - 1;
      while i > 0
        invariant i < nr && State(s, nb) && Holds(v, s, nb) && Undone(s, x, i)
      {
        KeyHeld(i);
        AddKeyState(s, keys[i], nb);
        UndoRound(s, x, i);
        KeyAdditionIs(v, KeyRows(rk, i), s, keys[i], nb);
        v := KeyAddition(v, KeyRows(rk, i));
        v := InvMixColumn(v, nb, AddKey(s, keys[i]));
        ghost var m := InvMixColumns(AddKey(s, keys[i]), nb);
        v := Substitution(v, nb, m);
        v := ShiftRow(v, nb, InvSubBytes(m));
        s := InvShiftRows(InvSubBytes(m), nb);
        i := i - 1;
      }
      KeyHeld(0);
      AddKeyState(s, keys[0], nb);
      UndoLast(s, x);
      KeyAdditionIs(v, KeyRows(rk, 0), s, keys[0], nb);
      v := KeyAddition(v, KeyRows(rk, 0));
    }

    lemma KeysHeld()
      requires Keyed()
      ensures Key(key, nk) && Columns(nb) && Keys(RoundKeys(key, nk, nb), nb, nr) && 0 < nr <= 14
      ensures rk.Length0 == 15 && rk.Length1 == 4
    {
      hide Stored, Copied;
    }

    /** Decrypt; out may be inp. */
    method Decrypt(out: array<bv8>, inp: array<bv8>)
      requires Keyed() && 4 * nb <= out.Length && 4 * nb <= inp.Length
      modifies out
      ensures State(old(inp[..4 * nb]), nb) && Keys(RoundKeys(key, nk, nb), nb, nr)
      ensures out[..4 * nb] == RijndaelSpec.Decrypt(old(inp[..4 * nb]), RoundKeys(key, nk, nb), nb, nr)
      ensures out[4 * nb..] == old(out[4 * nb..])
    {
      ghost var x := inp[..4 * nb];
      hide Stored, Copied, Holds, RijndaelSpec.Decrypt, RoundKeys;
      KeysHeld();
      var w := UnpackBlock(inp[..4 * nb], nb);
      w := DecryptBlock(w, x);
      PackBlock(out, w, nb, RijndaelSpec.Decrypt(x, RoundKeys(key, nk, nb), nb, nr));
    }

    /** Decryption on packed rows gives back every block that was encrypted on bytes, for all the block and key
        sizes. */
    method RoundTrip(out: array<bv8>, inp: array<bv8>)
      requires Keyed() && 4 * nb <= out.Length && 4 * nb <= inp.Length && out != rkb
      modifies out
      ensures out[..4 * nb] == old(inp[..4 * nb]) && out[4 * nb..] == old(out[4 * nb..])
    {
      hide *;
      ghost var x := inp[..4 * nb];
      KeysHeld();
      Encrypt(out, inp);
      RijndaelSpec.RoundTrip(x, RoundKeys(key, nk, nb), nb, nr);
      Decrypt(out, out);
    }
  }

  /** Column j of four rows that hold a block. */
  lemma HeldColumn(w: Rows, k: Bytes, j: nat)
    requires State(k, 4) && Holds(w, k, 4) && j < 4
    ensures w.r0[j] == At(k, 4, j, 0) && w.r1[j] == At(k, 4, j, 1)
    ensures w.r2[j] == At(k, 4, j, 2) && w.r3[j] == At(k, 4, j, 3)
  {
    hide At;
  }

  lemma LongerKey(a: Bytes, b: Bytes, k: Bytes, nb: nat)
    requires |a| >= 32 && |b| == 32 && a[..32] == b && KeyBytes(b, k, nb)
    ensures KeyBytes(a, k, nb)
  {
    hide At;
    forall c, r | 0 <= c < nb && 0 <= r < 4
      ensures a[KeyIndex(c, r)] == At(k, nb, c, r)
    {
      assert a[KeyIndex(c, r)] == b[KeyIndex(c, r)];
    }
  }

  lemma PlaceLater(nb: nat, p: nat, q: nat)
    requires p <= q
    ensures Place(nb, p, 0) <= Place(nb, q, 0)
  {
    assert q * nb == p * nb + (q - p) * nb;
  }

  /** The key fits into the schedule, and the schedule into m_rk. */
  lemma TotalWords(nk: nat, nb: nat)
    requires 4 <= nk <= 8 && Columns(nb)
    ensures nk < (RoundCount(nk, nb) + 1) * nb <= 15 * nb
    ensures Place(nb, RoundCount(nk, nb) + 1, 0) == (RoundCount(nk, nb) + 1) * nb
  {
    var n := RoundCount(nk, nb) + 1;
    assert 11 * nb <= n * nb <= 15 * nb;
  }

  /** for (i < len) tk[i % 4][i / 4] = key[i]. */
  method FillColumns(key: Bytes, nk: nat) returns (tk: array2<bv8>)
    requires Key(key, nk)
    ensures fresh(tk) && Group(tk, key, nk, 0, nk)
  {
    hide Word, Group;
    tk := new bv8[4, 8]((i, j) => 0);
    for i := 0 to |key|
      invariant forall u :: 0 <= u < i ==> tk[u % 4, u / 4] == key[u]
    {
      tk[i % 4, i / 4] := key[i];
    }
    forall j | 0 <= j < nk
      ensures TkCol(tk, j) == ColAt(key, j)
    {
      Fourth(j, 0);
      Fourth(j, 1);
      Fourth(j, 2);
      Fourth(j, 3);
    }
    FirstGroup(tk, key, nk);
  }

  lemma Fourth(j: nat, r: nat)
    requires r < 4
    ensures (4 * j + r) % 4 == r && (4 * j + r) / 4 == j
  {}

  lemma FirstGroup(tk: array2<bv8>, key: Bytes, nk: nat)
    requires Key(key, nk) && tk.Length0 == 4 && tk.Length1 == 8
    requires forall j :: 0 <= j < nk ==> TkCol(tk, j) == ColAt(key, j)
    ensures Group(tk, key, nk, 0, nk)
  {
    hide ColAt, TkCol;
  }
}
