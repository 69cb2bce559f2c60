/** Big-endian block counters: the bytewise and the wordwise increments of impl/mode/ctr.cc and gcm-impl.cc. */
module Counter {
  import opened Words

  /** The counter after one increment: plus one, big endian, wrapping at the block length. */
  function Next(c: Bytes): (r: Bytes)
    ensures |r| == |c|
  {
    if |c| == 0 then []
    else
      var last, front := c[|c| - 1], c[..|c| - 1];
      if last == 0xff then Next(front) + [0] else front + [NextByte(last)]
  }

  function NextByte(b: bv8): bv8 { b + 1 }

  function NextN(c: Bytes, k: nat): (r: Bytes)
    ensures |r| == |c|
  {
    if k == 0 then c else Next(NextN(c, k - 1))
  }

  /** increment_counter: bytewise carry from the last byte. */
  method IncrementCounter(ctr: array<bv8>)
    requires ctr.Length > 0
    modifies ctr
    ensures ctr[..] == Next(old(ctr[..]))
  {
    ghost var c := ctr[..];
    var i := ctr.Length - 1;
    ctr[i] := NextByte(ctr[i]);
    var carry := ctr[i] == 0;
    while carry && i > 0
      invariant 0 <= i < ctr.Length
      invariant carry <==> ctr[i] == 0
      invariant forall j :: 0 <= j < i ==> ctr[j] == c[j]
      invariant ctr[i] == NextByte(c[i])
      invariant forall j :: i < j < ctr.Length ==> c[j] == 0xff && ctr[j] == 0
    {
      WrapByte(c[i]);
      i := i - 1;
      ctr[i] := NextByte(ctr[i]);
      carry := ctr[i] == 0;
    }
    WrapByte(c[i]);
    NextShape(c, ctr[..], i);
  }

  lemma WrapByte(b: bv8)
    ensures NextByte(b) == 0 <==> b == 0xff
  {}

  /** Next is determined by the last byte that is not 0xff. */
  lemma {:induction false} NextShape(c: Bytes, r: Bytes, i: nat)
    requires i < |c| == |r|
    requires forall j :: 0 <= j < i ==> r[j] == c[j]
    requires forall j :: i < j < |c| ==> c[j] == 0xff && r[j] == 0
    requires r[i] == NextByte(c[i])
    requires i > 0 ==> c[i] != 0xff
    ensures r == Next(c)
  {
    var m := |c| - 1;
    WrapByte(c[i]);
    if i < m {
      NextShape(c[..m], r[..m], i);
      assert r == r[..m] + [0];
    } else {
      if c[i] == 0xff {
        assert c[..m] == [] && r == [0];
      } else {
        assert r == c[..m] + [NextByte(c[m])];
      }
    }
  }

  function ByteValue(b: bv8): nat { b as nat }

  function Value(b: Bytes): nat {
    if b == [] then 0 else 256 * Value(b[..|b| - 1]) + ByteValue(b[|b| - 1])
  }

  function Pow256(n: nat): (r: nat)
    ensures r > 0
  {
    if n == 0 then 1 else 256 * Pow256(n - 1)
  }

  lemma PowFour()
    ensures Pow256(4) == 0x1_0000_0000
  {
    assert Pow256(2) == 0x1_0000;
  }

  lemma {:induction false} ValueBound(b: Bytes)
    ensures Value(b) < Pow256(|b|)
  {
    if b != [] {
      ValueBound(b[..|b| - 1]);
    }
  }

  lemma {:induction false} ValueInjective(a: Bytes, b: Bytes)
    requires |a| == |b| && Value(a) == Value(b)
    ensures a == b
    decreases |a|
  {
    hide ByteValue;
    if a != [] {
      var m := |a| - 1;
      SameByte(a[m], b[m]);
      ValueInjective(a[..m], b[..m]);
      assert a == a[..m] + [a[m]] && b == b[..m] + [b[m]];
    }
  }

  lemma ByteRange(z: bv8)
    ensures ByteValue(z) < 256
  {}

  lemma SameByte(a: bv8, b: bv8)
    ensures ByteValue(a) < 256 && ByteValue(b) < 256 && (ByteValue(a) == ByteValue(b) ==> a == b)
  {}

  lemma NextByteValue(b: bv8)
    ensures b != 0xff ==> ByteValue(b) < 255 && ByteValue(NextByte(b)) == ByteValue(b) + 1
    ensures b == 0xff ==> ByteValue(b) == 255
    ensures ByteValue(0) == 0
  {}

  /** The bytewise carry adds one modulo 256^n. */
  lemma {:induction false} NextAddsOne(c: Bytes)
    ensures Value(Next(c)) == if Value(c) + 1 == Pow256(|c|) then 0 else Value(c) + 1
  {
    hide ByteValue, NextByte;
    if c != [] {
      var m := |c| - 1;
      NextAddsOne(c[..m]);
      NextByteValue(c[m]);
      ValueBound(c[..m]);
      if c[m] == 0xff {
        assert (Next(c[..m]) + [0])[..m] == Next(c[..m]);
      } else {
        assert (c[..m] + [NextByte(c[m])])[..m] == c[..m];
      }
    }
  }

  // ---------------------------------------------------------------- the word counter of the fast path

  function StoreWord32(w: bv32): (b: Bytes)
    ensures |b| == 4
  {
    [(w >> 24) as bv8, ((w >> 16) & 0xff) as bv8, ((w >> 8) & 0xff) as bv8, (w & 0xff) as bv8]
  }

  function LoadWord32(b: Bytes): bv32
    requires |b| == 4
  {
    (b[0] as bv32 << 24) | (b[1] as bv32 << 16) | (b[2] as bv32 << 8) | (b[3] as bv32)
  }

  lemma StoreLoadWord32(b: Bytes)
    requires |b| == 4
    ensures StoreWord32(LoadWord32(b)) == b
  {}

  lemma LoadStore32(w: bv32)
    ensures LoadWord32(StoreWord32(w)) == w
  {}

  function StoreWords(w: seq<bv32>): Bytes {
    if w == [] then [] else StoreWords(w[..|w| - 1]) + StoreWord32(w[|w| - 1])
  }

  function NextWord(w: bv32): bv32 { w + 1 }

  function NextWords(w: seq<bv32>): (r: seq<bv32>)
    ensures |r| == |w|
  {
    if w == [] then []
    else
      var last, front := w[|w| - 1], w[..|w| - 1];
      if NextWord(last) == 0 then NextWords(front) + [0] else front + [NextWord(last)]
  }

  /** Next of a concatenation: the front moves only when every byte of the back wraps. */
  lemma {:induction false} NextAppend(a: Bytes, b: Bytes)
    requires b != []
    ensures (forall j :: 0 <= j < |b| ==> b[j] == 0xff) ==> Next(a + b) == Next(a) + Next(b)
    ensures (exists j :: 0 <= j < |b| && b[j] != 0xff) ==> Next(a + b) == a + Next(b)
  {
    var m := |b| - 1;
    var c := a + b;
    assert c[|c| - 1] == b[m] && c[..|c| - 1] == a + b[..m];
    if b[m] == 0xff {
      if m > 0 {
        NextAppend(a, b[..m]);
        assert forall j :: 0 <= j < m ==> b[..m][j] == b[j];
      } else {
        assert a + b[..m] == a && Next(b[..m]) == [];
      }
    }
  }

  lemma NextFour(b0: bv8, b1: bv8, b2: bv8, b3: bv8)
    ensures Next([b0, b1, b2, b3])
         == if b3 != 0xff then [b0, b1, b2, NextByte(b3)]
            else if b2 != 0xff then [b0, b1, NextByte(b2), 0]
            else if b1 != 0xff then [b0, NextByte(b1), 0, 0]
            else if b0 != 0xff then [NextByte(b0), 0, 0, 0]
            else [0, 0, 0, 0]
  {
    assert [b0, b1, b2, b3][..3] == [b0, b1, b2];
    assert [b0, b1, b2][..2] == [b0, b1];
    assert [b0, b1][..1] == [b0];
    assert Next([b0]) == if b0 == 0xff then [0] else [NextByte(b0)];
    assert Next([b0, b1]) == if b1 == 0xff then Next([b0]) + [0] else [b0, NextByte(b1)];
    assert Next([b0, b1, b2]) == if b2 == 0xff then Next([b0, b1]) + [0] else [b0, b1, NextByte(b2)];
  }

  lemma NextWord32(w: bv32)
    ensures Next(StoreWord32(w)) == StoreWord32(NextWord(w))
  {
    hide Next;
    NextFour((w >> 24) as bv8, ((w >> 16) & 0xff) as bv8, ((w >> 8) & 0xff) as bv8, (w & 0xff) as bv8);
  }

  lemma WrapWord32(w: bv32)
    ensures NextWord(w) == 0 <==> StoreWord32(w) == [0xff, 0xff, 0xff, 0xff]
  {}

  /** The 32-bit carry of increment_fast is the bytewise carry of increment_counter. */
  lemma {:induction false} NextWordsIsNext(w: seq<bv32>)
    ensures StoreWords(NextWords(w)) == Next(StoreWords(w))
  {
    if w != [] {
      var last, front := w[|w| - 1], w[..|w| - 1];
      NextWordsIsNext(front);
      NextWord32(last);
      WrapWord32(last);
      NextAppend(StoreWords(front), StoreWord32(last));
      if NextWord(last) == 0 {
        assert (NextWords(front) + [0])[..|w| - 1] == NextWords(front);
      } else {
        assert (front + [NextWord(last)])[..|w| - 1] == front;
        assert StoreWord32(last) != [0xff, 0xff, 0xff, 0xff];
      }
    }
  }

  /** increment_fast: wordwise carry from the last word. */
  method IncrementFast(w: array<bv32>)
    requires w.Length > 0
    modifies w
    ensures StoreWords(w[..]) == Next(old(StoreWords(w[..])))
  {
    ghost var c := w[..];
    var i := w.Length - 1;
    w[i] := NextWord(w[i]);
    var carry := w[i] == 0;
    while carry && i > 0
      invariant 0 <= i < w.Length
      invariant carry <==> w[i] == 0
      invariant forall j :: 0 <= j < i ==> w[j] == c[j]
      invariant w[i] == NextWord(c[i])
      invariant forall j :: i < j < w.Length ==> NextWord(c[j]) == 0 && w[j] == 0
    {
      i := i - 1;
      w[i] := NextWord(w[i]);
      carry := w[i] == 0;
    }
    NextWordsShape(c, w[..], i);
    NextWordsIsNext(c);
  }

  lemma {:induction false} NextWordsShape(c: seq<bv32>, r: seq<bv32>, i: nat)
    requires i < |c| == |r|
    requires forall j :: 0 <= j < i ==> r[j] == c[j]
    requires forall j :: i < j < |c| ==> NextWord(c[j]) == 0 && r[j] == 0
    requires r[i] == NextWord(c[i])
    requires i > 0 ==> NextWord(c[i]) != 0
    ensures r == NextWords(c)
  {
    var m := |c| - 1;
    if i < m {
      NextWordsShape(c[..m], r[..m], i);
      assert r == r[..m] + [0];
    } else if NextWord(c[i]) == 0 {
      assert c[..m] == [] && r == [0];
    } else {
      assert r == c[..m] + [NextWord(c[m])];
    }
  }

  function LoadWords(b: Bytes): (w: seq<bv32>)
    requires |b| % 4 == 0
    ensures |w| == |b| / 4
  {
    if b == [] then [] else LoadWords(b[..|b| - 4]) + [LoadWord32(b[|b| - 4..])]
  }

  lemma {:induction false} StoreLoadWords(b: Bytes)
    requires |b| % 4 == 0
    ensures StoreWords(LoadWords(b)) == b
  {
    if b != [] {
      StoreLoadWords(b[..|b| - 4]);
      StoreLoadWord32(b[|b| - 4..]);
    }
  }

  lemma {:induction false} StoreWordsLength(w: seq<bv32>)
    ensures |StoreWords(w)| == 4 * |w|
  {
    if w != [] {
      StoreWordsLength(w[..|w| - 1]);
    }
  }

  lemma NextNStep(c: Bytes, i: nat)
    ensures NextN(c, i + 1) == Next(NextN(c, i)) && NextN(c, 0) == c
  {}

  lemma {:induction false} NextNAdd(c: Bytes, m: nat, k: nat)
    ensures NextN(NextN(c, m), k) == NextN(c, m + k)
  {
    hide Next;
    if k > 0 {
      NextNAdd(c, m, k - 1);
    }
  }

  method CopyWords(w: array<bv32>, s: seq<bv32>)
    requires w.Length == |s|
    modifies w
    ensures w[..] == s
  {
    for i := 0 to w.Length
      invariant forall j :: 0 <= j < i ==> w[j] == s[j]
    {
      w[i] := s[i];
    }
  }
}
