/** The MARS block cipher (impl/block/mars/mars.cc), for any substitution box of 512 words. */
module Mars {
  import opened Bits
  import Words
  import opened Counter
  import opened MarsSpec
  import opened Numbers
  import opened Quads
  import opened Rotates
  import opened MarsKeys

  // ---------------------------------------------------------------- mixing

  method ForwardMixing(s: Box, a: Word, b: Word, c: Word, d: Word) returns (a1: Word, b1: Word, c1: Word, d1: Word)
    ensures Quad(a1, b1, c1, d1) == ForwardMix(s, Quad(a, b, c, d))
  {
    hide GetByte, Add, Xor, RotateRight;
    b1 := Xor(b, s[GetByte(a, 0)]);
    b1 := Add(b1, s[256 + GetByte(a, 1)]);
    c1 := Add(c, s[GetByte(a, 2)]);
    d1 := Xor(d, s[256 + GetByte(a, 3)]);
    a1 := RotateRight(a, 24);
  }

  method ReverseMixing(s: Box, a: Word, b: Word, c: Word, d: Word) returns (a1: Word, b1: Word, c1: Word, d1: Word)
    ensures Quad(a1, b1, c1, d1) == ReverseMix(s, Quad(a, b, c, d))
  {
    hide GetByte, Sub, Xor, RotateLeft;
    b1 := Xor(b, s[256 + GetByte(a, 0)]);
    c1 := Sub(c, s[GetByte(a, 3)]);
    d1 := Sub(d, s[256 + GetByte(a, 2)]);
    d1 := Xor(d1, s[GetByte(a, 1)]);
    a1 := RotateLeft(a, 24);
  }

  /** EncryptCoreA and EncryptCoreB. */
  method EncryptCore(s: Box, a: Word, b: Word, c: Word, d: Word, k1: Word, k2: Word, i: nat)
    returns (a1: Word, b1: Word, c1: Word, d1: Word)
    ensures Quad(a1, b1, c1, d1) == Core(s, Quad(a, b, c, d), i, k1, k2)
  {
    hide Add, Xor, RotateLeft, E;
    var v := E(s, a, k1, k2);
    a1 := RotateLeft(a, 13);
    c1 := Add(c, v.m);
    if i < 8 {
      b1, d1 := Add(b, v.l), Xor(d, v.r);
    } else {
      d1, b1 := Add(d, v.l), Xor(b, v.r);
    }
  }

  /** Four steps with the registers renamed instead of moved. */
  method FourForward(s: Box, a0: Word, b0: Word, c0: Word, d0: Word, i: nat, ghost k: seq<Word>, ghost q: Quad)
    returns (a: Word, b: Word, c: Word, d: Word)
    requires i % 4 == 0 && 2 * (i + 4) + 3 < |k| && Quad(a0, b0, c0, d0) == Steps(Forward, s, q, i, k)
    ensures Quad(a, b, c, d) == Steps(Forward, s, q, i + 4, k)
  {
    hide *;
    a, b, c, d := ForwardMixing(s, a0, b0, c0, d0);
    ForwardFirst(s, q, i, k, Quad(a0, b0, c0, d0), Quad(a, b, c, d));
    a := Add(a, d);
    ghost var p := Quad(b, c, d, a);
    b, c, d, a := ForwardMixing(s, b, c, d, a);
    ForwardSecond(s, q, i + 1, k, p, Quad(b, c, d, a));
    b := Add(b, c);
    p := Quad(c, d, a, b);
    c, d, a, b := ForwardMixing(s, c, d, a, b);
    ForwardLast(s, q, i + 2, k, p, Quad(c, d, a, b));
    p := Quad(d, a, b, c);
    d, a, b, c := ForwardMixing(s, d, a, b, c);
    ForwardLast(s, q, i + 3, k, p, Quad(d, a, b, c));
  }

  lemma ForwardFirst(s: Box, q: Quad, i: nat, k: seq<Word>, p: Quad, r: Quad)
    requires 2 * i + 5 < |k| && i % 4 == 0
    requires p == Steps(Forward, s, q, i, k) && r == ForwardMix(s, p)
    ensures Steps(Forward, s, q, i + 1, k) == Quad(r.b, r.c, r.d, Add(r.a, r.d))
  {
    hide ForwardMix, Add;
  }

  lemma ForwardSecond(s: Box, q: Quad, i: nat, k: seq<Word>, p: Quad, r: Quad)
    requires 2 * i + 5 < |k| && i % 4 == 1
    requires p == Steps(Forward, s, q, i, k) && r == ForwardMix(s, p)
    ensures Steps(Forward, s, q, i + 1, k) == Quad(r.b, r.c, r.d, Add(r.a, r.b))
  {
    hide ForwardMix, Add;
  }

  lemma ForwardLast(s: Box, q: Quad, i: nat, k: seq<Word>, p: Quad, r: Quad)
    requires 2 * i + 5 < |k| && i % 4 >= 2
    requires p == Steps(Forward, s, q, i, k) && r == ForwardMix(s, p)
    ensures Steps(Forward, s, q, i + 1, k) == Quad(r.b, r.c, r.d, r.a)
  {
    hide ForwardMix, Add;
  }

  method FourReverse(s: Box, a0: Word, b0: Word, c0: Word, d0: Word, i: nat, ghost k: seq<Word>, ghost q: Quad)
    returns (a: Word, b: Word, c: Word, d: Word)
    requires i % 4 == 0 && 2 * (i + 4) + 3 < |k| && Quad(a0, b0, c0, d0) == Steps(Reverse, s, q, i, k)
    ensures Quad(a, b, c, d) == Steps(Reverse, s, q, i + 4, k)
  {
    hide *;
    a, b, c, d := ReverseMixing(s, a0, b0, c0, d0);
    ReverseFirst(s, q, i, k, Quad(a0, b0, c0, d0), Quad(a, b, c, d));
    ghost var p := Quad(b, c, d, a);
    b, c, d, a := ReverseMixing(s, b, c, d, a);
    ReverseFirst(s, q, i + 1, k, p, Quad(b, c, d, a));
    p := Quad(c, d, a, b);
    c := Sub(c, b);
    c, d, a, b := ReverseMixing(s, c, d, a, b);
    ReverseThird(s, q, i + 2, k, p, Quad(c, d, a, b));
    p := Quad(d, a, b, c);
    d := Sub(d, a);
    d, a, b, c := ReverseMixing(s, d, a, b, c);
    ReverseFourth(s, q, i + 3, k, p, Quad(d, a, b, c));
  }

  lemma ReverseFirst(s: Box, q: Quad, i: nat, k: seq<Word>, p: Quad, r: Quad)
    requires 2 * i + 5 < |k| && i % 4 < 2
    requires p == Steps(Reverse, s, q, i, k) && r == ReverseMix(s, p)
    ensures Steps(Reverse, s, q, i + 1, k) == Quad(r.b, r.c, r.d, r.a)
  {
    hide ReverseMix, Sub;
  }

  lemma ReverseThird(s: Box, q: Quad, i: nat, k: seq<Word>, p: Quad, r: Quad)
    requires 2 * i + 5 < |k| && i % 4 == 2
    requires p == Steps(Reverse, s, q, i, k) && r == ReverseMix(s, Quad(Sub(p.a, p.d), p.b, p.c, p.d))
    ensures Steps(Reverse, s, q, i + 1, k) == Quad(r.b, r.c, r.d, r.a)
  {
    hide ReverseMix, Sub;
  }

  lemma ReverseFourth(s: Box, q: Quad, i: nat, k: seq<Word>, p: Quad, r: Quad)
    requires 2 * i + 5 < |k| && i % 4 == 3
    requires p == Steps(Reverse, s, q, i, k) && r == ReverseMix(s, Quad(Sub(p.a, p.b), p.b, p.c, p.d))
    ensures Steps(Reverse, s, q, i + 1, k) == Quad(r.b, r.c, r.d, r.a)
  {
    hide ReverseMix, Sub;
  }

  method FourCore(s: Box, a0: Word, b0: Word, c0: Word, d0: Word, i: nat, k: seq<Word>, ghost q: Quad)
    returns (a: Word, b: Word, c: Word, d: Word)
    requires 2 * (i + 4) + 3 < |k| && Quad(a0, b0, c0, d0) == Steps(Middle, s, q, i, k)
    ensures Quad(a, b, c, d) == Steps(Middle, s, q, i + 4, k)
  {
    hide *;
    a, b, c, d := EncryptCore(s, a0, b0, c0, d0, k[2 * i + 4], k[2 * i + 5], i);
    CoreNext(s, q, i, k);
    b, c, d, a := EncryptCore(s, b, c, d, a, k[2 * i + 6], k[2 * i + 7], i + 1);
    CoreNext(s, q, i + 1, k);
    c, d, a, b := EncryptCore(s, c, d, a, b, k[2 * i + 8], k[2 * i + 9], i + 2);
    CoreNext(s, q, i + 2, k);
    d, a, b, c := EncryptCore(s, d, a, b, c, k[2 * i + 10], k[2 * i + 11], i + 3);
    CoreNext(s, q, i + 3, k);
  }

  lemma CoreNext(s: Box, q: Quad, i: nat, k: seq<Word>)
    requires 2 * i + 5 < |k|
    ensures var p := Core(s, Steps(Middle, s, q, i, k), i, k[2 * i + 4], k[2 * i + 5]);
            Steps(Middle, s, q, i + 1, k) == Quad(p.b, p.c, p.d, p.a)
  {
    hide Core;
  }

  lemma NoSteps(p: Phase, s: Box, q: Quad, k: seq<Word>)
    requires 3 < |k|
    ensures Steps(p, s, q, 0, k) == q && Undos(p, s, q, 0, k) == q
  {}

  lemma UndosNext(p: Phase, s: Box, q: Quad, i: nat, k: seq<Word>)
    requires 2 * i + 5 < |k|
    ensures Undos(p, s, q, i + 1, k) == Undos(p, s, Undo(p, s, q, i, k), i, k)
  {}

  /** The first loop of Decrypt. */
  method UndoReverse(s: Box, a0: Word, b0: Word, c0: Word, d0: Word, m: seq<Word>, ghost q: Quad)
    returns (a: Word, b: Word, c: Word, d: Word)
    requires |m| == 40 && Quad(a0, b0, c0, d0) == q
    ensures Quad(a, b, c, d) == Undos(Reverse, s, q, 8, m)
  {
    hide *;
    a, b, c, d := a0, b0, c0, d0;
    var i: nat := 8;
    while i > 0
      invariant i <= 8 && Undos(Reverse, s, Quad(a, b, c, d), i, m) == Undos(Reverse, s, q, 8, m)
    {
      i := i - 1;
      UndosNext(Reverse, s, Quad(a, b, c, d), i, m);
      ReverseUndoIs(s, Quad(a, b, c, d), i, m);
      a, b, c, d := RotateRight(d, 24), a, b, c;
      d := Xor(d, s[GetByte(a, 1)]);
      d := Add(d, s[256 + GetByte(a, 2)]);
      c := Add(c, s[GetByte(a, 3)]);
      b := Xor(b, s[256 + GetByte(a, 0)]);
      if i % 4 == 2 {
        a := Add(a, d);
      } else if i % 4 == 3 {
        a := Add(a, b);
      }
    }
    NoSteps(Reverse, s, Quad(a, b, c, d), m);
  }

  /** The second loop of Decrypt. */
  method UndoCore(s: Box, a0: Word, b0: Word, c0: Word, d0: Word, m: seq<Word>, ghost q: Quad)
    returns (a: Word, b: Word, c: Word, d: Word)
    requires |m| == 40 && Quad(a0, b0, c0, d0) == q
    ensures Quad(a, b, c, d) == Undos(Middle, s, q, 16, m)
  {
    hide *;
    a, b, c, d := a0, b0, c0, d0;
    var i: nat := 16;
    while i > 0
      invariant i <= 16 && Undos(Middle, s, Quad(a, b, c, d), i, m) == Undos(Middle, s, q, 16, m)
    {
      i := i - 1;
      UndosNext(Middle, s, Quad(a, b, c, d), i, m);
      CoreUndoIs(s, Quad(a, b, c, d), i, m);
      a, b, c, d := RotateRight(d, 13), a, b, c;
      var v := E(s, a, m[2 * i + 4], m[2 * i + 5]);
      c := Sub(c, v.m);
      if i >= 8 {
        d, b := Sub(d, v.l), Xor(b, v.r);
      } else {
        b, d := Sub(b, v.l), Xor(d, v.r);
      }
    }
    NoSteps(Middle, s, Quad(a, b, c, d), m);
  }

  /** The third loop of Decrypt. */
  method UndoForward(s: Box, a0: Word, b0: Word, c0: Word, d0: Word, m: seq<Word>, ghost q: Quad)
    returns (a: Word, b: Word, c: Word, d: Word)
    requires |m| == 40 && Quad(a0, b0, c0, d0) == q
    ensures Quad(a, b, c, d) == Undos(Forward, s, q, 8, m)
  {
    hide *;
    a, b, c, d := a0, b0, c0, d0;
    var i: nat := 8;
    while i > 0
      invariant i <= 8 && Undos(Forward, s, Quad(a, b, c, d), i, m) == Undos(Forward, s, q, 8, m)
    {
      i := i - 1;
      UndosNext(Forward, s, Quad(a, b, c, d), i, m);
      ForwardUndoIs(s, Quad(a, b, c, d), i, m);
      a, b, c, d := d, a, b, c;
      if i % 4 == 0 {
        a := Sub(a, d);
      } else if i % 4 == 1 {
        a := Sub(a, b);
      }
      a := RotateLeft(a, 24);
      d := Xor(d, s[256 + GetByte(a, 3)]);
      c := Sub(c, s[GetByte(a, 2)]);
      b := Sub(b, s[256 + GetByte(a, 1)]);
      b := Xor(b, s[GetByte(a, 0)]);
    }
    NoSteps(Forward, s, Quad(a, b, c, d), m);
  }

  // ---------------------------------------------------------------- the cipher

  class Mars {
    const sbox: Box
    const k: array<Word>

    ghost predicate Ready() { k.Length == 40 }

    constructor (sbox: Box)
      ensures Ready() && this.sbox == sbox && fresh(k)
    {
      this.sbox := sbox;
      k := new Word[40](i => 0);
    }

    /** Encrypt; out may be inp. */
    method Encrypt(out: array<bv8>, inp: array<bv8>)
      requires Ready() && out.Length == inp.Length == 16 && (out as object) != k
      modifies out
      ensures out[..] == BytesOf(Sealed(sbox, QuadOf(old(inp[..])), k[..]))
    {
      hide *;
      KeyLength();
      var x, m := inp[..], k[..];
      var a, b, c, d := Add(LoadLe(x, 0), m[0]), Add(LoadLe(x, 4), m[1]), Add(LoadLe(x, 8), m[2]), Add(LoadLe(x, 12),
          m[3]);
      ghost var w := Whitened(QuadOf(x), m, 0);
      WhitenedIs(x, m, 0);
      NoSteps(Forward, sbox, w, m);
      a, b, c, d := FourForward(sbox, a, b, c, d, 0, m, w);
      a, b, c, d := FourForward(sbox, a, b, c, d, 4, m, w);
      ghost var f := Quad(a, b, c, d);
      NoSteps(Middle, sbox, f, m);
      a, b, c, d := FourCore(sbox, a, b, c, d, 0, m, f);
      a, b, c, d := FourCore(sbox, a, b, c, d, 4, m, f);
      a, b, c, d := FourCore(sbox, a, b, c, d, 8, m, f);
      a, b, c, d := FourCore(sbox, a, b, c, d, 12, m, f);
      ghost var g := Quad(a, b, c, d);
      NoSteps(Reverse, sbox, g, m);
      a, b, c, d := FourReverse(sbox, a, b, c, d, 0, m, g);
      a, b, c, d := FourReverse(sbox, a, b, c, d, 4, m, g);
      SealedIs(sbox, QuadOf(x), m);
      UnwhitenedIs(Quad(a, b, c, d), m, 36);
      Words.CopyInto(out,
                     StoreLe(Sub(a, m[36])) + StoreLe(Sub(b, m[37])) + StoreLe(Sub(c, m[38])) + StoreLe(Sub(d, m[39])));
    }

    /** Decrypt: the registers are moved instead of renamed; out may be inp. */
    method Decrypt(out: array<bv8>, inp: array<bv8>)
      requires Ready() && out.Length == inp.Length == 16 && (out as object) != k
      modifies out
      ensures out[..] == BytesOf(Opened(sbox, QuadOf(old(inp[..])), k[..]))
    {
      hide *;
      KeyLength();
      var x, m := inp[..], k[..];
      var a, b, c, d := Add(LoadLe(x, 0), m[36]), Add(LoadLe(x, 4), m[37]), Add(LoadLe(x, 8),
          m[38]), Add(LoadLe(x, 12), m[39]);
      ghost var w := Whitened(QuadOf(x), m, 36);
      WhitenedIs(x, m, 36);
      a, b, c, d := UndoReverse(sbox, a, b, c, d, m, w);
      a, b, c, d := UndoCore(sbox, a, b, c, d, m, Quad(a, b, c, d));
      a, b, c, d := UndoForward(sbox, a, b, c, d, m, Quad(a, b, c, d));
      OpenedIs(sbox, QuadOf(x), m);
      UnwhitenedIs(Quad(a, b, c, d), m, 0);
      Words.CopyInto(out,
                     StoreLe(Sub(a, m[0])) + StoreLe(Sub(b, m[1])) + StoreLe(Sub(c, m[2])) + StoreLe(Sub(d, m[3])));
    }

    /** Decryption gives back every block that was encrypted, for any box and any expanded key. */
    method RoundTrip(out: array<bv8>, inp: array<bv8>)
      requires Ready() && out.Length == inp.Length == 16 && (out as object) != k
      modifies out
      ensures out[..] == old(inp[..])
    {
      hide *;
      KeyLength();
      ghost var x := inp[..];
      Encrypt(out, inp);
      QuadOfBytes(Sealed(sbox, QuadOf(x), k[..]));
      SealedOpens(sbox, QuadOf(x), k[..]);
      BytesOfQuad(x);
      Decrypt(out, out);
    }

    /** SetKeyInternal, for keys of up to fourteen words. */
    method SetKey(key: Bytes)
      requires Ready() && |key| % 4 == 0 && |key| <= 56
      modifies k
      ensures forall n :: 0 <= n < 40 ==> k[n] == Expanded(sbox, KeyState(key), n)
    {
      hide *;
      KeyLength();
      ghost var t0 := KeyState(key);
      var t := LoadKey(key);
      NoPasses(sbox, t0);
      for j := 0 to 4
        invariant fresh(t) && t.Length == 15 && (t as object) != k && k.Length == 40
        invariant t[..] == Passes(sbox, t0, j)
        invariant forall n :: 0 <= n < 10 * j ==> k[n] == Stored(sbox, t0, n)
      {
        Pass(sbox, t, j);
        PassesNext(sbox, t0, j);
        for i := 0 to 10
          invariant fresh(t) && t.Length == 15 && (t as object) != k && k.Length == 40
          invariant t[..] == Passes(sbox, t0, j + 1)
          invariant forall n :: 0 <= n < 10 * j + i ==> k[n] == Stored(sbox, t0, n)
        {
          StoredIs(sbox, t0, 10 * j + i, j, i);
          k[10 * j + i] := t[Wrap(4 * i)];
        }
      }
      Modify(t0);
    }

    /** The last loop: each multiplication key from the word before it, which is not changed. */
    method Modify(ghost t0: State)
      requires k.Length == 40 && forall n :: 0 <= n < 40 ==> k[n] == Stored(sbox, t0, n)
      modifies k
      ensures forall n :: 0 <= n < 40 ==> k[n] == Expanded(sbox, t0, n)
    {
      hide *;
      forall n | 0 <= n < 40
        ensures n < 5 || n >= 36 || n % 2 == 0 ==> Expanded(sbox, t0, n) == Stored(sbox, t0, n)
      {
        ExpandedIs(sbox, t0, n);
      }
      var i := 5;
      while i < 36
        invariant 5 <= i <= 37 && i % 2 == 1
        invariant forall n :: 0 <= n < i ==> k[n] == Expanded(sbox, t0, n)
        invariant forall n :: i - 1 <= n < 40 ==> k[n] == Stored(sbox, t0, n)
      {
        ExpandedIs(sbox, t0, i);
        k[i] := BreakRuns(k[i], k[i - 1]);
        i := i + 2;
      }
    }

    lemma KeyLength()
      requires Ready()
      ensures |k[..]| == 40
    {}
  }

  // ---------------------------------------------------------------- key expansion

  /** The words of a key. */
  function WordsOf(key: Bytes): seq<Word> {
    if |key| < 4 then [] else WordsOf(key[..|key| - 4]) + [LoadLe(key, |key| - 4)]
  }

  lemma {:induction false} WordsLength(key: Bytes)
    ensures |WordsOf(key)| == |key| / 4
  {
    hide LoadLe;
    if |key| >= 4 {
      WordsLength(key[..|key| - 4]);
    }
  }

  lemma {:induction false} WordAt(key: Bytes, i: nat)
    requires |key| % 4 == 0 && 4 * i + 4 <= |key|
    ensures |WordsOf(key)| == |key| / 4 && WordsOf(key)[i] == LoadLe(key, 4 * i)
    decreases |key|
  {
    hide LoadWord32;
    WordsLength(key);
    var m := |key| - 4;
    if 4 * i < m {
      WordAt(key[..m], i);
    }
  }

  /** The state that the expansion starts from. */
  function KeyState(key: Bytes): State
    requires |key| % 4 == 0 && |key| <= 56
  {
    WordsLength(key);
    Loaded(WordsOf(key))
  }

  method LoadKey(key: Bytes) returns (t: array<Word>)
    requires |key| % 4 == 0 && |key| <= 56
    ensures fresh(t) && t[..] == KeyState(key)
  {
    hide LoadLe, WordsOf;
    WordsLength(key);
    var n := |key| / 4;
    t := new Word[15](i => 0);
    for i := 0 to n
      invariant forall j :: 0 <= j < i ==> t[j] == WordsOf(key)[j]
      invariant forall j :: i <= j < 15 ==> t[j] == 0
    {
      WordAt(key, i);
      t[i] := LoadLe(key, 4 * i);
    }
    t[n] := n as Word;
  }

  /** The linear transformation and four rounds of stirring. */
  method Pass(s: Box, t: array<Word>, j: nat)
    requires t.Length == 15 && j < 4
    modifies t
    ensures t[..] == Stirs(s, Linear(old(t[..]), j, 15), 4)
  {
    hide Mixed, Stirred;
    ghost var t0: State := t[..];
    for i := 0 to 15
      invariant t[..] == Linear(t0, j, i)
    {
      MixedIs(t[..], j, i);
      t[i] := Xor(t[i], Xor(RotateLeft(Xor(t[Wrap(i + 8)], t[Wrap(i + 13)]), 3), (4 * i + j) as Word));
    }
    ghost var t1: State := t[..];
    for n := 0 to 4
      invariant t[..] == Stirs(s, t1, n)
    {
      ghost var u: State := t[..];
      for i := 0 to 15
        invariant t[..] == Stir(s, u, i)
      {
        StirredIs(s, t[..], i);
        t[i] := RotateLeft(Add(t[i], s[Low9(t[Wrap(i + 14)])]), 9);
      }
    }
  }

  lemma MixedIs(t: State, j: nat, i: nat)
    requires i < 15 && j < 4
    ensures Mixed(t, j, i)
         == Xor(t[i], Xor(RotateLeft(Xor(t[Wrap(i + 8)], t[Wrap(i + 13)]), 3), (4 * i + j) as Word))
  {
    hide Xor, RotateLeft, Wrap;
  }

  lemma StirredIs(s: Box, t: State, i: nat)
    requires i < 15
    ensures Stirred(s, t, i) == RotateLeft(Add(t[i], s[Low9(t[Wrap(i + 14)])]), 9)
  {
    hide Add, RotateLeft, Low9, Wrap;
  }

  lemma NoPasses(s: Box, t: State)
    ensures Passes(s, t, 0) == t
  {}

  lemma PassesNext(s: Box, t: State, j: nat)
    requires j < 4
    ensures Passes(s, t, j + 1) == Stirs(s, Linear(Passes(s, t, j), j, 15), 4)
  {
    hide Stirs, Linear;
  }

  lemma StoredIs(s: Box, t: State, n: nat, j: nat, i: nat)
    requires i < 10 && j < 4 && n == 10 * j + i
    ensures Stored(s, t, n) == Passes(s, t, j + 1)[Wrap(4 * i)]
  {
    hide Passes, Wrap;
  }

  lemma ExpandedIs(s: Box, t: State, n: nat)
    requires n < 40
    ensures 5 <= n < 36 && n % 2 == 1 ==> Expanded(s, t, n) == Multiplier(Stored(s, t, n), Stored(s, t, n - 1))
    ensures n < 5 || n >= 36 || n % 2 == 0 ==> Expanded(s, t, n) == Stored(s, t, n)
  {
    hide Stored, Multiplier;
  }

  /** The mask in the order of the source, and the multiplication key. */
  method BreakRuns(key: Word, before: Word) returns (r: Word)
    ensures r == Multiplier(key, before)
  {
    hide And, Or, Xor, Same, Double, Half, RotateLeft, Pattern;
    var w := Or(key, 3);
    var m := And(And(Same(w, Double(w)), Same(w, Half(w))), 0x7ffffffe);
    m := And(m, Half(m));
    m := And(m, Half(Half(m)));
    m := And(m, Half(Half(Half(Half(m)))));
    m := Or(m, Double(m));
    m := Or(m, Double(Double(m)));
    m := Or(m, Double(Double(Double(Double(m)))));
    m := And(m, 0x7ffffffc);
    var p := RotateLeft(Pattern(Low2(key)), Low5(before));
    r := Xor(w, And(p, m));
  }

  lemma WhitenedIs(x: Bytes, m: seq<Word>, i: nat)
    requires |x| >= 16 && i + 4 <= |m|
    ensures Whitened(QuadOf(x), m, i) == Quad(Add(LoadLe(x, 0), m[i]), Add(LoadLe(x, 4), m[i + 1]),
                                              Add(LoadLe(x, 8), m[i + 2]), Add(LoadLe(x, 12), m[i + 3]))
  {
    hide Add, LoadLe;
  }

  lemma UnwhitenedIs(q: Quad, m: seq<Word>, i: nat)
    requires i + 4 <= |m|
    ensures BytesOf(Unwhitened(q, m, i))
         == StoreLe(Sub(q.a, m[i])) + StoreLe(Sub(q.b, m[i + 1])) + StoreLe(Sub(q.c, m[i + 2])) + StoreLe(Sub(q.d,
             m[i + 3]))
  {
    hide Sub, StoreLe;
  }

  lemma SealedIs(s: Box, q: Quad, k: seq<Word>)
    requires |k| == 40
    ensures var m := Steps(Middle, s, Steps(Forward, s, Whitened(q, k, 0), 8, k), 16, k);
            Sealed(s, q, k) == Unwhitened(Steps(Reverse, s, m, 8, k), k, 36)
  {
    hide Steps, Whitened, Unwhitened;
  }

  lemma OpenedIs(s: Box, q: Quad, k: seq<Word>)
    requires |k| == 40
    ensures var m := Undos(Middle, s, Undos(Reverse, s, Whitened(q, k, 36), 8, k), 16, k);
            Opened(s, q, k) == Unwhitened(Undos(Forward, s, m, 8, k), k, 0)
  {
    hide Undos, Whitened, Unwhitened;
  }

  lemma ReverseUndoIs(s: Box, q: Quad, i: nat, k: seq<Word>)
    requires 2 * i + 5 < |k|
    ensures var a := RotateRight(q.d, 24);
            var d := Add(Xor(q.c, s[GetByte(a, 1)]), s[256 + GetByte(a, 2)]);
            var b := Xor(q.a, s[256 + GetByte(a, 0)]);
            var e := if i % 4 == 2 then Add(a, d) else if i % 4 == 3 then Add(a, b) else a;
            Undo(Reverse, s, q, i, k) == Quad(e, b, Add(q.b, s[GetByte(a, 3)]), d)
  {
    hide Add, Xor, RotateRight, GetByte;
  }

  lemma CoreUndoIs(s: Box, q: Quad, i: nat, k: seq<Word>)
    requires 2 * i + 5 < |k|
    ensures var a := RotateRight(q.d, 13);
            var v := E(s, a, k[2 * i + 4], k[2 * i + 5]);
            Undo(Middle, s, q, i, k) == Quad(a, if i < 8 then Sub(q.a, v.l) else Xor(q.a, v.r), Sub(q.b, v.m),
                                             if i < 8 then Xor(q.c, v.r) else Sub(q.c, v.l))
  {
    hide Sub, Xor, RotateRight, E;
  }

  lemma ForwardUndoIs(s: Box, q: Quad, i: nat, k: seq<Word>)
    requires 2 * i + 5 < |k|
    ensures var e := if i % 4 == 0 then Sub(q.d, q.c) else if i % 4 == 1 then Sub(q.d, q.a) else q.d;
            var a := RotateLeft(e, 24);
            var b := Xor(Sub(q.a, s[256 + GetByte(a, 1)]), s[GetByte(a, 0)]);
            var d := Xor(q.c, s[256 + GetByte(a, 3)]);
            Undo(Forward, s, q, i, k) == Quad(a, b, Sub(q.b, s[GetByte(a, 2)]), d)
  {
    hide Sub, Xor, RotateLeft, GetByte, Unadded;
    UnaddedIs(q, i);
  }

  lemma UnaddedIs(q: Quad, i: nat)
    ensures var e := if i % 4 == 0 then Sub(q.d, q.c) else if i % 4 == 1 then Sub(q.d, q.a) else q.d;
            Unadded(Unturn(q), i) == Quad(e, q.a, q.b, q.c)
  {
    hide Sub;
  }
}
