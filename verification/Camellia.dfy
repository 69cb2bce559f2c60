/** The Camellia block cipher (impl/block/camellia/camellia.cc), for any tables of the S-function. */
module Camellia {
  import opened Words
  import opened CamelliaSpec

  /** The return values of the cipher. */
  datatype Status = Ok | Invalid

  class Camellia {
    const s: Tables
    const kw: array<Word>
    const ku: array<Word>
    const kl: array<Word>
    var big: bool

    ghost predicate Ready() {
      kw.Length == 4 && ku.Length == 24 && kl.Length == 6 && kw != ku && kw != kl && ku != kl
    }

    ghost function All(): (k: Keys)
      reads kw, ku, kl
    {
      Keys(kw[..], ku[..], kl[..])
    }

    constructor (s: Tables)
      ensures Ready() && this.s == s && fresh(kw) && fresh(ku) && fresh(kl)
    {
      this.s := s;
      kw := new Word[4](i => 0);
      ku := new Word[24](i => 0);
      kl := new Word[6](i => 0);
      big := false;
    }

    // -------------------------------------------------------------- blocks

    method EncryptPair(x0: Word, y0: Word, n: nat) returns (x: Word, y: Word)
      requires n + 1 < ku.Length
      ensures Block(x, y) == Pair(s, Block(x0, y0), ku[n], ku[n + 1])
    {
      hide XorWord, F;
      y := XorWord(y0, F(s, x0, ku[n]));
      x := XorWord(x0, F(s, y, ku[n + 1]));
    }

    method DecryptPair(x0: Word, y0: Word, n: nat) returns (x: Word, y: Word)
      requires n + 1 < ku.Length
      ensures Block(x, y) == Pair(s, Block(x0, y0), ku[n + 1], ku[n])
    {
      hide XorWord, F;
      y := XorWord(y0, F(s, x0, ku[n + 1]));
      x := XorWord(x0, F(s, y, ku[n]));
    }

    method SixRounds(x0: Word, y0: Word, n: nat) returns (x: Word, y: Word)
      requires n + 6 <= ku.Length
      ensures Block(x, y) == Six(s, Block(x0, y0), ku[..], n)
    {
      hide Pair;
      x, y := EncryptPair(x0, y0, n);
      x, y := EncryptPair(x, y, n + 2);
      x, y := EncryptPair(x, y, n + 4);
    }

    method SixRoundsBack(x0: Word, y0: Word, n: nat) returns (x: Word, y: Word)
      requires n + 6 <= ku.Length
      ensures Block(x, y) == SixBack(s, Block(x0, y0), ku[..], n)
    {
      hide Pair;
      x, y := DecryptPair(x0, y0, n + 4);
      x, y := DecryptPair(x, y, n + 2);
      x, y := DecryptPair(x, y, n);
    }

    lemma Sizes()
      requires Ready()
      ensures Enough(All(), 0) && Enough(All(), 1) && Enough(All(), 2) && Enough(All(), 3) && kw.Length == 4
      ensures ku.Length == 24 && kl.Length == 6
      ensures All().kw == kw[..] && All().ku == ku[..] && All().kl == kl[..]
    {}

    method Encrypt128(d: Block) returns (r: Block)
      requires Ready() && Enough(All(), 2)
      ensures r == Sealed(s, d, All(), 2)
    {
      hide *;
      Sizes();
      ghost var k, w := All(), Block(XorWord(d.hi, kw[0]), XorWord(d.lo, kw[1]));
      var x, y := XorWord(d.hi, kw[0]), XorWord(d.lo, kw[1]);
      GroupsNone(s, w, k);
      x, y := SixRounds(x, y, 0);
      x, y := FL(x, kl[0]), FLInv(y, kl[1]);
      GroupsNext(s, w, k, 1);
      x, y := SixRounds(x, y, 6);
      x, y := FL(x, kl[2]), FLInv(y, kl[3]);
      GroupsNext(s, w, k, 2);
      x, y := SixRounds(x, y, 12);
      SealedIs(s, d, k, 2);
      r := Block(XorWord(y, kw[2]), XorWord(x, kw[3]));
    }

    method Decrypt128(d: Block) returns (r: Block)
      requires Ready() && Enough(All(), 2)
      ensures r == Opened(s, d, All(), 2)
    {
      hide *;
      Sizes();
      ghost var k, w := All(), Block(XorWord(d.hi, kw[2]), XorWord(d.lo, kw[3]));
      var x, y := XorWord(d.hi, kw[2]), XorWord(d.lo, kw[3]);
      BackNext(s, Block(x, y), k, 2);
      x, y := SixRoundsBack(x, y, 12);
      x, y := FL(x, kl[3]), FLInv(y, kl[2]);
      BackNext(s, Block(x, y), k, 1);
      x, y := SixRoundsBack(x, y, 6);
      x, y := FL(x, kl[1]), FLInv(y, kl[0]);
      BackNone(s, Block(x, y), k);
      x, y := SixRoundsBack(x, y, 0);
      OpenedIs(s, d, k, 2);
      r := Block(XorWord(y, kw[0]), XorWord(x, kw[1]));
    }

    method Encrypt256(d: Block) returns (r: Block)
      requires Ready() && Enough(All(), 3)
      ensures r == Sealed(s, d, All(), 3)
    {
      hide *;
      Sizes();
      ghost var k, w := All(), Block(XorWord(d.hi, kw[0]), XorWord(d.lo, kw[1]));
      var x, y := XorWord(d.hi, kw[0]), XorWord(d.lo, kw[1]);
      GroupsNone(s, w, k);
      x, y := SixRounds(x, y, 0);
      x, y := FL(x, kl[0]), FLInv(y, kl[1]);
      GroupsNext(s, w, k, 1);
      x, y := SixRounds(x, y, 6);
      x, y := FL(x, kl[2]), FLInv(y, kl[3]);
      GroupsNext(s, w, k, 2);
      x, y := SixRounds(x, y, 12);
      x, y := FL(x, kl[4]), FLInv(y, kl[5]);
      GroupsNext(s, w, k, 3);
      x, y := SixRounds(x, y, 18);
      SealedIs(s, d, k, 3);
      r := Block(XorWord(y, kw[2]), XorWord(x, kw[3]));
    }

    method Decrypt256(d: Block) returns (r: Block)
      requires Ready() && Enough(All(), 3)
      ensures r == Opened(s, d, All(), 3)
    {
      hide *;
      Sizes();
      ghost var k, w := All(), Block(XorWord(d.hi, kw[2]), XorWord(d.lo, kw[3]));
      var x, y := XorWord(d.hi, kw[2]), XorWord(d.lo, kw[3]);
      BackNext(s, Block(x, y), k, 3);
      x, y := SixRoundsBack(x, y, 18);
      x, y := FL(x, kl[5]), FLInv(y, kl[4]);
      BackNext(s, Block(x, y), k, 2);
      x, y := SixRoundsBack(x, y, 12);
      x, y := FL(x, kl[3]), FLInv(y, kl[2]);
      BackNext(s, Block(x, y), k, 1);
      x, y := SixRoundsBack(x, y, 6);
      x, y := FL(x, kl[1]), FLInv(y, kl[0]);
      BackNone(s, Block(x, y), k);
      x, y := SixRoundsBack(x, y, 0);
      OpenedIs(s, d, k, 3);
      r := Block(XorWord(y, kw[0]), XorWord(x, kw[1]));
    }

    /** Encrypt, through the form that the key size chose; out may be inp. */
    method Encrypt(out: array<bv8>, inp: array<bv8>)
      requires Ready() && out.Length == inp.Length == 16
      requires (out as object) != kw && (out as object) != ku && (out as object) != kl
      modifies out
      ensures Enough(All(), Groups()) && All() == old(All())
      ensures out[..] == Store(Sealed(s, Load(old(inp[..])), All(), Groups()))
    {
      hide *;
      Sizes();
      GroupsIs();
      var d := Load(inp[..]);
      if big {
        d := Encrypt256(d);
      } else {
        d := Encrypt128(d);
      }
      CopyInto(out, Store(d));
      Kept();
    }

    /** Decrypt; out may be inp. */
    method Decrypt(out: array<bv8>, inp: array<bv8>)
      requires Ready() && out.Length == inp.Length == 16
      requires (out as object) != kw && (out as object) != ku && (out as object) != kl
      modifies out
      ensures Enough(All(), Groups()) && All() == old(All())
      ensures out[..] == Store(Opened(s, Load(old(inp[..])), All(), Groups()))
    {
      hide *;
      Sizes();
      GroupsIs();
      var d := Load(inp[..]);
      if big {
        d := Decrypt256(d);
      } else {
        d := Decrypt128(d);
      }
      CopyInto(out, Store(d));
      Kept();
    }

    /** Decryption gives back every block that was encrypted, for any keys and tables. */
    method RoundTrip(out: array<bv8>, inp: array<bv8>)
      requires Ready() && out.Length == inp.Length == 16
      requires (out as object) != kw && (out as object) != ku && (out as object) != kl
      modifies out
      ensures out[..] == old(inp[..])
    {
      hide *;
      Sizes();
      GroupsIs();
      ghost var p := Load(inp[..]);
      StoreLoad(inp[..]);
      LoadStore(Sealed(s, p, All(), Groups()));
      SealedOpens(s, p, All(), Groups());
      Encrypt(out, inp);
      Decrypt(out, out);
    }

    /** Layers between the groups of six rounds. */
    ghost function Groups(): nat
      reads `big
    {
      if big then 3 else 2
    }

    lemma GroupsIs()
      ensures Groups() == if big then 3 else 2
    {}

    twostate lemma Kept()
      requires kw[..] == old(kw[..]) && ku[..] == old(ku[..]) && kl[..] == old(kl[..])
      ensures All() == old(All())
    {}

    // -------------------------------------------------------------- keys

    /** SetKeyInternal. The source reads a key of any length; only three are accepted. */
    method SetKey(key: Bytes) returns (status: Status)
      requires Ready()
      modifies `big, kw, ku, kl
      ensures status == if |key| == 16 || |key| == 24 || |key| == 32 then Ok else Invalid
      ensures |key| == 16 ==> !big && Schedule128(All(), Load(key), KA(s, Load(key), ZERO))
      ensures |key| == 24 || |key| == 32 ==>
                var l, r := Load(key[..16]), if |key| == 32 then Load(key[16..]) else LoadShort(key[16..]);
                var ka := KA(s, l, r);
                big && Schedule256(All(), l, r, ka, KB(s, ka, r))
      ensures status == Invalid ==> All() == old(All()) && big == old(big)
    {
      hide *;
      status := Ok;
      if |key| == 16 {
        SetKey128(Load(key));
      } else if |key| == 24 {
        SetKey256(Load(key[..16]), LoadShort(key[16..]));
      } else if |key| == 32 {
        SetKey256(Load(key[..16]), Load(key[16..]));
      } else {
        status := Invalid;
        Kept();
      }
    }

    method SetKey128(l: Block)
      requires Ready()
      modifies `big, kw, ku, kl
      ensures !big && Schedule128(All(), l, KA(s, l, ZERO))
    {
      hide *;
      Sizes();
      Apart();
      XorUnit(l);
      KAIs(s, l, ZERO);
      var d := Pair(s, l, SIGMA1, SIGMA2);
      var ka := Pair(s, Xor(d, l), SIGMA3, SIGMA4);
      RoundKeys128(l, ka);
      OtherKeys128(l, ka);
      big := false;
      Scheduled128(l, ka);
    }

    method RoundKeys128(l: Block, ka: Block)
      requires ku.Length == 24
      modifies ku
      ensures ku[..18] == Halves([ka, Left(l, 15), Left(ka, 15), Left(l, 45), Block(Left(ka, 45).hi, Left(l, 60).lo),
                                  Left(ka, 60), Left(l, 94), Left(ka, 94), Left(l, 111)])
    {
      hide *;
      NoHalves();
      ghost var kuDone: seq<Block> := [];
      kuDone := Append(ku, 0, ka, kuDone);
      By15(l);
      kuDone := Append(ku, 2, RolPair(l, 15), kuDone);
      By15(ka);
      kuDone := Append(ku, 4, RolPair(ka, 15), kuDone);
      By45(l);
      kuDone := Append(ku, 6, RolPair(l, 45), kuDone);
      By45(ka);
      By60(l);
      kuDone := Append(ku, 8, Block(RolPair(ka, 45).hi, RolPair(l, 60).lo), kuDone);
      By60(ka);
      kuDone := Append(ku, 10, RolPair(ka, 60), kuDone);
      By30(Swap(l));
      ByMore(l, 30, 94);
      kuDone := Append(ku, 12, RolPair(Swap(l), 30), kuDone);
      By30(Swap(ka));
      ByMore(ka, 30, 94);
      kuDone := Append(ku, 14, RolPair(Swap(ka), 30), kuDone);
      By47(Swap(l));
      ByMore(l, 47, 111);
      kuDone := Append(ku, 16, RolPair(Swap(l), 47), kuDone);
      Nine(ka, Left(l, 15), Left(ka, 15), Left(l, 45), Block(Left(ka, 45).hi, Left(l, 60).lo),
           Left(ka, 60), Left(l, 94), Left(ka, 94), Left(l, 111));
    }

    method OtherKeys128(l: Block, ka: Block)
      requires kw.Length == 4 && kl.Length == 6 && kw != kl
      modifies kw, kl
      ensures kw[..4] == Halves([l, Left(ka, 111)]) && kl[..4] == Halves([Left(ka, 30), Left(l, 77)])
    {
      hide *;
      NoHalves();
      ghost var kwDone: seq<Block>, klDone: seq<Block> := [], [];
      kwDone := Append(kw, 0, l, kwDone);
      By30(ka);
      klDone := Append(kl, 0, RolPair(ka, 30), klDone);
      By13(Swap(l));
      ByMore(l, 13, 77);
      klDone := Append(kl, 2, RolPair(Swap(l), 13), klDone);
      By47(Swap(ka));
      ByMore(ka, 47, 111);
      kwDone := Append(kw, 2, RolPair(Swap(ka), 47), kwDone);
      Two(l, Left(ka, 111));
      Two(Left(ka, 30), Left(l, 77));
    }

    method SetKey256(l: Block, r: Block)
      requires Ready()
      modifies `big, kw, ku, kl
      ensures var ka := KA(s, l, r);
              big && Schedule256(All(), l, r, ka, KB(s, ka, r))
    {
      hide *;
      Sizes();
      Apart();
      KAIs(s, l, r);
      var d := Pair(s, Xor(l, r), SIGMA1, SIGMA2);
      var ka := Pair(s, Xor(d, l), SIGMA3, SIGMA4);
      KBIs(s, ka, r);
      var kb := Pair(s, Xor(ka, r), SIGMA5, SIGMA6);
      RoundKeys256(l, r, ka, kb);
      OtherKeys256(l, r, ka, kb);
      big := true;
      Scheduled256(l, r, ka, kb);
    }

    method RoundKeys256(l: Block, r: Block, ka: Block, kb: Block)
      requires ku.Length == 24
      modifies ku
      ensures ku[..24] == Halves([kb, Left(r, 15), Left(ka, 15), Left(kb, 30), Left(l, 45),
                                  Left(ka, 45), Left(r, 60), Left(kb, 60), Left(l, 77),
                                  Left(r, 94), Left(ka, 94), Left(l, 111)])
    {
      hide *;
      NoHalves();
      ghost var kuDone: seq<Block> := [];
      kuDone := Append(ku, 0, kb, kuDone);
      By15(r);
      kuDone := Append(ku, 2, RolPair(r, 15), kuDone);
      By15(ka);
      kuDone := Append(ku, 4, RolPair(ka, 15), kuDone);
      By30(kb);
      kuDone := Append(ku, 6, RolPair(kb, 30), kuDone);
      By45(l);
      kuDone := Append(ku, 8, RolPair(l, 45), kuDone);
      By45(ka);
      kuDone := Append(ku, 10, RolPair(ka, 45), kuDone);
      By60(r);
      kuDone := Append(ku, 12, RolPair(r, 60), kuDone);
      By60(kb);
      kuDone := Append(ku, 14, RolPair(kb, 60), kuDone);
      By13(Swap(l));
      ByMore(l, 13, 77);
      kuDone := Append(ku, 16, RolPair(Swap(l), 13), kuDone);
      By30(Swap(r));
      ByMore(r, 30, 94);
      kuDone := Append(ku, 18, RolPair(Swap(r), 30), kuDone);
      By30(Swap(ka));
      ByMore(ka, 30, 94);
      kuDone := Append(ku, 20, RolPair(Swap(ka), 30), kuDone);
      By47(Swap(l));
      ByMore(l, 47, 111);
      kuDone := Append(ku, 22, RolPair(Swap(l), 47), kuDone);
      Twelve(kb, Left(r, 15), Left(ka, 15), Left(kb, 30), Left(l, 45), Left(ka, 45),
             Left(r, 60), Left(kb, 60), Left(l, 77), Left(r, 94), Left(ka, 94), Left(l, 111));
    }

    method OtherKeys256(l: Block, r: Block, ka: Block, kb: Block)
      requires kw.Length == 4 && kl.Length == 6 && kw != kl
      modifies kw, kl
      ensures kw[..4] == Halves([l, Left(kb, 111)]) && kl[..6] == Halves([Left(r, 30), Left(l, 60), Left(ka, 77)])
    {
      hide *;
      NoHalves();
      ghost var kwDone: seq<Block>, klDone: seq<Block> := [], [];
      kwDone := Append(kw, 0, l, kwDone);
      By30(r);
      klDone := Append(kl, 0, RolPair(r, 30), klDone);
      By60(l);
      klDone := Append(kl, 2, RolPair(l, 60), klDone);
      By13(Swap(ka));
      ByMore(ka, 13, 77);
      klDone := Append(kl, 4, RolPair(Swap(ka), 13), klDone);
      By47(Swap(kb));
      ByMore(kb, 47, 111);
      kwDone := Append(kw, 2, RolPair(Swap(kb), 47), kwDone);
      Two(l, Left(kb, 111));
      Three(Left(r, 30), Left(l, 60), Left(ka, 77));
    }

    lemma Apart()
      requires Ready()
      ensures kw != ku && kw != kl && ku != kl
    {}

    lemma Scheduled128(l: Block, ka: Block)
      requires Ready() && kw[..4] == Halves([l, Left(ka, 111)]) && kl[..4] == Halves([Left(ka, 30), Left(l, 77)])
      requires ku[..18] == Halves([ka, Left(l, 15), Left(ka, 15), Left(l, 45), Block(Left(ka, 45).hi, Left(l, 60).lo),
                                   Left(ka, 60), Left(l, 94), Left(ka, 94), Left(l, 111)])
      ensures Schedule128(All(), l, ka)
    {
      hide Left, Halves;
      assert kw[..4] == kw[..];
    }

    lemma Scheduled256(l: Block, r: Block, ka: Block, kb: Block)
      requires Ready() && kw[..4] == Halves([l, Left(kb, 111)])
      requires kl[..6] == Halves([Left(r, 30), Left(l, 60), Left(ka, 77)])
      requires ku[..24] == Halves([kb, Left(r, 15), Left(ka, 15), Left(kb, 30), Left(l, 45),
                                   Left(ka, 45), Left(r, 60), Left(kb, 60), Left(l, 77),
                                   Left(r, 94), Left(ka, 94), Left(l, 111)])
      ensures Schedule256(All(), l, r, ka, kb)
    {
      hide Left, Halves;
      assert kw[..4] == kw[..] && kl[..6] == kl[..] && ku[..24] == ku[..];
    }
  }

  /** SetKey192: the last eight bytes and their complement. */
  function LoadShort(b: Bytes): Block
    requires |b| == 8
  {
    Block(LoadWord(b, 0), Not(LoadWord(b, 0)))
  }

  lemma KAIs(s: Tables, l: Block, r: Block)
    ensures var d := Pair(s, Xor(l, r), SIGMA1, SIGMA2);
            KA(s, l, r) == Pair(s, Xor(d, l), SIGMA3, SIGMA4)
  {
    hide Pair, Xor;
  }

  lemma KBIs(s: Tables, ka: Block, r: Block)
    ensures KB(s, ka, r) == Pair(s, Xor(ka, r), SIGMA5, SIGMA6)
  {
    hide Pair, Xor;
  }

  // Lists built up one by one.

  lemma Two<T>(a: T, b: T)
    ensures [] + [a] + [b]
         == [a, b]
  {}

  lemma Three<T>(a: T, b: T, c: T)
    ensures [] + [a] + [b] + [c]
         == [a, b, c]
  {}

  lemma Nine<T>(a: T, b: T, c: T, d: T, e: T, f: T, g: T, h: T, i: T)
    ensures [] + [a] + [b] + [c] + [d] + [e] + [f] + [g] + [h] + [i]
         == [a, b, c, d, e, f, g, h, i]
  {
    var front := [] + [a] + [b] + [c] + [d];
    assert front == [a, b, c, d];
    var all := front + [e] + [f] + [g] + [h] + [i];
    assert all == front + [e, f, g, h, i];
  }

  lemma Twelve<T>(a: T, b: T, c: T, d: T, e: T, f: T, g: T, h: T, i: T, j: T, k: T, l: T)
    ensures [] + [a] + [b] + [c] + [d] + [e] + [f] + [g] + [h] + [i] + [j] + [k] + [l]
         == [a, b, c, d, e, f, g, h, i, j, k, l]
  {
    var front := [] + [a] + [b] + [c] + [d] + [e] + [f];
    assert front == [a, b, c, d, e, f];
    var all := front + [g] + [h] + [i] + [j] + [k] + [l];
    assert all == front + [g, h, i, j, k, l];
  }

  lemma NoHalves()
    ensures Halves([]) == []
  {}

  /** The next two key words. */
  method Append(a: array<Word>, i: nat, p: Block, ghost done: seq<Block>) returns (ghost next: seq<Block>)
    requires i + 1 < a.Length && i == 2 * |done| && a[..i] == Halves(done)
    modifies a
    ensures next == done + [p] && a[..i + 2] == Halves(next)
  {
    next := done + [p];
    assert next[..|next| - 1] == done;
    a[i], a[i + 1] := p.hi, p.lo;
  }

  lemma GroupsNone(s: Tables, p: Block, k: Keys)
    requires Enough(k, 0)
    ensures Groups(s, p, k, 0) == Six(s, p, k.ku, 0)
  {
    hide Six;
  }

  lemma GroupsNext(s: Tables, p: Block, k: Keys, g: nat)
    requires Enough(k, g) && g > 0
    ensures var q := Groups(s, p, k, g - 1);
            Groups(s, p, k, g) == Six(s, Block(FL(q.hi, k.kl[2 * g - 2]), FLInv(q.lo, k.kl[2 * g - 1])), k.ku, 6 * g)
  {
    hide Six, FL, FLInv;
  }

  lemma SealedIs(s: Tables, p: Block, k: Keys, g: nat)
    requires Enough(k, g)
    ensures var q := Groups(s, Block(XorWord(p.hi, k.kw[0]), XorWord(p.lo, k.kw[1])), k, g);
            Sealed(s, p, k, g) == Block(XorWord(q.lo, k.kw[2]), XorWord(q.hi, k.kw[3]))
  {
    hide Groups, XorWord;
  }

  lemma BackNone(s: Tables, p: Block, k: Keys)
    requires Enough(k, 0)
    ensures GroupsBack(s, p, k, 0) == SixBack(s, p, k.ku, 0)
  {
    hide SixBack;
  }

  lemma BackNext(s: Tables, p: Block, k: Keys, g: nat)
    requires Enough(k, g) && g > 0
    ensures var q := SixBack(s, p, k.ku, 6 * g);
            var r := Block(FL(q.hi, k.kl[2 * g - 1]), FLInv(q.lo, k.kl[2 * g - 2]));
            GroupsBack(s, p, k, g) == GroupsBack(s, r, k, g - 1)
  {
    hide SixBack, FL, FLInv;
  }

  lemma OpenedIs(s: Tables, p: Block, k: Keys, g: nat)
    requires Enough(k, g)
    ensures var q := GroupsBack(s, Block(XorWord(p.hi, k.kw[2]), XorWord(p.lo, k.kw[3])), k, g);
            Opened(s, p, k, g) == Block(XorWord(q.lo, k.kw[0]), XorWord(q.hi, k.kw[1]))
  {
    hide GroupsBack, XorWord;
  }
}
