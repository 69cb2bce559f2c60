/** DES and two- and three-key triple DES on values (impl/block/des/des.cc), for any combined substitution and
    permutation boxes. */
module DesSpec {
  import opened Bits
  import opened Rotates

  /** The two halves of a block. */
  datatype Pair = Pair(l: Word, r: Word)

  function Swap(p: Pair): Pair { Pair(p.r, p.l) }

  // ---------------------------------------------------------------- exclusive or

  lemma XorBoth(a: Word, b: Word, w: Word)
    ensures Xor(Xor(a, w), Xor(b, w)) == Xor(a, b)
  {
    hide Xor;
    XorComm(b, w);
    XorAssoc(a, w, Xor(w, b));
    XorAssoc(w, w, b);
    XorUnit(w);
    XorUnit(b);
  }

  // ---------------------------------------------------------------- the initial and final permutations

  /** The bits under the mask are exchanged between the halves. */
  function Exchange(p: Pair, m: Word): Pair {
    var work := And(Xor(p.l, p.r), m);
    Pair(Xor(p.l, work), Xor(p.r, work))
  }

  lemma ExchangeTwice(p: Pair, m: Word)
    ensures Exchange(Exchange(p, m), m) == p
  {
    hide Xor, And;
    var work := And(Xor(p.l, p.r), m);
    XorBoth(p.l, p.r, work);
    XorTwice(p.l, work);
    XorTwice(p.r, work);
  }

  lemma ExchangeSwapped(p: Pair, m: Word)
    ensures Exchange(Swap(p), m) == Swap(Exchange(p, m))
  {
    hide Xor, And;
    XorComm(p.l, p.r);
  }

  function RolRight(p: Pair, n: nat): Pair
    requires n < 32
  {
    Pair(p.l, RotateLeft(p.r, n))
  }

  function RorRight(p: Pair, n: nat): Pair
    requires n < 32
  {
    Pair(p.l, RotateRight(p.r, n))
  }

  lemma Rotations(w: Word)
    ensures RotateRight(RotateLeft(w, 4), 4) == w && RotateLeft(RotateRight(w, 4), 4) == w
    ensures RotateRight(RotateLeft(w, 9), 9) == w && RotateLeft(RotateRight(w, 9), 9) == w
    ensures RotateRight(RotateLeft(w, 1), 1) == w && RotateLeft(RotateRight(w, 1), 1) == w
    ensures RotateLeft(RotateRight(w, 20), 20) == w && RotateRight(RotateLeft(w, 20), 20) == w
    ensures RotateLeft(RotateRight(w, 18), 18) == w && RotateRight(RotateLeft(w, 18), 18) == w
    ensures RotateLeft(RotateRight(w, 6), 6) == w && RotateRight(RotateLeft(w, 6), 6) == w
  {
    hide RotateLeft, RotateRight;
    Turn1(w);
    Turn4(w);
    Turn6(w);
    Turn9(w);
    Turn18(w);
    Turn20(w);
  }

  /** IPERM. */
  function IPerm(p: Pair): Pair {
    var a := RorRight(Exchange(RolRight(p, 4), 0xf0f0f0f0), 20);
    var b := RorRight(Exchange(a, 0xffff0000), 18);
    var c := RorRight(Exchange(b, 0x33333333), 6);
    var d := RolRight(Exchange(c, 0x00ff00ff), 9);
    var e := Exchange(d, 0xaaaaaaaa);
    Pair(RotateLeft(e.l, 1), e.r)
  }

  /** FPERM works on the halves the other way round. */
  function FPerm(p: Pair): Pair {
    var e := Exchange(Pair(p.l, RotateRight(p.r, 1)), 0xaaaaaaaa);
    var d := Exchange(Pair(RotateRight(e.l, 9), e.r), 0x00ff00ff);
    var c := Exchange(Pair(RotateLeft(d.l, 6), d.r), 0x33333333);
    var b := Exchange(Pair(RotateLeft(c.l, 18), c.r), 0xffff0000);
    var a := Exchange(Pair(RotateLeft(b.l, 20), b.r), 0xf0f0f0f0);
    Pair(RotateRight(a.l, 4), a.r)
  }

  /** One step of IPERM, and the step of FPERM that undoes it. */
  lemma StepBack(p: Pair, m: Word)
    ensures Exchange(Swap(Exchange(p, m)), m) == Swap(p)
  {
    hide Exchange, Swap;
    ExchangeSwapped(p, m);
    ExchangeTwice(p, m);
    ExchangeSwapped(Exchange(p, m), m);
    SwapTwice(p);
  }

  lemma SwapTwice(p: Pair)
    ensures Swap(Swap(p)) == p
  {}

  /** FPERM undoes IPERM with the halves exchanged. */
  lemma PermInverse(p: Pair)
    ensures FPerm(Swap(IPerm(p))) == Swap(p)
  {
    hide Exchange, RotateLeft, RotateRight;
    var p0 := RolRight(p, 4);
    var q0 := Exchange(p0, 0xf0f0f0f0);
    var p1 := RorRight(q0, 20);
    var q1 := Exchange(p1, 0xffff0000);
    var p2 := RorRight(q1, 18);
    var q2 := Exchange(p2, 0x33333333);
    var p3 := RorRight(q2, 6);
    var q3 := Exchange(p3, 0x00ff00ff);
    var p4 := RolRight(q3, 9);
    var q4 := Exchange(p4, 0xaaaaaaaa);
    Rotations(q4.l);
    StepBack(p4, 0xaaaaaaaa);
    Rotations(q3.r);
    StepBack(p3, 0x00ff00ff);
    Rotations(q2.r);
    StepBack(p2, 0x33333333);
    Rotations(q1.r);
    StepBack(p1, 0xffff0000);
    Rotations(q0.r);
    StepBack(p0, 0xf0f0f0f0);
    Rotations(p.r);
  }

  /** And the other way round. */
  lemma PermBack(p: Pair)
    ensures IPerm(Swap(FPerm(p))) == Swap(p)
  {
    hide Exchange, RotateLeft, RotateRight;
    var e0 := Pair(p.l, RotateRight(p.r, 1));
    var e := Exchange(e0, 0xaaaaaaaa);
    var d0 := Pair(RotateRight(e.l, 9), e.r);
    var d := Exchange(d0, 0x00ff00ff);
    var c0 := Pair(RotateLeft(d.l, 6), d.r);
    var c := Exchange(c0, 0x33333333);
    var b0 := Pair(RotateLeft(c.l, 18), c.r);
    var b := Exchange(b0, 0xffff0000);
    var a0 := Pair(RotateLeft(b.l, 20), b.r);
    var a := Exchange(a0, 0xf0f0f0f0);
    Rotations(a.l);
    StepBack(a0, 0xf0f0f0f0);
    Rotations(b.l);
    StepBack(b0, 0xffff0000);
    Rotations(c.l);
    StepBack(c0, 0x33333333);
    Rotations(d.l);
    StepBack(d0, 0x00ff00ff);
    Rotations(e.l);
    StepBack(e0, 0xaaaaaaaa);
    Rotations(p.r);
  }

  // ---------------------------------------------------------------- rounds

  /** The boxes: entry v of box n. */
  type Boxes = (nat, nat) -> Word

  /** Six bits of a word. */
  function Six(w: Word, n: nat): (r: nat)
    requires n < 32
    ensures r < 64
  {
    ((w >> n) & 0x3f) as nat
  }

  function F(s: Boxes, r: Word, k0: Word, k1: Word): Word {
    var u, v := Xor(RotateRight(r, 4), k0), Xor(r, k1);
    Xor(Xor(Xor(Xor(s(6, Six(u, 0)), s(4, Six(u, 8))), s(2, Six(u, 16))), s(0, Six(u, 24))),
         Xor(Xor(Xor(s(7, Six(v, 0)), s(5, Six(v, 8))), s(3, Six(v, 16))), s(1, Six(v, 24))))
  }

  /** A round: one half changed by the other, then the halves exchanged. */
  function Round(s: Boxes, p: Pair, k0: Word, k1: Word): Pair {
    Pair(p.r, Xor(p.l, F(s, p.r, k0, k1)))
  }

  lemma RoundInverse(s: Boxes, p: Pair, k0: Word, k1: Word)
    ensures Round(s, Swap(Round(s, p, k0, k1)), k0, k1) == Swap(p)
  {
    hide Xor, F;
    XorTwice(p.l, F(s, p.r, k0, k1));
  }

  function Rounds(s: Boxes, p: Pair, k: seq<Word>, n: nat): Pair
    requires 2 * n <= |k|
  {
    if n == 0 then p else Round(s, Rounds(s, p, k, n - 1), k[2 * n - 2], k[2 * n - 1])
  }

  /** ProcessBlock: sixteen rounds. */
  function Process(s: Boxes, k: seq<Word>, p: Pair): Pair
    requires |k| == 32
  {
    Rounds(s, p, k, 16)
  }

  /** The pairs of key words in reverse order. */
  ghost predicate Reversed(k: seq<Word>, d: seq<Word>) {
    && |k| == |d| == 32
    && forall i :: 0 <= i < 16 ==> PairAt(d, i) == PairAt(k, 15 - i)
  }

  function PairAt(k: seq<Word>, i: nat): Pair
    requires 2 * i + 1 < |k|
  {
    Pair(k[2 * i], k[2 * i + 1])
  }

  lemma ReversedTwice(k: seq<Word>, d: seq<Word>)
    requires Reversed(k, d)
    ensures Reversed(d, k)
  {
    forall i | 0 <= i < 16
      ensures PairAt(k, i) == PairAt(d, 15 - i)
    {
      assert PairAt(d, 15 - i) == PairAt(k, 15 - (15 - i));
    }
  }

  lemma {:induction false} RoundsBack(s: Boxes, p: Pair, k: seq<Word>, d: seq<Word>, n: nat)
    requires Reversed(k, d) && n <= 16
    ensures Rounds(s, Swap(Rounds(s, p, k, 16)), d, n) == Swap(Rounds(s, p, k, 16 - n))
  {
    hide Round, Swap;
    if n > 0 {
      var m := n - 1;
      RoundsBack(s, p, k, d, m);
      assert PairAt(d, m) == PairAt(k, 15 - m);
      RoundInverse(s, Rounds(s, p, k, 15 - m), k[2 * (15 - m)], k[2 * (15 - m) + 1]);
    }
  }

  /** The reversed keys undo the rounds, with the halves exchanged. */
  lemma ProcessInverse(s: Boxes, k: seq<Word>, d: seq<Word>, p: Pair)
    requires Reversed(k, d)
    ensures Process(s, d, Swap(Process(s, k, p))) == Swap(p)
  {
    hide Round, Swap;
    RoundsBack(s, p, k, d, 16);
    assert Rounds(s, p, k, 0) == p;
  }

  // ---------------------------------------------------------------- blocks

  function Crypt(s: Boxes, k: seq<Word>, p: Pair): Pair
    requires |k| == 32
  {
    Swap(FPerm(Process(s, k, IPerm(p))))
  }

  /** Decryption undoes encryption. */
  lemma CryptInverse(s: Boxes, k: seq<Word>, d: seq<Word>, p: Pair)
    requires Reversed(k, d)
    ensures Crypt(s, d, Crypt(s, k, p)) == p
  {
    hide Process, FPerm, IPerm, Swap;
    PermBack(Process(s, k, IPerm(p)));
    ProcessInverse(s, k, d, IPerm(p));
    PermInverse(p);
    SwapTwice(p);
  }

  /** Triple DES: the middle pass works on the halves the other way round. */
  function Triple(s: Boxes, k1: seq<Word>, k2: seq<Word>, k3: seq<Word>, p: Pair): Pair
    requires |k1| == |k2| == |k3| == 32
  {
    var u := Process(s, k1, IPerm(p));
    var v := Swap(Process(s, k2, Swap(u)));
    Swap(FPerm(Process(s, k3, v)))
  }

  /** Decryption undoes encryption: the passes in reverse order, each with its other keys. */
  lemma TripleInverse(s: Boxes, k1: seq<Word>, d1: seq<Word>, k2: seq<Word>, d2: seq<Word>, k3: seq<Word>,
                      d3: seq<Word>,
                      p: Pair)
    requires Reversed(k1, d1) && Reversed(k2, d2) && Reversed(k3, d3)
    ensures Triple(s, d3, k2, d1, Triple(s, k1, d2, k3, p)) == p
  {
    hide Process, FPerm, IPerm, Swap, Reversed;
    Lengths(k1, d1);
    Lengths(k2, d2);
    Lengths(k3, d3);
    var q := IPerm(p);
    var u := Process(s, k1, q);
    var w := Process(s, d2, Swap(u));
    var v := Swap(w);
    var x := Process(s, k3, v);
    PermBack(x);
    ProcessInverse(s, k3, d3, v);
    SwapTwice(w);
    ReversedTwice(k2, d2);
    SwapTwice(Swap(v));
    ProcessInverse(s, d2, k2, Swap(u));
    SwapTwice(u);
    SwapTwice(Swap(u));
    ProcessInverse(s, k1, d1, q);
    PermInverse(p);
    SwapTwice(p);
  }

  /** The permutations between the passes cancel: triple DES is three encryptions, one after the other. */
  lemma TripleIsThree(s: Boxes, k1: seq<Word>, k2: seq<Word>, k3: seq<Word>, p: Pair)
    requires |k1| == |k2| == |k3| == 32
    ensures Triple(s, k1, k2, k3, p) == Crypt(s, k3, Crypt(s, k2, Crypt(s, k1, p)))
  {
    hide Process, FPerm, IPerm, Swap;
    var u := Process(s, k1, IPerm(p));
    PermBack(u);
    PermBack(Process(s, k2, Swap(u)));
  }

  lemma Lengths(k: seq<Word>, d: seq<Word>)
    requires Reversed(k, d)
    ensures |k| == |d| == 32
  {}

  /** With one key three times triple DES is DES. */
  lemma TripleIsSingle(s: Boxes, k: seq<Word>, d: seq<Word>, p: Pair)
    requires Reversed(k, d)
    ensures Triple(s, k, d, k, p) == Crypt(s, k, p)
  {
    hide Process, FPerm, IPerm, Swap, Reversed;
    Lengths(k, d);
    ProcessInverse(s, k, d, IPerm(p));
    SwapTwice(IPerm(p));
  }
}
