/** SAFER K and SAFER SK (impl/block/safer/safer.cc): eight-byte blocks of bytes, exclusive or mixed with addition, and
    the pseudo-Hadamard transform. */
module SaferSpec {
  import opened Words
  import opened Counter
  import opened Endian
  import opened SaferTables

  type Block8 = b: seq<bv8> | |b| == 8 witness [0, 0, 0, 0, 0, 0, 0, 0]

  function AddByte(a: bv8, b: bv8): bv8 { a + b }
  function SubByte(a: bv8, b: bv8): bv8 { a - b }

  lemma AddSub(a: bv8, b: bv8)
    ensures SubByte(AddByte(a, b), b) == a
  {
    calc {
      SubByte(AddByte(a, b), b);
      SubByte(a + b, b);
      a;
    }
  }

  // ---------------------------------------------------------------- the layers on values

  /** Bytes 0, 3, 4 and 7, which go through the exponential table. */
  predicate Outer(i: nat) { i == 0 || i == 3 || i == 4 || i == 7 }

  /** A key added: with exclusive or where outer holds, modulo 256 elsewhere. */
  function KeyByte(outer: bool, x: bv8, k: bv8): bv8 {
    if outer then XorByte(x, k) else AddByte(x, k)
  }

  function UnkeyByte(outer: bool, x: bv8, k: bv8): bv8 {
    if outer then XorByte(x, k) else SubByte(x, k)
  }

  lemma KeyInverse(outer: bool, x: bv8, k: bv8)
    ensures UnkeyByte(outer, KeyByte(outer, x, k), k) == x
  {
    hide XorByte, AddByte, SubByte;
    AddSub(x, k);
    XorByteTwice(x, k);
  }

  /** The entries of the tables s and sinv. */
  ghost function S(b: bv8): bv8 { ToByte(Exp(ByteValue(b))) }
  ghost function SInv(b: bv8): bv8
  {
    ByteRange(b);
    ToByte(Log(ByteValue(b)))
  }

  /** The tables are inverse to each other, because 45 generates the residues modulo 257. */
  lemma BoxInverse(b: bv8)
    ensures SInv(S(b)) == b && S(SInv(b)) == b
  {
    hide ToByte, ByteValue, Exp;
    ByteRange(b);
    var v := ByteValue(b);
    ToByteOf(Exp(v));
    LogExp(v);
    ToByteOf(Log(v));
    ByteBack(b, 0);
  }

  ghost function Box(outer: bool, b: bv8): bv8 { if outer then S(b) else SInv(b) }

  lemma BoxTwice(outer: bool, b: bv8)
    ensures Box(!outer, Box(outer, b)) == b
  {
    hide S, SInv;
    BoxInverse(b);
  }

  function Keyed(x: Block8, k: Block8, outer: bool): (r: Block8)
    ensures forall i :: 0 <= i < 8 ==> r[i] == KeyByte(Outer(i) == outer, x[i], k[i])
  {
    seq(8, i requires 0 <= i < 8 => KeyByte(Outer(i) == outer, x[i], k[i]))
  }

  function Unkeyed(x: Block8, k: Block8, outer: bool): (r: Block8)
    ensures forall i :: 0 <= i < 8 ==> r[i] == UnkeyByte(Outer(i) == outer, x[i], k[i])
  {
    seq(8, i requires 0 <= i < 8 => UnkeyByte(Outer(i) == outer, x[i], k[i]))
  }

  ghost function Boxed(x: Block8, forward: bool): (r: Block8)
    ensures forall i :: 0 <= i < 8 ==> r[i] == Box(Outer(i) == forward, x[i])
  {
    seq(8, i requires 0 <= i < 8 => Box(Outer(i) == forward, x[i]))
  }

  lemma KeyedInverse(x: Block8, k: Block8, outer: bool)
    ensures Unkeyed(Keyed(x, k, outer), k, outer) == x
  {
    hide KeyByte, UnkeyByte, Outer;
    forall i | 0 <= i < 8
      ensures Unkeyed(Keyed(x, k, outer), k, outer)[i] == x[i]
    {
      KeyInverse(Outer(i) == outer, x[i], k[i]);
    }
  }

  lemma BoxedInverse(x: Block8)
    ensures Boxed(Boxed(x, true), false) == x
  {
    hide Box, Outer;
    forall i | 0 <= i < 8
      ensures Boxed(Boxed(x, true), false)[i] == x[i]
    {
      BoxTwice(Outer(i), x[i]);
    }
  }

  // ---------------------------------------------------------------- the pseudo-Hadamard transform

  /** The two results of F, and of its inverse. */
  function F0(l: bv8, r: bv8): bv8 { (l << 1) + r }
  function F1(l: bv8, r: bv8): bv8 { l + r }
  function Inv0(l: bv8, r: bv8): bv8 { l - r }
  function Inv1(l: bv8, r: bv8): bv8 { (r << 1) - l }

  lemma FInverse(l: bv8, r: bv8)
    ensures Inv0(F0(l, r), F1(l, r)) == l && Inv1(F0(l, r), F1(l, r)) == r
  {
    calc {
      Inv0(F0(l, r), F1(l, r));
      Inv0((l << 1) + r, l + r);
      l;
    }
    SecondBack(l, r);
  }

  lemma SecondBack(l: bv8, r: bv8)
    ensures Inv1(F0(l, r), F1(l, r)) == r
  {
    calc {
      Inv1(F0(l, r), F1(l, r));
      Inv1((l << 1) + r, l + r);
      ((l + r) << 1) - ((l << 1) + r);
      r;
    }
  }

  /** F on the four neighbouring pairs. */
  function Paired(x: Block8): Block8 {
    [F0(x[0], x[1]), F1(x[0], x[1]), F0(x[2], x[3]), F1(x[2], x[3]),
     F0(x[4], x[5]), F1(x[4], x[5]), F0(x[6], x[7]), F1(x[6], x[7])]
  }

  function Unpaired(x: Block8): Block8 {
    [Inv0(x[0], x[1]), Inv1(x[0], x[1]), Inv0(x[2], x[3]), Inv1(x[2], x[3]),
     Inv0(x[4], x[5]), Inv1(x[4], x[5]), Inv0(x[6], x[7]), Inv1(x[6], x[7])]
  }

  /** F on the pairs of bytes two apart; the results are gathered in order. */
  function Crossed(x: Block8): Block8 {
    [F0(x[0], x[2]), F1(x[0], x[2]), F0(x[4], x[6]), F1(x[4], x[6]),
     F0(x[1], x[3]), F1(x[1], x[3]), F0(x[5], x[7]), F1(x[5], x[7])]
  }

  function Uncrossed(x: Block8): Block8 {
    [Inv0(x[0], x[1]), Inv0(x[4], x[5]), Inv1(x[0], x[1]), Inv1(x[4], x[5]),
     Inv0(x[2], x[3]), Inv0(x[6], x[7]), Inv1(x[2], x[3]), Inv1(x[6], x[7])]
  }

  lemma PairedInverse(x: Block8)
    ensures Unpaired(Paired(x)) == x
  {
    hide F0, F1, Inv0, Inv1;
    FInverse(x[0], x[1]);
    FInverse(x[2], x[3]);
    FInverse(x[4], x[5]);
    FInverse(x[6], x[7]);
  }

  lemma CrossedInverse(x: Block8)
    ensures Uncrossed(Crossed(x)) == x
  {
    hide F0, F1, Inv0, Inv1;
    FInverse(x[0], x[2]);
    FInverse(x[4], x[6]);
    FInverse(x[1], x[3]);
    FInverse(x[5], x[7]);
  }

  // ---------------------------------------------------------------- rounds

  ghost function Round(x: Block8, a: Block8, b: Block8): Block8 {
    Crossed(Crossed(Paired(Keyed(Boxed(Keyed(x, a, true), true), b, false))))
  }

  ghost function InvRound(x: Block8, a: Block8, b: Block8): Block8 {
    Unkeyed(Boxed(Unkeyed(Unpaired(Uncrossed(Uncrossed(x))), b, false), false), a, true)
  }

  lemma RoundInverse(x: Block8, a: Block8, b: Block8)
    ensures InvRound(Round(x, a, b), a, b) == x
  {
    hide Keyed, Unkeyed, Boxed, Paired, Unpaired, Crossed, Uncrossed;
    var u := Boxed(Keyed(x, a, true), true);
    var v := Paired(Keyed(u, b, false));
    CrossedInverse(Crossed(v));
    CrossedInverse(v);
    PairedInverse(Keyed(u, b, false));
    KeyedInverse(u, b, false);
    BoxedInverse(Keyed(x, a, true));
    KeyedInverse(x, a, true);
  }

  /** The state after n rounds, with keys 0 to 2 n - 1. */
  ghost function Rounds(x: Block8, k: seq<Block8>, n: nat): Block8
    requires 2 * n <= |k|
  {
    if n == 0 then x else Round(Rounds(x, k, n - 1), k[2 * n - 2], k[2 * n - 1])
  }

  ghost function InvRounds(x: Block8, k: seq<Block8>, n: nat): Block8
    requires 2 * n <= |k|
    decreases n
  {
    if n == 0 then x else InvRounds(InvRound(x, k[2 * n - 2], k[2 * n - 1]), k, n - 1)
  }

  lemma {:induction false} RoundsInverse(x: Block8, k: seq<Block8>, n: nat)
    requires 2 * n <= |k|
    ensures InvRounds(Rounds(x, k, n), k, n) == x
  {
    hide Round, InvRound;
    if n > 0 {
      RoundInverse(Rounds(x, k, n - 1), k[2 * n - 2], k[2 * n - 1]);
      RoundsInverse(x, k, n - 1);
    }
  }

  /** A block encrypted in r rounds, and decrypted. */
  ghost function Sealed(x: Block8, k: seq<Block8>, r: nat): Block8
    requires 2 * r < |k|
  {
    Keyed(Rounds(x, k, r), k[2 * r], true)
  }

  ghost function Opened(x: Block8, k: seq<Block8>, r: nat): Block8
    requires 2 * r < |k|
  {
    InvRounds(Unkeyed(x, k[2 * r], true), k, r)
  }

  /** Decryption undoes encryption, for any keys and any number of rounds. */
  lemma SealedOpens(x: Block8, k: seq<Block8>, r: nat)
    requires 2 * r < |k|
    ensures Opened(Sealed(x, k, r), k, r) == x
  {
    hide Rounds, InvRounds, Keyed, Unkeyed;
    KeyedInverse(Rounds(x, k, r), k[2 * r], true);
    RoundsInverse(x, k, r);
  }

  // ---------------------------------------------------------------- the key schedules

  function Rot1(b: bv8): bv8 { (b << 1) | (b >> 7) }

  /** n rotations to the left by one bit. */
  function Rot(b: bv8, n: nat): bv8 {
    if n == 0 then b else Rot1(Rot(b, n - 1))
  }

  function Left3(b: bv8): bv8 { (b << 3) | (b >> 5) }
  function Left6(b: bv8): bv8 { (b << 6) | (b >> 2) }
  function Right3(b: bv8): bv8 { (b >> 3) | (b << 5) }

  lemma Left3Is(b: bv8)
    ensures Left3(b) == Rot1(Rot1(Rot1(b)))
  {
    calc {
      Rot1(Rot1(Rot1(b)));
      Rot1(Rot1((b << 1) | (b >> 7)));
      Rot1((((b << 1) | (b >> 7)) << 1) | (((b << 1) | (b >> 7)) >> 7));
      Rot1((b << 2) | (b >> 6));
      (((b << 2) | (b >> 6)) << 1) | (((b << 2) | (b >> 6)) >> 7);
      (b << 3) | (b >> 5);
      Left3(b);
    }
  }

  lemma Left6Is(b: bv8)
    ensures Left6(b) == Left3(Left3(b))
  {
    calc {
      Left3(Left3(b));
      Left3((b << 3) | (b >> 5));
      (((b << 3) | (b >> 5)) << 3) | (((b << 3) | (b >> 5)) >> 5);
      (b << 6) | (b >> 2);
      Left6(b);
    }
  }

  lemma RotThree(b: bv8, n: nat, m: nat)
    requires m == n + 3
    ensures Left3(Rot(b, n)) == Rot(b, m)
  {
    hide Rot1, Left3;
    Left3Is(Rot(b, n));
    assert Rot(b, n + 1) == Rot1(Rot(b, n));
    assert Rot(b, n + 2) == Rot1(Rot(b, n + 1));
  }

  lemma RotSix(b: bv8, n: nat, m: nat)
    requires m == n + 6
    ensures Left6(Rot(b, n)) == Rot(b, m)
  {
    hide Rot, Left3, Left6;
    Left6Is(Rot(b, n));
    RotThree(b, n, n + 3);
    RotThree(b, n + 3, m);
  }

  /** The entry of s that biases byte j of key i. Beyond the end of the table the code reads what happens to be there,
      which `past` stands for. */
  function BiasIndex(i: nat, j: nat): nat { 9 * (i + 1) + j + 1 }

  function Bias(i: nat, j: nat, past: nat -> bv8): bv8 {
    var t := BiasIndex(i, j);
    if t < 256 then S2(Exp(t))
    else
      ByteRange(past(t));
      S2(ByteValue(past(t)))
  }

  /** A table entry as a byte. */
  function S2(e: nat): bv8 { ToByte(Exp(e)) }

  /** The schedules stay inside the table exactly for at most 13 rounds, although 16 are allowed. */
  lemma BiasInside(r: nat)
    ensures (forall i, j :: 0 < i <= 2 * r && 0 <= j < 8 ==> BiasIndex(i, j) < 256) <==> r <= 13
  {
    if r > 13 {
      assert BiasIndex(2 * r, 0) >= 256;
    }
  }

  /** The two halves of a key; a short key is both of them. */
  function FirstHalf(key: Bytes): Block8
    requires |key| >= 8
  {
    key[..8]
  }

  function SecondHalf(key: Bytes): Block8
    requires |key| >= 8
  {
    key[|key| - 8..]
  }

  /** Key i of SAFER K: odd ones from the first half, even ones from the second, rotated by 3 i bits and biased. */
  function RowK(key: Bytes, i: nat, past: nat -> bv8): (r: Block8)
    requires |key| >= 8
  {
    if i == 0 then SecondHalf(key)
    else
      var h := if i % 2 == 1 then FirstHalf(key) else SecondHalf(key);
      seq(8, j requires 0 <= j < 8 => AddByte(Rot(h[j], 3 * i), Bias(i, j, past)))
  }

  function Parity(h: Bytes, n: nat): bv8
    requires n <= |h|
  {
    if n == 0 then 0 else XorByte(Parity(h, n - 1), h[n - 1])
  }

  /** A half of the key and its parity byte. */
  function Nine(h: Block8): (r: Bytes)
    ensures |r| == 9
  {
    h + [Parity(h, 8)]
  }

  /** Place i + j on a ring of nine. */
  function Around(i: nat, j: nat): (k: nat)
    ensures k < 9
  {
    (i + j) % 9
  }

  /** Key i of SAFER SK: the same from nine bytes that are turned round by one place a key. */
  function RowSK(key: Bytes, i: nat, past: nat -> bv8): (r: Block8)
    requires |key| >= 8
  {
    if i == 0 then SecondHalf(key)
    else
      var h := Nine(if i % 2 == 1 then FirstHalf(key) else SecondHalf(key));
      seq(8, j requires 0 <= j < 8 => AddByte(Rot(h[Around(i, j)], 3 * i), Bias(i, j, past)))
  }

  /** A long key with two equal halves has the schedule of the short one. */
  lemma EqualHalves(h: Block8, i: nat, past: nat -> bv8)
    ensures RowK(h + h, i, past) == RowK(h, i, past) && RowSK(h + h, i, past) == RowSK(h, i, past)
  {
    hide Rot, Bias, Nine, Around;
    assert FirstHalf(h + h) == h == FirstHalf(h);
    assert SecondHalf(h + h) == h == SecondHalf(h);
  }
}
