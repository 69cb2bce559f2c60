/** DES with the boxes of impl/block/des/des.cc is the cipher of FIPS 46-3. */
module DesStandard {
  import opened Bits
  import opened Counter
  import opened DesSpec
  import opened Rotates
  import opened RotatedBits
  import opened Des
  import opened DesBoxes
  import opened DesPermutation
  import opened DesRounds
  import opened Numbers
  import Words

  type Bytes = Words.Bytes

  const SPBOX: Boxes := (n: nat, v: nat) => SpBox(n, v)

  // ---------------------------------------------------------------- the function f

  /** What box n gives in round i. */
  function Chosen(half: Word, key: Bytes, i: nat, n: nat): bv8
    requires |key| >= 8 && i < 16 && n < 8
  {
    S(n, Short(BoxInput(half, key, i, n)))
  }

  /** What the first n boxes contribute. */
  function Outputs(half: Word, key: Bytes, i: nat, n: nat): Word
    requires |key| >= 8 && i < 16 && n <= 8
  {
    if n == 0 then 0 else Xor(Outputs(half, key, i, n - 1), Spread(n - 1, Chosen(half, key, i, n - 1)))
  }

  /** f(R, K) of round i. */
  function StandardF(half: Word, key: Bytes, i: nat): Word
    requires |key| >= 8 && i < 16
  {
    Outputs(half, key, i, 8)
  }

  lemma {:induction false} UnitBit(a: nat, b: nat)
    requires a < 32 && b < 32
    ensures Bit(Unit(a), b) == (a == b)
    decreases a
  {
    hide Bit, Double;
    if a == 0 {
      FirstBit(b);
    } else {
      BitDouble(Unit(a - 1), b);
      if b > 0 {
        UnitBit(a - 1, b - 1);
      }
    }
  }

  lemma FirstBit(b: nat)
    ensures Bit(1, b) == (b == 0)
  {
    if b > 0 {
      assert Half(1) == 0;
      NoBits(b - 1);
    }
  }

  /** A bit of the output of one box: P takes it from that box or does not. */
  lemma SpreadBit(n: nat, v: bv8, p: nat)
    requires n < 8 && 1 <= p <= 32
    ensures HalfBit(Spread(n, v), p) == (n == (P(p) - 1) / 4 && FourBit(v, (P(p) - 1) % 4))
  {
    hide Bit, Xor, Unit, P, PInverse, FourBit;
    var k := 32 - p;
    OutputBit(n, 0, p);
    OutputBit(n, 1, p);
    OutputBit(n, 2, p);
    OutputBit(n, 3, p);
    NoBits(k);
    var a, b := if FourBit(v, 0) then Output(n, 0) else 0, if FourBit(v, 1) then Output(n, 1) else 0;
    var c, d := if FourBit(v, 2) then Output(n, 2) else 0, if FourBit(v, 3) then Output(n, 3) else 0;
    BitXor(a, b, k);
    BitXor(c, d, k);
    BitXor(Xor(a, b), Xor(c, d), k);
  }

  lemma OutputBit(n: nat, j: nat, p: nat)
    requires n < 8 && j < 4 && 1 <= p <= 32
    ensures HalfBit(Output(n, j), p) == (P(p) == 4 * n + j + 1)
  {
    hide Bit, Unit, P, PInverse;
    UnitBit(32 - PInverse(4 * n + j + 1), 32 - p);
    PInverseIs(4 * n + j + 1);
    PInverseIs(p);
  }

  lemma {:induction false} OutputsBit(half: Word, key: Bytes, i: nat, n: nat, p: nat)
    requires |key| >= 8 && i < 16 && n <= 8 && 1 <= p <= 32
    ensures var m := (P(p) - 1) / 4;
            HalfBit(Outputs(half, key, i, n), p) == (m < n && FourBit(Chosen(half, key, i, m), (P(p) - 1) % 4))
  {
    hide Bit, Xor, Spread, P, FourBit, Chosen;
    if n == 0 {
      NoBits(32 - p);
    } else {
      OutputsBit(half, key, i, n - 1, p);
      SpreadBit(n - 1, Chosen(half, key, i, n - 1), p);
      BitXor(Outputs(half, key, i, n - 1), Spread(n - 1, Chosen(half, key, i, n - 1)), 32 - p);
    }
  }

  /** Bit p of f(R, K) is bit P(p) of what the eight boxes give. */
  lemma StandardBit(half: Word, key: Bytes, i: nat, p: nat)
    requires |key| >= 8 && i < 16 && 1 <= p <= 32
    ensures HalfBit(StandardF(half, key, i), p)
         == FourBit(Chosen(half, key, i, (P(p) - 1) / 4), (P(p) - 1) % 4)
  {
    hide Bit, Outputs, P, FourBit, Chosen;
    OutputsBit(half, key, i, 8, p);
  }

  // ---------------------------------------------------------------- rounds on rotated halves

  lemma TurnXor(a: Word, b: Word)
    ensures RotateLeft(Xor(a, b), 1) == Xor(RotateLeft(a, 1), RotateLeft(b, 1)) && RotateLeft(0, 1) == 0
  {
    calc {
      RotateLeft(Xor(a, b), 1);
      RotateLeft(a ^ b, 1);
      ((a ^ b) << 1) | ((a ^ b) >> 31);
      ((a << 1) | (a >> 31)) ^ ((b << 1) | (b >> 31));
      Xor((a << 1) | (a >> 31), (b << 1) | (b >> 31));
      Xor(RotateLeft(a, 1), RotateLeft(b, 1));
    }
  }

  lemma {:induction false} BoxSumTurned(half: Word, key: Bytes, i: nat, n: nat)
    requires |key| >= 8 && i < 16 && n <= 8
    ensures BoxSum(SPBOX, half, key, i, n) == RotateLeft(Outputs(half, key, i, n), 1)
  {
    hide RotateLeft, Xor, Spread, SpByte, BoxInput, S, Short;
    TurnXor(0, 0);
    if n > 0 {
      var m := n - 1;
      BoxSumTurned(half, key, i, m);
      ByteConforms(m, Short(BoxInput(half, key, i, m)));
      TurnXor(Outputs(half, key, i, m), Spread(m, Chosen(half, key, i, m)));
    }
  }

  /** A round of the code on rotated halves is f, rotated. */
  lemma FConforms(half: Word, key: Bytes, i: nat)
    requires |key| >= 8 && i < 16
    ensures F(SPBOX, RotateLeft(half, 1), RoundKey(key, i).l, RoundKey(key, i).r)
         == RotateLeft(StandardF(half, key, i), 1)
  {
    hide RotateLeft, F, RoundKey, BoxSum, Outputs;
    RoundConforms(SPBOX, half, key, i);
    BoxSumTurned(half, key, i, 8);
  }

  /** The first n rounds of the standard: L' = R and R' = L xor f(R, K). */
  function StandardRounds(p: Pair, key: Bytes, n: nat): Pair
    requires |key| >= 8 && n <= 16
  {
    if n == 0 then p
    else
      var q := StandardRounds(p, key, n - 1);
      Pair(q.r, Xor(q.l, StandardF(q.r, key, n - 1)))
  }

  function Turn(p: Pair): Pair { Pair(RotateLeft(p.l, 1), RotateLeft(p.r, 1)) }

  lemma {:induction false} RoundsTurned(p: Pair, key: Bytes, k: seq<Word>, n: nat)
    requires |key| >= 8 && Scheduled(k, key, 16) && n <= 16
    ensures |k| == 32 && Rounds(SPBOX, Turn(p), k, n) == Turn(StandardRounds(p, key, n))
  {
    hide RotateLeft, Xor, F, RoundKey, StandardF;
    if n > 0 {
      var m := n - 1;
      RoundsTurned(p, key, k, m);
      var q := StandardRounds(p, key, m);
      assert PairAt(k, m) == RoundKey(key, m);
      FConforms(q.r, key, m);
      TurnXor(q.l, StandardF(q.r, key, m));
    }
  }

  /** A block whose halves are rotated left by one. */
  lemma Unturned(p: Pair)
    ensures Turn(Pair(RotateRight(p.l, 1), RotateRight(p.r, 1))) == p
  {
    hide RotateLeft, RotateRight;
    Turn1(p.l);
    Turn1(p.r);
  }

  /** Sections 3 and 4 of FIPS 46-3: the block is permuted, goes through sixteen rounds, and what comes out is the block
      whose initial permutation is the two halves exchanged. */
  ghost predicate Enciphers(key: Bytes, p: Pair, c: Pair)
    requires |key| >= 8
  {
    exists q :: IsPermuted(p, q) && IsPermuted(c, Swap(StandardRounds(q, key, 16)))
  }

  lemma CryptConforms(key: Bytes, k: seq<Word>, p: Pair)
    requires |key| >= 8 && Scheduled(k, key, 16)
    ensures |k| == 32 && Enciphers(key, p, Crypt(SPBOX, k, p))
  {
    hide RotateLeft, RotateRight, StandardRounds, Rounds, IPerm, FPerm, IsPermuted, RoundKey;
    var x := IPerm(p);
    var q := Pair(RotateRight(x.l, 1), RotateRight(x.r, 1));
    Unturned(x);
    IPermConforms(p, q);
    RoundsTurned(q, key, k, 16);
    var b := StandardRounds(q, key, 16);
    var c := Crypt(SPBOX, k, p);
    CryptIs(SPBOX, k, p);
    PermBack(Turn(b));
    assert IPerm(c) == Swap(Turn(b));
    IPermConforms(c, Swap(b));
  }

  /** The halves of a block are big-endian words. */
  lemma HalfNumbers(b: Bytes)
    requires |b| == 8
    ensures Number(PairOf(b).l) == Value(b[..4]) && Number(PairOf(b).r) == Value(b[4..])
  {
    hide Number, Value, LoadWord32;
    BigEndian(b[..4]);
    BigEndian(b[4..]);
  }

  /** Every block that the source encrypts is enciphered as in the standard. */
  method EncryptBlock(d: Des, out: array<bv8>, inp: array<bv8>, ghost key: Bytes)
    requires |key| >= 8 && d.Keyed(key) && d.sp == SPBOX
    requires out.Length == inp.Length == 8 && (out as object) != d.k && (out as object) != d.kd
    modifies out
    ensures Enciphers(key, PairOf(old(inp[..])), PairOf(out[..]))
  {
    hide *;
    ghost var p := PairOf(inp[..]);
    KeysOf(d, key);
    CryptConforms(key, d.k[..], p);
    PairOfBytes(Crypt(SPBOX, d.k[..], p));
    d.Encrypt(out, inp);
  }

  /** And every block that it decrypts is one that the standard enciphers to the input. */
  method DecryptBlock(d: Des, out: array<bv8>, inp: array<bv8>, ghost key: Bytes)
    requires |key| >= 8 && d.Keyed(key) && d.sp == SPBOX
    requires out.Length == inp.Length == 8 && (out as object) != d.k && (out as object) != d.kd
    modifies out
    ensures Enciphers(key, PairOf(out[..]), PairOf(old(inp[..])))
  {
    hide *;
    ghost var c := PairOf(inp[..]);
    KeysOf(d, key);
    ghost var p := Crypt(SPBOX, d.kd[..], c);
    ReversedTwice(d.k[..], d.kd[..]);
    CryptInverse(SPBOX, d.kd[..], d.k[..], c);
    CryptConforms(key, d.k[..], p);
    PairOfBytes(p);
    d.Decrypt(out, inp);
  }

  lemma KeysOf(d: Des, key: Bytes)
    requires |key| >= 8 && d.Keyed(key)
    ensures d.Ready() && Scheduled(d.k[..], key, 16) && Reversed(d.k[..], d.kd[..]) && |d.k[..]| == |d.kd[..]| == 32
  {
    hide RoundKey;
  }
}
