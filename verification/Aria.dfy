/** The ARIA block cipher (impl/block/aria/aria.hh, aria.cc), with its bytewise key schedule (ariabyte.cc) and the one
    on 128-bit integers (aria128.cc). */
module Aria {
  import opened Words
  import opened Keystream
  import opened Counter
  import opened Endian
  import opened Linear
  import opened Sbox
  import opened AriaSbox
  import opened AriaSpec
  import opened AriaKeys

  // ---------------------------------------------------------------- layers

  /** sl1: a key is added and every byte substituted. out may be inp. */
  method Sl1(out: array<bv8>, inp: array<bv8>, x: Bytes16)
    requires out.Length == inp.Length == 16
    modifies out
    ensures out[..] == Layer(false, XorBytes(old(inp[..]), x))
  {
    hide Box, XorBytes;
    var t := XorBytes(inp[..], x);
    for i := 0 to 16
      invariant forall j :: 0 <= j < i ==> out[j] == Box(false, j, t[j])
    {
      out[i] := Box(false, i, t[i]);
    }
  }

  /** sl2: the same with the inverse boxes. */
  method Sl2(out: array<bv8>, inp: array<bv8>, x: Bytes16)
    requires out.Length == inp.Length == 16
    modifies out
    ensures out[..] == Layer(true, XorBytes(old(inp[..]), x))
  {
    hide Box, XorBytes;
    var t := XorBytes(inp[..], x);
    for i := 0 to 16
      invariant forall j :: 0 <= j < i ==> out[j] == Box(true, j, t[j])
    {
      out[i] := Box(true, i, t[i]);
    }
  }

  /** The order in which afunc writes its bytes, and when byte i is written. */
  function Slot(n: nat): (k: nat)
    ensures k < 16
  {
    match n
    case 0 => 11 case 1 => 5 case 2 => 0 case 3 => 14
    case 4 => 1 case 5 => 15 case 6 => 10 case 7 => 4
    case 8 => 3 case 9 => 13 case 10 => 8 case 11 => 6
    case 12 => 9 case 13 => 7 case 14 => 2 case _ => 12
  }

  function Turn(i: nat): (n: nat)
    ensures n < 16
  {
    match i
    case 0 => 2 case 1 => 4 case 2 => 14 case 3 => 8
    case 4 => 7 case 5 => 1 case 6 => 11 case 7 => 13
    case 8 => 10 case 9 => 12 case 10 => 6 case 11 => 0
    case 12 => 15 case 13 => 9 case 14 => 3 case _ => 5
  }

  lemma EverySlot(i: nat)
    requires i < 16
    ensures Slot(Turn(i)) == i
  {}

  ghost predicate Diffused(out: Bytes, x: Bytes16, n: nat) {
    |out| == 16 && forall j :: 0 <= j < n ==> out[Slot(j)] == Diffuse(x)[Slot(j)]
  }

  /** Write n of afunc: the sum of seven columns. */
  method Put(out: array<bv8>, k: nat, v: bv8, ghost x: Bytes16, ghost s: Seven, ghost n: nat)
    requires out.Length == 16 && k == Slot(n) && Columns(k) == s && Inside(s) && v == SumAt(x, s)
    requires Diffused(out[..], x, n)
    modifies out
    ensures Diffused(out[..], x, n + 1)
  {
    hide SumAt, Diffuse, Inside, Columns, Slot;
    DiffuseAt(x, k);
    out[k] := v;
  }

  lemma AllDiffused(out: Bytes, x: Bytes16)
    requires Diffused(out, x, 16)
    ensures out == Diffuse(x)
  {
    hide Diffuse, Slot, Turn;
    forall i | 0 <= i < 16
      ensures out[i] == Diffuse(x)[i]
    {
      EverySlot(i);
      assert out[Slot(Turn(i))] == Diffuse(x)[Slot(Turn(i))];
    }
  }

  lemma NoneDiffused(out: Bytes, x: Bytes16)
    requires |out| == 16
    ensures Diffused(out, x, 0)
  {}

  /** The bytes of afunc that share p349e. */
  method Share349E(out: array<bv8>, x: Bytes16, p0b: bv8, p1a: bv8, p6d: bv8, p7c: bv8)
    requires out.Length == 16 && Diffused(out[..], x, 0)
    requires p0b == XorByte(x[0], x[14])
    requires p1a == XorByte(x[4], x[10])
    requires p6d == XorByte(x[9], x[7])
    requires p7c == XorByte(x[13], x[3])
    modifies out
    ensures Diffused(out[..], x, 4)
  {
    hide XorByte, Diffuse, Diffused;
    var p349e := XorByte(XorByte(XorByte(x[12], x[1]), x[6]), x[11]);
    Put(out, 11, XorByte(XorByte(p349e, p0b), x[5]), x, Seven(12, 1, 6, 11, 0, 14, 5), 0);
    Put(out, 5, XorByte(XorByte(p349e, p1a), x[15]), x, Seven(12, 1, 6, 11, 4, 10, 15), 1);
    Put(out, 0, XorByte(XorByte(p349e, p6d), x[2]), x, Seven(12, 1, 6, 11, 9, 7, 2), 2);
    Put(out, 14, XorByte(XorByte(p349e, p7c), x[8]), x, Seven(12, 1, 6, 11, 13, 3, 8), 3);
  }

  /** The bytes of afunc that share p258f. */
  method Share258F(out: array<bv8>, x: Bytes16, p0b: bv8, p1a: bv8, p6d: bv8, p7c: bv8)
    requires out.Length == 16 && Diffused(out[..], x, 4)
    requires p0b == XorByte(x[0], x[14])
    requires p1a == XorByte(x[4], x[10])
    requires p6d == XorByte(x[9], x[7])
    requires p7c == XorByte(x[13], x[3])
    modifies out
    ensures Diffused(out[..], x, 8)
  {
    hide XorByte, Diffuse, Diffused;
    var p258f := XorByte(XorByte(XorByte(x[8], x[5]), x[2]), x[15]);
    Put(out, 1, XorByte(XorByte(p258f, p0b), x[11]), x, Seven(8, 5, 2, 15, 0, 14, 11), 4);
    Put(out, 15, XorByte(XorByte(p258f, p1a), x[1]), x, Seven(8, 5, 2, 15, 4, 10, 1), 5);
    Put(out, 10, XorByte(XorByte(p258f, p6d), x[12]), x, Seven(8, 5, 2, 15, 9, 7, 12), 6);
    Put(out, 4, XorByte(XorByte(p258f, p7c), x[6]), x, Seven(8, 5, 2, 15, 13, 3, 6), 7);
  }

  /** The bytes of afunc that share p16bc. */
  method Share16BC(out: array<bv8>, x: Bytes16, p29: bv8, p38: bv8, p4f: bv8, p5e: bv8)
    requires out.Length == 16 && Diffused(out[..], x, 8)
    requires p29 == XorByte(x[8], x[6])
    requires p38 == XorByte(x[12], x[2])
    requires p4f == XorByte(x[1], x[15])
    requires p5e == XorByte(x[5], x[11])
    modifies out
    ensures Diffused(out[..], x, 12)
  {
    hide XorByte, Diffuse, Diffused;
    var p16bc := XorByte(XorByte(XorByte(x[4], x[9]), x[14]), x[3]);
    Put(out, 3, XorByte(XorByte(p16bc, p29), x[13]), x, Seven(4, 9, 14, 3, 8, 6, 13), 8);
    Put(out, 13, XorByte(XorByte(p16bc, p38), x[7]), x, Seven(4, 9, 14, 3, 12, 2, 7), 9);
    Put(out, 8, XorByte(XorByte(p16bc, p4f), x[10]), x, Seven(4, 9, 14, 3, 1, 15, 10), 10);
    Put(out, 6, XorByte(XorByte(p16bc, p5e), x[0]), x, Seven(4, 9, 14, 3, 5, 11, 0), 11);
  }

  /** The bytes of afunc that share p07ad. */
  method Share07AD(out: array<bv8>, x: Bytes16, p29: bv8, p38: bv8, p4f: bv8, p5e: bv8)
    requires out.Length == 16 && Diffused(out[..], x, 12)
    requires p29 == XorByte(x[8], x[6])
    requires p38 == XorByte(x[12], x[2])
    requires p4f == XorByte(x[1], x[15])
    requires p5e == XorByte(x[5], x[11])
    modifies out
    ensures Diffused(out[..], x, 16)
  {
    hide XorByte, Diffuse, Diffused;
    var p07ad := XorByte(XorByte(XorByte(x[0], x[13]), x[10]), x[7]);
    Put(out, 9, XorByte(XorByte(p07ad, p29), x[3]), x, Seven(0, 13, 10, 7, 8, 6, 3), 12);
    Put(out, 7, XorByte(XorByte(p07ad, p38), x[9]), x, Seven(0, 13, 10, 7, 12, 2, 9), 13);
    Put(out, 2, XorByte(XorByte(p07ad, p4f), x[4]), x, Seven(0, 13, 10, 7, 1, 15, 4), 14);
    Put(out, 12, XorByte(XorByte(p07ad, p5e), x[14]), x, Seven(0, 13, 10, 7, 5, 11, 14), 15);
  }

  /** afunc. */
  method Afunc(out: array<bv8>, inp: array<bv8>)
    requires out.Length == inp.Length == 16 && out != inp
    modifies out
    ensures out[..] == Diffuse(inp[..])
  {
    hide *;
    var x := inp[..];
    NoneDiffused(out[..], x);
    var p0b := XorByte(x[0], x[14]);
    var p1a := XorByte(x[4], x[10]);
    var p6d := XorByte(x[9], x[7]);
    var p7c := XorByte(x[13], x[3]);
    Share349E(out, x, p0b, p1a, p6d, p7c);
    Share258F(out, x, p0b, p1a, p6d, p7c);
    var p29 := XorByte(x[8], x[6]);
    var p38 := XorByte(x[12], x[2]);
    var p4f := XorByte(x[1], x[15]);
    var p5e := XorByte(x[5], x[11]);
    Share16BC(out, x, p29, p38, p4f, p5e);
    Share07AD(out, x, p29, p38, p4f, p5e);
    AllDiffused(out[..], x);
  }

  /** fo and fe: a substitution layer, then the diffusion layer. */
  method Fo(out: array<bv8>, inp: array<bv8>, x: Bytes16)
    requires out.Length == inp.Length == 16
    modifies out
    ensures out[..] == Diffuse(Layer(false, XorBytes(old(inp[..]), x)))
  {
    hide *;
    var t := new bv8[16];
    Sl1(t, inp, x);
    Afunc(out, t);
  }

  method Fe(out: array<bv8>, inp: array<bv8>, x: Bytes16)
    requires out.Length == inp.Length == 16
    modifies out
    ensures out[..] == Diffuse(Layer(true, XorBytes(old(inp[..]), x)))
  {
    hide *;
    var t := new bv8[16];
    Sl2(t, inp, x);
    Afunc(out, t);
  }

  // ---------------------------------------------------------------- blocks

  /** A pair of rounds, i even: fo with key i, then fe with the next one. */
  method TwoRounds(buf0: array<bv8>, buf1: array<bv8>, sk: seq<Bytes16>, i: nat, ghost x: Bytes16)
    requires buf0.Length == buf1.Length == 16 && buf0 != buf1 && i % 2 == 0 && i + 1 < |sk|
    requires buf1[..] == Rounds(x, sk, i)
    modifies buf0, buf1
    ensures buf1[..] == Rounds(x, sk, i + 2)
  {
    hide *;
    var j := i + 1;
    Fo(buf0, buf1, sk[i]);
    RoundsNext(x, sk, i);
    Fe(buf1, buf0, sk[j]);
    RoundsNext(x, sk, j);
    assert j + 1 == i + 2 && j % 2 == 1;
  }

  /** The last two rounds, i even, and the last key. */
  method LastRounds(out: array<bv8>, buf0: array<bv8>, buf1: array<bv8>, sk: seq<Bytes16>, i: nat, ghost x: Bytes16)
    requires buf0.Length == buf1.Length == 16 && buf0 != buf1 && i % 2 == 0 && i + 2 < |sk|
    requires out.Length >= 16 && out != buf0 && out != buf1
    requires buf1[..] == Rounds(Permute(x), sk, i)
    modifies buf0, buf1, out
    ensures out[..16] == Enciphered(x, sk, i + 2) && out[16..] == old(out[16..])
  {
    hide *;
    var j, n := i + 1, i + 2;
    Fo(buf0, buf1, sk[i]);
    RoundsNext(Permute(x), sk, i);
    Sl2(buf1, buf0, sk[j]);
    CopyInto(buf0, XorBytes(buf1[..], sk[n]));
    CryptIs(Permute(x), sk, n);
    assert n - 1 == j && j % 2 == 1;
    ghost var rest := out[16..];
    StoreAt(out, 0, Permute(buf0[..]));
    assert out[..16] == out[0..0 + 16] && out[16..] == rest;
    CipherIs(x, sk, i + 2);
  }

  lemma CipherIs(x: Bytes16, keys: seq<Bytes16>, n: nat)
    requires 0 < n < |keys|
    ensures Enciphered(x, keys, n) == Permute(Crypt(Permute(x), keys, n))
  {}

  /** Encrypt128: 12 rounds; out may be inp. */
  method Encrypt128(out: array<bv8>, inp: array<bv8>, sk: seq<Bytes16>)
    requires out.Length >= 16 && inp.Length >= 16 && |sk| > 12
    modifies out
    ensures out[..16] == Enciphered(old(inp[..16]), sk, 12) && out[16..] == old(out[16..])
  {
    hide *;
    ghost var x: Bytes16 := inp[..16];
    var buf0, buf1 := new bv8[16], new bv8[16];
    CopyInto(buf1, Permute(inp[..16]));
    RoundsNone(Permute(x), sk);
    TwoRounds(buf0, buf1, sk, 0, Permute(x));
    TwoRounds(buf0, buf1, sk, 2, Permute(x));
    TwoRounds(buf0, buf1, sk, 4, Permute(x));
    TwoRounds(buf0, buf1, sk, 6, Permute(x));
    TwoRounds(buf0, buf1, sk, 8, Permute(x));
    LastRounds(out, buf0, buf1, sk, 10, x);
  }

  /** Encrypt192: 14 rounds; out may be inp. */
  method Encrypt192(out: array<bv8>, inp: array<bv8>, sk: seq<Bytes16>)
    requires out.Length >= 16 && inp.Length >= 16 && |sk| > 14
    modifies out
    ensures out[..16] == Enciphered(old(inp[..16]), sk, 14) && out[16..] == old(out[16..])
  {
    hide *;
    ghost var x: Bytes16 := inp[..16];
    var buf0, buf1 := new bv8[16], new bv8[16];
    CopyInto(buf1, Permute(inp[..16]));
    RoundsNone(Permute(x), sk);
    TwoRounds(buf0, buf1, sk, 0, Permute(x));
    TwoRounds(buf0, buf1, sk, 2, Permute(x));
    TwoRounds(buf0, buf1, sk, 4, Permute(x));
    TwoRounds(buf0, buf1, sk, 6, Permute(x));
    TwoRounds(buf0, buf1, sk, 8, Permute(x));
    TwoRounds(buf0, buf1, sk, 10, Permute(x));
    LastRounds(out, buf0, buf1, sk, 12, x);
  }

  /** Encrypt256: 16 rounds; out may be inp. */
  method Encrypt256(out: array<bv8>, inp: array<bv8>, sk: seq<Bytes16>)
    requires out.Length >= 16 && inp.Length >= 16 && |sk| > 16
    modifies out
    ensures out[..16] == Enciphered(old(inp[..16]), sk, 16) && out[16..] == old(out[16..])
  {
    hide *;
    ghost var x: Bytes16 := inp[..16];
    var buf0, buf1 := new bv8[16], new bv8[16];
    CopyInto(buf1, Permute(inp[..16]));
    RoundsNone(Permute(x), sk);
    TwoRounds(buf0, buf1, sk, 0, Permute(x));
    TwoRounds(buf0, buf1, sk, 2, Permute(x));
    TwoRounds(buf0, buf1, sk, 4, Permute(x));
    TwoRounds(buf0, buf1, sk, 6, Permute(x));
    TwoRounds(buf0, buf1, sk, 8, Permute(x));
    TwoRounds(buf0, buf1, sk, 10, Permute(x));
    TwoRounds(buf0, buf1, sk, 12, Permute(x));
    LastRounds(out, buf0, buf1, sk, 14, x);
  }

  // ---------------------------------------------------------------- the cipher

  /** The return values of the cipher. */
  datatype Status = Ok | Invalid

  /** Number of rounds for each of the three key sizes. */
  function RoundCount(off: nat): (n: nat)
    ensures 0 < n && n % 2 == 0 && (off <= 2 ==> n <= 16)
  {
    12 + 2 * off
  }

  class Aria {
    const ek: array<Bytes16>
    const dk: array<Bytes16>
    var off: nat
    ghost var key: Bytes

    ghost predicate Ready() {
      ek.Length == 17 && dk.Length == 17 && ek != dk
    }

    /** A key of any size that the schedules accept is set. */
    ghost predicate Keyed()
      reads this, ek, dk
    {
      && Ready() && |key| <= 32 && off <= 2 && |key| / 8 == off + 2
      && ek[..] == Schedule(WordsOf(key, off))
      && dk[..RoundCount(off) + 1] == Reversed(ek[..], RoundCount(off))
    }

    constructor ()
      ensures Ready() && fresh(ek) && fresh(dk)
    {
      ek := new Bytes16[17](i => Zeros(16));
      dk := new Bytes16[17](i => Zeros(16));
      off := 0;
      key := [];
    }

    /** What encryption and decryption under the keys make of a block. */
    ghost function Sealed(x: Bytes16): Bytes16
      requires Ready() && off <= 2
      reads this, ek
    {
      Enciphered(x, ek[..], RoundCount(off))
    }

    ghost function Opened(x: Bytes16): Bytes16
      requires Ready() && off <= 2
      reads this, ek
    {
      Enciphered(x, Reversed(ek[..], RoundCount(off)), RoundCount(off))
    }

    lemma Inverse(x: Bytes16)
      requires Ready() && off <= 2
      ensures Opened(Sealed(x)) == x
    {
      hide Enciphered, Reversed;
      AriaSpec.RoundTrip(x, ek[..], RoundCount(off));
    }

    lemma KeyedFacts()
      requires Keyed()
      ensures off <= 2 && ek.Length == dk.Length == 17 && RoundCount(off) == 12 + 2 * off
      ensures dk[..RoundCount(off) + 1] == Reversed(ek[..], RoundCount(off))
    {
      hide Schedule, WordsOf, Reversed;
    }

    /** The block in a buffer. */
    static ghost function Front(a: array<bv8>): Bytes16
      requires a.Length >= 16
      reads a
    {
      a[..16]
    }

    static lemma FrontIs(a: array<bv8>)
      requires a.Length >= 16
      ensures Front(a) == a[..16]
    {}

    lemma KeysKept(x: Bytes16)
      requires Ready() && off <= 2
      ensures 0 < RoundCount(off) <= 16 && |ek[..]| == 17 && Sealed(x) == Enciphered(x, ek[..], RoundCount(off))
      ensures Opened(x) == Enciphered(x, Reversed(ek[..], RoundCount(off)), RoundCount(off))
    {
      hide Enciphered, Reversed;
    }

    /** Encrypt; out may be inp. */
    method Encrypt(out: array<bv8>, inp: array<bv8>)
      requires Ready() && off <= 2 && Keyed() && out.Length >= 16 && inp.Length >= 16
      requires (out as object) != ek && (out as object) != dk
      modifies out
      ensures Keyed() && Front(out) == Sealed(old(Front(inp))) && out[16..] == old(out[16..])
    {
      hide *;
      KeysKept(Front(inp));
      FrontIs(inp);
      KeyedFacts();
      if off == 0 {
        Encrypt128(out, inp, ek[..]);
      } else if off == 1 {
        Encrypt192(out, inp, ek[..]);
      } else {
        Encrypt256(out, inp, ek[..]);
      }
      FrontIs(out);
    }

    /** Decrypt: the same code with the other keys; out may be inp. */
    method Decrypt(out: array<bv8>, inp: array<bv8>)
      requires Ready() && off <= 2 && Keyed() && out.Length >= 16 && inp.Length >= 16
      requires (out as object) != ek && (out as object) != dk
      modifies out
      ensures Keyed() && Front(out) == Opened(old(Front(inp))) && out[16..] == old(out[16..])
    {
      hide *;
      KeysKept(Front(inp));
      FrontIs(inp);
      KeyedFacts();
      CipherPrefix(inp[..16], dk[..], RoundCount(off));
      if off == 0 {
        Encrypt128(out, inp, dk[..]);
      } else if off == 1 {
        Encrypt192(out, inp, dk[..]);
      } else {
        Encrypt256(out, inp, dk[..]);
      }
      FrontIs(out);
    }

    /** Decryption gives back every block that was encrypted, for every key. */
    method RoundTrip(out: array<bv8>, inp: array<bv8>)
      requires Ready() && off <= 2 && Keyed() && out.Length >= 16 && inp.Length >= 16
      requires (out as object) != ek && (out as object) != dk
      modifies out
      ensures out[..16] == old(inp[..16]) && out[16..] == old(out[16..])
    {
      hide *;
      FrontIs(inp);
      Inverse(Front(inp));
      Encrypt(out, inp);
      Decrypt(out, out);
      FrontIs(out);
    }

    // -------------------------------------------------------------- keys

    /** The end of both schedules: the keys of decryption. */
    method SetDecryption()
      requires Ready() && off <= 2
      modifies dk
      ensures dk[..RoundCount(off) + 1] == Reversed(ek[..], RoundCount(off))
    {
      hide Diffuse;
      var n := RoundCount(off);
      assert n <= 16;
      ghost var keys := ek[..];
      dk[0] := ek[n];
      var s, t := new bv8[16], new bv8[16];
      for i := 1 to n
        invariant fresh(s) && fresh(t) && ek[..] == keys && dk[0] == keys[n]
        invariant forall j :: 0 < j < i ==> dk[j] == Diffuse(keys[n - j])
      {
        CopyInto(s, ek[n - i]);
        Afunc(t, s);
        dk[i] := t[..];
      }
      dk[n] := ek[0];
    }

    /** SetKeyInternal of ARIABytewise. The source copies the key into 32 bytes before it looks at its length. */
    method SetKeyBytewise(k: Bytes) returns (s: Status)
      requires Ready() && |k| <= 32
      modifies this, ek, dk
      ensures s == if 2 <= |k| / 8 <= 4 then Ok else Invalid
      ensures s == Ok ==> Keyed() && key == k
      ensures s == Invalid ==> off == old(off) && key == old(key) && ek[..] == old(ek[..]) && dk[..] == old(dk[..])
    {
      hide WordsOf, Schedule, Reversed, EncryptionKey, Intermediate;
      var buf := Padded(k);
      if |k| / 8 < 2 || |k| / 8 > 4 {
        return Invalid;
      }
      off := |k| / 8 - 2;
      key := k;
      ghost var four := WordsOf(k, off);
      WordsOfIs(k, off);
      var w := WordsBytewise(buf[..16], buf[16..], off);
      var e := KeysBytewise(w, four);
      for i := 0 to 17
        invariant fresh(w) && fresh(e) && off == |k| / 8 - 2 && key == k
        invariant forall j :: 0 <= j < 17 ==> e[j] == EncryptionKey(four, j)
        invariant forall j :: 0 <= j < i ==> ek[j] == Permute(EncryptionKey(four, j))
      {
        ek[i] := Permute(e[i]);
      }
      Scheduled(ek[..], four);
      SetDecryption();
      s := Ok;
    }

    /** SetKeyInternal of ARIA128: the same keys. */
    method SetKeyInteger(k: Bytes) returns (s: Status)
      requires Ready() && |k| <= 32
      modifies this, ek, dk
      ensures s == if 2 <= |k| / 8 <= 4 then Ok else Invalid
      ensures s == Ok ==> Keyed() && key == k
      ensures s == Invalid ==> off == old(off) && key == old(key) && ek[..] == old(ek[..]) && dk[..] == old(dk[..])
    {
      hide WordsOf, Schedule, Reversed, EncryptionKey, Intermediate, Value, BigBytes;
      var buf := Padded(k);
      if |k| / 8 < 2 || |k| / 8 > 4 {
        return Invalid;
      }
      off := |k| / 8 - 2;
      key := k;
      ghost var four := WordsOf(k, off);
      WordsOfIs(k, off);
      var w := WordsInteger(Value(buf[..16]), Value(buf[16..]), off, buf[..16], buf[16..]);
      var e := KeysInteger(w, four);
      for i := 0 to 17
        invariant fresh(w) && fresh(e) && off == |k| / 8 - 2 && key == k
        invariant forall j :: 0 <= j < 17 ==> e[j] == Value(EncryptionKey(four, j))
        invariant forall j :: 0 <= j < i ==> ek[j] == Permute(EncryptionKey(four, j))
      {
        BytesOfValue(EncryptionKey(four, i));
        ek[i] := Permute(BigBytes(16, e[i]));
      }
      Scheduled(ek[..], four);
      SetDecryption();
      s := Ok;
    }
  }

  lemma WordsOfIs(key: Bytes, off: nat)
    requires |key| <= 32
    ensures WordsOf(key, off) == Intermediate(Padded(key)[..16], Padded(key)[16..], off)
  {}

  lemma Scheduled(keys: seq<Bytes16>, w: Four)
    requires |keys| == 17 && forall i :: 0 <= i < 17 ==> keys[i] == Permute(EncryptionKey(w, i))
    ensures keys == Schedule(w)
  {
    hide EncryptionKey, Permute;
  }

  // ---------------------------------------------------------------- the bytewise schedule

  /** XorAligned of two blocks. */
  method XorBlock(a: array<bv8>, b: Bytes16)
    requires a.Length == 16
    modifies a
    ensures a[..] == XorBytes(old(a[..]), b)
  {
    hide XorBytes;
    CopyInto(a, XorBytes(a[..], b));
  }

  /** On transposed blocks fo and fe are FO and FE. */
  lemma TransposedF(second: bool, x: Bytes16, k: Bytes16, z: Bytes16)
    ensures XorBytes(Diffuse(Layer(second, XorBytes(Permute(x), Permute(k)))), Permute(z))
         == Permute(XorBytes(F(second, x, k), z))
  {
    hide Diffuse, Layer, XorBytes, Permute;
    var r := Diffuse(Layer(second, XorBytes(Permute(x), Permute(k))));
    PermuteTwice(r);
    PermuteXor(F(second, x, k), z);
  }

  /** One intermediate word from the one before it, both transposed: fo or fe, then the word z. */
  method NextWord(out: array<bv8>, inp: array<bv8>, second: bool, ckp: Bytes16, zp: Bytes16,
                  ghost x: Bytes16, ghost k: Bytes16, ghost z: Bytes16)
    requires out.Length == inp.Length == 16 && inp[..] == Permute(x) && ckp == Permute(k) && zp == Permute(z)
    modifies out
    ensures out[..] == Permute(XorBytes(F(second, x, k), z))
  {
    hide *;
    if second {
      Fe(out, inp, ckp);
    } else {
      Fo(out, inp, ckp);
    }
    XorBlock(out, zp);
    TransposedF(second, x, k, z);
  }

  method WordsBytewise(kl: Bytes16, kr: Bytes16, off: nat) returns (w: array<Bytes16>)
    requires off <= 2
    ensures fresh(w) && w.Length == 4
    ensures forall i :: 0 <= i < 4 ==> w[i] == Pick(Intermediate(kl, kr, off), i)
  {
    hide *;
    ghost var four := Intermediate(kl, kr, off);
    var w0, w1, w2, w3 := FourWords(kl, kr, off);
    PickIs(four);
    w := new Bytes16[][w0, w1, w2, w3];
  }

  method FourWords(kl: Bytes16, kr: Bytes16, off: nat)
    returns (w0: Bytes16, w1: Bytes16, w2: Bytes16, w3: Bytes16)
    requires off <= 2
    ensures Intermediate(kl, kr, off) == Four(w0, w1, w2, w3)
  {
    hide *;
    ghost var four := Intermediate(kl, kr, off);
    IntermediateIs(kl, kr, off);
    var krp := Permute(kr);
    var wp0, wp1, wp2, wp3 := new bv8[16], new bv8[16], new bv8[16], new bv8[16];
    CopyInto(wp0, Permute(kl));
    NextWord(wp1, wp0, false, Permute(Constant(off)), krp, four.w0, Constant(off), kr);
    NextWord(wp2, wp1, true, Permute(Constant(off + 1)), wp0[..], four.w1, Constant(off + 1), four.w0);
    NextWord(wp3, wp2, false, Permute(Constant(off + 2)), wp1[..], four.w2, Constant(off + 2), four.w1);
    PermuteTwice(four.w0);
    PermuteTwice(four.w1);
    PermuteTwice(four.w2);
    PermuteTwice(four.w3);
    w0, w1, w2, w3 := Permute(wp0[..]), Permute(wp1[..]), Permute(wp2[..]), Permute(wp3[..]);
  }

  lemma IntermediateIs(kl: Bytes16, kr: Bytes16, off: nat)
    ensures var w := Intermediate(kl, kr, off);
            && w.w0 == kl && w.w1 == XorBytes(F(false, kl, Constant(off)), kr)
            && w.w2 == XorBytes(F(true, w.w1, Constant(off + 1)), w.w0)
            && w.w3 == XorBytes(F(false, w.w2, Constant(off + 2)), w.w1)
  {
    hide F, Constant, XorBytes;
  }

  lemma PickIs(w: Four)
    ensures Pick(w, 0) == w.w0 && Pick(w, 1) == w.w1 && Pick(w, 2) == w.w2 && Pick(w, 3) == w.w3
  {}

  /** RotateRightAndXor. */
  method RotateRightAndXor(out: array<bv8>, inp: Bytes16, x: Bytes16, offset: nat)
    requires out.Length == 16 && offset < 128
    modifies out
    ensures out[..] == XorBytes(RotateBlock(inp, offset), x)
  {
    hide RotByte, RotateBlock, XorBytes, Back;
    var nbytes, nbits := offset / 8, offset % 8;
    for i := 0 to 16
      invariant forall j :: 0 <= j < i ==> out[j] == RotByte(inp[Back(j, nbytes)], inp[Back(j, nbytes + 1)], nbits)
    {
      out[i] := RotByte(inp[Back(i, nbytes)], inp[Back(i, nbytes + 1)], nbits);
    }
    assert out[..] == Rotated(inp, nbytes, nbits);
    RotatedBlock(inp, offset);
    XorBlock(out, x);
  }

  lemma KeyIs(w: Four, i: nat, a: nat, b: nat, n: nat)
    requires a == (i + 1) % 4 && b == i % 4 && n == Offset(i / 4)
    ensures n < 128 && EncryptionKey(w, i) == XorBytes(RotateBlock(Pick(w, a), n), Pick(w, b))
  {
    hide RotateBlock, XorBytes, Pick;
  }

  method KeysBytewise(w: array<Bytes16>, ghost four: Four) returns (e: array<Bytes16>)
    requires w.Length == 4 && forall i :: 0 <= i < 4 ==> w[i] == Pick(four, i)
    ensures fresh(e) && e.Length == 17 && forall i :: 0 <= i < 17 ==> e[i] == EncryptionKey(four, i)
  {
    hide EncryptionKey, RotateBlock, XorBytes, Pick;
    e := new Bytes16[17](i => Zeros(16));
    var t := new bv8[16];
    for i := 0 to 17
      invariant fresh(e) && fresh(t) && (t as object) != w && forall j :: 0 <= j < 4 ==> w[j] == Pick(four, j)
      invariant forall j :: 0 <= j < i ==> e[j] == EncryptionKey(four, j)
    {
      var a, b, n := (i + 1) % 4, i % 4, Offset(i / 4);
      KeyIs(four, i, a, b, n);
      RotateRightAndXor(t, w[a], w[b], n);
      e[i] := t[..];
    }
  }

  // ---------------------------------------------------------------- the schedule on 128-bit integers

  /** The constants as numbers. */
  function ConstantNumber(i: nat): nat {
    if i == 0 || i == 3 then 0x517cc1b727220a94fe13abe8fa9a6ee0
    else if i == 1 || i == 4 then 0x6db14acc9e21c820ff28b1d5ef5de2b0
    else 0xdb92371d2126e9700324977504e8c90e
  }

  /** Exclusive or of 128-bit integers. */
  function XorNumbers(a: nat, b: nat): nat {
    Value(XorBytes(BigBytes(16, a), BigBytes(16, b)))
  }

  lemma XorValues(x: Bytes16, y: Bytes16)
    ensures XorNumbers(Value(x), Value(y)) == Value(XorBytes(x, y))
  {
    hide Value, BigBytes, XorBytes;
    BytesOfValue(x);
    BytesOfValue(y);
  }

  /** fo128 and fe128: copied out to bytes, transposed, and back. */
  method F128(second: bool, a: nat, b: nat, ghost x: Bytes16, ghost k: Bytes16) returns (c: nat)
    requires a == Value(x) && b == Value(k)
    ensures c == Value(F(second, x, k))
  {
    hide *;
    BytesOfValue(x);
    BytesOfValue(k);
    var abuf, cbuf := new bv8[16], new bv8[16];
    CopyInto(abuf, Permute(BigBytes(16, a)));
    var bbuf := Permute(BigBytes(16, b));
    if second {
      Fe(cbuf, abuf, bbuf);
    } else {
      Fo(cbuf, abuf, bbuf);
    }
    FIs(second, x, k);
    c := Value(Permute(cbuf[..]));
  }

  lemma FIs(second: bool, x: Bytes16, k: Bytes16)
    ensures F(second, x, k) == Permute(Diffuse(Layer(second, XorBytes(Permute(x), Permute(k)))))
  {}

  lemma ConstantIs(i: nat)
    requires i < 5
    ensures Value(Constant(i)) == ConstantNumber(i)
  {
    hide Value;
    if i == 0 || i == 3 {
      Constant0();
    } else if i == 1 || i == 4 {
      Constant1();
    } else {
      Constant2();
    }
  }

  lemma Constant0()
    ensures Value(Constant(0)) == ConstantNumber(0)
  {
    hide Value, ByteValue;
    var s := Constant(0);
    Small0();
    assert s[..0] == [];
    ValueNone(s[..0]);
    Snoc(s, 0, 0x0, 0x51);
    Snoc(s, 1, 0x51, 0x7c);
    Snoc(s, 2, 0x517c, 0xc1);
    Snoc(s, 3, 0x517cc1, 0xb7);
    Snoc(s, 4, 0x517cc1b7, 0x27);
    Snoc(s, 5, 0x517cc1b727, 0x22);
    Snoc(s, 6, 0x517cc1b72722, 0x0a);
    Snoc(s, 7, 0x517cc1b727220a, 0x94);
    Snoc(s, 8, 0x517cc1b727220a94, 0xfe);
    Snoc(s, 9, 0x517cc1b727220a94fe, 0x13);
    Snoc(s, 10, 0x517cc1b727220a94fe13, 0xab);
    Snoc(s, 11, 0x517cc1b727220a94fe13ab, 0xe8);
    Snoc(s, 12, 0x517cc1b727220a94fe13abe8, 0xfa);
    Snoc(s, 13, 0x517cc1b727220a94fe13abe8fa, 0x9a);
    Snoc(s, 14, 0x517cc1b727220a94fe13abe8fa9a, 0x6e);
    Snoc(s, 15, 0x517cc1b727220a94fe13abe8fa9a6e, 0xe0);
    assert s[..16] == s;
  }

  lemma Small0()
    ensures ByteValue(Constant(0)[0]) == 0x51 && ByteValue(Constant(0)[1]) == 0x7c
    ensures ByteValue(Constant(0)[2]) == 0xc1 && ByteValue(Constant(0)[3]) == 0xb7
    ensures ByteValue(Constant(0)[4]) == 0x27 && ByteValue(Constant(0)[5]) == 0x22
    ensures ByteValue(Constant(0)[6]) == 0x0a && ByteValue(Constant(0)[7]) == 0x94
    ensures ByteValue(Constant(0)[8]) == 0xfe && ByteValue(Constant(0)[9]) == 0x13
    ensures ByteValue(Constant(0)[10]) == 0xab && ByteValue(Constant(0)[11]) == 0xe8
    ensures ByteValue(Constant(0)[12]) == 0xfa && ByteValue(Constant(0)[13]) == 0x9a
    ensures ByteValue(Constant(0)[14]) == 0x6e && ByteValue(Constant(0)[15]) == 0xe0
  {}

  lemma Constant1()
    ensures Value(Constant(1)) == ConstantNumber(1)
  {
    hide Value, ByteValue;
    var s := Constant(1);
    Small1();
    assert s[..0] == [];
    ValueNone(s[..0]);
    Snoc(s, 0, 0x0, 0x6d);
    Snoc(s, 1, 0x6d, 0xb1);
    Snoc(s, 2, 0x6db1, 0x4a);
    Snoc(s, 3, 0x6db14a, 0xcc);
    Snoc(s, 4, 0x6db14acc, 0x9e);
    Snoc(s, 5, 0x6db14acc9e, 0x21);
    Snoc(s, 6, 0x6db14acc9e21, 0xc8);
    Snoc(s, 7, 0x6db14acc9e21c8, 0x20);
    Snoc(s, 8, 0x6db14acc9e21c820, 0xff);
    Snoc(s, 9, 0x6db14acc9e21c820ff, 0x28);
    Snoc(s, 10, 0x6db14acc9e21c820ff28, 0xb1);
    Snoc(s, 11, 0x6db14acc9e21c820ff28b1, 0xd5);
    Snoc(s, 12, 0x6db14acc9e21c820ff28b1d5, 0xef);
    Snoc(s, 13, 0x6db14acc9e21c820ff28b1d5ef, 0x5d);
    Snoc(s, 14, 0x6db14acc9e21c820ff28b1d5ef5d, 0xe2);
    Snoc(s, 15, 0x6db14acc9e21c820ff28b1d5ef5de2, 0xb0);
    assert s[..16] == s;
  }

  lemma Small1()
    ensures ByteValue(Constant(1)[0]) == 0x6d && ByteValue(Constant(1)[1]) == 0xb1
    ensures ByteValue(Constant(1)[2]) == 0x4a && ByteValue(Constant(1)[3]) == 0xcc
    ensures ByteValue(Constant(1)[4]) == 0x9e && ByteValue(Constant(1)[5]) == 0x21
    ensures ByteValue(Constant(1)[6]) == 0xc8 && ByteValue(Constant(1)[7]) == 0x20
    ensures ByteValue(Constant(1)[8]) == 0xff && ByteValue(Constant(1)[9]) == 0x28
    ensures ByteValue(Constant(1)[10]) == 0xb1 && ByteValue(Constant(1)[11]) == 0xd5
    ensures ByteValue(Constant(1)[12]) == 0xef && ByteValue(Constant(1)[13]) == 0x5d
    ensures ByteValue(Constant(1)[14]) == 0xe2 && ByteValue(Constant(1)[15]) == 0xb0
  {}

  lemma Constant2()
    ensures Value(Constant(2)) == ConstantNumber(2)
  {
    hide Value, ByteValue;
    var s := Constant(2);
    Small2();
    assert s[..0] == [];
    ValueNone(s[..0]);
    Snoc(s, 0, 0x0, 0xdb);
    Snoc(s, 1, 0xdb, 0x92);
    Snoc(s, 2, 0xdb92, 0x37);
    Snoc(s, 3, 0xdb9237, 0x1d);
    Snoc(s, 4, 0xdb92371d, 0x21);
    Snoc(s, 5, 0xdb92371d21, 0x26);
    Snoc(s, 6, 0xdb92371d2126, 0xe9);
    Snoc(s, 7, 0xdb92371d2126e9, 0x70);
    Snoc(s, 8, 0xdb92371d2126e970, 0x03);
    Snoc(s, 9, 0xdb92371d2126e97003, 0x24);
    Snoc(s, 10, 0xdb92371d2126e9700324, 0x97);
    Snoc(s, 11, 0xdb92371d2126e970032497, 0x75);
    Snoc(s, 12, 0xdb92371d2126e97003249775, 0x04);
    Snoc(s, 13, 0xdb92371d2126e9700324977504, 0xe8);
    Snoc(s, 14, 0xdb92371d2126e9700324977504e8, 0xc9);
    Snoc(s, 15, 0xdb92371d2126e9700324977504e8c9, 0x0e);
    assert s[..16] == s;
  }

  lemma Small2()
    ensures ByteValue(Constant(2)[0]) == 0xdb && ByteValue(Constant(2)[1]) == 0x92
    ensures ByteValue(Constant(2)[2]) == 0x37 && ByteValue(Constant(2)[3]) == 0x1d
    ensures ByteValue(Constant(2)[4]) == 0x21 && ByteValue(Constant(2)[5]) == 0x26
    ensures ByteValue(Constant(2)[6]) == 0xe9 && ByteValue(Constant(2)[7]) == 0x70
    ensures ByteValue(Constant(2)[8]) == 0x03 && ByteValue(Constant(2)[9]) == 0x24
    ensures ByteValue(Constant(2)[10]) == 0x97 && ByteValue(Constant(2)[11]) == 0x75
    ensures ByteValue(Constant(2)[12]) == 0x04 && ByteValue(Constant(2)[13]) == 0xe8
    ensures ByteValue(Constant(2)[14]) == 0xc9 && ByteValue(Constant(2)[15]) == 0x0e
  {}

  lemma Snoc(s: Bytes, k: nat, v: nat, n: nat)
    requires k < |s| && Value(s[..k]) == v && ByteValue(s[k]) == n
    ensures Value(s[..k + 1]) == 256 * v + n
  {
    hide Value, ByteValue;
    ValueLast(s[..k + 1]);
    assert s[..k + 1][..k] == s[..k];
  }

  method WordsInteger(kl: nat, kr: nat, off: nat, ghost l: Bytes16, ghost r: Bytes16) returns (w: array<nat>)
    requires off <= 2 && kl == Value(l) && kr == Value(r)
    ensures fresh(w) && w.Length == 4
    ensures forall i :: 0 <= i < 4 ==> w[i] == Value(Pick(Intermediate(l, r, off), i))
  {
    hide XorBytes, F, Constant, ConstantNumber, Value, XorNumbers;
    ghost var four := Intermediate(l, r, off);
    w := new nat[4](i => 0);
    w[0] := kl;
    ConstantIs(off);
    var c := F128(false, w[0], ConstantNumber(off), four.w0, Constant(off));
    XorValues(F(false, four.w0, Constant(off)), r);
    w[1] := XorNumbers(c, kr);
    ConstantIs(off + 1);
    c := F128(true, w[1], ConstantNumber(off + 1), four.w1, Constant(off + 1));
    XorValues(F(true, four.w1, Constant(off + 1)), four.w0);
    w[2] := XorNumbers(c, w[0]);
    ConstantIs(off + 2);
    c := F128(false, w[2], ConstantNumber(off + 2), four.w2, Constant(off + 2));
    XorValues(F(false, four.w2, Constant(off + 2)), four.w1);
    w[3] := XorNumbers(c, w[1]);
  }

  method KeysInteger(w: array<nat>, ghost four: Four) returns (e: array<nat>)
    requires w.Length == 4 && forall i :: 0 <= i < 4 ==> w[i] == Value(Pick(four, i))
    ensures fresh(e) && e.Length == 17 && forall i :: 0 <= i < 17 ==> e[i] == Value(EncryptionKey(four, i))
  {
    hide EncryptionKey, RotateBlock, XorBytes, Pick, Value, XorNumbers, RotateRight, RotateLeft;
    e := new nat[17](i => 0);
    for i := 0 to 16
      invariant fresh(e) && forall j :: 0 <= j < 4 ==> w[j] == Value(Pick(four, j))
      invariant forall j :: 0 <= j < i ==> e[j] == Value(EncryptionKey(four, j))
    {
      var a, b, n := (i + 1) % 4, i % 4, Offset(i / 4);
      KeyIs(four, i, a, b, n);
      XoredRotation(Pick(four, b), Pick(four, a), n);
      e[i] := XorNumbers(w[b], RotateRight(w[a], n));
    }
    KeyIs(four, 16, 1, 0, 109);
    XoredRotation(Pick(four, 0), Pick(four, 1), 109);
    RotatesAgree(w[1], 109);
    e[16] := XorNumbers(w[0], RotateLeft(w[1], 19));
  }

  /** Right by n is left by 128 - n. */
  lemma RotatesAgree(v: nat, n: nat)
    requires n <= 128
    ensures RotateRight(v, n) == RotateLeft(v, 128 - n)
  {
    hide Shr128, Shl128;
  }

  lemma XoredRotation(x: Bytes16, y: Bytes16, n: nat)
    requires n < 128
    ensures XorNumbers(Value(x), RotateRight(Value(y), n)) == Value(XorBytes(RotateBlock(y, n), x))
  {
    hide Value, RotateRight, XorNumbers, XorByte;
    RotationsAgree(y, n / 8, n % 8, n);
    RotatedBlock(y, n);
    XorValues(x, RotateBlock(y, n));
    XorBytesComm(x, RotateBlock(y, n));
  }

  lemma XorBytesComm(x: Bytes16, y: Bytes16)
    ensures XorBytes(x, y) == XorBytes(y, x)
  {
    hide XorByte;
    forall i | 0 <= i < 16
      ensures XorByte(x[i], y[i]) == XorByte(y[i], x[i])
    {
      XorByteComm(x[i], y[i]);
    }
  }

  /** Keys that are not used do not matter. */
  lemma {:induction false} RoundsPrefix(x: Bytes16, keys: seq<Bytes16>, m: nat, n: nat)
    requires m <= n <= |keys|
    ensures Rounds(x, keys[..n], m) == Rounds(x, keys, m)
  {
    hide *;
    if m == 0 {
      RoundsNone(x, keys);
      RoundsNone(x, keys[..n]);
    } else {
      RoundsPrefix(x, keys, m - 1, n);
      RoundsNext(x, keys, m - 1);
      RoundsNext(x, keys[..n], m - 1);
    }
  }

  lemma CipherPrefix(x: Bytes16, keys: seq<Bytes16>, n: nat)
    requires 0 < n < |keys|
    ensures Enciphered(x, keys[..n + 1], n) == Enciphered(x, keys, n)
  {
    hide *;
    RoundsPrefix(Permute(x), keys, n - 1, n + 1);
    CryptIs(Permute(x), keys, n);
    CryptIs(Permute(x), keys[..n + 1], n);
    CipherIs(x, keys, n);
    CipherIs(x, keys[..n + 1], n);
  }
}
