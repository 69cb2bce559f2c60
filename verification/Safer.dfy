/** SAFER K and SAFER SK (impl/block/safer/safer.cc). */
module Safer {
  import opened Words
  import opened Counter
  import opened Endian
  import opened SaferTables
  import opened SaferSpec

  /** The return values of the cipher. */
  datatype Status = Ok | Invalid | NotImplemented

  /** A table that holds the given entries. */
  ghost predicate Tables(s: seq<nat>, sinv: seq<nat>) {
    && |s| == |sinv| == 256
    && (forall i :: 0 <= i < 256 ==> s[i] == Exp(i))
    && (forall e :: 0 <= e < 256 ==> sinv[e] == Log(e))
  }

  // ---------------------------------------------------------------- layers

  method ForwardA(x: array<bv8>, sk: Block8)
    requires x.Length == 8
    modifies x
    ensures x[..] == Keyed(old(x[..]), sk, true)
  {
    hide XorByte, AddByte;
    x[0] := XorByte(x[0], sk[0]);
    x[1] := AddByte(x[1], sk[1]);
    x[2] := AddByte(x[2], sk[2]);
    x[3] := XorByte(x[3], sk[3]);
    x[4] := XorByte(x[4], sk[4]);
    x[5] := AddByte(x[5], sk[5]);
    x[6] := AddByte(x[6], sk[6]);
    x[7] := XorByte(x[7], sk[7]);
  }

  method InverseA(x: array<bv8>, sk: Block8)
    requires x.Length == 8
    modifies x
    ensures x[..] == Unkeyed(old(x[..]), sk, true)
  {
    hide XorByte, SubByte;
    x[0] := XorByte(x[0], sk[0]);
    x[1] := SubByte(x[1], sk[1]);
    x[2] := SubByte(x[2], sk[2]);
    x[3] := XorByte(x[3], sk[3]);
    x[4] := XorByte(x[4], sk[4]);
    x[5] := SubByte(x[5], sk[5]);
    x[6] := SubByte(x[6], sk[6]);
    x[7] := XorByte(x[7], sk[7]);
  }

  method ForwardB(x: array<bv8>, sk: Block8)
    requires x.Length == 8
    modifies x
    ensures x[..] == Keyed(old(x[..]), sk, false)
  {
    hide XorByte, AddByte;
    x[0] := AddByte(x[0], sk[0]);
    x[1] := XorByte(x[1], sk[1]);
    x[2] := XorByte(x[2], sk[2]);
    x[3] := AddByte(x[3], sk[3]);
    x[4] := AddByte(x[4], sk[4]);
    x[5] := XorByte(x[5], sk[5]);
    x[6] := XorByte(x[6], sk[6]);
    x[7] := AddByte(x[7], sk[7]);
  }

  method InverseB(x: array<bv8>, sk: Block8)
    requires x.Length == 8
    modifies x
    ensures x[..] == Unkeyed(old(x[..]), sk, false)
  {
    hide XorByte, SubByte;
    x[0] := SubByte(x[0], sk[0]);
    x[1] := XorByte(x[1], sk[1]);
    x[2] := XorByte(x[2], sk[2]);
    x[3] := SubByte(x[3], sk[3]);
    x[4] := SubByte(x[4], sk[4]);
    x[5] := XorByte(x[5], sk[5]);
    x[6] := XorByte(x[6], sk[6]);
    x[7] := SubByte(x[7], sk[7]);
  }

  method DoF(x: array<bv8>)
    requires x.Length == 8
    modifies x
    ensures x[..] == Paired(old(x[..]))
  {
    hide F0, F1;
    x[0], x[1] := F0(x[0], x[1]), F1(x[0], x[1]);
    x[2], x[3] := F0(x[2], x[3]), F1(x[2], x[3]);
    x[4], x[5] := F0(x[4], x[5]), F1(x[4], x[5]);
    x[6], x[7] := F0(x[6], x[7]), F1(x[6], x[7]);
  }

  method DoFInverse(x: array<bv8>)
    requires x.Length == 8
    modifies x
    ensures x[..] == Unpaired(old(x[..]))
  {
    hide Inv0, Inv1;
    x[0], x[1] := Inv0(x[0], x[1]), Inv1(x[0], x[1]);
    x[2], x[3] := Inv0(x[2], x[3]), Inv1(x[2], x[3]);
    x[4], x[5] := Inv0(x[4], x[5]), Inv1(x[4], x[5]);
    x[6], x[7] := Inv0(x[6], x[7]), Inv1(x[6], x[7]);
  }

  method PermuteForward(y: array<bv8>, x: array<bv8>)
    requires x.Length == y.Length == 8 && x != y
    modifies y
    ensures y[..] == Crossed(x[..])
  {
    hide F0, F1;
    y[0], y[1] := F0(x[0], x[2]), F1(x[0], x[2]);
    y[2], y[3] := F0(x[4], x[6]), F1(x[4], x[6]);
    y[4], y[5] := F0(x[1], x[3]), F1(x[1], x[3]);
    y[6], y[7] := F0(x[5], x[7]), F1(x[5], x[7]);
  }

  method PermuteInverse(y: array<bv8>, x: array<bv8>)
    requires x.Length == y.Length == 8 && x != y
    modifies y
    ensures y[..] == Uncrossed(x[..])
  {
    hide Inv0, Inv1;
    var a, b, c, d := Inv0(x[0], x[1]), Inv1(x[0], x[1]), Inv0(x[2], x[3]), Inv1(x[2], x[3]);
    var e, f, g, h := Inv0(x[4], x[5]), Inv1(x[4], x[5]), Inv0(x[6], x[7]), Inv1(x[6], x[7]);
    Scatter(y, a, b, c, d, e, f, g, h);
  }

  /** The results of the four calls of FInverse, where they go. */
  method Scatter<T>(y: array<T>, a: T, b: T, c: T, d: T, e: T, f: T, g: T, h: T)
    requires y.Length == 8
    modifies y
    ensures y[..] == [a, e, b, f, c, g, d, h]
  {
    y[0], y[2] := a, b;
    y[4], y[6] := c, d;
    y[1], y[3] := e, f;
    y[5], y[7] := g, h;
  }

  /** x[0] = s[x[0]]. */
  function Look(t: seq<nat>, b: bv8): bv8
    requires |t| == 256
  {
    ByteRange(b);
    ToByte(t[ByteValue(b)])
  }

  lemma LookIs(s: seq<nat>, sinv: seq<nat>, b: bv8)
    requires Tables(s, sinv)
    ensures Look(s, b) == S(b) && Look(sinv, b) == SInv(b)
  {
    hide ToByte, ByteValue, Exp;
    ByteRange(b);
  }

  lemma TableSizes(s: seq<nat>, sinv: seq<nat>)
    requires Tables(s, sinv)
    ensures |s| == |sinv| == 256
  {}

  /** Eight assignments in a row. */
  method Write<T>(x: array<T>, a: T, b: T, c: T, d: T, e: T, f: T, g: T, h: T)
    requires x.Length == 8
    modifies x
    ensures x[..] == [a, b, c, d, e, f, g, h]
  {
    x[0], x[1], x[2], x[3] := a, b, c, d;
    x[4], x[5], x[6], x[7] := e, f, g, h;
  }

  lemma ForwardIs(x: Block8)
    ensures Boxed(x, true) == [S(x[0]), SInv(x[1]), SInv(x[2]), S(x[3]), S(x[4]), SInv(x[5]), SInv(x[6]), S(x[7])]
  {
    hide S, SInv;
  }

  lemma InverseIs(x: Block8)
    ensures Boxed(x, false) == [SInv(x[0]), S(x[1]), S(x[2]), SInv(x[3]), SInv(x[4]), S(x[5]), S(x[6]), SInv(x[7])]
  {
    hide S, SInv;
  }

  method SubstituteForward(x: array<bv8>, s: seq<nat>, sinv: seq<nat>)
    requires x.Length == 8 && Tables(s, sinv)
    modifies x
    ensures x[..] == Boxed(old(x[..]), true)
  {
    hide *;
    TableSizes(s, sinv);
    ghost var z := x[..];
    LookIs(s, sinv, x[0]);
    LookIs(s, sinv, x[1]);
    LookIs(s, sinv, x[2]);
    LookIs(s, sinv, x[3]);
    LookIs(s, sinv, x[4]);
    LookIs(s, sinv, x[5]);
    LookIs(s, sinv, x[6]);
    LookIs(s, sinv, x[7]);
    Write(x, Look(s, x[0]), Look(sinv, x[1]), Look(sinv, x[2]), Look(s, x[3]),
          Look(s, x[4]), Look(sinv, x[5]), Look(sinv, x[6]), Look(s, x[7]));
    ForwardIs(z);
  }

  method SubstituteInverse(x: array<bv8>, s: seq<nat>, sinv: seq<nat>)
    requires x.Length == 8 && Tables(s, sinv)
    modifies x
    ensures x[..] == Boxed(old(x[..]), false)
  {
    hide *;
    TableSizes(s, sinv);
    ghost var z := x[..];
    LookIs(s, sinv, x[0]);
    LookIs(s, sinv, x[1]);
    LookIs(s, sinv, x[2]);
    LookIs(s, sinv, x[3]);
    LookIs(s, sinv, x[4]);
    LookIs(s, sinv, x[5]);
    LookIs(s, sinv, x[6]);
    LookIs(s, sinv, x[7]);
    Write(x, Look(sinv, x[0]), Look(s, x[1]), Look(s, x[2]), Look(sinv, x[3]),
          Look(sinv, x[4]), Look(s, x[5]), Look(s, x[6]), Look(sinv, x[7]));
    InverseIs(z);
  }

  // ---------------------------------------------------------------- the cipher

  class Safer {
    const s: array<nat>
    const sinv: array<nat>
    const k: array<Block8>
    var rounds: nat
    ghost var key: Bytes

    ghost predicate Ready()
      reads s, sinv
    {
      && s.Length == 256 && sinv.Length == 256 && k.Length == 33 && s != sinv
      && Tables(s[..], sinv[..])
    }

    constructor (rounds: nat)
      ensures Ready() && this.rounds == rounds && fresh(s) && fresh(sinv) && fresh(k)
    {
      s := new nat[256](i => 0);
      sinv := new nat[256](i => 0);
      k := new Block8[33](i => [0, 0, 0, 0, 0, 0, 0, 0]);
      this.rounds := rounds;
      key := [];
      new;
      GenerateTables(s, sinv);
    }

    ghost predicate Apart(out: array<bv8>) {
      (out as object) != s && (out as object) != sinv && (out as object) != k
    }

    /** The keys are those of a schedule. */
    ghost predicate HoldsK(key: Bytes, past: nat -> bv8)
      requires |key| >= 8
      reads this, k
    {
      k.Length == 33 && rounds <= 16 && forall i :: 0 <= i <= 2 * rounds ==> k[i] == RowK(key, i, past)
    }

    ghost predicate HoldsSK(key: Bytes, past: nat -> bv8)
      requires |key| >= 8
      reads this, k
    {
      k.Length == 33 && rounds <= 16 && forall i :: 0 <= i <= 2 * rounds ==> k[i] == RowSK(key, i, past)
    }

    /** The switch at the start of both schedules. The number of rounds is only chosen when there is none yet. */
    method ChooseRounds(sz: nat) returns (status: Status)
      modifies `rounds
      ensures status == if sz != 8 && sz != 16 then Invalid else if rounds > 16 then NotImplemented else Ok
      ensures rounds == if (sz == 8 || sz == 16) && old(rounds) == 0 then (if sz == 8 then 6 else 10) else old(rounds)
    {
      if sz == 8 {
        if rounds == 0 {
          rounds := 6;
        }
      } else if sz == 16 {
        if rounds == 0 {
          rounds := 10;
        }
      } else {
        return Invalid;
      }
      if rounds > 16 {
        return NotImplemented;
      }
      status := Ok;
    }

    /** SetKeyInternal of SAFER. `past` is what lies behind the table s. */
    method SetKeyK(key: Bytes, past: nat -> bv8) returns (status: Status)
      requires Ready()
      modifies `rounds, k
      ensures Ready()
      ensures status == if |key| != 8 && |key| != 16 then Invalid else if rounds > 16 then NotImplemented else Ok
      ensures rounds == if (|key| == 8 || |key| == 16) && old(rounds) == 0 then (if |key| == 8 then 6 else 10)
                        else old(rounds)
      ensures status == Ok ==> HoldsK(key, past)
      ensures status != Ok ==> k[..] == old(k[..])
    {
      hide *;
      Sizes();
      status := ChooseRounds(|key|);
      if status != Ok {
        return;
      }
      FirstRow(key, past);
      k[0] := SecondHalf(key);
      if |key| == 8 {
        ShortK(key, past);
      } else {
        LongK(key, past);
      }
      AllRowsK(key, past);
    }

    /** The loop for a key of eight bytes. */
    method ShortK(key: Bytes, past: nat -> bv8)
      requires k.Length == 33 && |key| == 8 && rounds <= 16 && k[0] == RowK(key, 0, past)
      modifies k
      ensures forall m :: 0 <= m <= 2 * rounds ==> k[m] == RowK(key, m, past)
    {
      hide *;
      ShortKey(key);
      var r := Copied(key);
      for i := 1 to 2 * rounds + 1
        invariant fresh(r) && r.Length == 8 && (r as object) != k && Turned(r[..], key, 3 * (i - 1))
        invariant forall m :: 0 <= m < i ==> k[m] == RowK(key, m, past)
      {
        var row := NextRowK(r, 3, i, key, past, 3 * (i - 1));
        RowKIs(key, i, key, past, row);
        k[i] := row;
      }
    }

    /** The loop for a key of sixteen bytes, two keys at a time. The first half starts three bits behind. */
    method LongK(key: Bytes, past: nat -> bv8)
      requires k.Length == 33 && |key| == 16 && rounds <= 16 && k[0] == RowK(key, 0, past)
      modifies k
      ensures forall m :: 0 <= m <= 2 * rounds ==> k[m] == RowK(key, m, past)
    {
      hide *;
      var r1 := Copied(FirstHalf(key));
      var r2 := Copied(SecondHalf(key));
      RotateBack(r1, FirstHalf(key));
      var i := 1;
      while i < 2 * rounds + 1
        invariant i % 2 == 1 && i <= 2 * rounds + 1 && fresh(r1) && fresh(r2) && r1 != r2
        invariant r1.Length == r2.Length == 8 && (r1 as object) != k && (r2 as object) != k
        invariant Turned(r1[..], FirstHalf(key), 3 * i + 2) && Turned(r2[..], SecondHalf(key), 3 * (i - 1))
        invariant forall m :: 0 <= m < i ==> k[m] == RowK(key, m, past)
      {
        var row := NextRowK(r1, 6, i, FirstHalf(key), past, 3 * i + 2);
        RowKIs(key, i, FirstHalf(key), past, row);
        var next := NextRowK(r2, 6, i + 1, SecondHalf(key), past, 3 * (i - 1));
        RowKIs(key, i + 1, SecondHalf(key), past, next);
        k[i] := row;
        k[i + 1] := next;
        i := i + 2;
      }
    }

    lemma AllRowsK(key: Bytes, past: nat -> bv8)
      requires |key| >= 8 && k.Length == 33 && rounds <= 16
      requires forall m :: 0 <= m <= 2 * rounds ==> k[m] == RowK(key, m, past)
      ensures HoldsK(key, past)
    {
      hide RowK;
    }

    /** SetKeyInternal of SAFER_SK. `past` is what lies behind the table s. */
    method SetKeySK(key: Bytes, past: nat -> bv8) returns (status: Status)
      requires Ready()
      modifies `rounds, k
      ensures Ready()
      ensures status == if |key| != 8 && |key| != 16 then Invalid else if rounds > 16 then NotImplemented else Ok
      ensures rounds == if (|key| == 8 || |key| == 16) && old(rounds) == 0 then (if |key| == 8 then 6 else 10)
                        else old(rounds)
      ensures status == Ok ==> HoldsSK(key, past)
      ensures status != Ok ==> k[..] == old(k[..])
    {
      hide *;
      Sizes();
      status := ChooseRounds(|key|);
      if status != Ok {
        return;
      }
      FirstRow(key, past);
      k[0] := SecondHalf(key);
      if |key| == 8 {
        ShortSK(key, past);
      } else {
        LongSK(key, past);
      }
      AllRowsSK(key, past);
    }

    /** The loop for a key of eight bytes. */
    method ShortSK(key: Bytes, past: nat -> bv8)
      requires k.Length == 33 && |key| == 8 && rounds <= 16 && k[0] == RowSK(key, 0, past)
      modifies k
      ensures forall m :: 0 <= m <= 2 * rounds ==> k[m] == RowSK(key, m, past)
    {
      hide *;
      ShortKey(key);
      var r := WithParity(key);
      for i := 1 to 2 * rounds + 1
        invariant fresh(r) && r.Length == 9 && (r as object) != k && Turned(r[..], Nine(key), 3 * (i - 1))
        invariant forall m :: 0 <= m < i ==> k[m] == RowSK(key, m, past)
      {
        var row := NextRowSK(r, 3, i, key, past, 3 * (i - 1));
        RowSKIs(key, i, key, past, row);
        k[i] := row;
      }
    }

    /** The loop for a key of sixteen bytes, two keys at a time. The first half starts three bits behind. */
    method LongSK(key: Bytes, past: nat -> bv8)
      requires k.Length == 33 && |key| == 16 && rounds <= 16 && k[0] == RowSK(key, 0, past)
      modifies k
      ensures forall m :: 0 <= m <= 2 * rounds ==> k[m] == RowSK(key, m, past)
    {
      hide *;
      var r1 := WithParity(FirstHalf(key));
      var r2 := WithParity(SecondHalf(key));
      RotateBack(r1, Nine(FirstHalf(key)));
      var i := 1;
      while i < 2 * rounds + 1
        invariant i % 2 == 1 && i <= 2 * rounds + 1 && fresh(r1) && fresh(r2) && r1 != r2
        invariant r1.Length == r2.Length == 9 && (r1 as object) != k && (r2 as object) != k
        invariant Turned(r1[..], Nine(FirstHalf(key)), 3 * i + 2) && Turned(r2[..], Nine(SecondHalf(key)), 3 * (i - 1))
        invariant forall m :: 0 <= m < i ==> k[m] == RowSK(key, m, past)
      {
        var row := NextRowSK(r1, 6, i, FirstHalf(key), past, 3 * i + 2);
        RowSKIs(key, i, FirstHalf(key), past, row);
        var next := NextRowSK(r2, 6, i + 1, SecondHalf(key), past, 3 * (i - 1));
        RowSKIs(key, i + 1, SecondHalf(key), past, next);
        k[i] := row;
        k[i + 1] := next;
        i := i + 2;
      }
    }

    lemma AllRowsSK(key: Bytes, past: nat -> bv8)
      requires |key| >= 8 && k.Length == 33 && rounds <= 16
      requires forall m :: 0 <= m <= 2 * rounds ==> k[m] == RowSK(key, m, past)
      ensures HoldsSK(key, past)
    {
      hide RowSK;
    }

    /** Encrypt; out may be inp. */
    method Encrypt(out: array<bv8>, inp: array<bv8>)
      requires Ready() && rounds <= 16 && out.Length == inp.Length == 8 && Apart(out)
      modifies out
      ensures Ready() && out[..] == Sealed(old(inp[..]), k[..], rounds)
    {
      hide *;
      Sizes();
      ghost var x0, keys := inp[..], k[..];
      var x, y := out, new bv8[8];
      CopyInto(x, inp[..]);
      RoundsNone(x0, keys);
      for i := 0 to rounds
        invariant fresh(y) && y.Length == 8 && k[..] == keys && Ready() && x[..] == Rounds(x0, keys, i)
      {
        ForwardA(x, k[2 * i]);
        SubstituteForward(x, s[..], sinv[..]);
        ForwardB(x, k[2 * i + 1]);
        DoF(x);
        PermuteForward(y, x);
        PermuteForward(x, y);
        RoundsNext(x0, keys, i);
      }
      ForwardA(x, k[2 * rounds]);
      SealedIs(x0, keys, rounds);
    }

    /** Decrypt; out may be inp. */
    method Decrypt(out: array<bv8>, inp: array<bv8>)
      requires Ready() && rounds <= 16 && out.Length == inp.Length == 8 && Apart(out)
      modifies out
      ensures Ready() && out[..] == Opened(old(inp[..]), k[..], rounds)
    {
      hide *;
      Sizes();
      ghost var x0, keys := inp[..], k[..];
      var x, y := out, new bv8[8];
      CopyInto(x, inp[..]);
      InverseA(x, k[2 * rounds]);
      OpenedIs(x0, keys, rounds);
      var i: nat := rounds;
      while i > 0
        invariant i <= rounds && fresh(y) && y.Length == 8 && k[..] == keys && Ready()
        invariant InvRounds(x[..], keys, i) == Opened(x0, keys, rounds)
      {
        i := i - 1;
        ghost var w := x[..];
        PermuteInverse(y, x);
        PermuteInverse(x, y);
        DoFInverse(x);
        InverseB(x, k[2 * i + 1]);
        SubstituteInverse(x, s[..], sinv[..]);
        InverseA(x, k[2 * i]);
        InvRoundsNext(w, keys, i);
      }
      InvRoundsNone(x[..], keys);
    }

    /** Decryption gives back every block that was encrypted, whatever the keys and the number of rounds. */
    method RoundTrip(out: array<bv8>, inp: array<bv8>)
      requires Ready() && rounds <= 16 && out.Length == inp.Length == 8 && Apart(out)
      modifies out
      ensures out[..] == old(inp[..])
    {
      hide *;
      Sizes();
      SealedOpens(inp[..], k[..], rounds);
      Encrypt(out, inp);
      Decrypt(out, out);
    }

    lemma Sizes()
      requires Ready()
      ensures |k[..]| == 33 && |s[..]| == |sinv[..]| == 256 && Tables(s[..], sinv[..])
    {
      hide Tables;
    }
  }

  // ---------------------------------------------------------------- key schedules

  /** Every byte of h rotated to the left by n bits. */
  ghost predicate Turned(r: Bytes, h: Bytes, n: nat) {
    |r| == |h| && forall j :: 0 <= j < |h| ==> r[j] == Rot(h[j], n)
  }

  lemma NotTurned(h: Bytes)
    ensures Turned(h, h, 0)
  {}

  /** memcpy. */
  method Copied(h: Bytes) returns (r: array<bv8>)
    ensures fresh(r) && r.Length == |h| && Turned(r[..], h, 0)
  {
    hide *;
    r := new bv8[|h|];
    CopyInto(r, h);
    NotTurned(h);
  }

  /** A half of the key with its parity byte. */
  method WithParity(h: Block8) returns (r: array<bv8>)
    ensures fresh(r) && r.Length == 9 && Turned(r[..], Nine(h), 0)
  {
    hide XorByte, Rot1;
    r := new bv8[9];
    for j := 0 to 8
      invariant forall i :: 0 <= i < j ==> r[i] == h[i]
    {
      r[j] := h[j];
    }
    r[8] := 0;
    for j := 0 to 8
      invariant (forall i :: 0 <= i < 8 ==> r[i] == h[i]) && r[8] == Parity(h, j)
    {
      r[8] := XorByte(r[8], r[j]);
    }
    assert r[..] == Nine(h);
    NotTurned(Nine(h));
  }

  function Left(b: bv8, step: nat): bv8 {
    if step == 3 then Left3(b) else Left6(b)
  }

  lemma LeftIs(b: bv8, n: nat, step: nat)
    requires step == 3 || step == 6
    ensures Left(Rot(b, n), step) == Rot(b, n + step)
  {
    hide Left3, Left6, Rot;
    if step == 3 {
      RotThree(b, n, n + 3);
    } else {
      RotSix(b, n, n + 6);
    }
  }

  /** RotateRight by three of all bytes: five to the left. */
  method RotateBack(r: array<bv8>, ghost h: Bytes)
    requires Turned(r[..], h, 0)
    modifies r
    ensures Turned(r[..], h, 5)
  {
    hide Right3, Rot;
    for i := 0 to r.Length
      invariant forall j :: 0 <= j < i ==> r[j] == Rot(h[j], 5)
      invariant forall j :: i <= j < r.Length ==> r[j] == Rot(h[j], 0)
    {
      BackIs(h[i]);
      r[i] := Right3(r[i]);
    }
  }

  lemma BackIs(b: bv8)
    ensures Right3(Rot(b, 0)) == Rot(b, 5)
  {
    hide Right3, Rot1, Left3;
    RightIs(b);
    assert Rot(b, 2) == Rot1(Rot1(b)) by { assert Rot(b, 1) == Rot1(b); }
    RotThree(b, 2, 5);
  }

  lemma RightIs(b: bv8)
    ensures Right3(b) == Left3(Rot1(Rot1(b)))
  {
    calc {
      Left3(Rot1(Rot1(b)));
      Left3(Rot1((b << 1) | (b >> 7)));
      Left3((((b << 1) | (b >> 7)) << 1) | (((b << 1) | (b >> 7)) >> 7));
      Left3((b << 2) | (b >> 6));
      (((b << 2) | (b >> 6)) << 3) | (((b << 2) | (b >> 6)) >> 5);
      (b >> 3) | (b << 5);
      Right3(b);
    }
  }

  lemma RotAround(b: bv8, n: nat, m: nat)
    requires m == n || n == m + 8
    ensures Rot(b, n) == Rot(b, m)
  {
    hide Rot1, Left3, Left6;
    if n == m + 8 {
      RotSix(b, m, m + 6);
      assert Rot(b, m + 7) == Rot1(Rot(b, m + 6));
      assert Rot(b, m + 8) == Rot1(Rot(b, m + 7));
      FullCircle(Rot(b, m));
    }
  }

  lemma FullCircle(b: bv8)
    ensures Rot1(Rot1(Left6(b))) == b
  {
    calc {
      Rot1(Rot1(Left6(b)));
      Rot1(Rot1((b << 6) | (b >> 2)));
      Rot1((((b << 6) | (b >> 2)) << 1) | (((b << 6) | (b >> 2)) >> 7));
      Rot1((b << 7) | (b >> 1));
      (((b << 7) | (b >> 1)) << 1) | (((b << 7) | (b >> 1)) >> 7);
      b;
    }
  }

  /** The inner loop of SAFER K: rotate a byte, then bias it. */
  method NextRowK(r: array<bv8>, step: nat, i: nat, ghost h: Block8, past: nat -> bv8, ghost n: nat)
    returns (row: Block8)
    requires r.Length == 8 && Turned(r[..], h, n) && (step == 3 || step == 6)
    requires n + step == 3 * i || n + step == 3 * i + 8
    modifies r
    ensures Turned(r[..], h, n + step)
    ensures forall j :: 0 <= j < 8 ==> row[j] == AddByte(Rot(h[j], 3 * i), Bias(i, j, past))
  {
    hide Left, Rot, AddByte, Bias;
    var k := new bv8[8];
    for j := 0 to 8
      invariant fresh(k) && k != r
      invariant forall m :: 0 <= m < j ==> r[m] == Rot(h[m], n + step)
      invariant forall m :: j <= m < 8 ==> r[m] == Rot(h[m], n)
      invariant forall m :: 0 <= m < j ==> k[m] == AddByte(Rot(h[m], 3 * i), Bias(i, m, past))
    {
      LeftIs(h[j], n, step);
      RotAround(h[j], n + step, 3 * i);
      r[j] := Left(r[j], step);
      k[j] := AddByte(r[j], Bias(i, j, past));
    }
    row := k[..];
  }

  /** The loops of SAFER SK: rotate nine bytes, then bias eight of them from place i on. */
  method NextRowSK(r: array<bv8>, step: nat, i: nat, ghost h: Block8, past: nat -> bv8, ghost n: nat)
    returns (row: Block8)
    requires r.Length == 9 && Turned(r[..], Nine(h), n) && (step == 3 || step == 6)
    requires n + step == 3 * i || n + step == 3 * i + 8
    modifies r
    ensures Turned(r[..], Nine(h), n + step)
    ensures forall j :: 0 <= j < 8 ==> row[j] == AddByte(Rot(Nine(h)[Around(i, j)], 3 * i), Bias(i, j, past))
  {
    hide Left, Rot, AddByte, Bias, Nine, Around;
    for j := 0 to 9
      invariant forall m :: 0 <= m < j ==> r[m] == Rot(Nine(h)[m], n + step)
      invariant forall m :: j <= m < 9 ==> r[m] == Rot(Nine(h)[m], n)
    {
      LeftIs(Nine(h)[j], n, step);
      r[j] := Left(r[j], step);
    }
    var k := new bv8[8];
    for j := 0 to 8
      invariant fresh(k) && forall m :: 0 <= m < 9 ==> r[m] == Rot(Nine(h)[m], n + step)
      invariant forall m :: 0 <= m < j ==> k[m] == AddByte(Rot(Nine(h)[Around(i, m)], 3 * i), Bias(i, m, past))
    {
      RotAround(Nine(h)[Around(i, j)], n + step, 3 * i);
      k[j] := AddByte(r[Around(i, j)], Bias(i, j, past));
    }
    row := k[..];
  }

  lemma FirstRow(key: Bytes, past: nat -> bv8)
    requires |key| >= 8
    ensures RowK(key, 0, past) == RowSK(key, 0, past) == SecondHalf(key)
  {}

  lemma ShortKey(key: Bytes)
    requires |key| == 8
    ensures FirstHalf(key) == key && SecondHalf(key) == key
  {}

  lemma RowKIs(key: Bytes, i: nat, h: Block8, past: nat -> bv8, row: Block8)
    requires |key| >= 8 && i > 0 && h == if i % 2 == 1 then FirstHalf(key) else SecondHalf(key)
    requires forall j :: 0 <= j < 8 ==> row[j] == AddByte(Rot(h[j], 3 * i), Bias(i, j, past))
    ensures row == RowK(key, i, past)
  {
    hide AddByte, Rot, Bias;
  }

  lemma RowSKIs(key: Bytes, i: nat, h: Block8, past: nat -> bv8, row: Block8)
    requires |key| >= 8 && i > 0 && h == if i % 2 == 1 then FirstHalf(key) else SecondHalf(key)
    requires forall j :: 0 <= j < 8 ==> row[j] == AddByte(Rot(Nine(h)[Around(i, j)], 3 * i), Bias(i, j, past))
    ensures row == RowSK(key, i, past)
  {
    hide AddByte, Rot, Bias, Nine, Around;
  }

  lemma RoundsNone(x: Block8, k: seq<Block8>)
    ensures Rounds(x, k, 0) == x
  {}

  lemma RoundsNext(x: Block8, k: seq<Block8>, i: nat)
    requires 2 * i + 2 <= |k|
    ensures var w := Boxed(Keyed(Rounds(x, k, i), k[2 * i], true), true);
            Rounds(x, k, i + 1) == Crossed(Crossed(SaferSpec.Paired(Keyed(w, k[2 * i + 1], false))))
  {
    hide Keyed, Boxed, SaferSpec.Paired, Crossed;
  }

  lemma SealedIs(x: Block8, k: seq<Block8>, r: nat)
    requires 2 * r < |k|
    ensures Sealed(x, k, r) == Keyed(Rounds(x, k, r), k[2 * r], true)
  {}

  lemma OpenedIs(x: Block8, k: seq<Block8>, r: nat)
    requires 2 * r < |k|
    ensures Opened(x, k, r) == InvRounds(Unkeyed(x, k[2 * r], true), k, r)
  {}

  lemma InvRoundsNone(x: Block8, k: seq<Block8>)
    ensures InvRounds(x, k, 0) == x
  {}

  lemma InvRoundsNext(x: Block8, k: seq<Block8>, i: nat)
    requires 2 * i + 2 <= |k|
    ensures var w := Unkeyed(Unpaired(Uncrossed(Uncrossed(x))), k[2 * i + 1], false);
            InvRounds(x, k, i + 1) == InvRounds(Unkeyed(Boxed(w, false), k[2 * i], true), k, i)
  {
    hide Unkeyed, Boxed, Unpaired, Uncrossed;
  }
}
