/** The key schedule of ARIA on values (section 2.2 of RFC 5794), and the rotation of a 128-bit integer, on numbers and
    on bytes. */
module AriaKeys {
  import opened Words
  import opened Arithmetic
  import opened Keystream
  import opened Counter
  import opened Endian
  import opened AriaSpec

  // ---------------------------------------------------------------- rotation of numbers

  function Pow2(n: nat): (r: nat)
    ensures r > 0
  {
    if n == 0 then 1 else 2 * Pow2(n - 1)
  }

  /** Shifts of an unsigned 128-bit integer. */
  function Shr128(v: nat, n: nat): nat { Quotient(v, Pow2(n)) }
  function Shl128(v: nat, n: nat): nat { Remainder(Times(v, Pow2(n)), Pow2(128)) }

  function Times(a: nat, b: nat): nat { a * b }

  /** RotateRight and RotateLeft (include/util.hh): the two shifted halves have no bit in common. */
  function RotateRight(v: nat, n: nat): nat
    requires n <= 128
  {
    Shr128(v, n) + Shl128(v, 128 - n)
  }

  function RotateLeft(v: nat, n: nat): nat
    requires n <= 128
  {
    Shl128(v, n) + Shr128(v, 128 - n)
  }

  // ---------------------------------------------------------------- rotation of bytes

  /** One byte of RotateRightAndXor: x shifted, and the low bits of the byte before it. */
  function RotByte(x: bv8, y: bv8, b: nat): bv8
    requires b < 8
  {
    (x >> b) | (y << (8 - b))
  }

  /** Where byte i comes from when the block is turned by a bytes. */
  function Back(i: nat, a: nat): (k: nat)
    ensures k < 16
  {
    (i - a) % 16
  }

  /** RotateRightAndXor without the exclusive or: by a bytes and b bits. */
  function Rotated(s: Bytes16, a: nat, b: nat): Bytes16
    requires b < 8
  {
    seq(16, i requires 0 <= i < 16 => RotByte(s[Back(i, a)], s[Back(i, a + 1)], b))
  }

  lemma Parts0(y: bv8)
    ensures (y >> 0) as nat == y as nat / 1 && (y & 0) as nat == y as nat % 1
  {
    assert y as nat == (y >> 0) as nat * 1 + (y & 0) as nat;
    assert (y & 0) as nat < 1;
  }

  lemma Rot0(x: bv8, y: bv8)
    ensures ByteValue(RotByte(x, y, 0)) == ByteValue(x) / 1 + (ByteValue(y) % 1) * 256
  {
    calc {
      ByteValue(RotByte(x, y, 0));
      ((x >> 0) | (y << 8)) as nat;
      (x >> 0) as nat + (y << 8) as nat;
      (x >> 0) as nat + ((y & 0) as nat) * 256;
      { Parts0(x); Parts0(y); }
      ByteValue(x) / 1 + (ByteValue(y) % 1) * 256;
    }
  }

  lemma Parts1(y: bv8)
    ensures (y >> 1) as nat == y as nat / 2 && (y & 1) as nat == y as nat % 2
  {
    assert y as nat == (y >> 1) as nat * 2 + (y & 1) as nat;
    assert (y & 1) as nat < 2;
  }

  lemma Rot1(x: bv8, y: bv8)
    ensures ByteValue(RotByte(x, y, 1)) == ByteValue(x) / 2 + (ByteValue(y) % 2) * 128
  {
    calc {
      ByteValue(RotByte(x, y, 1));
      ((x >> 1) | (y << 7)) as nat;
      (x >> 1) as nat + (y << 7) as nat;
      (x >> 1) as nat + ((y & 1) as nat) * 128;
      { Parts1(x); Parts1(y); }
      ByteValue(x) / 2 + (ByteValue(y) % 2) * 128;
    }
  }

  lemma Parts2(y: bv8)
    ensures (y >> 2) as nat == y as nat / 4 && (y & 3) as nat == y as nat % 4
  {
    assert y as nat == (y >> 2) as nat * 4 + (y & 3) as nat;
    assert (y & 3) as nat < 4;
  }

  lemma Rot2(x: bv8, y: bv8)
    ensures ByteValue(RotByte(x, y, 2)) == ByteValue(x) / 4 + (ByteValue(y) % 4) * 64
  {
    calc {
      ByteValue(RotByte(x, y, 2));
      ((x >> 2) | (y << 6)) as nat;
      (x >> 2) as nat + (y << 6) as nat;
      (x >> 2) as nat + ((y & 3) as nat) * 64;
      { Parts2(x); Parts2(y); }
      ByteValue(x) / 4 + (ByteValue(y) % 4) * 64;
    }
  }

  lemma Parts3(y: bv8)
    ensures (y >> 3) as nat == y as nat / 8 && (y & 7) as nat == y as nat % 8
  {
    assert y as nat == (y >> 3) as nat * 8 + (y & 7) as nat;
    assert (y & 7) as nat < 8;
  }

  lemma Rot3(x: bv8, y: bv8)
    ensures ByteValue(RotByte(x, y, 3)) == ByteValue(x) / 8 + (ByteValue(y) % 8) * 32
  {
    calc {
      ByteValue(RotByte(x, y, 3));
      ((x >> 3) | (y << 5)) as nat;
      (x >> 3) as nat + (y << 5) as nat;
      (x >> 3) as nat + ((y & 7) as nat) * 32;
      { Parts3(x); Parts3(y); }
      ByteValue(x) / 8 + (ByteValue(y) % 8) * 32;
    }
  }

  lemma Parts4(y: bv8)
    ensures (y >> 4) as nat == y as nat / 16 && (y & 15) as nat == y as nat % 16
  {
    assert y as nat == (y >> 4) as nat * 16 + (y & 15) as nat;
    assert (y & 15) as nat < 16;
  }

  lemma Rot4(x: bv8, y: bv8)
    ensures ByteValue(RotByte(x, y, 4)) == ByteValue(x) / 16 + (ByteValue(y) % 16) * 16
  {
    calc {
      ByteValue(RotByte(x, y, 4));
      ((x >> 4) | (y << 4)) as nat;
      (x >> 4) as nat + (y << 4) as nat;
      (x >> 4) as nat + ((y & 15) as nat) * 16;
      { Parts4(x); Parts4(y); }
      ByteValue(x) / 16 + (ByteValue(y) % 16) * 16;
    }
  }

  lemma Parts5(y: bv8)
    ensures (y >> 5) as nat == y as nat / 32 && (y & 31) as nat == y as nat % 32
  {
    assert y as nat == (y >> 5) as nat * 32 + (y & 31) as nat;
    assert (y & 31) as nat < 32;
  }

  lemma Rot5(x: bv8, y: bv8)
    ensures ByteValue(RotByte(x, y, 5)) == ByteValue(x) / 32 + (ByteValue(y) % 32) * 8
  {
    calc {
      ByteValue(RotByte(x, y, 5));
      ((x >> 5) | (y << 3)) as nat;
      (x >> 5) as nat + (y << 3) as nat;
      (x >> 5) as nat + ((y & 31) as nat) * 8;
      { Parts5(x); Parts5(y); }
      ByteValue(x) / 32 + (ByteValue(y) % 32) * 8;
    }
  }

  lemma Parts6(y: bv8)
    ensures (y >> 6) as nat == y as nat / 64 && (y & 63) as nat == y as nat % 64
  {
    assert y as nat == (y >> 6) as nat * 64 + (y & 63) as nat;
    assert (y & 63) as nat < 64;
  }

  lemma Rot6(x: bv8, y: bv8)
    ensures ByteValue(RotByte(x, y, 6)) == ByteValue(x) / 64 + (ByteValue(y) % 64) * 4
  {
    calc {
      ByteValue(RotByte(x, y, 6));
      ((x >> 6) | (y << 2)) as nat;
      (x >> 6) as nat + (y << 2) as nat;
      (x >> 6) as nat + ((y & 63) as nat) * 4;
      { Parts6(x); Parts6(y); }
      ByteValue(x) / 64 + (ByteValue(y) % 64) * 4;
    }
  }

  lemma Parts7(y: bv8)
    ensures (y >> 7) as nat == y as nat / 128 && (y & 127) as nat == y as nat % 128
  {
    assert y as nat == (y >> 7) as nat * 128 + (y & 127) as nat;
    assert (y & 127) as nat < 128;
  }

  lemma Rot7(x: bv8, y: bv8)
    ensures ByteValue(RotByte(x, y, 7)) == ByteValue(x) / 128 + (ByteValue(y) % 128) * 2
  {
    calc {
      ByteValue(RotByte(x, y, 7));
      ((x >> 7) | (y << 1)) as nat;
      (x >> 7) as nat + (y << 1) as nat;
      (x >> 7) as nat + ((y & 127) as nat) * 2;
      { Parts7(x); Parts7(y); }
      ByteValue(x) / 128 + (ByteValue(y) % 128) * 2;
    }
  }

  lemma SmallPowers()
    ensures Pow2(0) == 1 && Pow2(1) == 2 && Pow2(2) == 4 && Pow2(3) == 8 && Pow2(4) == 16
    ensures Pow2(5) == 32 && Pow2(6) == 64 && Pow2(7) == 128 && Pow2(8) == 256
  {
    assert Pow2(4) == 16;
    assert Pow2(6) == 64;
  }

  lemma RotByteValue(x: bv8, y: bv8, b: nat)
    requires b < 8
    ensures ByteValue(RotByte(x, y, b))
         == Quotient(ByteValue(x), Pow2(b)) + Times(Remainder(ByteValue(y), Pow2(b)), Pow2(8 - b))
  {
    SmallPowers();
    hide Pow2, ByteValue, RotByte;
    if b == 0 {
      Rot0(x, y);
    } else if b == 1 {
      Rot1(x, y);
    } else if b == 2 {
      Rot2(x, y);
    } else if b == 3 {
      Rot3(x, y);
    } else if b == 4 {
      Rot4(x, y);
    } else if b == 5 {
      Rot5(x, y);
    } else if b == 6 {
      Rot6(x, y);
    } else {
      Rot7(x, y);
    }
  }

  lemma Assoc(a: nat, b: nat, c: nat)
    ensures Times(Times(a, b), c) == Times(a, Times(b, c))
  {}

  lemma Distrib(a: nat, b: nat, c: nat)
    ensures Times(a + b, c) == Times(a, c) + Times(b, c)
  {}

  lemma Less(a: nat, b: nat, c: nat)
    requires a < b && c > 0
    ensures Times(a, c) < Times(b, c)
  {}

  lemma Parted(h: nat, p: nat)
    requires p > 0
    ensures h == Times(Quotient(h, p), p) + Remainder(h, p) && Remainder(h, p) < p
  {}

  lemma PartsOf(v: nat, q: nat, r: nat, p: nat)
    requires r < p && v == Times(q, p) + r
    ensures Quotient(v, p) == q && Remainder(v, p) == r
  {
    Division(v, q, r, p);
  }

  lemma {:induction false} Pow2Add(m: nat, n: nat)
    ensures Pow2(m + n) == Times(Pow2(m), Pow2(n))
  {
    if m > 0 {
      Pow2Add(m - 1, n);
      assert Pow2(m) * Pow2(n) == 2 * (Pow2(m - 1) * Pow2(n));
    }
  }

  lemma Scale256(a: nat, b: nat)
    ensures Times(256 * a, b) == 256 * Times(a, b) && Times(a, 256) == 256 * a
  {}

  /** A number shifted right by b, then eight bits further on: what the next byte adds. */
  lemma NextByteShifted(v: nat, z: nat, b: nat)
    requires b < 8
    ensures Quotient(256 * v + z, Pow2(b))
         == 256 * Quotient(v, Pow2(b)) + Times(Remainder(v, Pow2(b)), Pow2(8 - b)) + Quotient(z, Pow2(b))
    ensures Remainder(256 * v + z, Pow2(b)) == Remainder(z, Pow2(b))
  {
    hide *;
    var p, q := Pow2(b), Pow2(8 - b);
    var d, r, e := Quotient(v, p), Remainder(v, p), Quotient(z, p);
    Parted(v, p);
    Parted(z, p);
    Pow2Add(8 - b, b);
    SmallPowers();
    Scale256(d, p);
    Scale256(r, 0);
    Assoc(r, q, p);
    Distrib(256 * d, Times(r, q), p);
    Distrib(256 * d + Times(r, q), e, p);
    PartsOf(256 * v + z, 256 * d + Times(r, q) + e, Remainder(z, p), p);
  }

  /** t shifted right by b bits, with the low bits of c coming in at the top. */
  function ShiftIn(c: bv8, t: Bytes, b: nat): (r: Bytes)
    requires b < 8
    ensures |r| == |t|
  {
    seq(|t|, i requires 0 <= i < |t| => RotByte(t[i], if i == 0 then c else t[i - 1], b))
  }

  lemma Scaled(k: nat, m: nat, n: nat)
    requires n == m + 1
    ensures 256 * Times(k, Pow256(m)) == Times(k, Pow256(n))
  {}

  lemma ShiftInFront(c: bv8, t: Bytes, b: nat)
    requires b < 8 && |t| > 0
    ensures ShiftIn(c, t, b)[..|t| - 1] == ShiftIn(c, t[..|t| - 1], b)
    ensures ShiftIn(c, t, b)[|t| - 1] == RotByte(t[|t| - 1], if |t| == 1 then c else t[|t| - 2], b)
  {
    hide RotByte;
  }

  lemma ValueLast(t: Bytes)
    requires |t| > 0
    ensures Value(t) == 256 * Value(t[..|t| - 1]) + ByteValue(t[|t| - 1])
  {
    hide ByteValue;
  }

  lemma ValueNone(t: Bytes)
    requires t == []
    ensures Value(t) == 0
  {}

  lemma {:induction false} ShiftInValue(c: bv8, t: Bytes, b: nat)
    requires b < 8 && |t| > 0
    ensures Value(ShiftIn(c, t, b))
         == Times(Times(Remainder(ByteValue(c), Pow2(b)), Pow2(8 - b)), Pow256(|t| - 1)) + Quotient(Value(t), Pow2(b))
    decreases |t|
  {
    hide *;
    var m := |t| - 1;
    var f, z, k := t[..m], t[m], Times(Remainder(ByteValue(c), Pow2(b)), Pow2(8 - b));
    ShiftInFront(c, t, b);
    ValueLast(t);
    ValueLast(ShiftIn(c, t, b));
    if m == 0 {
      RotByteValue(z, c, b);
      ValueNone(f);
      ValueNone(ShiftIn(c, f, b));
      Single(k);
    } else {
      var y := t[m - 1];
      ShiftInValue(c, f, b);
      RotByteValue(z, y, b);
      NextByteShifted(Value(f), ByteValue(z), b);
      ValueLast(f);
      NextByteShifted(Value(f[..m - 1]), ByteValue(y), b);
      Scaled(k, m - 1, m);
    }
  }

  lemma Single(k: nat)
    ensures Times(k, Pow256(0)) == k
  {}

  // ---------------------------------------------------------------- the two rotations agree

  lemma {:induction false} ValueConcat(a: Bytes, b: Bytes)
    ensures Value(a + b) == Times(Value(a), Pow256(|b|)) + Value(b)
    decreases |b|
  {
    hide *;
    if b == [] {
      assert a + b == a;
      Single(Value(a));
      ValueNone(b);
    } else {
      var m := |b| - 1;
      ValueConcat(a, b[..m]);
      ValueLast(a + b);
      ValueLast(b);
      assert (a + b)[..|a + b| - 1] == a + b[..m];
      Scaled(Value(a), m, |b|);
    }
  }

  lemma {:induction false} Pow256Is(n: nat)
    ensures Pow256(n) == Pow2(8 * n)
  {
    if n > 0 {
      Pow256Is(n - 1);
      Pow2Add(8, 8 * (n - 1));
      SmallPowers();
    }
  }

  lemma {:induction false} Pow256Add(m: nat, n: nat)
    ensures Pow256(m + n) == Times(Pow256(m), Pow256(n))
  {
    if m > 0 {
      Pow256Add(m - 1, n);
      assert Pow256(m) * Pow256(n) == 256 * (Pow256(m - 1) * Pow256(n));
    }
  }

  /** An upper part h and a lower part l below a, as a multiple of a p and the rest. */
  lemma UpperLower(h: nat, l: nat, a: nat, p: nat)
    requires l < a && p > 0
    ensures Times(h, a) + l == Times(Quotient(h, p), Times(p, a)) + (Times(Remainder(h, p), a) + l)
    ensures Times(Remainder(h, p), a) + l < Times(p, a)
  {
    hide Quotient, Remainder, Times;
    var q, r := Quotient(h, p), Remainder(h, p);
    Parted(h, p);
    Distrib(Times(q, p), r, a);
    Assoc(q, p, a);
    Distrib(r, 1, a);
    OneTimes(a);
    AtMost(r + 1, p, a);
  }

  lemma OneTimes(a: nat)
    ensures Times(1, a) == a
  {}

  lemma AtMost(a: nat, b: nat, c: nat)
    requires a <= b
    ensures Times(a, c) <= Times(b, c)
  {}

  lemma UpperQuotient(h: nat, l: nat, a: nat, p: nat)
    requires l < a && p > 0
    ensures Quotient(Times(h, a) + l, Times(p, a)) == Quotient(h, p)
  {
    hide Quotient, Remainder, Times;
    UpperLower(h, l, a, p);
    PartsOf(Times(h, a) + l, Quotient(h, p), Times(Remainder(h, p), a) + l, Times(p, a));
  }

  /** The part that is shifted out, shifted back in at the top. */
  lemma LowerProduct(h: nat, l: nat, a: nat, p: nat, d: nat)
    requires l < a && p > 0 && d > 0
    ensures Remainder(Times(Times(h, a) + l, d), Times(Times(p, a), d))
         == Times(Remainder(h, p), Times(a, d)) + Times(l, d)
  {
    hide Quotient, Remainder, Times;
    var q, r := Quotient(h, p), Remainder(h, p);
    var e, w := Times(r, a) + l, Times(p, a);
    UpperLower(h, l, a, p);
    Distrib(Times(q, w), e, d);
    Assoc(q, w, d);
    Less(e, w, d);
    PartsOf(Times(Times(h, a) + l, d), q, Times(e, d), Times(w, d));
    Distrib(Times(r, a), l, d);
    Assoc(r, a, d);
  }

  lemma TurnedQuotient(h: nat, l: nat, p: nat, d: nat)
    requires p > 0
    ensures Quotient(Times(l, Times(d, p)) + h, p) == Times(l, d) + Quotient(h, p)
  {
    hide Quotient, Remainder, Times;
    var q, r := Quotient(h, p), Remainder(h, p);
    Parted(h, p);
    Assoc(l, d, p);
    Distrib(Times(l, d), q, p);
    PartsOf(Times(l, Times(d, p)) + h, Times(l, d) + q, r, p);
  }

  /** The bytes turned round by a places. */
  function Turned(s: Bytes16, a: nat): Bytes16
    requires a < 16
  {
    s[16 - a..] + s[..16 - a]
  }

  lemma TurnedAt(s: Bytes16, a: nat, i: nat)
    requires a < 16 && i < 16
    ensures Turned(s, a)[i] == s[Back(i, a)]
    ensures (if i == 0 then Turned(s, a)[15] else Turned(s, a)[i - 1]) == s[Back(i, a + 1)]
  {}

  lemma RotatedShape(s: Bytes16, a: nat, b: nat)
    requires a < 16 && b < 8
    ensures Rotated(s, a, b) == ShiftIn(Turned(s, a)[15], Turned(s, a), b)
  {
    hide Turned, RotByte, Back;
    var t := Turned(s, a);
    forall i | 0 <= i < 16
      ensures Rotated(s, a, b)[i] == ShiftIn(t[15], t, b)[i]
    {
      TurnedAt(s, a, i);
    }
  }

  /** The powers that the two parts are multiplied by; d is what is left of 128 bits beside them. */
  lemma Widths(a: nat, b: nat, n: nat, d: nat)
    requires a < 16 && b < 8 && n == 8 * a + b && d == Pow2(128 - n)
    ensures Pow2(n) == Times(Pow2(b), Pow256(a))
    ensures Pow2(128) == Times(Times(Pow2(b), Pow256(a)), d)
    ensures Pow256(16 - a) == Times(d, Pow2(b))
    ensures Times(Pow256(a), d) == Times(Pow2(8 - b), Pow256(15))
  {
    hide *;
    Pow256Is(a);
    Pow256Is(15);
    Pow256Is(16 - a);
    Pow2Add(b, 8 * a);
    Pow2Add(n, 128 - n);
    Pow2Add(128 - n, b);
    Pow2Add(8 * a, 128 - n);
    Pow2Add(8 - b, 8 * 15);
  }

  /** Bytewise rotation is rotation of the 128-bit integer that the bytes stand for, big-endian. */
  lemma RotationsAgree(s: Bytes16, a: nat, b: nat, n: nat)
    requires a < 16 && b < 8 && n == 8 * a + b
    ensures Value(Rotated(s, a, b)) == RotateRight(Value(s), n)
  {
    hide *;
    var k := 16 - a;
    var hi, lo := s[..k], s[k..];
    var h, l, p, d := Value(hi), Value(lo), Pow2(b), Pow2(128 - n);
    assert s == hi + lo && |hi| == k && |lo| == a;
    ValueConcat(hi, lo);
    ValueBound(lo);
    RotatedShape(s, a, b);
    TurnedParts(s, a);
    ValueConcat(lo, hi);
    var t := Turned(s, a);
    ShiftInValue(t[15], t, b);
    LowBits(hi, b);
    Widths(a, b, n, d);
    UpperQuotient(h, l, Pow256(a), p);
    LowerProduct(h, l, Pow256(a), p, d);
    TurnedQuotient(h, l, p, d);
    RotateRightIs(Value(s), n);
    Assoc(Remainder(h, p), Pow2(8 - b), Pow256(15));
  }

  lemma RotateRightIs(v: nat, n: nat)
    requires n < 128
    ensures RotateRight(v, n) == Quotient(v, Pow2(n)) + Remainder(Times(v, Pow2(128 - n)), Pow2(128))
  {
    hide Pow2, Quotient, Remainder, Times;
  }

  lemma TurnedParts(s: Bytes16, a: nat)
    requires a < 16
    ensures Turned(s, a) == s[16 - a..] + s[..16 - a] && Turned(s, a)[15] == s[..16 - a][15 - a]
  {}

  lemma LowBits(t: Bytes, b: nat)
    requires b < 8 && |t| > 0
    ensures Remainder(Value(t), Pow2(b)) == Remainder(ByteValue(t[|t| - 1]), Pow2(b))
  {
    hide *;
    ValueLast(t);
    NextByteShifted(Value(t[..|t| - 1]), ByteValue(t[|t| - 1]), b);
  }

  // ---------------------------------------------------------------- numbers and blocks

  /** A block is the bytes of the number that it stands for. */
  lemma {:induction false} BytesOfValue(s: Bytes)
    ensures BigBytes(|s|, Value(s)) == s
  {
    hide ToByte, ByteValue;
    if s != [] {
      var m := |s| - 1;
      BytesOfValue(s[..m]);
      ByteBack(s[m], Value(s[..m]));
      ByteRange(s[m]);
      assert s == s[..m] + [s[m]];
    }
  }

  // ---------------------------------------------------------------- the schedule

  /** CK1 to CK3, repeated as in the source. */
  function Constant(i: nat): Bytes16 {
    if i == 0 || i == 3 then [0x51, 0x7c, 0xc1, 0xb7, 0x27, 0x22, 0x0a, 0x94, 0xfe, 0x13, 0xab, 0xe8, 0xfa, 0x9a,
                              0x6e, 0xe0]
    else if i == 1 || i == 4 then [0x6d, 0xb1, 0x4a, 0xcc, 0x9e, 0x21, 0xc8, 0x20, 0xff, 0x28, 0xb1, 0xd5, 0xef, 0x5d,
                                   0xe2, 0xb0]
    else [0xdb, 0x92, 0x37, 0x1d, 0x21, 0x26, 0xe9, 0x70, 0x03, 0x24, 0x97, 0x75, 0x04, 0xe8, 0xc9, 0x0e]
  }

  /** FO, and FE with the second layer, on a block in its own order. */
  function F(second: bool, x: Bytes16, k: Bytes16): Bytes16 {
    Permute(Diffuse(Layer(second, XorBytes(Permute(x), Permute(k)))))
  }

  datatype Four = Four(w0: Bytes16, w1: Bytes16, w2: Bytes16, w3: Bytes16)

  function Pick(w: Four, i: nat): Bytes16 {
    if i == 0 then w.w0 else if i == 1 then w.w1 else if i == 2 then w.w2 else w.w3
  }

  /** W0 to W3, section 2.2 of RFC 5794; off is 0, 1 or 2 for the three key sizes. */
  function Intermediate(kl: Bytes16, kr: Bytes16, off: nat): Four {
    var w1 := XorBytes(F(false, kl, Constant(off)), kr);
    var w2 := XorBytes(F(true, w1, Constant(off + 1)), kl);
    var w3 := XorBytes(F(false, w2, Constant(off + 2)), w1);
    Four(kl, w1, w2, w3)
  }

  function Offset(j: nat): nat {
    if j == 0 then 19 else if j == 1 then 31 else if j == 2 then 67 else if j == 3 then 97 else 109
  }

  function RotateBlock(b: Bytes16, n: nat): Bytes16
    requires n <= 128
  {
    BigBytes(16, RotateRight(Value(b), n))
  }

  /** Round key i: one word, and the next one rotated. */
  function EncryptionKey(w: Four, i: nat): Bytes16 {
    XorBytes(RotateBlock(Pick(w, (i + 1) % 4), Offset(i / 4)), Pick(w, i % 4))
  }

  /** The rotations of section 2.2 of RFC 5794: to the right by 19 and 31 bits, then to the left by 61, 31 and 19. */
  function KeyRotation(v: nat, i: nat): nat {
    if i < 4 then RotateRight(v, 19) else if i < 8 then RotateRight(v, 31)
    else if i < 12 then RotateLeft(v, 61) else if i < 16 then RotateLeft(v, 31) else RotateLeft(v, 19)
  }

  lemma KeyConforms(w: Four, i: nat)
    requires i < 17
    ensures EncryptionKey(w, i) == XorBytes(BigBytes(16, KeyRotation(Value(Pick(w, (i + 1) % 4)), i)), Pick(w, i % 4))
  {
    hide Value, BigBytes, XorBytes, Shr128, Shl128, Pick;
  }

  /** The key, padded with zeros to 32 bytes. */
  function Padded(key: Bytes): (r: Bytes)
    requires |key| <= 32
    ensures |r| == 32
  {
    key + seq(32 - |key|, i => 0)
  }

  function WordsOf(key: Bytes, off: nat): Four
    requires |key| <= 32
  {
    Intermediate(Padded(key)[..16], Padded(key)[16..], off)
  }

  /** The seventeen round keys, transposed like the blocks. */
  function Schedule(w: Four): (r: seq<Bytes16>)
    ensures |r| == 17 && forall i :: 0 <= i < 17 ==> r[i] == Permute(EncryptionKey(w, i))
  {
    seq(17, i requires 0 <= i < 17 => Permute(EncryptionKey(w, i)))
  }

  /** RotateRightAndXor rotates the block. */
  lemma RotatedBlock(s: Bytes16, n: nat)
    requires n < 128
    ensures Rotated(s, n / 8, n % 8) == RotateBlock(s, n)
  {
    hide Rotated, RotateRight, Value;
    RotationsAgree(s, n / 8, n % 8, n);
    BytesOfValue(Rotated(s, n / 8, n % 8));
  }

  lemma PermuteXor(x: Bytes16, y: Bytes16)
    ensures Permute(XorBytes(x, y)) == XorBytes(Permute(x), Permute(y))
  {
    hide Across, XorByte;
  }
}
