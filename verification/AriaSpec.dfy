/** ARIA on values (RFC 5794), in the order of bytes that impl/block/aria/aria.hh works in: the transpose of the
    block. */
module AriaSpec {
  import opened Words
  import opened Keystream
  import opened Linear
  import opened Sbox
  import opened AriaSbox

  // ---------------------------------------------------------------- the substitution layers

  /** The box for byte i of the first layer; the second layer has the inverse boxes. */
  function Box(second: bool, i: nat, b: bv8): bv8 {
    if i < 4 then if second then InvSub(b) else Sub(b)
    else if i < 8 then if second then Sub4(b) else Sub2(b)
    else if i < 12 then if second then Sub(b) else InvSub(b)
    else if second then Sub2(b) else Sub4(b)
  }

  function Layer(second: bool, x: Bytes): (r: Bytes)
    ensures |r| == |x| && forall i :: 0 <= i < |x| ==> r[i] == Box(second, i, x[i])
  {
    seq(|x|, i requires 0 <= i < |x| => Box(second, i, x[i]))
  }

  lemma BoxInverse(second: bool, i: nat, b: bv8)
    ensures Box(!second, i, Box(second, i, b)) == b
  {
    hide Sub, InvSub, Sub2, Sub4;
    SubInverse(b);
    InvSubInverse(b);
    Sub2Inverse(b);
    Sub4Inverse(b);
  }

  /** Each of the two layers undoes the other. */
  lemma LayerInverse(second: bool, x: Bytes)
    ensures Layer(!second, Layer(second, x)) == x
  {
    hide Box;
    forall i | 0 <= i < |x|
      ensures Layer(!second, Layer(second, x))[i] == x[i]
    {
      BoxInverse(second, i, x[i]);
    }
  }

  // ---------------------------------------------------------------- the diffusion layer

  /** Seven positions in a block. */
  datatype Seven = Seven(a: nat, b: nat, c: nat, d: nat, e: nat, f: nat, g: nat)

  ghost predicate Inside(s: Seven) {
    s.a < 16 && s.b < 16 && s.c < 16 && s.d < 16 && s.e < 16 && s.f < 16 && s.g < 16
  }

  /** The bytes that afunc adds up for byte i, in its order. */
  function Columns(i: nat): Seven {
    match i
    case 0 => Seven(12, 1, 6, 11, 9, 7, 2)
    case 1 => Seven(8, 5, 2, 15, 0, 14, 11)
    case 2 => Seven(0, 13, 10, 7, 1, 15, 4)
    case 3 => Seven(4, 9, 14, 3, 8, 6, 13)
    case 4 => Seven(8, 5, 2, 15, 13, 3, 6)
    case 5 => Seven(12, 1, 6, 11, 4, 10, 15)
    case 6 => Seven(4, 9, 14, 3, 5, 11, 0)
    case 7 => Seven(0, 13, 10, 7, 12, 2, 9)
    case 8 => Seven(4, 9, 14, 3, 1, 15, 10)
    case 9 => Seven(0, 13, 10, 7, 8, 6, 3)
    case 10 => Seven(8, 5, 2, 15, 9, 7, 12)
    case 11 => Seven(12, 1, 6, 11, 0, 14, 5)
    case 12 => Seven(0, 13, 10, 7, 5, 11, 14)
    case 13 => Seven(4, 9, 14, 3, 12, 2, 7)
    case 14 => Seven(12, 1, 6, 11, 13, 3, 8)
    case _ => Seven(8, 5, 2, 15, 4, 10, 1)
  }

  /** The sum of seven bytes, and of seven selections, the way afunc adds: four, then two, then one. */
  function Sum7(a: bv8, b: bv8, c: bv8, d: bv8, e: bv8, f: bv8, g: bv8): bv8 {
    XorByte(XorByte(XorByte(XorByte(XorByte(a, b), c), d), XorByte(e, f)), g)
  }

  function Mask7(a: Mask, b: Mask, c: Mask, d: Mask, e: Mask, f: Mask, g: Mask): Mask {
    XorMask(XorMask(XorMask(XorMask(XorMask(a, b), c), d), XorMask(e, f)), g)
  }

  function MaskOf(s: Seven): Mask
    requires Inside(s)
  {
    Mask7(Bit(s.a), Bit(s.b), Bit(s.c), Bit(s.d), Bit(s.e), Bit(s.f), Bit(s.g))
  }

  lemma SumOfSums(x: Bytes16, a: Mask, b: Mask, c: Mask, d: Mask, e: Mask, f: Mask, g: Mask)
    ensures Sum7(Sum(x, a, 16), Sum(x, b, 16), Sum(x, c, 16), Sum(x, d, 16), Sum(x, e, 16), Sum(x, f, 16),
                 Sum(x, g, 16))
         == Sum(x, Mask7(a, b, c, d, e, f, g), 16)
  {
    hide Sum, XorByte, XorMask;
    var ab := XorMask(a, b);
    var abc := XorMask(ab, c);
    var abcd, ef := XorMask(abc, d), XorMask(e, f);
    SumXor(x, a, b, 16);
    SumXor(x, ab, c, 16);
    SumXor(x, abc, d, 16);
    SumXor(x, e, f, 16);
    SumXor(x, abcd, ef, 16);
    SumXor(x, XorMask(abcd, ef), g, 16);
  }

  /** Seven bytes of a block, added up. */
  function SumAt(x: Bytes16, s: Seven): bv8
    requires Inside(s)
  {
    Sum7(x[s.a], x[s.b], x[s.c], x[s.d], x[s.e], x[s.f], x[s.g])
  }

  lemma SumSeven(x: Bytes16, s: Seven)
    requires Inside(s)
    ensures SumAt(x, s) == Sum(x, MaskOf(s), 16)
  {
    hide Sum, Bit, Mask7, Sum7;
    SumBit(x, s.a, 16);
    SumBit(x, s.b, 16);
    SumBit(x, s.c, 16);
    SumBit(x, s.d, 16);
    SumBit(x, s.e, 16);
    SumBit(x, s.f, 16);
    SumBit(x, s.g, 16);
    SumOfSums(x, Bit(s.a), Bit(s.b), Bit(s.c), Bit(s.d), Bit(s.e), Bit(s.f), Bit(s.g));
  }

  /** Row i of the matrix of afunc. */
  function Row(i: nat): Mask {
    match i
    case 0 => 0x1ac6 case 1 => 0xc925 case 2 => 0xa493 case 3 => 0x6358
    case 4 => 0xa16c case 5 => 0x9c52 case 6 => 0x4a39 case 7 => 0x3685
    case 8 => 0xc61a case 9 => 0x25c9 case 10 => 0x93a4 case 11 => 0x5863
    case 12 => 0x6ca1 case 13 => 0x529c case 14 => 0x394a case _ => 0x8536
  }

  lemma Raw7(a: Mask, b: Mask, c: Mask, d: Mask, e: Mask, f: Mask, g: Mask, r: Mask)
    requires ((((a ^ b) ^ c) ^ d) ^ (e ^ f)) ^ g == r
    ensures Mask7(a, b, c, d, e, f, g) == r
  {
    calc {
      Mask7(a, b, c, d, e, f, g);
      XorMask(XorMask(XorMask(XorMask(a ^ b, c), d), e ^ f), g);
      XorMask(XorMask(XorMask((a ^ b) ^ c, d), e ^ f), g);
      XorMask(XorMask(((a ^ b) ^ c) ^ d, e ^ f), g);
      XorMask((((a ^ b) ^ c) ^ d) ^ (e ^ f), g);
    }
  }

  lemma RowIs(i: nat)
    requires i < 16
    ensures Inside(Columns(i)) && Row(i) == MaskOf(Columns(i))
  {
    hide Mask7;
    if i < 8 {
      if i < 4 {
        if i < 2 {
          if i < 1 {
            Raw7(0x1000, 0x0002, 0x0040, 0x0800, 0x0200, 0x0080, 0x0004, 0x1ac6);
          } else {
            Raw7(0x0100, 0x0020, 0x0004, 0x8000, 0x0001, 0x4000, 0x0800, 0xc925);
          }
        } else {
          if i < 3 {
            Raw7(0x0001, 0x2000, 0x0400, 0x0080, 0x0002, 0x8000, 0x0010, 0xa493);
          } else {
            Raw7(0x0010, 0x0200, 0x4000, 0x0008, 0x0100, 0x0040, 0x2000, 0x6358);
          }
        }
      } else {
        if i < 6 {
          if i < 5 {
            Raw7(0x0100, 0x0020, 0x0004, 0x8000, 0x2000, 0x0008, 0x0040, 0xa16c);
          } else {
            Raw7(0x1000, 0x0002, 0x0040, 0x0800, 0x0010, 0x0400, 0x8000, 0x9c52);
          }
        } else {
          if i < 7 {
            Raw7(0x0010, 0x0200, 0x4000, 0x0008, 0x0020, 0x0800, 0x0001, 0x4a39);
          } else {
            Raw7(0x0001, 0x2000, 0x0400, 0x0080, 0x1000, 0x0004, 0x0200, 0x3685);
          }
        }
      }
    } else {
      if i < 12 {
        if i < 10 {
          if i < 9 {
            Raw7(0x0010, 0x0200, 0x4000, 0x0008, 0x0002, 0x8000, 0x0400, 0xc61a);
          } else {
            Raw7(0x0001, 0x2000, 0x0400, 0x0080, 0x0100, 0x0040, 0x0008, 0x25c9);
          }
        } else {
          if i < 11 {
            Raw7(0x0100, 0x0020, 0x0004, 0x8000, 0x0200, 0x0080, 0x1000, 0x93a4);
          } else {
            Raw7(0x1000, 0x0002, 0x0040, 0x0800, 0x0001, 0x4000, 0x0020, 0x5863);
          }
        }
      } else {
        if i < 14 {
          if i < 13 {
            Raw7(0x0001, 0x2000, 0x0400, 0x0080, 0x0020, 0x0800, 0x4000, 0x6ca1);
          } else {
            Raw7(0x0010, 0x0200, 0x4000, 0x0008, 0x1000, 0x0004, 0x0080, 0x529c);
          }
        } else {
          if i < 15 {
            Raw7(0x1000, 0x0002, 0x0040, 0x0800, 0x2000, 0x0008, 0x0100, 0x394a);
          } else {
            Raw7(0x0100, 0x0020, 0x0004, 0x8000, 0x0010, 0x0400, 0x0002, 0x8536);
          }
        }
      }
    }
  }

  /** The rows that row i adds up: byte i alone. */
  function RowsOf(s: Seven): Mask {
    Mask7(Row(s.a), Row(s.b), Row(s.c), Row(s.d), Row(s.e), Row(s.f), Row(s.g))
  }

  lemma RowsCancel(i: nat)
    requires i < 16
    ensures RowsOf(Columns(i)) == Bit(i)
  {
    hide Mask7;
    if i < 8 {
      if i < 4 {
        if i < 2 {
          if i < 1 {
            Raw7(0x6ca1, 0xc925, 0x4a39, 0x5863, 0x25c9, 0x3685, 0xa493, 0x0001);
          } else {
            Raw7(0xc61a, 0x9c52, 0xa493, 0x8536, 0x1ac6, 0x394a, 0x5863, 0x0002);
          }
        } else {
          if i < 3 {
            Raw7(0x1ac6, 0x529c, 0x93a4, 0x3685, 0xc925, 0x8536, 0xa16c, 0x0004);
          } else {
            Raw7(0xa16c, 0x25c9, 0x394a, 0x6358, 0xc61a, 0x4a39, 0x529c, 0x0008);
          }
        }
      } else {
        if i < 6 {
          if i < 5 {
            Raw7(0xc61a, 0x9c52, 0xa493, 0x8536, 0x529c, 0x6358, 0x4a39, 0x0010);
          } else {
            Raw7(0x6ca1, 0xc925, 0x4a39, 0x5863, 0xa16c, 0x93a4, 0x8536, 0x0020);
          }
        } else {
          if i < 7 {
            Raw7(0xa16c, 0x25c9, 0x394a, 0x6358, 0x9c52, 0x5863, 0x1ac6, 0x0040);
          } else {
            Raw7(0x1ac6, 0x529c, 0x93a4, 0x3685, 0x6ca1, 0xa493, 0x25c9, 0x0080);
          }
        }
      }
    } else {
      if i < 12 {
        if i < 10 {
          if i < 9 {
            Raw7(0xa16c, 0x25c9, 0x394a, 0x6358, 0xc925, 0x8536, 0x93a4, 0x0100);
          } else {
            Raw7(0x1ac6, 0x529c, 0x93a4, 0x3685, 0xc61a, 0x4a39, 0x6358, 0x0200);
          }
        } else {
          if i < 11 {
            Raw7(0xc61a, 0x9c52, 0xa493, 0x8536, 0x25c9, 0x3685, 0x6ca1, 0x0400);
          } else {
            Raw7(0x6ca1, 0xc925, 0x4a39, 0x5863, 0x1ac6, 0x394a, 0x9c52, 0x0800);
          }
        }
      } else {
        if i < 14 {
          if i < 13 {
            Raw7(0x1ac6, 0x529c, 0x93a4, 0x3685, 0x9c52, 0x5863, 0x394a, 0x1000);
          } else {
            Raw7(0xa16c, 0x25c9, 0x394a, 0x6358, 0x6ca1, 0xa493, 0x3685, 0x2000);
          }
        } else {
          if i < 15 {
            Raw7(0x6ca1, 0xc925, 0x4a39, 0x5863, 0x529c, 0x6358, 0xc61a, 0x4000);
          } else {
            Raw7(0xc61a, 0x9c52, 0xa493, 0x8536, 0xa16c, 0x93a4, 0xc925, 0x8000);
          }
        }
      }
    }
  }

  /** afunc: byte i is the sum of the bytes that row i selects. */
  function Diffuse(x: Bytes16): (r: Bytes16)
    ensures forall i :: 0 <= i < 16 ==> r[i] == Sum(x, Row(i), 16)
  {
    seq(16, i requires 0 <= i < 16 => Sum(x, Row(i), 16))
  }

  lemma DiffuseAt(x: Bytes16, i: nat)
    requires i < 16
    ensures Inside(Columns(i)) && Diffuse(x)[i] == SumAt(x, Columns(i))
  {
    hide Sum, Row, MaskOf, Columns, SumAt;
    RowIs(i);
    SumSeven(x, Columns(i));
  }

  /** afunc is an involution. */
  lemma DiffuseTwice(x: Bytes16)
    ensures Diffuse(Diffuse(x)) == x
  {
    hide Row, Sum, Bit, Columns, Mask7, Sum7;
    var y := Diffuse(x);
    forall i | 0 <= i < 16
      ensures Diffuse(y)[i] == x[i]
    {
      var s := Columns(i);
      DiffuseAt(y, i);
      SumOfSums(x, Row(s.a), Row(s.b), Row(s.c), Row(s.d), Row(s.e), Row(s.f), Row(s.g));
      RowsCancel(i);
      SumBit(x, i, 16);
    }
  }

  /** afunc is linear. */
  lemma DiffuseXor(x: Bytes16, y: Bytes16)
    ensures Diffuse(XorBytes(x, y)) == XorBytes(Diffuse(x), Diffuse(y))
  {
    hide Row, Sum, XorByte;
    forall i | 0 <= i < 16
      ensures Diffuse(XorBytes(x, y))[i] == XorBytes(Diffuse(x), Diffuse(y))[i]
    {
      SumOfXor(x, y, XorBytes(x, y), Row(i), 16);
    }
  }

  /** Where byte i of the transposed block comes from. */
  function Across(i: nat): (k: nat)
    requires i < 16
    ensures k < 16
  {
    match i
    case 0 => 0 case 1 => 4 case 2 => 8 case 3 => 12
    case 4 => 1 case 5 => 5 case 6 => 9 case 7 => 13
    case 8 => 2 case 9 => 6 case 10 => 10 case 11 => 14
    case 12 => 3 case 13 => 7 case 14 => 11 case _ => 15
  }

  lemma AcrossTwice(i: nat)
    requires i < 16
    ensures Across(Across(i)) == i
  {}

  /** Permute. */
  function Permute(x: Bytes16): (r: Bytes16)
    ensures forall i :: 0 <= i < 16 ==> r[i] == x[Across(i)]
  {
    seq(16, i requires 0 <= i < 16 => x[Across(i)])
  }

  lemma PermuteTwice(x: Bytes16)
    ensures Permute(Permute(x)) == x
  {
    hide Across;
    forall i | 0 <= i < 16
      ensures Permute(Permute(x))[i] == x[i]
    {
      AcrossTwice(i);
    }
  }

  // ---------------------------------------------------------------- rounds

  /** The state after the first m rounds: substitution layers in turn, each followed by the diffusion layer. */
  function Rounds(x: Bytes16, keys: seq<Bytes16>, m: nat): Bytes16
    requires m <= |keys|
  {
    if m == 0 then x
    else Diffuse(Layer((m - 1) % 2 == 1, XorBytes(Rounds(x, keys, m - 1), keys[m - 1])))
  }

  /** n rounds; the last has a key after it instead of the diffusion layer. */
  function Crypt(x: Bytes16, keys: seq<Bytes16>, n: nat): Bytes16
    requires 0 < n < |keys|
  {
    XorBytes(Layer((n - 1) % 2 == 1, XorBytes(Rounds(x, keys, n - 1), keys[n - 1])), keys[n])
  }

  /** The keys of decryption: reversed, all but the ends put through the diffusion layer. */
  function Reversed(keys: seq<Bytes16>, n: nat): (r: seq<Bytes16>)
    requires 0 < n < |keys|
    ensures |r| == n + 1 && r[0] == keys[n] && r[n] == keys[0]
    ensures forall i :: 0 < i < n ==> r[i] == Diffuse(keys[n - i])
  {
    seq(n + 1, i requires 0 <= i <= n => if i == 0 then keys[n] else if i == n then keys[0] else Diffuse(keys[n - i]))
  }

  lemma XorCancel(a: Bytes16, b: Bytes16)
    ensures XorBytes(XorBytes(a, b), b) == a
  {
    hide XorByte;
    forall i | 0 <= i < 16
      ensures XorBytes(XorBytes(a, b), b)[i] == a[i]
    {
      XorByteTwice(a[i], b[i]);
    }
  }

  lemma RoundsNext(x: Bytes16, keys: seq<Bytes16>, m: nat)
    requires m < |keys|
    ensures Rounds(x, keys, m + 1) == Diffuse(Layer(m % 2 == 1, XorBytes(Rounds(x, keys, m), keys[m])))
  {
    hide Diffuse, Layer, XorBytes;
  }

  /** One round undone: the diffusion layers cancel, then the substitution layers. */
  lemma Undo(y: Bytes16, s: Bytes16, key: Bytes16, second: bool)
    requires y == Diffuse(Layer(second, s))
    ensures Layer(!second, XorBytes(Diffuse(XorBytes(y, key)), Diffuse(key))) == s
  {
    hide *;
    DiffuseXor(y, key);
    XorCancel(Diffuse(y), Diffuse(key));
    DiffuseTwice(Layer(second, s));
    LayerInverse(second, s);
  }

  lemma Last(s: Bytes16, key: Bytes16, second: bool)
    ensures Layer(!second, XorBytes(XorBytes(Layer(second, s), key), key)) == s
  {
    hide *;
    XorCancel(Layer(second, s), key);
    LayerInverse(second, s);
  }

  /** After m rounds of decryption the state is, before the diffusion layer, the input of the last round but m. */
  lemma {:induction false} Unwound(x: Bytes16, keys: seq<Bytes16>, n: nat, m: nat)
    requires 0 < m < n < |keys| && n % 2 == 0
    ensures Rounds(Crypt(x, keys, n), Reversed(keys, n), m)
         == Diffuse(XorBytes(Rounds(x, keys, n - m), keys[n - m]))
  {
    hide Diffuse, Layer, XorBytes, Rounds;
    var c, d, j, k := Crypt(x, keys, n), Reversed(keys, n), m - 1, n - m;
    var s := XorBytes(Rounds(x, keys, k), keys[k]);
    assert (j % 2 == 1) == !(k % 2 == 1);
    RoundsNext(c, d, j);
    if m == 1 {
      RoundsNone(c, d);
      Last(s, keys[n], true);
    } else {
      hide Crypt;
      Unwound(x, keys, n, j);
      RoundsNext(x, keys, k);
      Undo(Rounds(x, keys, k + 1), s, keys[k + 1], k % 2 == 1);
    }
  }

  lemma RoundsNone(x: Bytes16, keys: seq<Bytes16>)
    ensures Rounds(x, keys, 0) == x
  {}

  lemma CryptIs(x: Bytes16, keys: seq<Bytes16>, n: nat)
    requires 0 < n < |keys|
    ensures Crypt(x, keys, n)
         == XorBytes(Layer((n - 1) % 2 == 1, XorBytes(Rounds(x, keys, n - 1), keys[n - 1])), keys[n])
  {
    hide Layer, XorBytes, Rounds;
  }

  /** The encryption routine with the reversed keys undoes itself with the keys, for any even number of rounds. */
  lemma CryptInverse(x: Bytes16, keys: seq<Bytes16>, n: nat)
    requires 0 < n < |keys| && n % 2 == 0
    ensures Crypt(Crypt(x, keys, n), Reversed(keys, n), n) == x
  {
    hide *;
    var c, d, m := Crypt(x, keys, n), Reversed(keys, n), n - 1;
    CryptIs(c, d, n);
    var s := XorBytes(x, keys[0]);
    Unwound(x, keys, n, m);
    RoundsNext(x, keys, 0);
    RoundsNone(x, keys);
    assert d[m] == Diffuse(keys[1]);
    Undo(Rounds(x, keys, 1), s, keys[1], false);
    XorCancel(x, keys[0]);
  }

  // ---------------------------------------------------------------- blocks

  /** A block encrypted or decrypted: the rounds on the transposed block. */
  function Enciphered(x: Bytes16, keys: seq<Bytes16>, n: nat): Bytes16
    requires 0 < n < |keys|
  {
    Permute(Crypt(Permute(x), keys, n))
  }

  lemma RoundTrip(x: Bytes16, keys: seq<Bytes16>, n: nat)
    requires 0 < n < |keys| && n % 2 == 0
    ensures Enciphered(Enciphered(x, keys, n), Reversed(keys, n), n) == x
  {
    hide Crypt, Permute;
    PermuteTwice(Crypt(Permute(x), keys, n));
    PermuteTwice(x);
    CryptInverse(Permute(x), keys, n);
  }

  // ---------------------------------------------------------------- against the standard

  /** The matrix of section 2.4.3 of RFC 5794, which is stated for the block in its own order. */
  function StandardRow(i: nat): Mask {
    match i
    case 0 => 0x6358 case 1 => 0x93a4 case 2 => 0x9c52 case 3 => 0x6ca1
    case 4 => 0xc925 case 5 => 0xc61a case 6 => 0x3685 case 7 => 0x394a
    case 8 => 0xa493 case 9 => 0x5863 case 10 => 0xa16c case 11 => 0x529c
    case 12 => 0x1ac6 case 13 => 0x25c9 case 14 => 0x4a39 case _ => 0x8536
  }

  function Crossed(s: Seven): (r: Seven)
    requires Inside(s)
    ensures Inside(r)
  {
    Seven(Across(s.a), Across(s.b), Across(s.c), Across(s.d), Across(s.e), Across(s.f), Across(s.g))
  }

  /** The same, in the order in which afunc adds. */
  function StandardColumns(i: nat): Seven {
    match i
    case 0 => Seven(3, 4, 9, 14, 6, 13, 8)
    case 1 => Seven(2, 5, 8, 15, 7, 12, 9)
    case 2 => Seven(1, 6, 11, 12, 4, 15, 10)
    case 3 => Seven(0, 7, 10, 13, 5, 14, 11)
    case 4 => Seven(2, 5, 8, 15, 0, 11, 14)
    case 5 => Seven(3, 4, 9, 14, 1, 10, 15)
    case 6 => Seven(0, 7, 10, 13, 2, 9, 12)
    case 7 => Seven(1, 6, 11, 12, 3, 8, 13)
    case 8 => Seven(0, 7, 10, 13, 4, 15, 1)
    case 9 => Seven(1, 6, 11, 12, 5, 14, 0)
    case 10 => Seven(2, 5, 8, 15, 6, 13, 3)
    case 11 => Seven(3, 4, 9, 14, 7, 12, 2)
    case 12 => Seven(1, 6, 11, 12, 2, 9, 7)
    case 13 => Seven(0, 7, 10, 13, 3, 8, 6)
    case 14 => Seven(3, 4, 9, 14, 0, 11, 5)
    case _ => Seven(2, 5, 8, 15, 1, 10, 4)
  }

  lemma CrossedIs(i: nat)
    requires i < 16
    ensures Inside(Columns(Across(i))) && Crossed(Columns(Across(i))) == StandardColumns(i)
  {
    if i < 8 {
      if i < 4 {
        if i < 2 {
          if i < 1 {
            assert Columns(0) == Seven(12, 1, 6, 11, 9, 7, 2);
          } else {
            assert Columns(4) == Seven(8, 5, 2, 15, 13, 3, 6);
          }
        } else {
          if i < 3 {
            assert Columns(8) == Seven(4, 9, 14, 3, 1, 15, 10);
          } else {
            assert Columns(12) == Seven(0, 13, 10, 7, 5, 11, 14);
          }
        }
      } else {
        if i < 6 {
          if i < 5 {
            assert Columns(1) == Seven(8, 5, 2, 15, 0, 14, 11);
          } else {
            assert Columns(5) == Seven(12, 1, 6, 11, 4, 10, 15);
          }
        } else {
          if i < 7 {
            assert Columns(9) == Seven(0, 13, 10, 7, 8, 6, 3);
          } else {
            assert Columns(13) == Seven(4, 9, 14, 3, 12, 2, 7);
          }
        }
      }
    } else {
      if i < 12 {
        if i < 10 {
          if i < 9 {
            assert Columns(2) == Seven(0, 13, 10, 7, 1, 15, 4);
          } else {
            assert Columns(6) == Seven(4, 9, 14, 3, 5, 11, 0);
          }
        } else {
          if i < 11 {
            assert Columns(10) == Seven(8, 5, 2, 15, 9, 7, 12);
          } else {
            assert Columns(14) == Seven(12, 1, 6, 11, 13, 3, 8);
          }
        }
      } else {
        if i < 14 {
          if i < 13 {
            assert Columns(3) == Seven(4, 9, 14, 3, 8, 6, 13);
          } else {
            assert Columns(7) == Seven(0, 13, 10, 7, 12, 2, 9);
          }
        } else {
          if i < 15 {
            assert Columns(11) == Seven(12, 1, 6, 11, 0, 14, 5);
          } else {
            assert Columns(15) == Seven(8, 5, 2, 15, 4, 10, 1);
          }
        }
      }
    }
  }

  lemma StandardRowIs(i: nat)
    requires i < 16
    ensures Inside(StandardColumns(i)) && StandardRow(i) == MaskOf(StandardColumns(i))
  {
    hide Mask7;
    if i < 8 {
      if i < 4 {
        if i < 2 {
          if i < 1 {
            Raw7(0x0008, 0x0010, 0x0200, 0x4000, 0x0040, 0x2000, 0x0100, 0x6358);
          } else {
            Raw7(0x0004, 0x0020, 0x0100, 0x8000, 0x0080, 0x1000, 0x0200, 0x93a4);
          }
        } else {
          if i < 3 {
            Raw7(0x0002, 0x0040, 0x0800, 0x1000, 0x0010, 0x8000, 0x0400, 0x9c52);
          } else {
            Raw7(0x0001, 0x0080, 0x0400, 0x2000, 0x0020, 0x4000, 0x0800, 0x6ca1);
          }
        }
      } else {
        if i < 6 {
          if i < 5 {
            Raw7(0x0004, 0x0020, 0x0100, 0x8000, 0x0001, 0x0800, 0x4000, 0xc925);
          } else {
            Raw7(0x0008, 0x0010, 0x0200, 0x4000, 0x0002, 0x0400, 0x8000, 0xc61a);
          }
        } else {
          if i < 7 {
            Raw7(0x0001, 0x0080, 0x0400, 0x2000, 0x0004, 0x0200, 0x1000, 0x3685);
          } else {
            Raw7(0x0002, 0x0040, 0x0800, 0x1000, 0x0008, 0x0100, 0x2000, 0x394a);
          }
        }
      }
    } else {
      if i < 12 {
        if i < 10 {
          if i < 9 {
            Raw7(0x0001, 0x0080, 0x0400, 0x2000, 0x0010, 0x8000, 0x0002, 0xa493);
          } else {
            Raw7(0x0002, 0x0040, 0x0800, 0x1000, 0x0020, 0x4000, 0x0001, 0x5863);
          }
        } else {
          if i < 11 {
            Raw7(0x0004, 0x0020, 0x0100, 0x8000, 0x0040, 0x2000, 0x0008, 0xa16c);
          } else {
            Raw7(0x0008, 0x0010, 0x0200, 0x4000, 0x0080, 0x1000, 0x0004, 0x529c);
          }
        }
      } else {
        if i < 14 {
          if i < 13 {
            Raw7(0x0002, 0x0040, 0x0800, 0x1000, 0x0004, 0x0200, 0x0080, 0x1ac6);
          } else {
            Raw7(0x0001, 0x0080, 0x0400, 0x2000, 0x0008, 0x0100, 0x0040, 0x25c9);
          }
        } else {
          if i < 15 {
            Raw7(0x0008, 0x0010, 0x0200, 0x4000, 0x0001, 0x0800, 0x0020, 0x4a39);
          } else {
            Raw7(0x0004, 0x0020, 0x0100, 0x8000, 0x0002, 0x0400, 0x0010, 0x8536);
          }
        }
      }
    }
  }

  /** On a block in its own order, afunc is the diffusion layer of the standard. */
  lemma DiffusionConforms(x: Bytes16, i: nat)
    requires i < 16
    ensures Permute(Diffuse(Permute(x)))[i] == Sum(x, StandardRow(i), 16)
  {
    hide Sum, Row, StandardRow, Columns, StandardColumns, MaskOf, Across, Diffuse, Sum7;
    CrossedIs(i);
    DiffuseAt(Permute(x), Across(i));
    StandardRowIs(i);
    SumSeven(x, StandardColumns(i));
  }

  /** The boxes of section 2.4.2 of RFC 5794: four in turn. */
  function StandardBox(second: bool, i: nat, b: bv8): bv8 {
    var r := (if second then i + 2 else i) % 4;
    if r == 0 then Sub(b) else if r == 1 then Sub2(b) else if r == 2 then InvSub(b) else Sub4(b)
  }

  /** On a block in its own order, sl1 and sl2 are the substitution layers of the standard. */
  lemma LayerConforms(second: bool, x: Bytes16, i: nat)
    requires i < 16
    ensures Permute(Layer(second, Permute(x)))[i] == StandardBox(second, i, x[i])
  {
    hide Sub, InvSub, Sub2, Sub4, Across;
    AcrossTwice(i);
    assert Layer(second, Permute(x))[Across(i)] == Box(second, Across(i), x[i]);
    BoxConforms(second, i, x[i]);
  }

  lemma BoxConforms(second: bool, i: nat, b: bv8)
    requires i < 16
    ensures Box(second, Across(i), b) == StandardBox(second, i, b)
  {
    hide Sub, InvSub, Sub2, Sub4;
  }
}
