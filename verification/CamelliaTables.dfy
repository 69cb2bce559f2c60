/** The combined tables of Camellia (impl/block/camellia/sboxes.c, which prints tables.cc) and the round function of
    section 2.4.1 of RFC 3713. */
module CamelliaTables {
  import opened Words
  import opened CamelliaSpec
  import opened Counter
  import opened Endian

  // ---------------------------------------------------------------- the boxes

  /** sbox[b], the SBOX1 of the standard. */
  function Box1(b: bv8): bv8 {
    if b < 0x80 then
      if b < 0x40 then
        if b < 0x20 then
          if b < 0x10 then
            if b < 0x08 then
              if b < 0x04 then
                if b < 0x02 then if b < 0x01 then 0x70 else 0x82 else if b < 0x03 then 0x2c else 0xec
              else
                if b < 0x06 then if b < 0x05 then 0xb3 else 0x27 else if b < 0x07 then 0xc0 else 0xe5
            else
              if b < 0x0c then
                if b < 0x0a then if b < 0x09 then 0xe4 else 0x85 else if b < 0x0b then 0x57 else 0x35
              else
                if b < 0x0e then if b < 0x0d then 0xea else 0x0c else if b < 0x0f then 0xae else 0x41
          else
            if b < 0x18 then
              if b < 0x14 then
                if b < 0x12 then if b < 0x11 then 0x23 else 0xef else if b < 0x13 then 0x6b else 0x93
              else
                if b < 0x16 then if b < 0x15 then 0x45 else 0x19 else if b < 0x17 then 0xa5 else 0x21
            else
              if b < 0x1c then
                if b < 0x1a then if b < 0x19 then 0xed else 0x0e else if b < 0x1b then 0x4f else 0x4e
              else
                if b < 0x1e then if b < 0x1d then 0x1d else 0x65 else if b < 0x1f then 0x92 else 0xbd
        else
          if b < 0x30 then
            if b < 0x28 then
              if b < 0x24 then
                if b < 0x22 then if b < 0x21 then 0x86 else 0xb8 else if b < 0x23 then 0xaf else 0x8f
              else
                if b < 0x26 then if b < 0x25 then 0x7c else 0xeb else if b < 0x27 then 0x1f else 0xce
            else
              if b < 0x2c then
                if b < 0x2a then if b < 0x29 then 0x3e else 0x30 else if b < 0x2b then 0xdc else 0x5f
              else
                if b < 0x2e then if b < 0x2d then 0x5e else 0xc5 else if b < 0x2f then 0x0b else 0x1a
          else
            if b < 0x38 then
              if b < 0x34 then
                if b < 0x32 then if b < 0x31 then 0xa6 else 0xe1 else if b < 0x33 then 0x39 else 0xca
              else
                if b < 0x36 then if b < 0x35 then 0xd5 else 0x47 else if b < 0x37 then 0x5d else 0x3d
            else
              if b < 0x3c then
                if b < 0x3a then if b < 0x39 then 0xd9 else 0x01 else if b < 0x3b then 0x5a else 0xd6
              else
                if b < 0x3e then if b < 0x3d then 0x51 else 0x56 else if b < 0x3f then 0x6c else 0x4d
      else
        if b < 0x60 then
          if b < 0x50 then
            if b < 0x48 then
              if b < 0x44 then
                if b < 0x42 then if b < 0x41 then 0x8b else 0x0d else if b < 0x43 then 0x9a else 0x66
              else
                if b < 0x46 then if b < 0x45 then 0xfb else 0xcc else if b < 0x47 then 0xb0 else 0x2d
            else
              if b < 0x4c then
                if b < 0x4a then if b < 0x49 then 0x74 else 0x12 else if b < 0x4b then 0x2b else 0x20
              else
                if b < 0x4e then if b < 0x4d then 0xf0 else 0xb1 else if b < 0x4f then 0x84 else 0x99
          else
            if b < 0x58 then
              if b < 0x54 then
                if b < 0x52 then if b < 0x51 then 0xdf else 0x4c else if b < 0x53 then 0xcb else 0xc2
              else
                if b < 0x56 then if b < 0x55 then 0x34 else 0x7e else if b < 0x57 then 0x76 else 0x05
            else
              if b < 0x5c then
                if b < 0x5a then if b < 0x59 then 0x6d else 0xb7 else if b < 0x5b then 0xa9 else 0x31
              else
                if b < 0x5e then if b < 0x5d then 0xd1 else 0x17 else if b < 0x5f then 0x04 else 0xd7
        else
          if b < 0x70 then
            if b < 0x68 then
              if b < 0x64 then
                if b < 0x62 then if b < 0x61 then 0x14 else 0x58 else if b < 0x63 then 0x3a else 0x61
              else
                if b < 0x66 then if b < 0x65 then 0xde else 0x1b else if b < 0x67 then 0x11 else 0x1c
            else
              if b < 0x6c then
                if b < 0x6a then if b < 0x69 then 0x32 else 0x0f else if b < 0x6b then 0x9c else 0x16
              else
                if b < 0x6e then if b < 0x6d then 0x53 else 0x18 else if b < 0x6f then 0xf2 else 0x22
          else
            if b < 0x78 then
              if b < 0x74 then
                if b < 0x72 then if b < 0x71 then 0xfe else 0x44 else if b < 0x73 then 0xcf else 0xb2
              else
                if b < 0x76 then if b < 0x75 then 0xc3 else 0xb5 else if b < 0x77 then 0x7a else 0x91
            else
              if b < 0x7c then
                if b < 0x7a then if b < 0x79 then 0x24 else 0x08 else if b < 0x7b then 0xe8 else 0xa8
              else
                if b < 0x7e then if b < 0x7d then 0x60 else 0xfc else if b < 0x7f then 0x69 else 0x50
    else
      if b < 0xc0 then
        if b < 0xa0 then
          if b < 0x90 then
            if b < 0x88 then
              if b < 0x84 then
                if b < 0x82 then if b < 0x81 then 0xaa else 0xd0 else if b < 0x83 then 0xa0 else 0x7d
              else
                if b < 0x86 then if b < 0x85 then 0xa1 else 0x89 else if b < 0x87 then 0x62 else 0x97
            else
              if b < 0x8c then
                if b < 0x8a then if b < 0x89 then 0x54 else 0x5b else if b < 0x8b then 0x1e else 0x95
              else
                if b < 0x8e then if b < 0x8d then 0xe0 else 0xff else if b < 0x8f then 0x64 else 0xd2
          else
            if b < 0x98 then
              if b < 0x94 then
                if b < 0x92 then if b < 0x91 then 0x10 else 0xc4 else if b < 0x93 then 0x00 else 0x48
              else
                if b < 0x96 then if b < 0x95 then 0xa3 else 0xf7 else if b < 0x97 then 0x75 else 0xdb
            else
              if b < 0x9c then
                if b < 0x9a then if b < 0x99 then 0x8a else 0x03 else if b < 0x9b then 0xe6 else 0xda
              else
                if b < 0x9e then if b < 0x9d then 0x09 else 0x3f else if b < 0x9f then 0xdd else 0x94
        else
          if b < 0xb0 then
            if b < 0xa8 then
              if b < 0xa4 then
                if b < 0xa2 then if b < 0xa1 then 0x87 else 0x5c else if b < 0xa3 then 0x83 else 0x02
              else
                if b < 0xa6 then if b < 0xa5 then 0xcd else 0x4a else if b < 0xa7 then 0x90 else 0x33
            else
              if b < 0xac then
                if b < 0xaa then if b < 0xa9 then 0x73 else 0x67 else if b < 0xab then 0xf6 else 0xf3
              else
                if b < 0xae then if b < 0xad then 0x9d else 0x7f else if b < 0xaf then 0xbf else 0xe2
          else
            if b < 0xb8 then
              if b < 0xb4 then
                if b < 0xb2 then if b < 0xb1 then 0x52 else 0x9b else if b < 0xb3 then 0xd8 else 0x26
              else
                if b < 0xb6 then if b < 0xb5 then 0xc8 else 0x37 else if b < 0xb7 then 0xc6 else 0x3b
            else
              if b < 0xbc then
                if b < 0xba then if b < 0xb9 then 0x81 else 0x96 else if b < 0xbb then 0x6f else 0x4b
              else
                if b < 0xbe then if b < 0xbd then 0x13 else 0xbe else if b < 0xbf then 0x63 else 0x2e
      else
        if b < 0xe0 then
          if b < 0xd0 then
            if b < 0xc8 then
              if b < 0xc4 then
                if b < 0xc2 then if b < 0xc1 then 0xe9 else 0x79 else if b < 0xc3 then 0xa7 else 0x8c
              else
                if b < 0xc6 then if b < 0xc5 then 0x9f else 0x6e else if b < 0xc7 then 0xbc else 0x8e
            else
              if b < 0xcc then
                if b < 0xca then if b < 0xc9 then 0x29 else 0xf5 else if b < 0xcb then 0xf9 else 0xb6
              else
                if b < 0xce then if b < 0xcd then 0x2f else 0xfd else if b < 0xcf then 0xb4 else 0x59
          else
            if b < 0xd8 then
              if b < 0xd4 then
                if b < 0xd2 then if b < 0xd1 then 0x78 else 0x98 else if b < 0xd3 then 0x06 else 0x6a
              else
                if b < 0xd6 then if b < 0xd5 then 0xe7 else 0x46 else if b < 0xd7 then 0x71 else 0xba
            else
              if b < 0xdc then
                if b < 0xda then if b < 0xd9 then 0xd4 else 0x25 else if b < 0xdb then 0xab else 0x42
              else
                if b < 0xde then if b < 0xdd then 0x88 else 0xa2 else if b < 0xdf then 0x8d else 0xfa
        else
          if b < 0xf0 then
            if b < 0xe8 then
              if b < 0xe4 then
                if b < 0xe2 then if b < 0xe1 then 0x72 else 0x07 else if b < 0xe3 then 0xb9 else 0x55
              else
                if b < 0xe6 then if b < 0xe5 then 0xf8 else 0xee else if b < 0xe7 then 0xac else 0x0a
            else
              if b < 0xec then
                if b < 0xea then if b < 0xe9 then 0x36 else 0x49 else if b < 0xeb then 0x2a else 0x68
              else
                if b < 0xee then if b < 0xed then 0x3c else 0x38 else if b < 0xef then 0xf1 else 0xa4
          else
            if b < 0xf8 then
              if b < 0xf4 then
                if b < 0xf2 then if b < 0xf1 then 0x40 else 0x28 else if b < 0xf3 then 0xd3 else 0x7b
              else
                if b < 0xf6 then if b < 0xf5 then 0xbb else 0xc9 else if b < 0xf7 then 0x43 else 0xc1
            else
              if b < 0xfc then
                if b < 0xfa then if b < 0xf9 then 0x15 else 0xe3 else if b < 0xfb then 0xad else 0xf4
              else
                if b < 0xfe then if b < 0xfd then 0x77 else 0xc7 else if b < 0xff then 0x80 else 0x9e
  }

  /** rol and ror. */
  function Rol(b: bv8): bv8 { (b << 1) | (b >> 7) }
  function Ror(b: bv8): bv8 { (b >> 1) | (b << 7) }

  /** SBOX1 to SBOX4: s1 to s4. */
  function Box(n: nat, b: bv8): bv8 {
    match n
    case 1 => Box1(b)
    case 2 => Rol(Box1(b))
    case 3 => Ror(Box1(b))
    case _ => Box1(Rol(b))
  }

  /** The box of byte n of a word, the most significant one first. */
  function Chosen(n: nat): nat {
    match n case 0 => 1 case 1 => 2 case 2 => 3 case 3 => 4 case 4 => 2 case 5 => 3 case 6 => 4 case _ => 1
  }

  /** repl: eight copies of a byte. */
  function Repeated(b: bv8): Word { Compose(b, b, b, b, b, b, b, b) }

  /** The bytes that table n keeps. */
  function Kept(n: nat): Word {
    match n
    case 0 => 0xffffff00ff0000ff
    case 1 => 0x00ffffffffff0000
    case 2 => 0xff00ffff00ffff00
    case 3 => 0xffff00ff0000ffff
    case 4 => 0x00ffffff00ffffff
    case 5 => 0xff00ffffff00ffff
    case 6 => 0xffff00ffffff00ff
    case _ => 0xffffff00ffffff00
  }

  function AndWord(a: Word, b: Word): Word { a & b }

  /** sp1 to sp8: s[n][v]. */
  function Combined(n: nat, v: nat): Word {
    AndWord(Repeated(Box(Chosen(n), ToByte(v))), Kept(n))
  }

  const SOURCE: Tables := (n: nat, v: nat) => Combined(n, v)

  // ---------------------------------------------------------------- the matrix P

  /** Whether row j of P selects byte n: the equations for y1 to y8. */
  predicate Selects(j: nat, n: nat)
    requires j < 8 && n < 8
  {
    match j
    case 0 => n != 1 && n != 4
    case 1 => n != 2 && n != 5
    case 2 => n != 3 && n != 6
    case 3 => n != 0 && n != 7
    case 4 => n != 2 && n != 3 && n != 4
    case 5 => n != 0 && n != 3 && n != 5
    case 6 => n != 0 && n != 1 && n != 6
    case _ => n != 1 && n != 2 && n != 7
  }

  function WordByte(w: Word, j: nat): bv8
    requires j < 8
  {
    StoreWord(w)[j]
  }

  /** Tables that spread eight boxes over the rows of P. */
  ghost predicate Spreads(s: Tables, box: (nat, bv8) -> bv8) {
    forall n: nat, v: bv8, j: nat :: n < 8 && j < 8 ==>
      WordByte(s(n, ByteValue(v)), j) == if Selects(j, n) then box(n, v) else 0
  }

  /** What byte n of the input and of the key contribute to byte j. */
  function Part(box: (nat, bv8) -> bv8, x: Word, k: Word, j: nat, n: nat): bv8
    requires j < 8 && n < 8
  {
    if Selects(j, n) then box(n, XorByte(WordByte(x, n), WordByte(k, n))) else 0
  }

  /** The sum of the first n parts. */
  function Parts(box: (nat, bv8) -> bv8, x: Word, k: Word, j: nat, n: nat): bv8
    requires j < 8 && n <= 8
  {
    if n == 0 then 0 else XorByte(Parts(box, x, k, j, n - 1), Part(box, x, k, j, n - 1))
  }

  lemma ByteXor(a: Word, b: Word, j: nat)
    requires j < 8
    ensures WordByte(XorWord(a, b), j) == XorByte(WordByte(a, j), WordByte(b, j))
  {
    hide StoreWord, XorByte, XorWord, Compose;
    var p, q := StoreWord(a), StoreWord(b);
    var r := seq(8, i requires 0 <= i < 8 => XorByte(p[i], q[i]));
    ComposeXor(p[0], p[1], p[2], p[3], p[4], p[5], p[6], p[7], q[0], q[1], q[2], q[3], q[4], q[5], q[6], q[7]);
    LoadStoreWord(a);
    LoadStoreWord(b);
    StoreLoadWord(r);
  }

  lemma GetByte0(x: Word)
    ensures GetByte(x, 7) == ByteValue(WordByte(x, 0))
  {}

  lemma GetByte1(x: Word)
    ensures GetByte(x, 6) == ByteValue(WordByte(x, 1))
  {}

  lemma GetByte2(x: Word)
    ensures GetByte(x, 5) == ByteValue(WordByte(x, 2))
  {}

  lemma GetByte3(x: Word)
    ensures GetByte(x, 4) == ByteValue(WordByte(x, 3))
  {}

  lemma GetByte4(x: Word)
    ensures GetByte(x, 3) == ByteValue(WordByte(x, 4))
  {}

  lemma GetByte5(x: Word)
    ensures GetByte(x, 2) == ByteValue(WordByte(x, 5))
  {}

  lemma GetByte6(x: Word)
    ensures GetByte(x, 1) == ByteValue(WordByte(x, 6))
  {}

  lemma GetByte7(x: Word)
    ensures GetByte(x, 0) == ByteValue(WordByte(x, 7))
  {}

  /** Section 2.4.1 of RFC 3713: byte j of the round function is the sum, over the bytes that row j of P selects, of the
      boxes at those bytes of the input xor the key. */
  lemma RoundConforms(s: Tables, box: (nat, bv8) -> bv8, x: Word, k: Word, j: nat)
    requires Spreads(s, box) && j < 8
    ensures WordByte(F(s, x, k), j) == Parts(box, x, k, j, 8)
  {
    hide *;
    var y := XorWord(x, k);
    FIs(s, x, k);
    PartsAre(box, x, k, j);
    Inputs(y);
    TableByte(s, box, x, k, j, 0);
    TableByte(s, box, x, k, j, 1);
    TableByte(s, box, x, k, j, 2);
    TableByte(s, box, x, k, j, 3);
    TableByte(s, box, x, k, j, 4);
    TableByte(s, box, x, k, j, 5);
    TableByte(s, box, x, k, j, 6);
    TableByte(s, box, x, k, j, 7);
    var t0, t1, t2, t3 := s(0, GetByte(y, 7)), s(1, GetByte(y, 6)), s(2, GetByte(y, 5)), s(3, GetByte(y, 4));
    var t4, t5, t6, t7 := s(4, GetByte(y, 3)), s(5, GetByte(y, 2)), s(6, GetByte(y, 1)), s(7, GetByte(y, 0));
    var u1 := XorWord(t0, t1);
    var u2 := XorWord(u1, t2);
    var u3 := XorWord(u2, t3);
    var u4 := XorWord(u3, t4);
    var u5 := XorWord(u4, t5);
    var u6 := XorWord(u5, t6);
    ByteXor(t0, t1, j);
    ByteXor(u1, t2, j);
    ByteXor(u2, t3, j);
    ByteXor(u3, t4, j);
    ByteXor(u4, t5, j);
    ByteXor(u5, t6, j);
    ByteXor(u6, t7, j);
  }

  lemma FIs(s: Tables, x: Word, k: Word)
    ensures var y := XorWord(x, k);
            var t := XorWord(XorWord(s(0, GetByte(y, 7)), s(1, GetByte(y, 6))), s(2, GetByte(y, 5)));
            var u := XorWord(XorWord(t, s(3, GetByte(y, 4))), s(4, GetByte(y, 3)));
            F(s, x, k) == XorWord(XorWord(XorWord(u, s(5, GetByte(y, 2))), s(6, GetByte(y, 1))), s(7, GetByte(y, 0)))
  {
    hide GetByte, XorWord;
  }

  lemma Inputs(y: Word)
    ensures GetByte(y, 7) == ByteValue(WordByte(y, 0)) && GetByte(y, 6) == ByteValue(WordByte(y, 1))
    ensures GetByte(y, 5) == ByteValue(WordByte(y, 2)) && GetByte(y, 4) == ByteValue(WordByte(y, 3))
    ensures GetByte(y, 3) == ByteValue(WordByte(y, 4)) && GetByte(y, 2) == ByteValue(WordByte(y, 5))
    ensures GetByte(y, 1) == ByteValue(WordByte(y, 6)) && GetByte(y, 0) == ByteValue(WordByte(y, 7))
  {
    hide GetByte, ByteValue, WordByte;
    GetByte0(y);
    GetByte1(y);
    GetByte2(y);
    GetByte3(y);
    GetByte4(y);
    GetByte5(y);
    GetByte6(y);
    GetByte7(y);
  }

  lemma TableByte(s: Tables, box: (nat, bv8) -> bv8, x: Word, k: Word, j: nat, n: nat)
    requires Spreads(s, box) && j < 8 && n < 8
    ensures WordByte(s(n, ByteValue(WordByte(XorWord(x, k), n))), j) == Part(box, x, k, j, n)
  {
    hide WordByte, XorWord, XorByte, Selects, ByteValue;
    ByteXor(x, k, n);
  }

  lemma PartsNext(box: (nat, bv8) -> bv8, x: Word, k: Word, j: nat, n: nat)
    requires j < 8 && n < 8
    ensures Parts(box, x, k, j, n + 1) == XorByte(Parts(box, x, k, j, n), Part(box, x, k, j, n))
    ensures Parts(box, x, k, j, 1) == Part(box, x, k, j, 0)
  {
    hide XorByte, Part;
    XorByteUnit(Part(box, x, k, j, 0));
    assert Parts(box, x, k, j, 0) == 0;
  }

  lemma PartsAre(box: (nat, bv8) -> bv8, x: Word, k: Word, j: nat)
    requires j < 8
    ensures var t := XorByte(XorByte(Part(box, x, k, j, 0), Part(box, x, k, j, 1)), Part(box, x, k, j, 2));
            var u := XorByte(XorByte(t, Part(box, x, k, j, 3)), Part(box, x, k, j, 4));
            XorByte(XorByte(XorByte(u, Part(box, x, k, j, 5)), Part(box, x, k, j, 6)), Part(box, x, k, j, 7))
            == Parts(box, x, k, j, 8)
  {
    hide *;
    PartsNext(box, x, k, j, 1);
    PartsNext(box, x, k, j, 2);
    PartsNext(box, x, k, j, 3);
    PartsNext(box, x, k, j, 4);
    PartsNext(box, x, k, j, 5);
    PartsNext(box, x, k, j, 6);
    PartsNext(box, x, k, j, 7);
  }

  // ---------------------------------------------------------------- the tables of the source

  lemma Kept0(b: bv8)
    ensures AndWord(Repeated(b), Kept(0)) == Compose(b, b, b, 0, b, 0, 0, b)
  {
    calc {
      AndWord(Repeated(b), Kept(0));
      AndWord(Compose(b, b, b, b, b, b, b, b), 0xffffff00ff0000ff);
      Compose(b, b, b, b, b, b, b, b) & 0xffffff00ff0000ff;
      Compose(b, b, b, 0, b, 0, 0, b);
    }
  }

  lemma Kept1(b: bv8)
    ensures AndWord(Repeated(b), Kept(1)) == Compose(0, b, b, b, b, b, 0, 0)
  {
    calc {
      AndWord(Repeated(b), Kept(1));
      AndWord(Compose(b, b, b, b, b, b, b, b), 0x00ffffffffff0000);
      Compose(b, b, b, b, b, b, b, b) & 0x00ffffffffff0000;
      Compose(0, b, b, b, b, b, 0, 0);
    }
  }

  lemma Kept2(b: bv8)
    ensures AndWord(Repeated(b), Kept(2)) == Compose(b, 0, b, b, 0, b, b, 0)
  {
    calc {
      AndWord(Repeated(b), Kept(2));
      AndWord(Compose(b, b, b, b, b, b, b, b), 0xff00ffff00ffff00);
      Compose(b, b, b, b, b, b, b, b) & 0xff00ffff00ffff00;
      Compose(b, 0, b, b, 0, b, b, 0);
    }
  }

  lemma Kept3(b: bv8)
    ensures AndWord(Repeated(b), Kept(3)) == Compose(b, b, 0, b, 0, 0, b, b)
  {
    calc {
      AndWord(Repeated(b), Kept(3));
      AndWord(Compose(b, b, b, b, b, b, b, b), 0xffff00ff0000ffff);
      Compose(b, b, b, b, b, b, b, b) & 0xffff00ff0000ffff;
      Compose(b, b, 0, b, 0, 0, b, b);
    }
  }

  lemma Kept4(b: bv8)
    ensures AndWord(Repeated(b), Kept(4)) == Compose(0, b, b, b, 0, b, b, b)
  {
    calc {
      AndWord(Repeated(b), Kept(4));
      AndWord(Compose(b, b, b, b, b, b, b, b), 0x00ffffff00ffffff);
      Compose(b, b, b, b, b, b, b, b) & 0x00ffffff00ffffff;
      Compose(0, b, b, b, 0, b, b, b);
    }
  }

  lemma Kept5(b: bv8)
    ensures AndWord(Repeated(b), Kept(5)) == Compose(b, 0, b, b, b, 0, b, b)
  {
    calc {
      AndWord(Repeated(b), Kept(5));
      AndWord(Compose(b, b, b, b, b, b, b, b), 0xff00ffffff00ffff);
      Compose(b, b, b, b, b, b, b, b) & 0xff00ffffff00ffff;
      Compose(b, 0, b, b, b, 0, b, b);
    }
  }

  lemma Kept6(b: bv8)
    ensures AndWord(Repeated(b), Kept(6)) == Compose(b, b, 0, b, b, b, 0, b)
  {
    calc {
      AndWord(Repeated(b), Kept(6));
      AndWord(Compose(b, b, b, b, b, b, b, b), 0xffff00ffffff00ff);
      Compose(b, b, b, b, b, b, b, b) & 0xffff00ffffff00ff;
      Compose(b, b, 0, b, b, b, 0, b);
    }
  }

  lemma Kept7(b: bv8)
    ensures AndWord(Repeated(b), Kept(7)) == Compose(b, b, b, 0, b, b, b, 0)
  {
    calc {
      AndWord(Repeated(b), Kept(7));
      AndWord(Compose(b, b, b, b, b, b, b, b), 0xffffff00ffffff00);
      Compose(b, b, b, b, b, b, b, b) & 0xffffff00ffffff00;
      Compose(b, b, b, 0, b, b, b, 0);
    }
  }

  lemma KeptByte0(b: bv8, j: nat)
    requires j < 8
    ensures WordByte(AndWord(Repeated(b), Kept(0)), j) == if Selects(j, 0) then b else 0
  {
    hide AndWord, Repeated, Kept, StoreWord, Compose;
    Kept0(b);
    StoreLoadWord([b, b, b, 0, b, 0, 0, b]);
  }

  lemma KeptByte1(b: bv8, j: nat)
    requires j < 8
    ensures WordByte(AndWord(Repeated(b), Kept(1)), j) == if Selects(j, 1) then b else 0
  {
    hide AndWord, Repeated, Kept, StoreWord, Compose;
    Kept1(b);
    StoreLoadWord([0, b, b, b, b, b, 0, 0]);
  }

  lemma KeptByte2(b: bv8, j: nat)
    requires j < 8
    ensures WordByte(AndWord(Repeated(b), Kept(2)), j) == if Selects(j, 2) then b else 0
  {
    hide AndWord, Repeated, Kept, StoreWord, Compose;
    Kept2(b);
    StoreLoadWord([b, 0, b, b, 0, b, b, 0]);
  }

  lemma KeptByte3(b: bv8, j: nat)
    requires j < 8
    ensures WordByte(AndWord(Repeated(b), Kept(3)), j) == if Selects(j, 3) then b else 0
  {
    hide AndWord, Repeated, Kept, StoreWord, Compose;
    Kept3(b);
    StoreLoadWord([b, b, 0, b, 0, 0, b, b]);
  }

  lemma KeptByte4(b: bv8, j: nat)
    requires j < 8
    ensures WordByte(AndWord(Repeated(b), Kept(4)), j) == if Selects(j, 4) then b else 0
  {
    hide AndWord, Repeated, Kept, StoreWord, Compose;
    Kept4(b);
    StoreLoadWord([0, b, b, b, 0, b, b, b]);
  }

  lemma KeptByte5(b: bv8, j: nat)
    requires j < 8
    ensures WordByte(AndWord(Repeated(b), Kept(5)), j) == if Selects(j, 5) then b else 0
  {
    hide AndWord, Repeated, Kept, StoreWord, Compose;
    Kept5(b);
    StoreLoadWord([b, 0, b, b, b, 0, b, b]);
  }

  lemma KeptByte6(b: bv8, j: nat)
    requires j < 8
    ensures WordByte(AndWord(Repeated(b), Kept(6)), j) == if Selects(j, 6) then b else 0
  {
    hide AndWord, Repeated, Kept, StoreWord, Compose;
    Kept6(b);
    StoreLoadWord([b, b, 0, b, b, b, 0, b]);
  }

  lemma KeptByte7(b: bv8, j: nat)
    requires j < 8
    ensures WordByte(AndWord(Repeated(b), Kept(7)), j) == if Selects(j, 7) then b else 0
  {
    hide AndWord, Repeated, Kept, StoreWord, Compose;
    Kept7(b);
    StoreLoadWord([b, b, b, 0, b, b, b, 0]);
  }

  lemma KeptByte(n: nat, b: bv8, j: nat)
    requires n < 8 && j < 8
    ensures WordByte(AndWord(Repeated(b), Kept(n)), j) == if Selects(j, n) then b else 0
  {
    hide *;
    match n {
      case 0 =>
        KeptByte0(b, j);
      case 1 =>
        KeptByte1(b, j);
      case 2 =>
        KeptByte2(b, j);
      case 3 =>
        KeptByte3(b, j);
      case 4 =>
        KeptByte4(b, j);
      case 5 =>
        KeptByte5(b, j);
      case 6 =>
        KeptByte6(b, j);
      case _ =>
        KeptByte7(b, j);
    }
  }

  /** The tables of the source spread SBOX1, SBOX2, SBOX3, SBOX4, SBOX2, SBOX3, SBOX4 and SBOX1 over the rows of P. */
  lemma SourceSpreads()
    ensures Spreads(SOURCE, (n: nat, v: bv8) => Box(Chosen(n), v))
  {
    hide *;
    forall n: nat, v: bv8, j: nat | n < 8 && j < 8
      ensures WordByte(SOURCE(n, ByteValue(v)), j) == if Selects(j, n) then Box(Chosen(n), v) else 0
    {
      SourceIs(n, v);
      KeptByte(n, Box(Chosen(n), v), j);
    }
    SpreadsIs(SOURCE, (n: nat, v: bv8) => Box(Chosen(n), v));
  }

  lemma SpreadsIs(s: Tables, box: (nat, bv8) -> bv8)
    requires forall n: nat, v: bv8, j: nat :: n < 8 && j < 8 ==>
      WordByte(s(n, ByteValue(v)), j) == if Selects(j, n) then box(n, v) else 0
    ensures Spreads(s, box)
  {
    hide WordByte, Selects, ByteValue;
  }

  lemma SourceIs(n: nat, v: bv8)
    ensures SOURCE(n, ByteValue(v)) == AndWord(Repeated(Box(Chosen(n), v)), Kept(n))
  {
    hide AndWord, Repeated, Kept, Box, Chosen, ToByte, ByteValue;
    ByteBack(v, 0);
  }
}
