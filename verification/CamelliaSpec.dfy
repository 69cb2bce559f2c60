/** Camellia on values (RFC 3713; impl/block/camellia/camellia.cc), for any tables of the S-function. */
module CamelliaSpec {
  import Bits
  import opened Words

  type Word = bv64

  /** The tables: entry b of table n. */
  type Tables = (nat, nat) -> Word

  /** Byte n of a word, the least significant one first. */
  function GetByte(x: Word, n: nat): (b: nat)
    requires n < 8
    ensures b < 256
  {
    match n
    case 0 => (x & 0xff) as nat
    case 1 => ((x >> 8) & 0xff) as nat
    case 2 => ((x >> 16) & 0xff) as nat
    case 3 => ((x >> 24) & 0xff) as nat
    case 4 => ((x >> 32) & 0xff) as nat
    case 5 => ((x >> 40) & 0xff) as nat
    case 6 => ((x >> 48) & 0xff) as nat
    case _ => ((x >> 56) & 0xff) as nat
  }

  /** spfunc. */
  function SP(s: Tables, x: Word): Word {
    var a := XorWord(XorWord(s(0, GetByte(x, 7)), s(1, GetByte(x, 6))), s(2, GetByte(x, 5)));
    var b := XorWord(XorWord(a, s(3, GetByte(x, 4))), s(4, GetByte(x, 3)));
    XorWord(XorWord(XorWord(b, s(5, GetByte(x, 2))), s(6, GetByte(x, 1))), s(7, GetByte(x, 0)))
  }

  function F(s: Tables, x: Word, k: Word): Word { SP(s, XorWord(x, k)) }

  // ---------------------------------------------------------------- FL and its inverse

  function High(x: Word): bv32 { (x >> 32) as bv32 }
  function Lower(x: Word): bv32 { (x & 0xffffffff) as bv32 }
  function Join(h: bv32, l: bv32): Word { ((h as bv64) << 32) | (l as bv64) }

  /** The left half under the key, rotated by one. */
  function Turned(x: bv32, k: bv32): bv32 { ((x & k) << 1) | ((x & k) >> 31) }

  function FL(x: Word, k: Word): Word {
    var yr := Bits.Xor(Turned(High(x), High(k)), Lower(x));
    Join(Bits.Xor(Bits.Or(yr, Lower(k)), High(x)), yr)
  }

  function FLInv(y: Word, k: Word): Word {
    var xl := Bits.Xor(Bits.Or(Lower(y), Lower(k)), High(y));
    Join(xl, Bits.Xor(Turned(xl, High(k)), Lower(y)))
  }

  lemma JoinParts(h: bv32, l: bv32)
    ensures High(Join(h, l)) == h && Lower(Join(h, l)) == l
  {
    calc {
      High(Join(h, l));
      ((((h as bv64) << 32) | (l as bv64)) >> 32) as bv32;
      h;
    }
    calc {
      Lower(Join(h, l));
      ((((h as bv64) << 32) | (l as bv64)) & 0xffffffff) as bv32;
      l;
    }
  }

  lemma PartsJoin(x: Word)
    ensures Join(High(x), Lower(x)) == x
  {
    calc {
      Join(High(x), Lower(x));
      Join((x >> 32) as bv32, (x & 0xffffffff) as bv32);
      (((x >> 32) as bv32 as bv64) << 32) | ((x & 0xffffffff) as bv32 as bv64);
      x;
    }
  }

  lemma Xor32Twice(a: bv32, b: bv32)
    ensures Bits.Xor(a, Bits.Xor(a, b)) == b
  {
    calc {
      Bits.Xor(a, Bits.Xor(a, b));
      Bits.Xor(a, a ^ b);
      b;
    }
  }

  lemma FLInverse(x: Word, k: Word)
    ensures FLInv(FL(x, k), k) == x && FL(FLInv(x, k), k) == x
  {
    hide High, Lower, Join, Bits.Xor, Bits.Or, Turned;
    var xl, xr, kl, kr := High(x), Lower(x), High(k), Lower(k);
    var yr := Bits.Xor(Turned(xl, kl), xr);
    JoinParts(Bits.Xor(Bits.Or(yr, kr), xl), yr);
    Xor32Twice(Bits.Or(yr, kr), xl);
    Xor32Twice(Turned(xl, kl), xr);
    var zl := Bits.Xor(Bits.Or(xr, kr), xl);
    JoinParts(zl, Bits.Xor(Turned(zl, kl), xr));
    Xor32Twice(Turned(zl, kl), xr);
    Xor32Twice(Bits.Or(xr, kr), xl);
    PartsJoin(x);
  }

  // ---------------------------------------------------------------- rounds

  /** The keys of a context: kw, ku and kl. */
  datatype Keys = Keys(kw: seq<Word>, ku: seq<Word>, kl: seq<Word>)

  predicate Enough(k: Keys, g: nat) {
    |k.kw| == 4 && 6 * g + 6 <= |k.ku| && 2 * g <= |k.kl|
  }

  function Swap(p: Block): Block { Block(p.lo, p.hi) }

  /** EncryptPair. */
  function Pair(s: Tables, p: Block, k0: Word, k1: Word): Block {
    var y := XorWord(p.lo, F(s, p.hi, k0));
    Block(XorWord(p.hi, F(s, y, k1)), y)
  }

  lemma XorWordTwice(a: Word, b: Word)
    ensures XorWord(XorWord(a, b), b) == a
  {
    hide XorWord;
    XorWordAssoc(a, b, b);
    XorWordUnit(b);
    XorWordUnit(a);
  }

  /** A pair of rounds with the halves and the keys exchanged undoes the pair. */
  lemma PairInverse(s: Tables, p: Block, k0: Word, k1: Word)
    ensures Pair(s, Swap(Pair(s, p, k0, k1)), k1, k0) == Swap(p)
  {
    hide XorWord, F;
    var q := Pair(s, p, k0, k1);
    XorWordTwice(p.hi, F(s, q.lo, k1));
    XorWordTwice(p.lo, F(s, p.hi, k0));
  }

  /** Six rounds. */
  function Six(s: Tables, p: Block, ku: seq<Word>, n: nat): Block
    requires n + 6 <= |ku|
  {
    Pair(s, Pair(s, Pair(s, p, ku[n], ku[n + 1]), ku[n + 2], ku[n + 3]), ku[n + 4], ku[n + 5])
  }

  /** Six rounds backwards. */
  function SixBack(s: Tables, p: Block, ku: seq<Word>, n: nat): Block
    requires n + 6 <= |ku|
  {
    Pair(s, Pair(s, Pair(s, p, ku[n + 5], ku[n + 4]), ku[n + 3], ku[n + 2]), ku[n + 1], ku[n])
  }

  lemma SixInverse(s: Tables, p: Block, ku: seq<Word>, n: nat)
    requires n + 6 <= |ku|
    ensures SixBack(s, Swap(Six(s, p, ku, n)), ku, n) == Swap(p)
  {
    hide Pair, Swap;
    var q := Pair(s, p, ku[n], ku[n + 1]);
    var r := Pair(s, q, ku[n + 2], ku[n + 3]);
    PairInverse(s, r, ku[n + 4], ku[n + 5]);
    PairInverse(s, q, ku[n + 2], ku[n + 3]);
    PairInverse(s, p, ku[n], ku[n + 1]);
  }

  /** The layer between six rounds and the next. */
  function Layer(p: Block, k0: Word, k1: Word): Block { Block(FL(p.hi, k0), FLInv(p.lo, k1)) }

  lemma LayerInverse(p: Block, k0: Word, k1: Word)
    ensures Layer(Swap(Layer(p, k0, k1)), k1, k0) == Swap(p)
  {
    hide FL, FLInv;
    FLInverse(p.hi, k0);
    FLInverse(p.lo, k1);
  }

  /** Six rounds, then g times a layer and six more. */
  function Groups(s: Tables, p: Block, k: Keys, g: nat): Block
    requires Enough(k, g)
  {
    if g == 0 then Six(s, p, k.ku, 0)
    else Six(s, Layer(Groups(s, p, k, g - 1), k.kl[2 * g - 2], k.kl[2 * g - 1]), k.ku, 6 * g)
  }

  function GroupsBack(s: Tables, p: Block, k: Keys, g: nat): Block
    requires Enough(k, g)
    decreases g
  {
    var q := SixBack(s, p, k.ku, 6 * g);
    if g == 0 then q else GroupsBack(s, Layer(q, k.kl[2 * g - 1], k.kl[2 * g - 2]), k, g - 1)
  }

  lemma {:induction false} GroupsInverse(s: Tables, p: Block, k: Keys, g: nat)
    requires Enough(k, g)
    ensures GroupsBack(s, Swap(Groups(s, p, k, g)), k, g) == Swap(p)
  {
    hide Six, SixBack, Layer, Swap;
    if g == 0 {
      SixInverse(s, p, k.ku, 0);
    } else {
      var q := Groups(s, p, k, g - 1);
      SixInverse(s, Layer(q, k.kl[2 * g - 2], k.kl[2 * g - 1]), k.ku, 6 * g);
      LayerInverse(q, k.kl[2 * g - 2], k.kl[2 * g - 1]);
      GroupsInverse(s, p, k, g - 1);
    }
  }

  /** A block encrypted; g is 2 for keys of 128 bits and 3 for longer ones. */
  function Sealed(s: Tables, p: Block, k: Keys, g: nat): Block
    requires Enough(k, g)
  {
    var q := Groups(s, Block(XorWord(p.hi, k.kw[0]), XorWord(p.lo, k.kw[1])), k, g);
    Block(XorWord(q.lo, k.kw[2]), XorWord(q.hi, k.kw[3]))
  }

  function Opened(s: Tables, p: Block, k: Keys, g: nat): Block
    requires Enough(k, g)
  {
    var q := GroupsBack(s, Block(XorWord(p.hi, k.kw[2]), XorWord(p.lo, k.kw[3])), k, g);
    Block(XorWord(q.lo, k.kw[0]), XorWord(q.hi, k.kw[1]))
  }

  /** Decryption undoes encryption, for any keys and tables. */
  lemma SealedOpens(s: Tables, p: Block, k: Keys, g: nat)
    requires Enough(k, g)
    ensures Opened(s, Sealed(s, p, k, g), k, g) == p
  {
    hide Groups, GroupsBack, XorWord;
    var w := Block(XorWord(p.hi, k.kw[0]), XorWord(p.lo, k.kw[1]));
    var q := Groups(s, w, k, g);
    XorWordTwice(q.lo, k.kw[2]);
    XorWordTwice(q.hi, k.kw[3]);
    GroupsInverse(s, w, k, g);
    XorWordTwice(p.hi, k.kw[0]);
    XorWordTwice(p.lo, k.kw[1]);
  }

  // ---------------------------------------------------------------- rotation of a pair

  /** One word of rolpair: x shifted left by n, with the top bits of y. */
  function Up(x: Word, y: Word, n: nat): Word
    requires n < 64
  {
    (x << n) | (y >> (64 - n))
  }

  /** rolpair, by n below 64 bits. */
  function RolPair(p: Block, n: nat): Block
    requires n < 64
  {
    Block(Up(p.hi, p.lo, n), Up(p.lo, p.hi, n))
  }

  /** n rotations of the pair, as one number, to the left by one bit. */
  function Left(p: Block, n: nat): Block {
    if n == 0 then p else RolPair(Left(p, n - 1), 1)
  }

  lemma {:induction false} LeftAdd(p: Block, m: nat, n: nat, k: nat)
    requires k == m + n
    ensures Left(Left(p, m), n) == Left(p, k)
  {
    hide RolPair;
    if n > 0 {
      LeftAdd(p, m, n - 1, k - 1);
    }
  }

  lemma Up1Then1(x: Word, y: Word)
    ensures Up(Up(x, y, 1), Up(y, x, 1), 1) == Up(x, y, 2)
  {
    calc {
      Up(Up(x, y, 1), Up(y, x, 1), 1);
      Up((x << 1) | (y >> 63), Up(y, x, 1), 1);
      Up((x << 1) | (y >> 63), (y << 1) | (x >> 63), 1);
      (((x << 1) | (y >> 63)) << 1) | (((y << 1) | (x >> 63)) >> 63);
      (x << 2) | (y >> 62);
      Up(x, y, 2);
    }
  }

  lemma Up2Then1(x: Word, y: Word)
    ensures Up(Up(x, y, 2), Up(y, x, 2), 1) == Up(x, y, 3)
  {
    calc {
      Up(Up(x, y, 2), Up(y, x, 2), 1);
      Up((x << 2) | (y >> 62), Up(y, x, 2), 1);
      Up((x << 2) | (y >> 62), (y << 2) | (x >> 62), 1);
      (((x << 2) | (y >> 62)) << 1) | (((y << 2) | (x >> 62)) >> 63);
      (x << 3) | (y >> 61);
      Up(x, y, 3);
    }
  }

  lemma Up2Then2(x: Word, y: Word)
    ensures Up(Up(x, y, 2), Up(y, x, 2), 2) == Up(x, y, 4)
  {
    calc {
      Up(Up(x, y, 2), Up(y, x, 2), 2);
      Up((x << 2) | (y >> 62), Up(y, x, 2), 2);
      Up((x << 2) | (y >> 62), (y << 2) | (x >> 62), 2);
      (((x << 2) | (y >> 62)) << 2) | (((y << 2) | (x >> 62)) >> 62);
      (x << 4) | (y >> 60);
      Up(x, y, 4);
    }
  }

  lemma Up3Then2(x: Word, y: Word)
    ensures Up(Up(x, y, 3), Up(y, x, 3), 2) == Up(x, y, 5)
  {
    calc {
      Up(Up(x, y, 3), Up(y, x, 3), 2);
      Up((x << 3) | (y >> 61), Up(y, x, 3), 2);
      Up((x << 3) | (y >> 61), (y << 3) | (x >> 61), 2);
      (((x << 3) | (y >> 61)) << 2) | (((y << 3) | (x >> 61)) >> 62);
      (x << 5) | (y >> 59);
      Up(x, y, 5);
    }
  }

  lemma Up5Then5(x: Word, y: Word)
    ensures Up(Up(x, y, 5), Up(y, x, 5), 5) == Up(x, y, 10)
  {
    calc {
      Up(Up(x, y, 5), Up(y, x, 5), 5);
      Up((x << 5) | (y >> 59), Up(y, x, 5), 5);
      Up((x << 5) | (y >> 59), (y << 5) | (x >> 59), 5);
      (((x << 5) | (y >> 59)) << 5) | (((y << 5) | (x >> 59)) >> 59);
      (x << 10) | (y >> 54);
      Up(x, y, 10);
    }
  }

  lemma Up10Then3(x: Word, y: Word)
    ensures Up(Up(x, y, 10), Up(y, x, 10), 3) == Up(x, y, 13)
  {
    calc {
      Up(Up(x, y, 10), Up(y, x, 10), 3);
      Up((x << 10) | (y >> 54), Up(y, x, 10), 3);
      Up((x << 10) | (y >> 54), (y << 10) | (x >> 54), 3);
      (((x << 10) | (y >> 54)) << 3) | (((y << 10) | (x >> 54)) >> 61);
      (x << 13) | (y >> 51);
      Up(x, y, 13);
    }
  }

  lemma Up13Then2(x: Word, y: Word)
    ensures Up(Up(x, y, 13), Up(y, x, 13), 2) == Up(x, y, 15)
  {
    calc {
      Up(Up(x, y, 13), Up(y, x, 13), 2);
      Up((x << 13) | (y >> 51), Up(y, x, 13), 2);
      Up((x << 13) | (y >> 51), (y << 13) | (x >> 51), 2);
      (((x << 13) | (y >> 51)) << 2) | (((y << 13) | (x >> 51)) >> 62);
      (x << 15) | (y >> 49);
      Up(x, y, 15);
    }
  }

  lemma Up15Then15(x: Word, y: Word)
    ensures Up(Up(x, y, 15), Up(y, x, 15), 15) == Up(x, y, 30)
  {
    calc {
      Up(Up(x, y, 15), Up(y, x, 15), 15);
      Up((x << 15) | (y >> 49), Up(y, x, 15), 15);
      Up((x << 15) | (y >> 49), (y << 15) | (x >> 49), 15);
      (((x << 15) | (y >> 49)) << 15) | (((y << 15) | (x >> 49)) >> 49);
      (x << 30) | (y >> 34);
      Up(x, y, 30);
    }
  }

  lemma Up30Then15(x: Word, y: Word)
    ensures Up(Up(x, y, 30), Up(y, x, 30), 15) == Up(x, y, 45)
  {
    calc {
      Up(Up(x, y, 30), Up(y, x, 30), 15);
      Up((x << 30) | (y >> 34), Up(y, x, 30), 15);
      Up((x << 30) | (y >> 34), (y << 30) | (x >> 34), 15);
      (((x << 30) | (y >> 34)) << 15) | (((y << 30) | (x >> 34)) >> 49);
      (x << 45) | (y >> 19);
      Up(x, y, 45);
    }
  }

  lemma Up45Then2(x: Word, y: Word)
    ensures Up(Up(x, y, 45), Up(y, x, 45), 2) == Up(x, y, 47)
  {
    calc {
      Up(Up(x, y, 45), Up(y, x, 45), 2);
      Up((x << 45) | (y >> 19), Up(y, x, 45), 2);
      Up((x << 45) | (y >> 19), (y << 45) | (x >> 19), 2);
      (((x << 45) | (y >> 19)) << 2) | (((y << 45) | (x >> 19)) >> 62);
      (x << 47) | (y >> 17);
      Up(x, y, 47);
    }
  }

  lemma Up30Then30(x: Word, y: Word)
    ensures Up(Up(x, y, 30), Up(y, x, 30), 30) == Up(x, y, 60)
  {
    calc {
      Up(Up(x, y, 30), Up(y, x, 30), 30);
      Up((x << 30) | (y >> 34), Up(y, x, 30), 30);
      Up((x << 30) | (y >> 34), (y << 30) | (x >> 34), 30);
      (((x << 30) | (y >> 34)) << 30) | (((y << 30) | (x >> 34)) >> 34);
      (x << 60) | (y >> 4);
      Up(x, y, 60);
    }
  }

  lemma Up60Then4(x: Word, y: Word)
    ensures Up(Up(x, y, 60), Up(y, x, 60), 4) == y
  {
    calc {
      Up(Up(x, y, 60), Up(y, x, 60), 4);
      Up((x << 60) | (y >> 4), Up(y, x, 60), 4);
      Up((x << 60) | (y >> 4), (y << 60) | (x >> 4), 4);
      (((x << 60) | (y >> 4)) << 4) | (((y << 60) | (x >> 4)) >> 60);
      y;
    }
  }

  /** Two amounts that are rotations, one after the other. */
  lemma Chain(p: Block, m: nat, n: nat, k: nat)
    requires k == m + n < 64
    requires RolPair(p, m) == Left(p, m) && RolPair(Left(p, m), n) == Left(Left(p, m), n)
    requires Up(Up(p.hi, p.lo, m), Up(p.lo, p.hi, m), n) == Up(p.hi, p.lo, k)
    requires Up(Up(p.lo, p.hi, m), Up(p.hi, p.lo, m), n) == Up(p.lo, p.hi, k)
    ensures RolPair(p, k) == Left(p, k)
  {
    hide Up, Left;
    LeftAdd(p, m, n, k);
  }

  lemma One(p: Block)
    ensures RolPair(p, 1) == Left(p, 1)
  {
    hide RolPair;
    assert Left(p, 0) == p;
  }

  lemma By2(p: Block)
    ensures RolPair(p, 2) == Left(p, 2)
  {
    hide *;
    One(p);
    One(Left(p, 1));
    Up1Then1(p.hi, p.lo);
    Up1Then1(p.lo, p.hi);
    Chain(p, 1, 1, 2);
  }

  lemma By3(p: Block)
    ensures RolPair(p, 3) == Left(p, 3)
  {
    hide *;
    By2(p);
    One(Left(p, 2));
    Up2Then1(p.hi, p.lo);
    Up2Then1(p.lo, p.hi);
    Chain(p, 2, 1, 3);
  }

  lemma By4(p: Block)
    ensures RolPair(p, 4) == Left(p, 4)
  {
    hide *;
    By2(p);
    By2(Left(p, 2));
    Up2Then2(p.hi, p.lo);
    Up2Then2(p.lo, p.hi);
    Chain(p, 2, 2, 4);
  }

  lemma By5(p: Block)
    ensures RolPair(p, 5) == Left(p, 5)
  {
    hide *;
    By3(p);
    By2(Left(p, 3));
    Up3Then2(p.hi, p.lo);
    Up3Then2(p.lo, p.hi);
    Chain(p, 3, 2, 5);
  }

  lemma By10(p: Block)
    ensures RolPair(p, 10) == Left(p, 10)
  {
    hide *;
    By5(p);
    By5(Left(p, 5));
    Up5Then5(p.hi, p.lo);
    Up5Then5(p.lo, p.hi);
    Chain(p, 5, 5, 10);
  }

  lemma By13(p: Block)
    ensures RolPair(p, 13) == Left(p, 13)
  {
    hide *;
    By10(p);
    By3(Left(p, 10));
    Up10Then3(p.hi, p.lo);
    Up10Then3(p.lo, p.hi);
    Chain(p, 10, 3, 13);
  }

  lemma By15(p: Block)
    ensures RolPair(p, 15) == Left(p, 15)
  {
    hide *;
    By13(p);
    By2(Left(p, 13));
    Up13Then2(p.hi, p.lo);
    Up13Then2(p.lo, p.hi);
    Chain(p, 13, 2, 15);
  }

  lemma By30(p: Block)
    ensures RolPair(p, 30) == Left(p, 30)
  {
    hide *;
    By15(p);
    By15(Left(p, 15));
    Up15Then15(p.hi, p.lo);
    Up15Then15(p.lo, p.hi);
    Chain(p, 15, 15, 30);
  }

  lemma By45(p: Block)
    ensures RolPair(p, 45) == Left(p, 45)
  {
    hide *;
    By30(p);
    By15(Left(p, 30));
    Up30Then15(p.hi, p.lo);
    Up30Then15(p.lo, p.hi);
    Chain(p, 30, 15, 45);
  }

  lemma By47(p: Block)
    ensures RolPair(p, 47) == Left(p, 47)
  {
    hide *;
    By45(p);
    By2(Left(p, 45));
    Up45Then2(p.hi, p.lo);
    Up45Then2(p.lo, p.hi);
    Chain(p, 45, 2, 47);
  }

  lemma By60(p: Block)
    ensures RolPair(p, 60) == Left(p, 60)
  {
    hide *;
    By30(p);
    By30(Left(p, 30));
    Up30Then30(p.hi, p.lo);
    Up30Then30(p.lo, p.hi);
    Chain(p, 30, 30, 60);
  }

  /** Rotation by 64 bits exchanges the halves. */
  lemma By64(p: Block)
    ensures Left(p, 64) == Swap(p)
  {
    hide Up, Left;
    By60(p);
    By4(Left(p, 60));
    Up60Then4(p.hi, p.lo);
    Up60Then4(p.lo, p.hi);
    LeftAdd(p, 60, 4, 64);
  }

  /** Rotation by more than 64 bits: the halves exchanged, and 64 bits less. */
  lemma ByMore(p: Block, n: nat, k: nat)
    requires k == 64 + n && n < 64 && RolPair(Swap(p), n) == Left(Swap(p), n)
    ensures RolPair(Swap(p), n) == Left(p, k)
  {
    hide *;
    By64(p);
    LeftAdd(p, 64, n, k);
  }

  // ---------------------------------------------------------------- the key schedule (section 2.2 of RFC 3713)

  const SIGMA1: Word := 0xa09e667f3bcc908b
  const SIGMA2: Word := 0xb67ae8584caa73b2
  const SIGMA3: Word := 0xc6ef372fe94f82be
  const SIGMA4: Word := 0x54ff53a5f1d36f1c
  const SIGMA5: Word := 0x10e527fade682d1d
  const SIGMA6: Word := 0xb05688c2b3e6c1fd

  /** KA, from KL and KR. */
  function KA(s: Tables, kl: Block, kr: Block): Block {
    var p := Pair(s, Xor(kl, kr), SIGMA1, SIGMA2);
    Pair(s, Xor(p, kl), SIGMA3, SIGMA4)
  }

  /** KB, from KA and KR. */
  function KB(s: Tables, ka: Block, kr: Block): Block {
    Pair(s, Xor(ka, kr), SIGMA5, SIGMA6)
  }

  /** The halves of blocks, one after the other. */
  function Halves(b: seq<Block>): seq<Word> {
    if b == [] then [] else Halves(b[..|b| - 1]) + [b[|b| - 1].hi, b[|b| - 1].lo]
  }

  lemma {:induction false} HalvesLength(b: seq<Block>)
    ensures |Halves(b)| == 2 * |b|
  {
    if b != [] {
      HalvesLength(b[..|b| - 1]);
    }
  }

  /** The subkeys of a 128-bit key: two key words of the whitening, eighteen of the rounds, four of the layers. */
  predicate Schedule128(k: Keys, kl: Block, ka: Block) {
    && |k.kw| == 4 && |k.ku| == 24 && |k.kl| == 6
    && k.kw == Halves([kl, Left(ka, 111)])
    && k.ku[..18] == Halves([ka, Left(kl, 15), Left(ka, 15), Left(kl, 45),
                             Block(Left(ka, 45).hi, Left(kl, 60).lo), Left(ka, 60),
                             Left(kl, 94), Left(ka, 94), Left(kl, 111)])
    && k.kl[..4] == Halves([Left(ka, 30), Left(kl, 77)])
  }

  /** The subkeys of a longer key. */
  predicate Schedule256(k: Keys, kl: Block, kr: Block, ka: Block, kb: Block) {
    && |k.kw| == 4 && |k.ku| == 24 && |k.kl| == 6
    && k.kw == Halves([kl, Left(kb, 111)])
    && k.ku == Halves([kb, Left(kr, 15), Left(ka, 15), Left(kb, 30),
                       Left(kl, 45), Left(ka, 45), Left(kr, 60), Left(kb, 60),
                       Left(kl, 77), Left(kr, 94), Left(ka, 94), Left(kl, 111)])
    && k.kl == Halves([Left(kr, 30), Left(kl, 60), Left(ka, 77)])
  }

  function Not(w: Word): Word { !w }
}
