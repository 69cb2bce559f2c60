/** MARS on values (impl/block/mars/mars.cc), for any substitution box of 512 words. */
module MarsSpec {
  import opened Bits
  import opened Counter
  import opened Numbers
  import opened Quads
  import opened Rotates

  lemma AddSub(a: Word, b: Word)
    ensures Sub(Add(a, b), b) == a && Add(Sub(a, b), b) == a
  {
    calc {
      Sub(Add(a, b), b);
      Sub(a + b, b);
      a;
    }
    calc {
      Add(Sub(a, b), b);
      Add(a - b, b);
      a;
    }
  }

  /** Byte n of a word, as an index. */
  function GetByte(w: Word, n: nat): (r: nat)
    requires n < 4
    ensures r < 256
  {
    match n
    case 0 => (w & 0xff) as nat
    case 1 => ((w >> 8) & 0xff) as nat
    case 2 => ((w >> 16) & 0xff) as nat
    case _ => ((w >> 24) & 0xff) as nat
  }

  /** The low n bits of a word, as an index or a rotation. */
  function Low9(w: Word): (r: nat)
    ensures r < 512
  {
    (w & 0x1ff) as nat
  }

  function Low5(w: Word): (r: nat)
    ensures r < 32
  {
    (w & 0x1f) as nat
  }

  type Box = s: seq<Word> | |s| == 512 witness seq(512, i => 0)

  // ---------------------------------------------------------------- steps on values

  /** The registers in the order of the next step. */
  function Turn(q: Quad): Quad { Quad(q.b, q.c, q.d, q.a) }
  function Unturn(q: Quad): Quad { Quad(q.d, q.a, q.b, q.c) }

  datatype Three = Three(l: Word, m: Word, r: Word)

  /** The expansion function e: a sum, a product and data-dependent rotations. */
  function E(s: Box, x: Word, k1: Word, k2: Word): Three {
    var m := Add(x, k1);
    var r := RotateLeft(Times(RotateLeft(x, 13), k2), 5);
    var l := Xor(s[Low9(m)], r);
    var r2 := RotateLeft(r, 5);
    Three(RotateLeft(Xor(l, r2), Low5(r2)), RotateLeft(m, Low5(r)), r2)
  }

  function ForwardMix(s: Box, q: Quad): Quad {
    Quad(RotateRight(q.a, 24),
         Add(Xor(q.b, s[GetByte(q.a, 0)]), s[256 + GetByte(q.a, 1)]),
         Add(q.c, s[GetByte(q.a, 2)]),
         Xor(q.d, s[256 + GetByte(q.a, 3)]))
  }

  function ReverseMix(s: Box, q: Quad): Quad {
    Quad(RotateLeft(q.a, 24),
         Xor(q.b, s[256 + GetByte(q.a, 0)]),
         Sub(q.c, s[GetByte(q.a, 3)]),
         Xor(Sub(q.d, s[256 + GetByte(q.a, 2)]), s[GetByte(q.a, 1)]))
  }

  /** The sums between the mixing steps: after steps 0 and 1 forward, before steps 2 and 3 backward. */
  function Added(q: Quad, i: nat): Quad {
    if i % 4 == 0 then q.(a := Add(q.a, q.d)) else if i % 4 == 1 then q.(a := Add(q.a, q.b)) else q
  }

  function Subtracted(q: Quad, i: nat): Quad {
    if i % 4 == 2 then q.(a := Sub(q.a, q.d)) else if i % 4 == 3 then q.(a := Sub(q.a, q.b)) else q
  }

  function ForwardStep(s: Box, q: Quad, i: nat): Quad { Turn(Added(ForwardMix(s, q), i)) }
  function ReverseStep(s: Box, q: Quad, i: nat): Quad { Turn(ReverseMix(s, Subtracted(q, i))) }

  /** A step of the core: the first eight in one direction, the other eight in the other. */
  function Core(s: Box, q: Quad, i: nat, k1: Word, k2: Word): Quad {
    var v := E(s, q.a, k1, k2);
    var a, c := RotateLeft(q.a, 13), Add(q.c, v.m);
    if i < 8 then Quad(a, Add(q.b, v.l), c, Xor(q.d, v.r)) else Quad(a, Xor(q.b, v.r), c, Add(q.d, v.l))
  }

  function CoreStep(s: Box, q: Quad, i: nat, k: seq<Word>): Quad
    requires 2 * i + 5 < |k|
  {
    Turn(Core(s, q, i, k[2 * i + 4], k[2 * i + 5]))
  }

  // The same steps undone.

  function Unadded(q: Quad, i: nat): Quad {
    if i % 4 == 0 then q.(a := Sub(q.a, q.d)) else if i % 4 == 1 then q.(a := Sub(q.a, q.b)) else q
  }

  function ForwardUnmix(s: Box, q: Quad): Quad {
    var a := RotateLeft(q.a, 24);
    Quad(a,
         Xor(Sub(q.b, s[256 + GetByte(a, 1)]), s[GetByte(a, 0)]),
         Sub(q.c, s[GetByte(a, 2)]),
         Xor(q.d, s[256 + GetByte(a, 3)]))
  }

  function ForwardUndo(s: Box, q: Quad, i: nat): Quad {
    ForwardUnmix(s, Unadded(Unturn(q), i))
  }

  function Unsubtracted(q: Quad, i: nat): Quad {
    if i % 4 == 2 then q.(a := Add(q.a, q.d)) else if i % 4 == 3 then q.(a := Add(q.a, q.b)) else q
  }

  function ReverseUnmix(s: Box, q: Quad): Quad {
    var a := RotateRight(q.a, 24);
    Quad(a,
         Xor(q.b, s[256 + GetByte(a, 0)]),
         Add(q.c, s[GetByte(a, 3)]),
         Add(Xor(q.d, s[GetByte(a, 1)]), s[256 + GetByte(a, 2)]))
  }

  function ReverseUndo(s: Box, q: Quad, i: nat): Quad {
    Unsubtracted(ReverseUnmix(s, Unturn(q)), i)
  }

  function CoreUndo(s: Box, q: Quad, i: nat, k: seq<Word>): Quad
    requires 2 * i + 5 < |k|
  {
    var t := Unturn(q);
    var a := RotateRight(t.a, 13);
    var v := E(s, a, k[2 * i + 4], k[2 * i + 5]);
    var c := Sub(t.c, v.m);
    if i < 8 then Quad(a, Sub(t.b, v.l), c, Xor(t.d, v.r)) else Quad(a, Xor(t.b, v.r), c, Sub(t.d, v.l))
  }

  lemma SumsInverse(q: Quad, i: nat)
    ensures Unadded(Added(q, i), i) == q && Unsubtracted(Subtracted(q, i), i) == q
  {
    hide Add, Sub;
    AddSub(q.a, q.d);
    AddSub(q.a, q.b);
  }

  lemma ForwardMixInverse(s: Box, q: Quad)
    ensures ForwardUnmix(s, ForwardMix(s, q)) == q
  {
    hide Add, Sub, Xor, RotateLeft, RotateRight, GetByte;
    var b0, b1, b2, b3 := s[GetByte(q.a, 0)], s[256 + GetByte(q.a, 1)], s[GetByte(q.a, 2)], s[256 + GetByte(q.a, 3)];
    Turn24(q.a);
    AddSub(Xor(q.b, b0), b1);
    XorTwice(q.b, b0);
    AddSub(q.c, b2);
    XorTwice(q.d, b3);
  }

  lemma ReverseMixInverse(s: Box, q: Quad)
    ensures ReverseUnmix(s, ReverseMix(s, q)) == q
  {
    hide Add, Sub, Xor, RotateLeft, RotateRight, GetByte;
    var b0, b1, b2, b3 := s[256 + GetByte(q.a, 0)], s[GetByte(q.a, 1)], s[256 + GetByte(q.a, 2)], s[GetByte(q.a, 3)];
    Turn24(q.a);
    XorTwice(q.b, b0);
    AddSub(q.c, b3);
    XorTwice(Sub(q.d, b2), b1);
    AddSub(q.d, b2);
  }

  lemma ForwardInverse(s: Box, q: Quad, i: nat)
    ensures ForwardUndo(s, ForwardStep(s, q, i), i) == q
  {
    hide ForwardMix, ForwardUnmix, Added, Unadded;
    SumsInverse(ForwardMix(s, q), i);
    ForwardMixInverse(s, q);
  }

  lemma ReverseInverse(s: Box, q: Quad, i: nat)
    ensures ReverseUndo(s, ReverseStep(s, q, i), i) == q
  {
    hide ReverseMix, ReverseUnmix, Subtracted, Unsubtracted;
    ReverseMixInverse(s, Subtracted(q, i));
    SumsInverse(q, i);
  }

  lemma CoreInverse(s: Box, q: Quad, i: nat, k: seq<Word>)
    requires 2 * i + 5 < |k|
    ensures CoreUndo(s, CoreStep(s, q, i, k), i, k) == q
  {
    hide Add, Sub, Xor, RotateLeft, RotateRight, E;
    var v := E(s, q.a, k[2 * i + 4], k[2 * i + 5]);
    Turn13(q.a);
    AddSub(q.c, v.m);
    AddSub(q.b, v.l);
    AddSub(q.d, v.l);
    XorTwice(q.b, v.r);
    XorTwice(q.d, v.r);
  }

  // ---------------------------------------------------------------- runs of steps

  /** The kinds of step, in the order of encryption. */
  datatype Phase = Forward | Middle | Reverse

  function Step(p: Phase, s: Box, q: Quad, i: nat, k: seq<Word>): Quad
    requires 2 * i + 5 < |k|
  {
    match p
    case Forward => ForwardStep(s, q, i)
    case Middle => CoreStep(s, q, i, k)
    case Reverse => ReverseStep(s, q, i)
  }

  function Undo(p: Phase, s: Box, q: Quad, i: nat, k: seq<Word>): Quad
    requires 2 * i + 5 < |k|
  {
    match p
    case Forward => ForwardUndo(s, q, i)
    case Middle => CoreUndo(s, q, i, k)
    case Reverse => ReverseUndo(s, q, i)
  }

  lemma StepInverse(p: Phase, s: Box, q: Quad, i: nat, k: seq<Word>)
    requires 2 * i + 5 < |k|
    ensures Undo(p, s, Step(p, s, q, i, k), i, k) == q
  {
    hide ForwardStep, ForwardUndo, CoreStep, CoreUndo, ReverseStep, ReverseUndo;
    ForwardInverse(s, q, i);
    CoreInverse(s, q, i, k);
    ReverseInverse(s, q, i);
  }

  function Steps(p: Phase, s: Box, q: Quad, n: nat, k: seq<Word>): Quad
    requires 2 * n + 3 < |k|
  {
    if n == 0 then q else Step(p, s, Steps(p, s, q, n - 1, k), n - 1, k)
  }

  function Undos(p: Phase, s: Box, q: Quad, n: nat, k: seq<Word>): Quad
    requires 2 * n + 3 < |k|
    decreases n
  {
    if n == 0 then q else Undos(p, s, Undo(p, s, q, n - 1, k), n - 1, k)
  }

  lemma {:induction false} StepsInverse(p: Phase, s: Box, q: Quad, n: nat, k: seq<Word>)
    requires 2 * n + 3 < |k|
    ensures Undos(p, s, Steps(p, s, q, n, k), n, k) == q
  {
    hide Step, Undo;
    if n > 0 {
      StepInverse(p, s, Steps(p, s, q, n - 1, k), n - 1, k);
      StepsInverse(p, s, q, n - 1, k);
    }
  }

  /** Key words i to i + 3 added to the registers, or subtracted. */
  function Whitened(q: Quad, k: seq<Word>, i: nat): Quad
    requires i + 4 <= |k|
  {
    Quad(Add(q.a, k[i]), Add(q.b, k[i + 1]), Add(q.c, k[i + 2]), Add(q.d, k[i + 3]))
  }

  function Unwhitened(q: Quad, k: seq<Word>, i: nat): Quad
    requires i + 4 <= |k|
  {
    Quad(Sub(q.a, k[i]), Sub(q.b, k[i + 1]), Sub(q.c, k[i + 2]), Sub(q.d, k[i + 3]))
  }

  lemma WhitenedInverse(q: Quad, k: seq<Word>, i: nat)
    requires i + 4 <= |k|
    ensures Unwhitened(Whitened(q, k, i), k, i) == q && Whitened(Unwhitened(q, k, i), k, i) == q
  {
    hide Add, Sub;
    AddSub(q.a, k[i]);
    AddSub(q.b, k[i + 1]);
    AddSub(q.c, k[i + 2]);
    AddSub(q.d, k[i + 3]);
  }

  function Sealed(s: Box, q: Quad, k: seq<Word>): Quad
    requires |k| == 40
  {
    var m := Steps(Middle, s, Steps(Forward, s, Whitened(q, k, 0), 8, k), 16, k);
    Unwhitened(Steps(Reverse, s, m, 8, k), k, 36)
  }

  function Opened(s: Box, q: Quad, k: seq<Word>): Quad
    requires |k| == 40
  {
    var m := Undos(Middle, s, Undos(Reverse, s, Whitened(q, k, 36), 8, k), 16, k);
    Unwhitened(Undos(Forward, s, m, 8, k), k, 0)
  }

  /** Decryption undoes encryption, for any expanded key. */
  lemma SealedOpens(s: Box, q: Quad, k: seq<Word>)
    requires |k| == 40
    ensures Opened(s, Sealed(s, q, k), k) == q
  {
    hide Steps, Undos, Whitened, Unwhitened;
    var w := Whitened(q, k, 0);
    var f := Steps(Forward, s, w, 8, k);
    var m := Steps(Middle, s, f, 16, k);
    var r := Steps(Reverse, s, m, 8, k);
    WhitenedInverse(r, k, 36);
    StepsInverse(Reverse, s, m, 8, k);
    StepsInverse(Middle, s, f, 16, k);
    StepsInverse(Forward, s, w, 8, k);
    WhitenedInverse(q, k, 0);
  }
}
