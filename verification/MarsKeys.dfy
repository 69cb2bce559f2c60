/** The key expansion of MARS on values (impl/block/mars/mars.cc). */
module MarsKeys {
  import opened Bits
  import opened Counter
  import opened MarsSpec
  import opened Numbers
  import opened Rotates
  import MarsBits

  // ---------------------------------------------------------------- multiplication keys

  /** The four words whose rotations break the runs. */
  function Pattern(j: nat): Word {
    if j == 0 then 0xa4a8d57b else if j == 1 then 0x5b5d193b else if j == 2 then 0xc8a8309b else 0x73f9a978
  }

  function Low2(w: Word): (r: nat)
    ensures r < 4
  {
    (w & 0x3) as nat
  }

  /** A key word with its low bits set, and the pattern that may be added to it. */
  function Raised(w: Word): Word { Or(w, 3) }

  function Breaker(w: Word, before: Word): Word { RotateLeft(Pattern(Low2(w)), Low5(before)) }

  /** The multiplication key made of a key word and the one before it. */
  function Multiplier(w: Word, before: Word): Word {
    Xor(Raised(w), And(Breaker(w, before), MarsBits.Mask(Raised(w))))
  }

  /** Every bit of a multiplication key: the raised word, changed by the pattern exactly inside its runs of ten. */
  lemma MultiplierBit(w: Word, before: Word, k: nat)
    requires k < 32
    ensures Bit(Multiplier(w, before), k)
         == (Bit(Raised(w), k) != (MarsBits.InsideRun(Raised(w), k) && Bit(Breaker(w, before), k)))
  {
    hide Xor, And, Bit, MarsBits.Mask, MarsBits.InsideRun, Raised, Breaker;
    var r, p := Raised(w), Breaker(w, before);
    BitXor(r, And(p, MarsBits.Mask(r)), k);
    BitAnd(p, MarsBits.Mask(r), k);
    MarsBits.MaskBit(r, k);
  }

  /** Every multiplication key ends in binary 11. */
  lemma MultiplierEnds(w: Word, before: Word)
    ensures Bit(Multiplier(w, before), 0) && Bit(Multiplier(w, before), 1)
  {
    hide Bit, Or, Ones, MarsBits.Run, Multiplier, Breaker;
    MultiplierBit(w, before, 0);
    MultiplierBit(w, before, 1);
    BitOr(w, 3, 0);
    BitOr(w, 3, 1);
    OnesAre();
    BitOnes(2, 0);
    BitOnes(2, 1);
  }

  // ---------------------------------------------------------------- expansion

  type State = t: seq<Word> | |t| == 15 witness seq(15, i => 0)

  function Wrap(i: nat): (k: nat)
    ensures k < 15
  {
    i % 15
  }

  function Mixed(t: State, j: nat, i: nat): Word
    requires i < 15 && j < 4
  {
    Xor(t[i], Xor(RotateLeft(Xor(t[Wrap(i + 8)], t[Wrap(i + 13)]), 3), (4 * i + j) as Word))
  }

  /** The linear transformation of pass j, on words 0 to i - 1. */
  function Linear(t: State, j: nat, i: nat): State
    requires i <= 15 && j < 4
  {
    if i == 0 then t
    else
      var u := Linear(t, j, i - 1);
      u[i - 1 := Mixed(u, j, i - 1)]
  }

  function Stirred(s: Box, t: State, i: nat): Word
    requires i < 15
  {
    RotateLeft(Add(t[i], s[Low9(t[Wrap(i + 14)])]), 9)
  }

  /** One round of stirring, on words 0 to i - 1. */
  function Stir(s: Box, t: State, i: nat): State
    requires i <= 15
  {
    if i == 0 then t
    else
      var u := Stir(s, t, i - 1);
      u[i - 1 := Stirred(s, u, i - 1)]
  }

  function Stirs(s: Box, t: State, n: nat): State {
    if n == 0 then t else Stir(s, Stirs(s, t, n - 1), 15)
  }

  /** The words after j passes. */
  function Passes(s: Box, t: State, j: nat): State
    requires j <= 4
  {
    if j == 0 then t else Stirs(s, Linear(Passes(s, t, j - 1), j - 1, 15), 4)
  }

  /** Key word n as it is stored first. */
  function Stored(s: Box, t: State, n: nat): Word
    requires n < 40
  {
    Passes(s, t, n / 10 + 1)[Wrap(4 * (n % 10))]
  }

  /** The words of the key, then their number, then zeros. */
  function LoadedWord(words: seq<Word>, i: nat): Word
    requires |words| <= 14
  {
    if i < |words| then words[i] else if i == |words| then |words| as Word else 0
  }

  function Loaded(words: seq<Word>): State
    requires |words| <= 14
  {
    seq(15, i requires 0 <= i < 15 => LoadedWord(words, i))
  }

  /** Key word n in the end: every other one from 5 to 35 is a multiplication key. */
  function Expanded(s: Box, t: State, n: nat): Word
    requires n < 40
  {
    if 5 <= n < 36 && n % 2 == 1 then Multiplier(Stored(s, t, n), Stored(s, t, n - 1)) else Stored(s, t, n)
  }
}
