/** The mask that breaks long runs of equal bits in the multiplication keys of MARS (impl/block/mars/mars.cc). */
module MarsBits {
  import opened Bits

  // ---------------------------------------------------------------- the mask

  /** The bits that equal both neighbours. */
  function Inner(w: Word): Word {
    And(And(Same(w, Double(w)), Same(w, Half(w))), 0x7ffffffe)
  }

  /** Bits n such that n to n + 7 are all set. */
  function Eight(m: Word): Word {
    var m1 := And(m, Half(m));
    var m2 := And(m1, Half(Half(m1)));
    And(m2, Half(Half(Half(Half(m2)))))
  }

  /** Every bit spread over the seven above it. */
  function Spread(m: Word): Word {
    var s1 := Or(m, Double(m));
    var s2 := Or(s1, Double(Double(s1)));
    Or(s2, Double(Double(Double(Double(s2)))))
  }

  function Mask(w: Word): Word {
    And(Spread(Eight(Inner(w))), 0x7ffffffc)
  }

  lemma Literals()
    ensures Double(Ones(30)) == 0x7ffffffe && Double(Double(Ones(29))) == 0x7ffffffc
  {
    OnesAre();
  }

  /** Bit n equals the bits on both sides. */
  predicate Between(w: Word, n: nat) {
    1 <= n <= 30 && Bit(w, n - 1) == Bit(w, n) == Bit(w, n + 1)
  }

  lemma BitInner(w: Word, n: nat)
    requires n < 32
    ensures Bit(Inner(w), n) == Between(w, n)
  {
    hide And, Same, Half, Double, Ones, Bit;
    BitAnd(And(Same(w, Double(w)), Same(w, Half(w))), 0x7ffffffe, n);
    BitAnd(Same(w, Double(w)), Same(w, Half(w)), n);
    BitSame(w, Double(w), n);
    BitSame(w, Half(w), n);
    BitDouble(w, n);
    BitHalf(w, n);
    Literals();
    BitDouble(Ones(30), n);
    if n > 0 {
      BitOnes(30, n - 1);
    }
  }

  /** Eight bits in a row. */
  predicate Row(m: Word, n: nat) {
    && Bit(m, n) && Bit(m, n + 1) && Bit(m, n + 2) && Bit(m, n + 3)
    && Bit(m, n + 4) && Bit(m, n + 5) && Bit(m, n + 6) && Bit(m, n + 7)
  }

  lemma Shifted(m: Word, n: nat)
    ensures Bit(Half(Half(m)), n) == Bit(m, n + 2)
    ensures Bit(Half(Half(Half(Half(m)))), n) == Bit(m, n + 4)
  {
    hide Half, Bit;
    var h := Half(Half(m));
    BitHalf(m, n + 1);
    BitHalf(Half(m), n);
    BitHalf(m, n + 3);
    BitHalf(Half(m), n + 2);
    BitHalf(h, n + 1);
    BitHalf(Half(h), n);
  }

  lemma Pair(m: Word, n: nat)
    ensures Bit(And(m, Half(m)), n) == (Bit(m, n) && Bit(m, n + 1))
  {
    hide And, Half, Bit;
    BitAnd(m, Half(m), n);
    BitHalf(m, n);
  }

  lemma Quad(m: Word, n: nat)
    ensures Bit(And(m, Half(Half(m))), n) == (Bit(m, n) && Bit(m, n + 2))
  {
    hide And, Half, Bit;
    BitAnd(m, Half(Half(m)), n);
    Shifted(m, n);
  }

  lemma BitEight(m: Word, n: nat)
    ensures Bit(Eight(m), n) == Row(m, n)
  {
    hide And, Half, Bit;
    var m1 := And(m, Half(m));
    var m2 := And(m1, Half(Half(m1)));
    BitAnd(m2, Half(Half(Half(Half(m2)))), n);
    Shifted(m2, n);
    Quad(m1, n);
    Quad(m1, n + 4);
    Pair(m, n);
    Pair(m, n + 2);
    Pair(m, n + 4);
    Pair(m, n + 6);
  }

  lemma Raised(m: Word, n: nat)
    requires n < 32
    ensures Bit(Double(Double(m)), n) == (n >= 2 && Bit(m, n - 2))
  {
    hide Double, Bit;
    BitDouble(Double(m), n);
    if n > 0 {
      BitDouble(m, n - 1);
    }
  }

  lemma RaisedFour(m: Word, n: nat)
    requires n < 32
    ensures Bit(Double(Double(Double(Double(m)))), n) == (n >= 4 && Bit(m, n - 4))
  {
    hide Double, Bit;
    Raised(Double(Double(m)), n);
    if n >= 2 {
      Raised(m, n - 2);
    }
  }

  predicate Under(m: Word, n: nat, j: nat) { n >= j && Bit(m, n - j) }

  lemma SpreadPair(m: Word, n: nat)
    requires n < 32
    ensures Bit(Or(m, Double(m)), n) == (Under(m, n, 0) || Under(m, n, 1))
  {
    hide Or, Double, Bit;
    BitOr(m, Double(m), n);
    BitDouble(m, n);
  }

  lemma SpreadQuad(m: Word, n: nat)
    requires n < 32
    ensures var s1 := Or(m, Double(m));
            Bit(Or(s1, Double(Double(s1))), n) == (Under(m, n, 0) || Under(m, n, 1) || Under(m, n, 2) || Under(m, n, 3))
  {
    hide Or, Double, Bit;
    var s1 := Or(m, Double(m));
    BitOr(s1, Double(Double(s1)), n);
    Raised(s1, n);
    SpreadPair(m, n);
    if n >= 2 {
      SpreadPair(m, n - 2);
    }
  }

  lemma BitSpread(m: Word, n: nat)
    requires n < 32
    ensures Bit(Spread(m), n) == (|| Under(m, n, 0) || Under(m, n, 1) || Under(m, n, 2) || Under(m, n, 3)
                                  || Under(m, n, 4) || Under(m, n, 5) || Under(m, n, 6) || Under(m, n, 7))
  {
    hide Or, Double, Bit;
    var s1 := Or(m, Double(m));
    var s2 := Or(s1, Double(Double(s1)));
    BitOr(s2, Double(Double(Double(Double(s2)))), n);
    RaisedFour(s2, n);
    SpreadQuad(m, n);
    if n >= 4 {
      SpreadQuad(m, n - 4);
    }
  }

  /** Ten equal bits from s on. */
  predicate Run(w: Word, s: nat) {
    s + 9 <= 31 && forall j :: s <= j <= s + 9 ==> Bit(w, j) == Bit(w, s)
  }

  /** Bit k is inside ten equal bits, not at their ends, and is one of bits 2 to 30. */
  predicate InsideRun(w: Word, k: nat) {
    2 <= k <= 30 && exists s :: 0 <= s < k && k < s + 9 && Run(w, s)
  }

  /** Eight bits between equal neighbours are the inside of ten equal bits. */
  lemma RowIsRun(w: Word, n: nat)
    requires n < 32
    ensures Row(Inner(w), n) == (n >= 1 && Run(w, n - 1))
  {
    hide Inner, Bit;
    BitInner(w, n);
    if n + 7 < 32 {
      BitInner(w, n + 1);
      BitInner(w, n + 2);
      BitInner(w, n + 3);
      BitInner(w, n + 4);
      BitInner(w, n + 5);
      BitInner(w, n + 6);
      BitInner(w, n + 7);
      if n >= 1 && n + 8 <= 31 {
        RunBits(w, n - 1);
      }
    } else {
      BitInner(w, 31);
    }
  }

  lemma RunBits(w: Word, s: nat)
    requires s + 9 <= 31
    ensures Run(w, s) == (&& Bit(w, s) == Bit(w, s + 1) == Bit(w, s + 2) == Bit(w, s + 3) == Bit(w, s + 4)
                          && Bit(w, s + 4) == Bit(w, s + 5) == Bit(w, s + 6) == Bit(w, s + 7) == Bit(w, s + 8)
                          && Bit(w, s + 8) == Bit(w, s + 9))
  {
    hide Bit;
    if Bit(w, s) == Bit(w, s + 1) == Bit(w, s + 2) == Bit(w, s + 3) == Bit(w, s + 4)
       && Bit(w, s + 4) == Bit(w, s + 5) == Bit(w, s + 6) == Bit(w, s + 7) == Bit(w, s + 8)
       && Bit(w, s + 8) == Bit(w, s + 9) {
      forall j | s <= j <= s + 9
        ensures Bit(w, j) == Bit(w, s)
      {
        var d := j - s;
        assert d == 0 || d == 1 || d == 2 || d == 3 || d == 4 || d == 5 || d == 6 || d == 7 || d == 8 || d == 9;
      }
    }
  }

  lemma UnderRow(w: Word, k: nat, j: nat)
    requires k < 32
    ensures Under(Eight(Inner(w)), k, j) == (k > j && Run(w, k - j - 1))
  {
    hide Inner, Eight, Bit, Run;
    if k >= j {
      BitEight(Inner(w), k - j);
      RowIsRun(w, k - j);
    }
  }

  /** The mask covers exactly the inside of the runs of ten equal bits. */
  lemma MaskBit(w: Word, k: nat)
    requires k < 32
    ensures Bit(Mask(w), k) == InsideRun(w, k)
  {
    hide Inner, Eight, Spread, Bit, Run, Ones, Double, And;
    var m := Eight(Inner(w));
    BitAnd(Spread(m), 0x7ffffffc, k);
    Literals();
    Raised(Ones(29), k);
    if k >= 2 {
      BitOnes(29, k - 2);
    }
    BitSpread(m, k);
    UnderRow(w, k, 0);
    UnderRow(w, k, 1);
    UnderRow(w, k, 2);
    UnderRow(w, k, 3);
    UnderRow(w, k, 4);
    UnderRow(w, k, 5);
    UnderRow(w, k, 6);
    UnderRow(w, k, 7);
    if InsideRun(w, k) {
      var s :| 0 <= s < k && k < s + 9 && Run(w, s);
      var j := k - s - 1;
      assert j == 0 || j == 1 || j == 2 || j == 3 || j == 4 || j == 5 || j == 6 || j == 7;
      assert Run(w, k - j - 1);
    }
  }
}
