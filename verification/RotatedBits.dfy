/** Where the rotations of a 32-bit word put its bits, and where its bytes are. */
module RotatedBits {
  import opened Bits
  import opened Counter
  import opened Rotates

  lemma {:induction false} BitHalves(a: Word, n: nat, k: nat)
    ensures Bit(a, n + k) == Bit(Halves(a, n), k)
    decreases n
  {
    hide Half, Low;
    if n > 0 {
      BitHalves(Half(a), n - 1, k);
      BitHalf(a, n - 1 + k);
    }
  }

  function Down8(w: Word): Word { w >> 8 }

  lemma Halves8(w: Word)
    ensures Halves(w, 8) == Down8(w)
  {
    calc {
      Halves(w, 8);
      { HalvesMore(w, 4, 4); Halves4(w); }
      Halves(w >> 4, 4);
      { Halves4(w >> 4); }
      (w >> 4) >> 4;
      w >> 8;
    }
  }

  lemma HalvesNone(w: Word)
    ensures Halves(w, 0) == w
  {}

  lemma HalvesEight(w: Word)
    ensures Halves(w, 0) == w && Halves(w, 8) == Down8(w) && Halves(w, 16) == Down8(Down8(w))
    ensures Halves(w, 24) == Down8(Down8(Down8(w)))
  {
    hide Halves, Down8;
    HalvesNone(w);
    Halves8(w);
    HalvesMore(w, 8, 8);
    Halves8(Down8(w));
    HalvesMore(w, 8, 16);
    HalvesMore(Down8(w), 8, 8);
    Halves8(Down8(Down8(w)));
  }

  lemma Halves31(a: Word)
    ensures Halves(a, 31) == a >> 31
  {
    calc {
      Halves(a, 31);
      { HalvesMore(a, 16, 15); Halves16(a); }
      Halves(a >> 16, 15);
      { HalvesMore(a >> 16, 4, 11); Halves4(a >> 16); }
      Halves((a >> 16) >> 4, 11);
      { HalvesMore((a >> 16) >> 4, 4, 7); Halves4((a >> 16) >> 4); }
      Halves(((a >> 16) >> 4) >> 4, 7);
      { HalvesMore(((a >> 16) >> 4) >> 4, 4, 3); Halves4(((a >> 16) >> 4) >> 4); }
      Halves((((a >> 16) >> 4) >> 4) >> 4, 3);
      Halves(((((a >> 16) >> 4) >> 4) >> 4) >> 1, 2);
      Halves((((((a >> 16) >> 4) >> 4) >> 4) >> 1) >> 1, 1);
      (((((((a >> 16) >> 4) >> 4) >> 4) >> 1) >> 1) >> 1);
      a >> 31;
    }
  }

  function Top(a: Word): Word { a >> 31 }

  lemma RotateOne(w: Word)
    ensures RotateLeft(w, 1) == Or(Double(w), Top(w))
  {
    calc {
      RotateLeft(w, 1);
      (w << 1) | (w >> 31);
      Or(w << 1, w >> 31);
      Or(Double(w), Top(w));
    }
  }

  lemma TopBit(w: Word, k: nat)
    requires k < 32
    ensures Bit(Top(w), k) == (k == 0 && Bit(w, 31))
  {
    hide Halves, Bit, Top;
    Halves31(w);
    BitHalves(w, 31, k);
    TopIs(w);
    NoBitBeyond(w, 31 + k);
  }

  lemma TopIs(w: Word)
    ensures Halves(w, 31) == Top(w)
  {
    hide Halves;
    Halves31(w);
  }

  lemma NoBitBeyond(w: Word, n: nat)
    ensures n >= 32 ==> !Bit(w, n)
  {
    hide Halves, Bit;
    if n >= 32 {
      BitHalves(w, 32, n - 32);
      NoHalves(w);
      NoBits(n - 32);
    }
  }

  lemma BitRotateOne(w: Word, k: nat)
    requires k < 32
    ensures Bit(RotateLeft(w, 1), k) == Bit(w, (k + 31) % 32)
  {
    hide *;
    if k == 0 {
      assert (k + 31) % 32 == 31;
    } else {
      assert (k + 31) % 32 == k - 1;
    }
    RotateOne(w);
    BitOr(Double(w), Top(w), k);
    BitDouble(w, k);
    TopBit(w, k);
  }

  /** The word rotated left by one, n times. */
  function Spin(w: Word, n: nat): Word {
    if n == 0 then w else RotateLeft(Spin(w, n - 1), 1)
  }

  lemma {:induction false} BitSpin(w: Word, n: nat, k: nat)
    requires k < 32 && n <= 32
    ensures Bit(Spin(w, n), k) == Bit(w, (k + 32 - n) % 32)
  {
    hide Bit, RotateLeft;
    if n > 0 {
      BitRotateOne(Spin(w, n - 1), k);
      BitSpin(w, n - 1, (k + 31) % 32);
    }
  }

  lemma Turns0(w: Word)
    ensures RotateLeft(w, 0) == w
  {
    calc {
      RotateLeft(w, 0);
      (w << 0) | (w >> 32);
      w;
    }
  }

  lemma Turns2(w: Word)
    ensures RotateLeft(RotateLeft(w, 1), 1) == RotateLeft(w, 2)
  {
    calc {
      RotateLeft(RotateLeft(w, 1), 1);
      RotateLeft(((w << 1) | (w >> 31)), 1);
      (((w << 1) | (w >> 31)) << 1) | (((w << 1) | (w >> 31)) >> 31);
      (w << 2) | (w >> 30);
      RotateLeft(w, 2);
    }
  }

  lemma Turns3(w: Word)
    ensures RotateLeft(RotateLeft(w, 2), 1) == RotateLeft(w, 3)
  {
    calc {
      RotateLeft(RotateLeft(w, 2), 1);
      RotateLeft(((w << 2) | (w >> 30)), 1);
      (((w << 2) | (w >> 30)) << 1) | (((w << 2) | (w >> 30)) >> 31);
      (w << 3) | (w >> 29);
      RotateLeft(w, 3);
    }
  }

  lemma Turns4(w: Word)
    ensures RotateLeft(RotateLeft(w, 3), 1) == RotateLeft(w, 4)
  {
    calc {
      RotateLeft(RotateLeft(w, 3), 1);
      RotateLeft(((w << 3) | (w >> 29)), 1);
      (((w << 3) | (w >> 29)) << 1) | (((w << 3) | (w >> 29)) >> 31);
      (w << 4) | (w >> 28);
      RotateLeft(w, 4);
    }
  }

  lemma Turns5(w: Word)
    ensures RotateLeft(RotateLeft(w, 4), 1) == RotateLeft(w, 5)
  {
    calc {
      RotateLeft(RotateLeft(w, 4), 1);
      RotateLeft(((w << 4) | (w >> 28)), 1);
      (((w << 4) | (w >> 28)) << 1) | (((w << 4) | (w >> 28)) >> 31);
      (w << 5) | (w >> 27);
      RotateLeft(w, 5);
    }
  }

  lemma Turns6(w: Word)
    ensures RotateLeft(RotateLeft(w, 5), 1) == RotateLeft(w, 6)
  {
    calc {
      RotateLeft(RotateLeft(w, 5), 1);
      RotateLeft(((w << 5) | (w >> 27)), 1);
      (((w << 5) | (w >> 27)) << 1) | (((w << 5) | (w >> 27)) >> 31);
      (w << 6) | (w >> 26);
      RotateLeft(w, 6);
    }
  }

  lemma Turns7(w: Word)
    ensures RotateLeft(RotateLeft(w, 6), 1) == RotateLeft(w, 7)
  {
    calc {
      RotateLeft(RotateLeft(w, 6), 1);
      RotateLeft(((w << 6) | (w >> 26)), 1);
      (((w << 6) | (w >> 26)) << 1) | (((w << 6) | (w >> 26)) >> 31);
      (w << 7) | (w >> 25);
      RotateLeft(w, 7);
    }
  }

  lemma Turns8(w: Word)
    ensures RotateLeft(RotateLeft(w, 7), 1) == RotateLeft(w, 8)
  {
    calc {
      RotateLeft(RotateLeft(w, 7), 1);
      RotateLeft(((w << 7) | (w >> 25)), 1);
      (((w << 7) | (w >> 25)) << 1) | (((w << 7) | (w >> 25)) >> 31);
      (w << 8) | (w >> 24);
      RotateLeft(w, 8);
    }
  }

  lemma Turns9(w: Word)
    ensures RotateLeft(RotateLeft(w, 8), 1) == RotateLeft(w, 9)
  {
    calc {
      RotateLeft(RotateLeft(w, 8), 1);
      RotateLeft(((w << 8) | (w >> 24)), 1);
      (((w << 8) | (w >> 24)) << 1) | (((w << 8) | (w >> 24)) >> 31);
      (w << 9) | (w >> 23);
      RotateLeft(w, 9);
    }
  }

  lemma Turns10(w: Word)
    ensures RotateLeft(RotateLeft(w, 9), 1) == RotateLeft(w, 10)
  {
    calc {
      RotateLeft(RotateLeft(w, 9), 1);
      RotateLeft(((w << 9) | (w >> 23)), 1);
      (((w << 9) | (w >> 23)) << 1) | (((w << 9) | (w >> 23)) >> 31);
      (w << 10) | (w >> 22);
      RotateLeft(w, 10);
    }
  }

  lemma Turns11(w: Word)
    ensures RotateLeft(RotateLeft(w, 10), 1) == RotateLeft(w, 11)
  {
    calc {
      RotateLeft(RotateLeft(w, 10), 1);
      RotateLeft(((w << 10) | (w >> 22)), 1);
      (((w << 10) | (w >> 22)) << 1) | (((w << 10) | (w >> 22)) >> 31);
      (w << 11) | (w >> 21);
      RotateLeft(w, 11);
    }
  }

  lemma Turns12(w: Word)
    ensures RotateLeft(RotateLeft(w, 11), 1) == RotateLeft(w, 12)
  {
    calc {
      RotateLeft(RotateLeft(w, 11), 1);
      RotateLeft(((w << 11) | (w >> 21)), 1);
      (((w << 11) | (w >> 21)) << 1) | (((w << 11) | (w >> 21)) >> 31);
      (w << 12) | (w >> 20);
      RotateLeft(w, 12);
    }
  }

  lemma Turns13(w: Word)
    ensures RotateLeft(RotateLeft(w, 12), 1) == RotateLeft(w, 13)
  {
    calc {
      RotateLeft(RotateLeft(w, 12), 1);
      RotateLeft(((w << 12) | (w >> 20)), 1);
      (((w << 12) | (w >> 20)) << 1) | (((w << 12) | (w >> 20)) >> 31);
      (w << 13) | (w >> 19);
      RotateLeft(w, 13);
    }
  }

  lemma Turns14(w: Word)
    ensures RotateLeft(RotateLeft(w, 13), 1) == RotateLeft(w, 14)
  {
    calc {
      RotateLeft(RotateLeft(w, 13), 1);
      RotateLeft(((w << 13) | (w >> 19)), 1);
      (((w << 13) | (w >> 19)) << 1) | (((w << 13) | (w >> 19)) >> 31);
      (w << 14) | (w >> 18);
      RotateLeft(w, 14);
    }
  }

  lemma Turns15(w: Word)
    ensures RotateLeft(RotateLeft(w, 14), 1) == RotateLeft(w, 15)
  {
    calc {
      RotateLeft(RotateLeft(w, 14), 1);
      RotateLeft(((w << 14) | (w >> 18)), 1);
      (((w << 14) | (w >> 18)) << 1) | (((w << 14) | (w >> 18)) >> 31);
      (w << 15) | (w >> 17);
      RotateLeft(w, 15);
    }
  }

  lemma Turns16(w: Word)
    ensures RotateLeft(RotateLeft(w, 15), 1) == RotateLeft(w, 16)
  {
    calc {
      RotateLeft(RotateLeft(w, 15), 1);
      RotateLeft(((w << 15) | (w >> 17)), 1);
      (((w << 15) | (w >> 17)) << 1) | (((w << 15) | (w >> 17)) >> 31);
      (w << 16) | (w >> 16);
      RotateLeft(w, 16);
    }
  }

  lemma Turns17(w: Word)
    ensures RotateLeft(RotateLeft(w, 16), 1) == RotateLeft(w, 17)
  {
    calc {
      RotateLeft(RotateLeft(w, 16), 1);
      RotateLeft(((w << 16) | (w >> 16)), 1);
      (((w << 16) | (w >> 16)) << 1) | (((w << 16) | (w >> 16)) >> 31);
      (w << 17) | (w >> 15);
      RotateLeft(w, 17);
    }
  }

  lemma Turns18(w: Word)
    ensures RotateLeft(RotateLeft(w, 17), 1) == RotateLeft(w, 18)
  {
    calc {
      RotateLeft(RotateLeft(w, 17), 1);
      RotateLeft(((w << 17) | (w >> 15)), 1);
      (((w << 17) | (w >> 15)) << 1) | (((w << 17) | (w >> 15)) >> 31);
      (w << 18) | (w >> 14);
      RotateLeft(w, 18);
    }
  }

  lemma Turns19(w: Word)
    ensures RotateLeft(RotateLeft(w, 18), 1) == RotateLeft(w, 19)
  {
    calc {
      RotateLeft(RotateLeft(w, 18), 1);
      RotateLeft(((w << 18) | (w >> 14)), 1);
      (((w << 18) | (w >> 14)) << 1) | (((w << 18) | (w >> 14)) >> 31);
      (w << 19) | (w >> 13);
      RotateLeft(w, 19);
    }
  }

  lemma Turns20(w: Word)
    ensures RotateLeft(RotateLeft(w, 19), 1) == RotateLeft(w, 20)
  {
    calc {
      RotateLeft(RotateLeft(w, 19), 1);
      RotateLeft(((w << 19) | (w >> 13)), 1);
      (((w << 19) | (w >> 13)) << 1) | (((w << 19) | (w >> 13)) >> 31);
      (w << 20) | (w >> 12);
      RotateLeft(w, 20);
    }
  }

  lemma Turns21(w: Word)
    ensures RotateLeft(RotateLeft(w, 20), 1) == RotateLeft(w, 21)
  {
    calc {
      RotateLeft(RotateLeft(w, 20), 1);
      RotateLeft(((w << 20) | (w >> 12)), 1);
      (((w << 20) | (w >> 12)) << 1) | (((w << 20) | (w >> 12)) >> 31);
      (w << 21) | (w >> 11);
      RotateLeft(w, 21);
    }
  }

  lemma Turns22(w: Word)
    ensures RotateLeft(RotateLeft(w, 21), 1) == RotateLeft(w, 22)
  {
    calc {
      RotateLeft(RotateLeft(w, 21), 1);
      RotateLeft(((w << 21) | (w >> 11)), 1);
      (((w << 21) | (w >> 11)) << 1) | (((w << 21) | (w >> 11)) >> 31);
      (w << 22) | (w >> 10);
      RotateLeft(w, 22);
    }
  }

  lemma Turns23(w: Word)
    ensures RotateLeft(RotateLeft(w, 22), 1) == RotateLeft(w, 23)
  {
    calc {
      RotateLeft(RotateLeft(w, 22), 1);
      RotateLeft(((w << 22) | (w >> 10)), 1);
      (((w << 22) | (w >> 10)) << 1) | (((w << 22) | (w >> 10)) >> 31);
      (w << 23) | (w >> 9);
      RotateLeft(w, 23);
    }
  }

  lemma Turns24(w: Word)
    ensures RotateLeft(RotateLeft(w, 23), 1) == RotateLeft(w, 24)
  {
    calc {
      RotateLeft(RotateLeft(w, 23), 1);
      RotateLeft(((w << 23) | (w >> 9)), 1);
      (((w << 23) | (w >> 9)) << 1) | (((w << 23) | (w >> 9)) >> 31);
      (w << 24) | (w >> 8);
      RotateLeft(w, 24);
    }
  }

  lemma Turns25(w: Word)
    ensures RotateLeft(RotateLeft(w, 24), 1) == RotateLeft(w, 25)
  {
    calc {
      RotateLeft(RotateLeft(w, 24), 1);
      RotateLeft(((w << 24) | (w >> 8)), 1);
      (((w << 24) | (w >> 8)) << 1) | (((w << 24) | (w >> 8)) >> 31);
      (w << 25) | (w >> 7);
      RotateLeft(w, 25);
    }
  }

  lemma Turns26(w: Word)
    ensures RotateLeft(RotateLeft(w, 25), 1) == RotateLeft(w, 26)
  {
    calc {
      RotateLeft(RotateLeft(w, 25), 1);
      RotateLeft(((w << 25) | (w >> 7)), 1);
      (((w << 25) | (w >> 7)) << 1) | (((w << 25) | (w >> 7)) >> 31);
      (w << 26) | (w >> 6);
      RotateLeft(w, 26);
    }
  }

  lemma Turns27(w: Word)
    ensures RotateLeft(RotateLeft(w, 26), 1) == RotateLeft(w, 27)
  {
    calc {
      RotateLeft(RotateLeft(w, 26), 1);
      RotateLeft(((w << 26) | (w >> 6)), 1);
      (((w << 26) | (w >> 6)) << 1) | (((w << 26) | (w >> 6)) >> 31);
      (w << 27) | (w >> 5);
      RotateLeft(w, 27);
    }
  }

  lemma Turns28(w: Word)
    ensures RotateLeft(RotateLeft(w, 27), 1) == RotateLeft(w, 28)
  {
    calc {
      RotateLeft(RotateLeft(w, 27), 1);
      RotateLeft(((w << 27) | (w >> 5)), 1);
      (((w << 27) | (w >> 5)) << 1) | (((w << 27) | (w >> 5)) >> 31);
      (w << 28) | (w >> 4);
      RotateLeft(w, 28);
    }
  }

  lemma Turns29(w: Word)
    ensures RotateLeft(RotateLeft(w, 28), 1) == RotateLeft(w, 29)
  {
    calc {
      RotateLeft(RotateLeft(w, 28), 1);
      RotateLeft(((w << 28) | (w >> 4)), 1);
      (((w << 28) | (w >> 4)) << 1) | (((w << 28) | (w >> 4)) >> 31);
      (w << 29) | (w >> 3);
      RotateLeft(w, 29);
    }
  }

  lemma Turns30(w: Word)
    ensures RotateLeft(RotateLeft(w, 29), 1) == RotateLeft(w, 30)
  {
    calc {
      RotateLeft(RotateLeft(w, 29), 1);
      RotateLeft(((w << 29) | (w >> 3)), 1);
      (((w << 29) | (w >> 3)) << 1) | (((w << 29) | (w >> 3)) >> 31);
      (w << 30) | (w >> 2);
      RotateLeft(w, 30);
    }
  }

  lemma Turns31(w: Word)
    ensures RotateLeft(RotateLeft(w, 30), 1) == RotateLeft(w, 31)
  {
    calc {
      RotateLeft(RotateLeft(w, 30), 1);
      RotateLeft(((w << 30) | (w >> 2)), 1);
      (((w << 30) | (w >> 2)) << 1) | (((w << 30) | (w >> 2)) >> 31);
      (w << 31) | (w >> 1);
      RotateLeft(w, 31);
    }
  }

  lemma TurnsNext(w: Word, n: nat)
    requires 0 < n < 31
    ensures RotateLeft(RotateLeft(w, n), 1) == RotateLeft(w, n + 1)
  {
    hide *;
    match n {
      case 1 =>
        Turns2(w);
      case 2 =>
        Turns3(w);
      case 3 =>
        Turns4(w);
      case 4 =>
        Turns5(w);
      case 5 =>
        Turns6(w);
      case 6 =>
        Turns7(w);
      case 7 =>
        Turns8(w);
      case 8 =>
        Turns9(w);
      case 9 =>
        Turns10(w);
      case 10 =>
        Turns11(w);
      case 11 =>
        Turns12(w);
      case 12 =>
        Turns13(w);
      case 13 =>
        Turns14(w);
      case 14 =>
        Turns15(w);
      case 15 =>
        Turns16(w);
      case 16 =>
        Turns17(w);
      case 17 =>
        Turns18(w);
      case 18 =>
        Turns19(w);
      case 19 =>
        Turns20(w);
      case 20 =>
        Turns21(w);
      case 21 =>
        Turns22(w);
      case 22 =>
        Turns23(w);
      case 23 =>
        Turns24(w);
      case 24 =>
        Turns25(w);
      case 25 =>
        Turns26(w);
      case 26 =>
        Turns27(w);
      case 27 =>
        Turns28(w);
      case 28 =>
        Turns29(w);
      case 29 =>
        Turns30(w);
      case _ =>
        Turns31(w);
    }
  }

  lemma {:induction false} SpinIs(w: Word, n: nat)
    requires n < 32
    ensures Spin(w, n) == RotateLeft(w, n)
    decreases n
  {
    hide RotateLeft;
    if n == 0 {
      Turns0(w);
    } else if n == 1 {
      assert Spin(w, 0) == w;
    } else {
      SpinIs(w, n - 1);
      TurnsNext(w, n - 1);
    }
  }

  /** Rotation to the left moves bit k to bit k + n. */
  lemma BitRotateLeft(w: Word, n: nat, k: nat)
    requires n < 32 && k < 32
    ensures Bit(RotateLeft(w, n), k) == Bit(w, (k + 32 - n) % 32)
  {
    hide Bit, RotateLeft, Spin;
    SpinIs(w, n);
    BitSpin(w, n, k);
  }

  /** Rotation to the right, where rotation to the left undoes it, moves bit k to bit k - n. */
  lemma BitRotateRight(w: Word, n: nat, k: nat)
    requires n < 32 && k < 32 && RotateLeft(RotateRight(w, n), n) == w
    ensures Bit(RotateRight(w, n), k) == Bit(w, (k + n) % 32)
  {
    hide Bit, RotateLeft, RotateRight;
    var j := (k + n) % 32;
    BitRotateLeft(RotateRight(w, n), n, j);
    assert (j + 32 - n) % 32 == k;
  }

  // ---------------------------------------------------------------- the bytes of a word

  function LowByte(w: Word): bv8 { (w & 0xff) as bv8 }

  lemma StoredBytes(w: Word)
    ensures StoreWord32(w)[3] == LowByte(w) && StoreWord32(w)[2] == LowByte(Down8(w))
  {}

  lemma UpperStored(w: Word)
    ensures StoreWord32(w)[1] == LowByte(Down8(Down8(w)))
  {
    calc {
      LowByte(Down8(Down8(w)));
      LowByte(Down8(w >> 8));
      LowByte((w >> 8) >> 8);
      (((w >> 8) >> 8) & 0xff) as bv8;
      StoreWord32(w)[1];
    }
  }

  lemma TopStored(w: Word)
    ensures StoreWord32(w)[0] == LowByte(Down8(Down8(Down8(w))))
  {
    calc {
      LowByte(Down8(Down8(Down8(w))));
      LowByte(Down8(Down8(w >> 8)));
      LowByte(Down8((w >> 8) >> 8));
      LowByte(((w >> 8) >> 8) >> 8);
      ((((w >> 8) >> 8) >> 8) & 0xff) as bv8;
      StoreWord32(w)[0];
    }
  }
}
