/** The rotations of a 32-bit word (include/util.hh). */
module Rotates {
  import opened Bits

  /** RotateLeft; by zero it leaves the word alone. */
  function RotateLeft(w: Word, n: nat): Word
    requires n < 32
  {
    (w << n) | (w >> (32 - n))
  }

  function RotateRight(w: Word, n: nat): Word
    requires n < 32
  {
    (w >> n) | (w << (32 - n))
  }

  lemma Turn1(w: Word)
    ensures RotateRight(RotateLeft(w, 1), 1) == w && RotateLeft(RotateRight(w, 1), 1) == w
  {
    calc {
      RotateRight(RotateLeft(w, 1), 1);
      RotateRight((w << 1) | (w >> 31), 1);
      (((w << 1) | (w >> 31)) >> 1) | (((w << 1) | (w >> 31)) << 31);
      w;
    }
    calc {
      RotateLeft(RotateRight(w, 1), 1);
      RotateLeft((w >> 1) | (w << 31), 1);
      (((w >> 1) | (w << 31)) << 1) | (((w >> 1) | (w << 31)) >> 31);
      w;
    }
  }

  lemma Turn3(w: Word)
    ensures RotateRight(RotateLeft(w, 3), 3) == w && RotateLeft(RotateRight(w, 3), 3) == w
  {
    calc {
      RotateRight(RotateLeft(w, 3), 3);
      RotateRight((w << 3) | (w >> 29), 3);
      (((w << 3) | (w >> 29)) >> 3) | (((w << 3) | (w >> 29)) << 29);
      w;
    }
    calc {
      RotateLeft(RotateRight(w, 3), 3);
      RotateLeft((w >> 3) | (w << 29), 3);
      (((w >> 3) | (w << 29)) << 3) | (((w >> 3) | (w << 29)) >> 29);
      w;
    }
  }

  lemma Turn4(w: Word)
    ensures RotateRight(RotateLeft(w, 4), 4) == w && RotateLeft(RotateRight(w, 4), 4) == w
  {
    calc {
      RotateRight(RotateLeft(w, 4), 4);
      RotateRight((w << 4) | (w >> 28), 4);
      (((w << 4) | (w >> 28)) >> 4) | (((w << 4) | (w >> 28)) << 28);
      w;
    }
    calc {
      RotateLeft(RotateRight(w, 4), 4);
      RotateLeft((w >> 4) | (w << 28), 4);
      (((w >> 4) | (w << 28)) << 4) | (((w >> 4) | (w << 28)) >> 28);
      w;
    }
  }

  lemma Turn5(w: Word)
    ensures RotateRight(RotateLeft(w, 5), 5) == w && RotateLeft(RotateRight(w, 5), 5) == w
  {
    calc {
      RotateRight(RotateLeft(w, 5), 5);
      RotateRight((w << 5) | (w >> 27), 5);
      (((w << 5) | (w >> 27)) >> 5) | (((w << 5) | (w >> 27)) << 27);
      w;
    }
    calc {
      RotateLeft(RotateRight(w, 5), 5);
      RotateLeft((w >> 5) | (w << 27), 5);
      (((w >> 5) | (w << 27)) << 5) | (((w >> 5) | (w << 27)) >> 27);
      w;
    }
  }

  lemma Turn6(w: Word)
    ensures RotateRight(RotateLeft(w, 6), 6) == w && RotateLeft(RotateRight(w, 6), 6) == w
  {
    calc {
      RotateRight(RotateLeft(w, 6), 6);
      RotateRight((w << 6) | (w >> 26), 6);
      (((w << 6) | (w >> 26)) >> 6) | (((w << 6) | (w >> 26)) << 26);
      w;
    }
    calc {
      RotateLeft(RotateRight(w, 6), 6);
      RotateLeft((w >> 6) | (w << 26), 6);
      (((w >> 6) | (w << 26)) << 6) | (((w >> 6) | (w << 26)) >> 26);
      w;
    }
  }

  lemma Turn7(w: Word)
    ensures RotateRight(RotateLeft(w, 7), 7) == w && RotateLeft(RotateRight(w, 7), 7) == w
  {
    calc {
      RotateRight(RotateLeft(w, 7), 7);
      RotateRight((w << 7) | (w >> 25), 7);
      (((w << 7) | (w >> 25)) >> 7) | (((w << 7) | (w >> 25)) << 25);
      w;
    }
    calc {
      RotateLeft(RotateRight(w, 7), 7);
      RotateLeft((w >> 7) | (w << 25), 7);
      (((w >> 7) | (w << 25)) << 7) | (((w >> 7) | (w << 25)) >> 25);
      w;
    }
  }

  lemma Turn9(w: Word)
    ensures RotateRight(RotateLeft(w, 9), 9) == w && RotateLeft(RotateRight(w, 9), 9) == w
  {
    calc {
      RotateRight(RotateLeft(w, 9), 9);
      RotateRight((w << 9) | (w >> 23), 9);
      (((w << 9) | (w >> 23)) >> 9) | (((w << 9) | (w >> 23)) << 23);
      w;
    }
    calc {
      RotateLeft(RotateRight(w, 9), 9);
      RotateLeft((w >> 9) | (w << 23), 9);
      (((w >> 9) | (w << 23)) << 9) | (((w >> 9) | (w << 23)) >> 23);
      w;
    }
  }

  lemma Turn13(w: Word)
    ensures RotateRight(RotateLeft(w, 13), 13) == w && RotateLeft(RotateRight(w, 13), 13) == w
  {
    calc {
      RotateRight(RotateLeft(w, 13), 13);
      RotateRight((w << 13) | (w >> 19), 13);
      (((w << 13) | (w >> 19)) >> 13) | (((w << 13) | (w >> 19)) << 19);
      w;
    }
    calc {
      RotateLeft(RotateRight(w, 13), 13);
      RotateLeft((w >> 13) | (w << 19), 13);
      (((w >> 13) | (w << 19)) << 13) | (((w >> 13) | (w << 19)) >> 19);
      w;
    }
  }

  lemma Turn18(w: Word)
    ensures RotateRight(RotateLeft(w, 18), 18) == w && RotateLeft(RotateRight(w, 18), 18) == w
  {
    calc {
      RotateRight(RotateLeft(w, 18), 18);
      RotateRight((w << 18) | (w >> 14), 18);
      (((w << 18) | (w >> 14)) >> 18) | (((w << 18) | (w >> 14)) << 14);
      w;
    }
    calc {
      RotateLeft(RotateRight(w, 18), 18);
      RotateLeft((w >> 18) | (w << 14), 18);
      (((w >> 18) | (w << 14)) << 18) | (((w >> 18) | (w << 14)) >> 14);
      w;
    }
  }

  lemma Turn20(w: Word)
    ensures RotateRight(RotateLeft(w, 20), 20) == w && RotateLeft(RotateRight(w, 20), 20) == w
  {
    calc {
      RotateRight(RotateLeft(w, 20), 20);
      RotateRight((w << 20) | (w >> 12), 20);
      (((w << 20) | (w >> 12)) >> 20) | (((w << 20) | (w >> 12)) << 12);
      w;
    }
    calc {
      RotateLeft(RotateRight(w, 20), 20);
      RotateLeft((w >> 20) | (w << 12), 20);
      (((w >> 20) | (w << 12)) << 20) | (((w >> 20) | (w << 12)) >> 12);
      w;
    }
  }

  lemma Turn22(w: Word)
    ensures RotateRight(RotateLeft(w, 22), 22) == w && RotateLeft(RotateRight(w, 22), 22) == w
  {
    calc {
      RotateRight(RotateLeft(w, 22), 22);
      RotateRight((w << 22) | (w >> 10), 22);
      (((w << 22) | (w >> 10)) >> 22) | (((w << 22) | (w >> 10)) << 10);
      w;
    }
    calc {
      RotateLeft(RotateRight(w, 22), 22);
      RotateLeft((w >> 22) | (w << 10), 22);
      (((w >> 22) | (w << 10)) << 22) | (((w >> 22) | (w << 10)) >> 10);
      w;
    }
  }

  lemma Turn24(w: Word)
    ensures RotateRight(RotateLeft(w, 24), 24) == w && RotateLeft(RotateRight(w, 24), 24) == w
  {
    calc {
      RotateRight(RotateLeft(w, 24), 24);
      RotateRight((w << 24) | (w >> 8), 24);
      (((w << 24) | (w >> 8)) >> 24) | (((w << 24) | (w >> 8)) << 8);
      w;
    }
    calc {
      RotateLeft(RotateRight(w, 24), 24);
      RotateLeft((w >> 24) | (w << 8), 24);
      (((w >> 24) | (w << 8)) << 24) | (((w >> 24) | (w << 8)) >> 8);
      w;
    }
  }
}
