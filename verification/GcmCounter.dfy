/** The two counters of impl/mode/gcm-impl.cc: increment_counter stops after four bytes, increment_fast does not. */
module GcmCounter {
  import opened Words
  import opened Keystream
  import opened Counter
  import opened GcmSpec

  /** The low 32 bits of y do not wrap during the next m increments. */
  predicate NoWrap(y: Bytes, m: nat)
    requires |y| == 16
  {
    Value(y[12..]) + m < Pow256(4)
  }

  /** Where a fast call may stand: whole blocks at a block boundary, and the low counter word does not wrap. */
  predicate FastAt(j0: Bytes, pos: nat, len: nat)
    requires |j0| == 16
  {
    pos % 16 == 0 && len % 16 == 0 && len <= 4096 && NoWrap(Inc32N(j0, pos / 16), len / 16)
  }

  lemma {:induction false} ValueNextN(b: Bytes, k: nat)
    requires Value(b) + k < Pow256(|b|)
    ensures Value(NextN(b, k)) == Value(b) + k
  {
    if k > 0 {
      ValueNextN(b, k - 1);
      NextAddsOne(NextN(b, k - 1));
    }
  }

  lemma {:induction false} Inc32NShape(y: Bytes, k: nat)
    requires |y| == 16
    ensures Inc32N(y, k) == y[..12] + NextN(y[12..], k)
  {
    hide Next;
    if k == 0 {
      assert y == y[..12] + y[12..];
    } else {
      Inc32NShape(y, k - 1);
      assert Inc32N(y, k - 1)[..12] == y[..12];
      assert Inc32N(y, k - 1)[12..] == NextN(y[12..], k - 1);
    }
  }

  /** Only the block of 0xff bytes has the largest value. */
  lemma {:induction false} AllOnes(b: Bytes)
    ensures (forall j :: 0 <= j < |b| ==> b[j] == 0xff) <==> Value(b) + 1 == Pow256(|b|)
  {
    if b != [] {
      var m := |b| - 1;
      AllOnes(b[..m]);
      ValueBound(b[..m]);
      NextByteValue(b[m]);
      assert (forall j :: 0 <= j < |b| ==> b[j] == 0xff)
        <==> b[m] == 0xff && (forall j :: 0 <= j < m ==> b[..m][j] == 0xff);
      ByteBelow(b[m]);
    }
  }

  lemma ByteBelow(c: bv8)
    ensures c as nat <= 255 && (c as nat == 255 <==> c == 0xff)
  {}

  lemma NextMoves(c: Bytes)
    requires c != []
    ensures Next(c) != c
  {
    NextAddsOne(c);
    assert Pow256(|c|) >= 256;
  }

  /** One step of the long counter, by whether the low word wraps. */
  lemma StepParts(c: Bytes, y: Bytes)
    requires |c| == |y| == 16
    ensures Value(y[12..]) + 1 < Pow256(4) ==> Next(y) == y[..12] + Next(y[12..])
    ensures Value(y[12..]) + 1 == Pow256(4) ==> Next(y) == Next(y[..12]) + Next(y[12..])
  {
    var a, b := y[..12], y[12..];
    assert y == a + b;
    AllOnes(b);
    NextAppend(a, b);
  }

  lemma {:induction false} Together(y: Bytes, m: nat)
    requires |y| == 16 && NoWrap(y, m)
    ensures NextN(y, m) == Inc32N(y, m)
  {
    hide Next, Value;
    if m > 0 {
      var k := m - 1;
      Together(y, k);
      Inc32NShape(y, k);
      Inc32NShape(y, m);
      ValueNextN(y[12..], k);
      var z := NextN(y, k);
      assert z[..12] == y[..12] && z[12..] == NextN(y[12..], k);
      StepParts(y, z);
    }
  }

  /** The fast counter agrees with inc32 exactly when the low 32 bits have not wrapped. */
  lemma FastCounterExactly(y: Bytes, m: nat)
    requires |y| == 16 && m < Pow256(4)
    ensures NextN(y, m) == Inc32N(y, m) <==> NoWrap(y, m)
  {
    if NoWrap(y, m) {
      Together(y, m);
    } else {
      Apart(y, m);
    }
  }

  /** The step that wraps moves the upper twelve bytes. */
  lemma Wrapping(y: Bytes, k: nat, w: nat)
    requires |y| == 16 && w == k + 1 && Value(y[12..]) + w == Pow256(4)
    ensures NextN(y, w)[..12] == Next(y[..12]) && Value(NextN(y, w)[12..]) == 0
  {
    hide Next, Value, Pow256;
    var b := y[12..];
    Together(y, k);
    Inc32NShape(y, k);
    ValueNextN(b, k);
    var z := NextN(y, k);
    assert z[..12] == y[..12] && z[12..] == NextN(b, k);
    StepParts(y, z);
    NextNStep(y, k);
    NextAddsOne(z[12..]);
  }

  lemma Apart(y: Bytes, m: nat)
    requires |y| == 16 && m < Pow256(4) && !NoWrap(y, m)
    ensures NextN(y, m) != Inc32N(y, m)
  {
    hide Next, Value, Pow256, NextN, Inc32N;
    ValueBound(y[12..]);
    var w := Pow256(4) - Value(y[12..]);
    Wrapping(y, w - 1, w);
    var u, r := NextN(y, w), m - w;
    Together(u, r);
    Inc32NShape(u, r);
    NextNAdd(y, w, r);
    Inc32NShape(y, m);
    NextMoves(y[..12]);
    assert NextN(y, m)[..12] == Next(y[..12]);
    assert Inc32N(y, m)[..12] == y[..12];
  }

  /** With a 12-byte initialization vector the low word starts at one, so it wraps only after 2^32 - 2 blocks. */
  lemma TwelveByteIv(iv: Bytes, used: nat, m: nat)
    requires |iv| == 12 && used + m + 1 < Pow256(4)
    ensures NoWrap(Inc32N(iv + [0, 0, 0, 1], used), m)
  {
    var j0 := iv + [0, 0, 0, 1];
    assert j0[12..] == [0, 0, 0, 1];
    ValueOne();
    Inc32NShape(j0, used);
    ValueNextN(j0[12..], used);
    assert Inc32N(j0, used)[12..] == NextN(j0[12..], used);
  }

  lemma ValueOne()
    ensures Value([0, 0, 0, 1]) == 1
  {
    var z: bv8, o: bv8 := 0, 1;
    SmallBytes(z, o);
    assert [z][..0] == [];
    assert [z, z][..1] == [z];
    assert [z, z, z][..2] == [z, z];
    assert [z, z, z, o][..3] == [z, z, z];
    assert Value([z]) == 0;
    assert Value([z, z]) == 0;
    assert Value([z, z, z]) == 0;
  }

  lemma SmallBytes(z: bv8, o: bv8)
    requires z == 0 && o == 1
    ensures z as nat == 0 && o as nat == 1
  {}

  /** The keystream of a fast call that starts at counter block y. */
  ghost function FastBlocks(enc: Cipher, y: Bytes): Blocks {
    (k: nat) => enc(NextN(y, k + 1))
  }

  lemma FastBlockAt(enc: Cipher, y: Bytes, k: nat)
    ensures FastBlocks(enc, y)(k) == enc(NextN(y, k + 1))
  {}

  lemma FastWide(enc: Cipher, y: Bytes)
    requires Block16(enc) && |y| == 16
    ensures Wide(FastBlocks(enc, y), 16)
  {
    forall k: nat
      ensures |FastBlocks(enc, y)(k)| == 16
    {
      FastBlockAt(enc, y, k);
    }
  }

  lemma {:induction false} Inc32NAdd(y: Bytes, m: nat, k: nat)
    requires |y| == 16
    ensures Inc32N(Inc32N(y, m), k) == Inc32N(y, m + k)
  {
    hide Inc32;
    if k > 0 {
      Inc32NAdd(y, m, k - 1);
    }
  }

  /** While the low word does not wrap, the fast keystream is the keystream of the message. */
  lemma FastSame(enc: Cipher, j0: Bytes, used: nat, y: Bytes, text: Bytes)
    requires Block16(enc) && |j0| == 16 && y == Inc32N(j0, used) && |text| % 16 == 0 && NoWrap(y, |text| / 16)
    requires Wide(GcmBlocks(enc, j0), 16) && Wide(FastBlocks(enc, y), 16)
    ensures XorStream(FastBlocks(enc, y), 16, 0, text) == XorStream(GcmBlocks(enc, j0), 16, BlockStart(16, used), text)
  {
    hide XorStream, NextN, Inc32N, Wide;
    forall k | 0 <= k && 16 * k < |text|
      ensures Agree(FastBlocks(enc, y), 0, GcmBlocks(enc, j0), used, k)
    {
      Together(y, k + 1);
      Inc32NAdd(j0, used, k + 1);
    }
    SameBlocks(FastBlocks(enc, y), 0, GcmBlocks(enc, j0), used, text);
    assert BlockStart(16, 0) == 0;
  }

  lemma FastPosition(j0: Bytes, used: nat, y: Bytes, m: nat)
    requires |j0| == 16 && y == Inc32N(j0, used) && m < Pow256(4)
    ensures NextN(y, m) == Inc32N(j0, used + m) <==> NoWrap(y, m)
  {
    hide NextN, Inc32N;
    Inc32NAdd(j0, used, m);
    FastCounterExactly(y, m);
  }
}
