/** The two implementations that register the names AES128, AES192 and AES256. */
module SameCipher {
  import opened Words
  import opened RijndaelSpec
  import opened AesTables
  import Aes
  import Rijndael

  /** The same key is set in aes.cc and in rijndael.cc with 16-byte blocks. */
  ghost predicate Paired(a: Aes.Aes, r: Rijndael.Rijndael)
    reads a, a.rk, a.rkd, r, r.rk, r.rkb
  {
    a.Keyed() && r.Keyed() && r.nb == 4 && a.key == r.key
  }

  /** Every block is encrypted alike. */
  method EncryptBoth(a: Aes.Aes, r: Rijndael.Rijndael, x: array<bv8>, out: array<bv8>, other: array<bv8>)
    requires Paired(a, r) && x.Length == out.Length == other.Length == 16
    requires out != other && out != x && other != x && out != r.rkb && other != r.rkb
    modifies out, other
    ensures out[..] == other[..]
  {
    hide *;
    SameKeys(a, r);
    a.Encrypt(out, x);
    r.Encrypt(other, x);
    assert out[..16] == out[..] && other[..16] == other[..];
  }

  /** Every block is decrypted alike. */
  method DecryptBoth(a: Aes.Aes, r: Rijndael.Rijndael, x: array<bv8>, out: array<bv8>, other: array<bv8>)
    requires Paired(a, r) && x.Length == out.Length == other.Length == 16
    requires out != other && out != x && other != x && out != r.rkb && other != r.rkb
    modifies out, other
    ensures out[..] == other[..]
  {
    hide *;
    SameKeys(a, r);
    a.Decrypt(out, x);
    r.Decrypt(other, x);
    assert out[..16] == out[..] && other[..16] == other[..];
  }

  /** What one of them encrypts, the other one decrypts. */
  method Across(a: Aes.Aes, r: Rijndael.Rijndael, x: array<bv8>, out: array<bv8>, aesFirst: bool)
    requires Paired(a, r) && x.Length == out.Length == 16 && out != x && out != r.rkb
    modifies out
    ensures out[..] == x[..]
  {
    hide *;
    SameKeys(a, r);
    ghost var p := x[..];
    assert x[..16] == p;
    RoundTrip(p, RoundKeys(a.key, a.nk, 4), 4, a.nr);
    if aesFirst {
      a.Encrypt(out, x);
      r.Decrypt(out, out);
    } else {
      r.Encrypt(out, x);
      a.Decrypt(out, out);
    }
    assert out[..16] == out[..];
  }

  lemma SameKeys(a: Aes.Aes, r: Rijndael.Rijndael)
    requires Paired(a, r)
    ensures a.Keyed() && r.Keyed() && r.nb == 4 && a.key == r.key && a.nk == r.nk && a.nr == r.nr
    ensures Key(a.key, a.nk) && Columns(4) && 0 < a.nr <= 14
    ensures Keys(RoundKeys(a.key, a.nk, 4), 4, a.nr) && forall s: Bytes :: |s| == 16 ==> State(s, 4)
  {
    assert Columns(4);
  }

  /** The words of aes.cc and the rows of rijndael.cc hold the same round keys: word j of key i is column j of its four
      rows. */
  lemma SameSchedule(a: Aes.Aes, r: Rijndael.Rijndael, i: nat, j: nat)
    requires Paired(a, r) && i <= a.nr && j < 4
    ensures a.rk.Length == 72 && i < 15 && r.rk.Length0 == 15 && r.rk.Length1 == 4
    ensures var w := Rijndael.KeyRows(r.rk, i);
            Split(a.rk[4 * i + j]) == Col(w.r0[j], w.r1[j], w.r2[j], w.r3[j])
  {
    hide *;
    SameKeys(a, r);
    r.KeysHeld();
    r.KeyHeld(i);
    a.HeldWord(i, j);
    ghost var k := RoundKeys(r.key, r.nk, 4)[i];
    r.KeyIs(i);
    Rijndael.HeldColumn(Rijndael.KeyRows(r.rk, i), k, j);
    RoundKeyAt(r.key, r.nk, 4, i, j, 0);
    RoundKeyAt(r.key, r.nk, 4, i, j, 1);
    RoundKeyAt(r.key, r.nk, 4, i, j, 2);
    RoundKeyAt(r.key, r.nk, 4, i, j, 3);
    assert i * 4 + j == 4 * i + j;
    ColumnIs(Word(r.key, r.nk, 4 * i + j));
  }

  lemma ColumnIs(c: Col)
    ensures c == Col(ColByte(c, 0), ColByte(c, 1), ColByte(c, 2), ColByte(c, 3))
  {}
}
