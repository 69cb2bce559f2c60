/** SBOX1 of Camellia as its specification derives it: a linear map, the inverse in GF(2^8), another linear map. */
module CamelliaBox {
  import opened Words
  import opened CamelliaTables

  /** The linear map f in front of the inverse. */
  function First(b: bv8): bv8 {
    (if b & 0x01 != 0 then 0x32 else 0) ^ (if b & 0x02 != 0 then 0x48 else 0)
    ^ (if b & 0x04 != 0 then 0x81 else 0) ^ (if b & 0x08 != 0 then 0x24 else 0)
    ^ (if b & 0x10 != 0 then 0x09 else 0) ^ (if b & 0x20 != 0 then 0x30 else 0)
    ^ (if b & 0x40 != 0 then 0x84 else 0) ^ (if b & 0x80 != 0 then 0x42 else 0)
  }

  /** The linear map h behind it. */
  function Last(b: bv8): bv8 {
    (if b & 0x01 != 0 then 0x14 else 0) ^ (if b & 0x02 != 0 then 0x28 else 0)
    ^ (if b & 0x04 != 0 then 0xc1 else 0) ^ (if b & 0x08 != 0 then 0x82 else 0)
    ^ (if b & 0x10 != 0 then 0x20 else 0) ^ (if b & 0x20 != 0 then 0x09 else 0)
    ^ (if b & 0x40 != 0 then 0xd0 else 0) ^ (if b & 0x80 != 0 then 0x06 else 0)
  }

  /** What undoes h. */
  function Unlast(b: bv8): bv8 {
    (if b & 0x01 != 0 then 0x32 else 0) ^ (if b & 0x02 != 0 then 0xf7 else 0)
    ^ (if b & 0x04 != 0 then 0x77 else 0) ^ (if b & 0x08 != 0 then 0x12 else 0)
    ^ (if b & 0x10 != 0 then 0x76 else 0) ^ (if b & 0x20 != 0 then 0x10 else 0)
    ^ (if b & 0x40 != 0 then 0xc9 else 0) ^ (if b & 0x80 != 0 then 0xff else 0)
  }

  /** The element of GF(2^8) that eight bits stand for: two elements of GF(2^4), over powers of beta to the 238. */
  function Element(b: bv8): bv8 {
    (if b & 0x01 != 0 then 0x01 else 0) ^ (if b & 0x02 != 0 then 0x6c else 0)
    ^ (if b & 0x04 != 0 then 0x12 else 0) ^ (if b & 0x08 != 0 then 0x07 else 0)
    ^ (if b & 0x10 != 0 then 0x02 else 0) ^ (if b & 0x20 != 0 then 0xd8 else 0)
    ^ (if b & 0x40 != 0 then 0x24 else 0) ^ (if b & 0x80 != 0 then 0x0e else 0)
  }

  /** beta a, with beta^8 + beta^6 + beta^5 + beta^3 + 1 = 0. */
  function Beta(a: bv8): bv8 { (a << 1) ^ (if a & 0x80 != 0 then 0x69 else 0) }

  /** The product in that field. */
  function Product(a: bv8, b: bv8): bv8 {
    var a1 := Beta(a);
    var a2 := Beta(a1);
    var a3 := Beta(a2);
    var a4 := Beta(a3);
    var a5 := Beta(a4);
    var a6 := Beta(a5);
    var a7 := Beta(a6);
    (if b & 0x01 != 0 then a else 0) ^ (if b & 0x02 != 0 then a1 else 0)
    ^ (if b & 0x04 != 0 then a2 else 0) ^ (if b & 0x08 != 0 then a3 else 0)
    ^ (if b & 0x10 != 0 then a4 else 0) ^ (if b & 0x20 != 0 then a5 else 0)
    ^ (if b & 0x40 != 0 then a6 else 0) ^ (if b & 0x80 != 0 then a7 else 0)
  }

  /** The bits whose element is the inverse; zero stays zero. */
  predicate Inverted(u: bv8, v: bv8) {
    if u == 0 then v == 0 else Product(Element(u), Element(v)) == 1
  }

  lemma UnlastIs(b: bv8)
    ensures Last(Unlast(b)) == b && Unlast(Last(b)) == b
  {}

  lemma BoxInverts(b: bv8)
    ensures Inverted(First(XorByte(b, 0xc5)), Unlast(XorByte(Box1(b), 0x6e)))
  {}

  /** SBOX1 of every byte: h of the inverse of f of the byte, with the two constants of the specification. */
  lemma BoxConforms(b: bv8)
    ensures exists v :: Inverted(First(XorByte(b, 0xc5)), v) && Box1(b) == XorByte(Last(v), 0x6e)
  {
    hide *;
    var v := Unlast(XorByte(Box1(b), 0x6e));
    BoxInverts(b);
    UnlastIs(XorByte(Box1(b), 0x6e));
    XorByteTwice(Box1(b), 0x6e);
    assert Box1(b) == XorByte(Last(v), 0x6e);
  }
}
