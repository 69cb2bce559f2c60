/** The exponential and logarithm tables of SAFER: powers of 45 modulo 257 (impl/block/safer/gentables.c). */
module SaferTables {
  import opened Arithmetic

  /** The product modulo 257. */
  function Prod(a: nat, b: nat): (r: nat)
    ensures r < 257
  {
    (a * b) % 257
  }

  /** 45 to the power i, modulo 257. */
  function Power(i: nat): (r: nat)
    ensures r < 257
  {
    if i == 0 then 1 else Prod(Power(i - 1), 45)
  }

  lemma ModAdd(x: nat, k: nat)
    ensures (x + 257 * k) % 257 == x % 257
  {}

  lemma ProdMod(a: nat, b: nat)
    ensures Prod(a % 257, b) == Prod(a, b)
  {
    var q, r := a / 257, a % 257;
    assert a * b == r * b + 257 * (q * b) by {
      assert a == r + 257 * q;
      assert (r + 257 * q) * b == r * b + 257 * q * b;
      assert 257 * q * b == 257 * (q * b);
    }
    ModAdd(r * b, q * b);
  }

  lemma ProdComm(a: nat, b: nat)
    ensures Prod(a, b) == Prod(b, a)
  {}

  lemma ProdAssoc(a: nat, b: nat, c: nat)
    ensures Prod(Prod(a, b), c) == Prod(a, Prod(b, c))
  {
    ProdMod(a * b, c);
    ProdMod(b * c, a);
    assert Prod(Prod(a, b), c) == Prod(a * b, c);
    assert Prod(Prod(b, c), a) == Prod(b * c, a);
    assert a * b * c == b * c * a;
    ProdComm(a, Prod(b, c));
  }

  lemma {:induction false} PowerAdd(i: nat, j: nat)
    ensures Power(i + j) == Prod(Power(i), Power(j))
  {
    hide Prod;
    if j == 0 {
      One(Power(i));
    } else {
      PowerAdd(i, j - 1);
      ProdAssoc(Power(i), Power(j - 1), 45);
    }
  }

  lemma One(a: nat)
    requires a < 257
    ensures Prod(a, 1) == a
  {}

  lemma Doubled(i: nat, j: nat, p: nat, q: nat)
    requires j == 2 * i && Power(i) == p && p * p % 257 == q
    ensures Power(j) == q
  {
    hide Power;
    PowerAdd(i, i);
  }

  /** 45 to the power 128 is -1. */
  lemma HalfWay()
    ensures Power(128) == 256 && Power(256) == 1
  {
    hide Power;
    First();
    Doubled(1, 2, 45, 226);
    Doubled(2, 4, 226, 190);
    Doubled(4, 8, 190, 120);
    Doubled(8, 16, 120, 8);
    Doubled(16, 32, 8, 64);
    Doubled(32, 64, 64, 241);
    Doubled(64, 128, 241, 256);
    Doubled(128, 256, 256, 1);
  }

  lemma First()
    ensures Power(1) == 45
  {
    assert Power(0) == 1;
  }

  lemma {:induction false} Multiples(m: nat)
    ensures Power(128 * m) == if m % 2 == 0 then 1 else 256
  {
    hide Power;
    if m == 0 {
      Zeroth();
    } else {
      Multiples(m - 1);
      HalfWay();
      PowerAdd(128 * (m - 1), 128);
      assert 128 * m == 128 * (m - 1) + 128;
      assert Prod(1, 256) == 256 && Prod(256, 256) == 1;
    }
  }

  lemma Zeroth()
    ensures Power(0) == 1
  {}

  /** No power m h below 256 is one: doubled until h is 128 it would be -1. */
  lemma {:induction false} NotOne(d: nat, m: nat, h: nat)
    requires d == m * h && m % 2 == 1
    requires h == 1 || h == 2 || h == 4 || h == 8 || h == 16 || h == 32 || h == 64 || h == 128
    ensures Power(d) != 1
    decreases 128 - h
  {
    hide Power, Prod;
    if h == 128 {
      Multiples(m);
    } else if Power(d) == 1 {
      PowerAdd(d, d);
      One(1);
      assert 2 * d == m * (2 * h);
      NotOne(2 * d, m, 2 * h);
    }
  }

  lemma {:induction false} OrderFrom(d: nat, m: nat, h: nat)
    requires 0 < d < 256 && d == m * h
    requires h == 1 || h == 2 || h == 4 || h == 8 || h == 16 || h == 32 || h == 64 || h == 128
    ensures Power(d) != 1
    decreases m
  {
    if m % 2 == 1 {
      NotOne(d, m, h);
    } else {
      assert m > 0;
      assert d == (m / 2) * (2 * h);
      assert h < 128;
      OrderFrom(d, m / 2, 2 * h);
    }
  }

  /** 45 generates the residues that are not zero: no smaller power is one. */
  lemma Order(d: nat)
    requires 0 < d < 256
    ensures Power(d) != 1
  {
    OrderFrom(d, d, 1);
  }

  lemma Cancel(a: nat, b: nat)
    requires a < 257 && b < 257 && Prod(a, 45) == Prod(b, 45)
    ensures a == b
  {
    hide Prod;
    ProdAssoc(a, 45, 40);
    ProdAssoc(b, 45, 40);
    Inverse45();
    One(a);
    One(b);
  }

  lemma Inverse45()
    ensures Prod(45, 40) == 1
  {}

  /** Different exponents below 256 give different powers. */
  lemma {:induction false} PowerInjective(i: nat, j: nat)
    requires i < j < 256
    ensures Power(i) != Power(j)
  {
    if i == 0 {
      Order(j);
    } else {
      PowerInjective(i - 1, j - 1);
      if Power(i) == Power(j) {
        Cancel(Power(i - 1), Power(j - 1));
      }
    }
  }

  lemma {:induction false} PowerPositive(i: nat)
    ensures Power(i) > 0
  {
    if i > 0 {
      PowerPositive(i - 1);
      if Power(i) == 0 {
        Cancel(Power(i - 1), 0);
      }
    }
  }

  // ---------------------------------------------------------------- the tables

  /** Entry i of the table s: 256 is stored as zero. */
  function Exp(i: nat): (r: nat)
    ensures r < 256
  {
    Power(i) % 256
  }

  lemma ExpInjective(i: nat, j: nat)
    requires i < 256 && j < 256 && Exp(i) == Exp(j)
    ensures i == j
  {
    hide Power;
    PowerPositive(i);
    PowerPositive(j);
    if i < j {
      PowerInjective(i, j);
    } else if j < i {
      PowerInjective(j, i);
    }
  }

  ghost function Images(n: nat): set<nat> {
    if n == 0 then {} else Images(n - 1) + {Exp(n - 1)}
  }

  lemma {:induction false} ImageOf(n: nat, e: nat)
    requires e in Images(n)
    ensures exists i :: 0 <= i < n && Exp(i) == e
  {
    hide Exp;
    if e != Exp(n - 1) {
      ImageOf(n - 1, e);
    }
  }

  ghost function Below(n: nat): set<nat> {
    if n == 0 then {} else Below(n - 1) + {n - 1}
  }

  lemma {:induction false} BelowIs(n: nat, e: nat)
    ensures e in Below(n) <==> e < n
    ensures |Below(n)| == n
  {
    if n > 0 {
      BelowIs(n - 1, e);
      BelowIs(n - 1, n - 1);
    }
  }

  lemma {:induction false} CountImages(n: nat)
    requires n <= 256
    ensures |Images(n)| == n && Images(n) <= Below(256)
  {
    hide Exp, Below;
    if n > 0 {
      CountImages(n - 1);
      var e := Exp(n - 1);
      BelowIs(256, e);
      if e in Images(n - 1) {
        ImageOf(n - 1, e);
        var i :| 0 <= i < n - 1 && Exp(i) == e;
        ExpInjective(i, n - 1);
      }
    }
  }

  lemma SameSet(a: set<nat>, b: set<nat>)
    requires a <= b && |a| == |b|
    ensures a == b
  {
    assert b == a + (b - a);
    assert |b| == |a| + |b - a|;
  }

  /** Every byte is a power. */
  lemma ExpSurjective(e: nat)
    requires e < 256
    ensures exists i :: 0 <= i < 256 && Exp(i) == e
  {
    hide Exp, Images, Below;
    CountImages(256);
    BelowIs(256, e);
    SameSet(Images(256), Below(256));
    ImageOf(256, e);
  }

  /** The exponent of a byte. */
  ghost function Log(e: nat): (i: nat)
    requires e < 256
    ensures i < 256 && Exp(i) == e
  {
    ExpSurjective(e);
    var i :| 0 <= i < 256 && Exp(i) == e;
    i
  }

  lemma LogExp(i: nat)
    requires i < 256
    ensures Log(Exp(i)) == i
  {
    hide Exp;
    ExpInjective(i, Log(Exp(i)));
  }

  /** The entries that are known when n powers have been stored. */
  ghost predicate Filled(s: seq<nat>, sinv: seq<nat>, n: nat) {
    && |s| == |sinv| == 256 && n <= 256
    && (forall i :: 0 <= i < n ==> s[i] == Exp(i))
    && (forall i :: 0 <= i < n ==> sinv[Exp(i)] == i)
  }

  /** generate_tables: each power from the one before it; a stored zero stands for 256. */
  method GenerateTables(s: array<nat>, sinv: array<nat>)
    requires s.Length == sinv.Length == 256 && s != sinv
    modifies s, sinv
    ensures forall i :: 0 <= i < 256 ==> s[i] == Exp(i)
    ensures forall e :: 0 <= e < 256 ==> sinv[e] == Log(e)
  {
    hide Exp;
    s[0] := 1;
    sinv[1] := 0;
    FirstExp();
    for i := 1 to 256
      invariant Filled(s[..], sinv[..], i)
    {
      var t := s[i - 1];
      t := if t != 0 then t else 256;
      t := t * 45;
      t := t % 257;
      NextExp(i, s[i - 1]);
      Earlier(i);
      s[i] := t % 256;
      sinv[t % 256] := i;
    }
    HalfExp();
    s[128] := 0;
    sinv[0] := 128;
    forall e | 0 <= e < 256
      ensures sinv[e] == Log(e)
    {
      assert sinv[Exp(Log(e))] == Log(e);
    }
  }

  lemma FirstExp()
    ensures Exp(0) == 1
  {}

  lemma HalfExp()
    ensures Exp(128) == 0
  {
    hide Power;
    HalfWay();
  }

  lemma NextExp(i: nat, e: nat)
    requires i > 0 && e == Exp(i - 1)
    ensures Exp(i) == ((if e != 0 then e else 256) * 45) % 257 % 256
  {
    hide Power;
    PowerPositive(i - 1);
    PowerNext(i, Power(i - 1));
  }

  lemma PowerNext(i: nat, p: nat)
    requires i > 0 && p == Power(i - 1)
    ensures Power(i) == (p * 45) % 257
  {}

  lemma Earlier(i: nat)
    requires i < 256
    ensures forall j :: 0 <= j < i ==> Exp(j) != Exp(i)
  {
    hide Exp;
    forall j | 0 <= j < i
      ensures Exp(j) != Exp(i)
    {
      if Exp(j) == Exp(i) {
        ExpInjective(j, i);
      }
    }
  }
}
