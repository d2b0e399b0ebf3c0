/** The 64-bit index pattern of the memory test (pattern.h) and its inverse. */
module Mixer {
  import opened Words

  const WORD := 0x1_0000_0000_0000_0000

  /** Bitwise exclusive or and right shift, bit by bit. */
  function Xor(a: nat, b: nat): nat
    decreases a + b
  {
    if a + b == 0 then 0 else (a + b) % 2 + 2 * Xor(a / 2, b / 2)
  }

  function Shr(x: nat, k: nat): nat {
    if k == 0 then x else Shr(x / 2, k - 1)
  }

  lemma {:induction false} XorZero(a: nat)
    ensures Xor(a, 0) == a && Xor(0, a) == a
  {
    if a > 0 {
      XorZero(a / 2);
    }
  }

  lemma {:induction false} XorSelf(a: nat)
    ensures Xor(a, a) == 0
  {
    if a > 0 {
      XorSelf(a / 2);
    }
  }

  lemma {:induction false} XorAssoc(a: nat, b: nat, c: nat)
    ensures Xor(Xor(a, b), c) == Xor(a, Xor(b, c))
    decreases a + b + c
  {
    if a + b + c > 0 {
      XorAssoc(a / 2, b / 2, c / 2);
      var p, q := Xor(a, b), Xor(b, c);
      XorHalf(a, b);
      XorHalf(b, c);
      XorHalf(p, c);
      XorHalf(a, q);
      Parity(p, c, a, q, a, b, c);
      Halves(Xor(p, c), Xor(a, q));
    }
  }

  lemma Parity(p: nat, c1: nat, a1: nat, q: nat, a: nat, b: nat, c: nat)
    requires p % 2 == (a + b) % 2 && q % 2 == (b + c) % 2 && a1 == a && c1 == c
    ensures (p + c1) % 2 == (a1 + q) % 2
  {
  }

  lemma Halves(x: nat, y: nat)
    requires x / 2 == y / 2 && x % 2 == y % 2
    ensures x == y
  {
  }

  lemma XorHalf(a: nat, b: nat)
    ensures Xor(a, b) / 2 == Xor(a / 2, b / 2) && Xor(a, b) % 2 == (a + b) % 2
  {
  }

  lemma {:induction false} XorBound(a: nat, b: nat, k: nat)
    requires a < Pow2(k) && b < Pow2(k)
    ensures Xor(a, b) < Pow2(k)
  {
    if k > 0 {
      XorBound(a / 2, b / 2, k - 1);
      XorHalf(a, b);
    }
  }

  lemma {:induction false} ShrXor(a: nat, b: nat, k: nat)
    ensures Shr(Xor(a, b), k) == Xor(Shr(a, k), Shr(b, k))
  {
    if k > 0 {
      XorHalf(a, b);
      ShrXor(a / 2, b / 2, k - 1);
    }
  }

  lemma {:induction false} ShrShr(x: nat, j: nat, k: nat)
    ensures Shr(Shr(x, j), k) == Shr(x, j + k)
  {
    if j > 0 {
      ShrShr(x / 2, j - 1, k);
    }
  }

  lemma {:induction false} ShrOut(x: nat, k: nat, n: nat)
    requires x < Pow2(k) && k <= n
    ensures Shr(x, n) == 0
  {
    if k > 0 {
      ShrOut(x / 2, k - 1, n - 1);
    } else if n > 0 {
      ShrOut(x, 0, n - 1);
    }
  }

  lemma {:induction false} ShrSmaller(x: nat, k: nat)
    ensures Shr(x, k) <= x
  {
    if k > 0 {
      ShrSmaller(x / 2, k - 1);
    }
  }

  function Xor64(a: u64, b: u64): (r: u64)
    ensures r == Xor(a, b)
  {
    WordPowers();
    XorBound(a, b, 64);
    Xor(a, b)
  }

  // ----- the mixing steps and their inverses -----

  function Fold(x: u64, k: nat): u64 {
    ShrSmaller(x, k);
    Xor64(x, Shr(x, k))
  }

  function Unfold(z: u64, k: nat): u64 {
    ShrSmaller(z, k);
    ShrSmaller(z, 2 * k);
    Xor64(Xor64(z, Shr(z, k)), Shr(z, 2 * k))
  }

  /** x ^ (x >> k) is undone by z ^ (z >> k) ^ (z >> 2k) when 3k covers the word. */
  lemma UnfoldFold(x: u64, k: nat)
    requires 3 * k >= 64
    ensures Unfold(Fold(x, k), k) == x
  {
    var z, a, b := Fold(x, k), Shr(x, k), Shr(x, 2 * k);
    ShrXor(x, a, k);
    ShrShr(x, k, k);
    ShrXor(x, a, 2 * k);
    ShrShr(x, k, 2 * k);
    WordPowers();
    ShrOut(x, 64, 3 * k);
    XorZero(b);
    assert Shr(z, k) == Xor(a, b) && Shr(z, 2 * k) == b;
    XorAssoc(x, a, Xor(a, b));
    XorAssoc(a, a, b);
    XorSelf(a);
    assert Xor(z, Xor(a, b)) == Xor(x, b);
    XorAssoc(x, b, b);
    XorSelf(b);
    XorZero(x);
  }

  function Times(x: u64, c: u64): u64 {
    (x as int * c as int) % WORD
  }

  const C1: u64 := 0xbf58476d1ce4e5b9
  const C2: u64 := 0x94d049bb133111eb
  const D1: u64 := 0x96de1b173f119089
  const D2: u64 := 0x319642b2d24d8ec3
  const GOLDEN: u64 := 0x9e3779b97f4a7c15

  /** Multiplication by c is undone by multiplication by d when c * d == m * 2^64 + 1. */
  lemma TimesInverse(x: u64, c: u64, d: u64, m: int)
    requires c as int * d as int == m * WORD + 1
    ensures Times(Times(x, c), d) == x
  {
    var p := x as int * c as int;
    var q := p / WORD;
    assert p == q * WORD + Times(x, c);
    assert Times(x, c) as int * d as int == p * d as int - q * WORD * d as int;
    assert p * d as int == x as int * (c as int * d as int);
    assert x as int * (m * WORD + 1) == x as int * m * WORD + x;
    assert Times(x, c) as int * d as int == (x as int * m - q * d as int) * WORD + x;
    Remainder(x as int * m - q * d as int, x);
  }

  lemma Remainder(k: int, x: u64)
    ensures (k * WORD + x) % WORD == x
  {
  }

  // ----- the pattern -----

  /** What pass number `pass` is exclusive-ored with. */
  function Salt(pass: u32): u64 {
    Times(GOLDEN, (pass as int + 1) % 0x1_0000_0000)
  }

  function Pattern(index: u64, pass: u32): u64 {
    var x := Xor64(index, Salt(pass));
    var y := Times(Fold(x, 30), C1);
    var z := Times(Fold(y, 27), C2);
    Fold(z, 31)
  }

  function Unpattern(v: u64, pass: u32): u64 {
    var y := Times(Unfold(v, 31), D2);
    var x := Times(Unfold(y, 27), D1);
    Xor64(Unfold(x, 30), Salt(pass))
  }

  /** The pattern of every pass is undone, so no two indices share a value. */
  lemma UnpatternPattern(index: u64, pass: u32)
    ensures Unpattern(Pattern(index, pass), pass) == index
  {
    hide Fold, Unfold, Times, Salt;
    var s := Salt(pass);
    var x := Xor64(index, s);
    var y := Times(Fold(x, 30), C1);
    var z := Times(Fold(y, 27), C2);
    UnfoldFold(z, 31);
    TimesInverse(Fold(y, 27), C2, D2, 0x1cd336eda85f1453);
    UnfoldFold(y, 27);
    TimesInverse(Fold(x, 30), C1, D1, 0x70c3bca78f27f46c);
    UnfoldFold(x, 30);
    XorAssoc(index, s, s);
    XorSelf(s);
    XorZero(index);
  }

  lemma PatternInjective(i: u64, j: u64, pass: u32)
    requires Pattern(i, pass) == Pattern(j, pass)
    ensures i == j
  {
    hide Pattern, Unpattern;
    UnpatternPattern(i, pass);
    UnpatternPattern(j, pass);
  }
}
