/** The APFS object checksum: the deferred-modulo loop of apfs-Util.cpp and the
    unbounded check of apfs_space_probe.py. */
module Fletcher {
  import opened Words
  import W = Wheel

  const M := 0xffff_ffff
  const WORD := 0x1_0000_0000_0000_0000

  /** A block holds up to 65536 bytes (apfs-DiskStruct.h), 16384 words. */
  const MAX_WORDS := 16384

  /** The two running sums over unbounded integers. */
  function Sums(data: seq<u32>, a: nat, c: nat): (nat, nat) {
    if data == [] then (a, c)
    else Sums(data[1..], a + data[0] as int, c + a + data[0] as int)
  }

  lemma {:induction false} SumsConcat(x: seq<u32>, y: seq<u32>, a: nat, c: nat)
    ensures Sums(x + y, a, c) == Sums(y, Sums(x, a, c).0, Sums(x, a, c).1)
  {
    if x == [] {
      assert x + y == y;
    } else {
      assert (x + y)[1..] == x[1..] + y;
      SumsConcat(x[1..], y, a + x[0] as int, c + a + x[0] as int);
    }
  }

  lemma SumsSnoc(data: seq<u32>, k: nat, a: nat, c: nat)
    requires k < |data|
    ensures var (s, t) := Sums(data[..k], a, c);
      Sums(data[..k + 1], a, c) == (s + data[k] as int, t + s + data[k] as int)
  {
    assert data[..k + 1] == data[..k] + [data[k]];
    assert [data[k]][1..] == [];
    SumsConcat(data[..k], [data[k]], a, c);
  }

  /** How large the sums of k words can get. */
  lemma {:induction false} SumsBounded(data: seq<u32>, a: nat, c: nat)
    requires a <= M && c <= M
    ensures Sums(data, a, c).0 <= (|data| + 1) * M
    ensures Sums(data, a, c).1 <= (|data| + 1) * (|data| + 1) * M
    decreases |data|
  {
    if data != [] {
      var k := |data| - 1;
      SumsBounded(data[..k], a, c);
      SumsSnoc(data, k, a, c);
      assert data[..k + 1] == data;
      Square(k);
    }
  }

  lemma Square(k: nat)
    ensures (k + 1) * (k + 1) * M + (k + 2) * M <= (k + 2) * (k + 2) * M
  {
    assert (k + 2) * (k + 2) == (k + 1) * (k + 1) + 2 * k + 3;
    assert (k + 2) * (k + 2) * M == (k + 1) * (k + 1) * M + (2 * k + 3) * M;
  }

  /** The sums modulo M depend on the starting sums modulo M only. */
  lemma {:induction false} SumsCongruent(data: seq<u32>, a: nat, c: nat, a1: nat, c1: nat)
    requires a % M == a1 % M && c % M == c1 % M
    ensures Sums(data, a, c).0 % M == Sums(data, a1, c1).0 % M
    ensures Sums(data, a, c).1 % M == Sums(data, a1, c1).1 % M
  {
    if data != [] {
      var d := data[0] as int;
      AddCongruent(a, a1, d, d);
      AddCongruent(c, c1, a + d, a1 + d);
      SumsCongruent(data[1..], a + d, c + a + d, a1 + d, c1 + a1 + d);
    }
  }

  lemma AddCongruent(x: nat, y: nat, p: nat, q: nat)
    requires x % M == y % M && p % M == q % M
    ensures (x + p) % M == (y + q) % M
  {
  }

  function Packed(s: (nat, nat)): u64 {
    s.1 % M * 0x1_0000_0000 + s.0 % M
  }

  /** The sums after one more word, and that both fit 64 bits. */
  lemma SumsFit(data: seq<u32>, k: nat, a: nat, c: nat)
    requires k < |data| <= MAX_WORDS && a <= M && c <= M
    ensures var (s, t) := Sums(data[..k], a, c);
      && Sums(data[..k + 1], a, c) == (s + data[k] as int, t + s + data[k] as int)
      && s + data[k] as int < WORD && t + s + data[k] as int < WORD
  {
    hide Sums;
    SumsSnoc(data, k, a, c);
    SumsBounded(data[..k + 1], a, c);
    NoOverflow(k + 1);
  }

  /** The loop with 64-bit accumulators, reduced only at the end. */
  method Fletcher64(data: seq<u32>, init: u64) returns (r: u64)
    requires |data| <= MAX_WORDS
    ensures r == Packed(Sums(data, init % 0x1_0000_0000, init / 0x1_0000_0000))
  {
    var sum1, sum2 := init % 0x1_0000_0000, init / 0x1_0000_0000;
    var k := 0;
    assert data[..0] == [];
    while k < |data|
      invariant 0 <= k <= |data|
      invariant (sum1, sum2) == Sums(data[..k], init % 0x1_0000_0000, init / 0x1_0000_0000)
    {
      SumsFit(data, k, init % 0x1_0000_0000, init / 0x1_0000_0000);
      sum1 := (sum1 as int + data[k] as int) % WORD;
      sum2 := (sum2 as int + sum1 as int) % WORD;
      k := k + 1;
    }
    assert data[..k] == data;
    sum1, sum2 := sum1 % M, sum2 % M;
    r := sum2 * 0x1_0000_0000 + sum1;
  }

  /** No 64-bit accumulator overflows on a block of legal size. */
  lemma NoOverflow(k: nat)
    requires k <= MAX_WORDS
    ensures (k + 1) * M < WORD && (k + 1) * (k + 1) * M < WORD
  {
    var n := k + 1;
    BoundedSquare(n);
    assert n * n * M <= (MAX_WORDS + 1) * (MAX_WORDS + 1) * M;
  }

  lemma BoundedSquare(n: nat)
    requires n <= MAX_WORDS + 1
    ensures n * n <= (MAX_WORDS + 1) * (MAX_WORDS + 1)
  {
    var k := MAX_WORDS + 1;
    if 0 < n < k {
      W.Laps(n, k, n);
      W.Laps(n, k, k);
    }
  }

  // ----- verifying a block -----

  function WordsOf(b: seq<u8>): (w: seq<u32>)
    ensures |w| == |b| / 4
  {
    seq<u32>(|b| / 4, i requires 0 <= i < |b| / 4 => Le32(b, 4 * i))
  }

  /** The check with unbounded integers: the first two words are summed last. */
  predicate Valid(b: seq<u8>)
    requires |b| >= 8
  {
    var w := WordsOf(b);
    var (a, c) := Sums(w[2..] + w[..2], 0, 0);
    && (exists i :: 0 <= i < 8 && b[i] != 0) && (exists i :: 0 <= i < 8 && b[i] != 0xff)
    && a % M == 0 && c % M == 0
  }

  lemma ChecksumWord(b: seq<u8>)
    requires |b| >= 8
    ensures Le64(b, 0) == 0 <==> forall i :: 0 <= i < 8 ==> b[i] == 0
    ensures Le64(b, 0) == U64_MAX <==> forall i :: 0 <= i < 8 ==> b[i] == 0xff
  {
  }

  /** The two-call form agrees with the unbounded check on every block from 8
      bytes up to the largest APFS block; bytes after the last whole word are
      not looked at. */
  method VerifyBlock(b: seq<u8>) returns (ok: bool)
    requires 8 <= |b| <= 4 * MAX_WORDS
    ensures ok == Valid(b)
  {
    var w := WordsOf(b);
    ChecksumWord(b);
    var cs := Le64(b, 0);
    if cs == 0 {
      return false;
    }
    if cs == U64_MAX {
      return false;
    }
    cs := Fletcher64(w[2..], 0);
    ghost var (a, c) := Sums(w[2..], 0, 0);
    assert cs % 0x1_0000_0000 == a % M && cs / 0x1_0000_0000 == c % M;
    SumsConcat(w[2..], w[..2], 0, 0);
    SumsCongruent(w[..2], a % M, c % M, a, c);
    cs := Fletcher64(w[..2], cs);
    ok := cs == 0;
  }

  /** The probe's loop over the reordered words, with unbounded accumulators. */
  method ProbeValid(b: seq<u8>) returns (ok: bool)
    requires |b| >= 8 && |b| % 4 == 0
    ensures ok == Valid(b)
  {
    if (forall i :: 0 <= i < 8 ==> b[i] == 0) || (forall i :: 0 <= i < 8 ==> b[i] == 0xff) {
      return false;
    }
    var w := WordsOf(b);
    var x := w[2..] + w[..2];
    var a, c, k := 0, 0, 0;
    assert x[..0] == [];
    while k < |x|
      invariant 0 <= k <= |x| && (a, c) == Sums(x[..k], 0, 0)
    {
      SumsSnoc(x, k, 0, 0);
      a := a + x[k] as int;
      c := c + a;
      k := k + 1;
    }
    assert x[..k] == x;
    ok := a % M == 0 && c % M == 0;
  }

  // ----- what the check tells -----

  function Total(data: seq<u32>): nat {
    if data == [] then 0 else data[0] as int + Total(data[1..])
  }

  /** The words, each counted as often as there are words from it on. */
  function Weighted(data: seq<u32>): nat {
    if data == [] then 0 else |data| * data[0] as int + Weighted(data[1..])
  }

  /** The running sums in closed form. */
  lemma {:induction false} SumsAreWeighted(data: seq<u32>, a: nat, c: nat)
    ensures Sums(data, a, c) == (a + Total(data), c + |data| * a + Weighted(data))
    decreases |data|
  {
    if data != [] {
      var n, d: nat := |data|, data[0];
      SumsAreWeighted(data[1..], a + d, c + a + d);
      assert (n - 1) * (a + d) + a + d == n * (a + d) == n * a + n * d;
    }
  }

  lemma {:induction false} TotalConcat(x: seq<u32>, y: seq<u32>)
    ensures Total(x + y) == Total(x) + Total(y)
  {
    if x == [] {
      assert x + y == y;
    } else {
      assert (x + y)[1..] == x[1..] + y;
      TotalConcat(x[1..], y);
    }
  }

  lemma {:induction false} TotalUpdated(x: seq<u32>, i: nat, v: u32)
    requires i < |x|
    ensures Total(x[i := v]) + x[i] as int == Total(x) + v as int
  {
    if i > 0 {
      assert x[i := v][1..] == x[1..][i - 1 := v];
      TotalUpdated(x[1..], i - 1, v);
    }
  }

  /** A block is valid exactly when its first eight bytes are neither all 0 nor
      all FFh, and, with the checksum's two words put last, both the words and the
      words weighted by their distance to the end add up to multiples of 2^32 - 1. */
  lemma ValidMeans(b: seq<u8>)
    requires |b| >= 8
    ensures Valid(b) <==>
      && Le64(b, 0) != 0 && Le64(b, 0) != 0xffff_ffff_ffff_ffff
      && Total(WordsOf(b)) % 0xffff_ffff == 0 && Weighted(WordsOf(b)[2..] + WordsOf(b)[..2]) % 0xffff_ffff == 0
  {
    var w := WordsOf(b);
    ChecksumWord(b);
    SumsAreWeighted(w[2..] + w[..2], 0, 0);
    TotalConcat(w[2..], w[..2]);
    TotalConcat(w[..2], w[2..]);
    assert w[..2] + w[2..] == w;
    hide Sums, Total, Weighted, Le64, WordsOf;
  }

  /** One word changed, by anything but a multiple of 2^32 - 1, is always noticed. */
  lemma OneWordNoticed(b: seq<u8>, c: seq<u8>, i: nat, v: u32)
    requires |b| >= 8 && |c| >= 8 && i < |WordsOf(b)| && WordsOf(c) == WordsOf(b)[i := v]
    requires v % M != WordsOf(b)[i] % M
    ensures !(Valid(b) && Valid(c))
  {
    hide Valid, WordsOf, Total, Weighted, Le64;
    ValidMeans(b);
    ValidMeans(c);
    TotalUpdated(WordsOf(b), i, v);
    if Valid(b) && Valid(c) {
      SameRest(Total(WordsOf(c)), Total(WordsOf(b)), WordsOf(b)[i], v);
    }
  }

  lemma SameRest(s: nat, t: nat, x: nat, y: nat)
    requires s + x == t + y && s % M == t % M == 0
    ensures x % M == y % M
  {
  }
}
