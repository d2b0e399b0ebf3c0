/** Machine words and their little-endian bytes. */
module Words {
  type u8 = x: int | 0 <= x < 0x100
  type u16 = x: int | 0 <= x < 0x1_0000
  type u32 = x: int | 0 <= x < 0x1_0000_0000
  type u64 = x: int | 0 <= x < 0x1_0000_0000_0000_0000

  const U32_MAX: u32 := 0xffff_ffff
  const U64_MAX: u64 := 0xffff_ffff_ffff_ffff

  datatype Option<+T> = None | Some(value: T)

  function Le16(b: seq<u8>, o: nat): u16
    requires o + 2 <= |b|
  {
    b[o] as int + 0x100 * b[o + 1] as int
  }

  function Le32(b: seq<u8>, o: nat): u32
    requires o + 4 <= |b|
  {
    b[o] as int + 0x100 * b[o + 1] as int + 0x1_0000 * b[o + 2] as int + 0x100_0000 * b[o + 3] as int
  }

  function Le64(b: seq<u8>, o: nat): u64
    requires o + 8 <= |b|
  {
    Le32(b, o) as int + 0x1_0000_0000 * Le32(b, o + 4) as int
  }

  function Shr8(v: nat, n: nat): nat {
    if n == 0 then v else Shr8(v / 0x100, n - 1)
  }

  /** The n low bytes of v, least significant first. */
  function ToLe(v: nat, n: nat): (b: seq<u8>)
    ensures |b| == n
  {
    if n == 0 then [] else [v % 0x100] + ToLe(v / 0x100, n - 1)
  }

  lemma {:induction false} ToLeAt(v: nat, n: nat, i: nat)
    requires i < n
    ensures ToLe(v, n)[i] == Shr8(v, i) % 0x100
  {
    if i > 0 {
      ToLeAt(v / 0x100, n - 1, i - 1);
    }
  }

  function Zeros(n: nat): (s: seq<u8>)
    ensures |s| == n
    ensures forall i :: 0 <= i < n ==> s[i] == 0
  {
    seq<u8>(n, _ => 0)
  }

  /** `s` with the bytes from `o` on replaced by `b`. */
  function Splice(s: seq<u8>, o: nat, b: seq<u8>): (r: seq<u8>)
    requires o + |b| <= |s|
    ensures |r| == |s|
    ensures forall i :: 0 <= i < |s| ==> r[i] == if o <= i < o + |b| then b[i - o] else s[i]
  {
    s[..o] + b + s[o + |b|..]
  }

  lemma RoundTrip16(v: u16, b: seq<u8>, o: nat)
    requires o + 2 <= |b| && b[o..o + 2] == ToLe(v, 2)
    ensures Le16(b, o) == v
  {
    var s := b[o..o + 2];
    ToLeAt(v, 2, 0);
    ToLeAt(v, 2, 1);
    assert b[o] == s[0] && b[o + 1] == s[1];
  }

  /** One digit to base 256 and what remains above it. */
  lemma Digit(v: nat, n: nat, i: nat)
    requires i < n
    ensures Shr8(v, i) == ToLe(v, n)[i] + 0x100 * Shr8(v, i + 1)
  {
    ToLeAt(v, n, i);
    ShrStep(v, i);
  }

  lemma {:induction false} ShrStep(v: nat, i: nat)
    ensures Shr8(v, i + 1) == Shr8(v, i) / 0x100
  {
    if i > 0 {
      ShrStep(v / 0x100, i - 1);
    }
  }

  ghost predicate Digits(h: seq<nat>, b: seq<u8>, o: nat) {
    && |h| > 0 && o + |h| - 1 <= |b|
    && forall i :: 0 <= i < |h| - 1 ==> h[i] == b[o + i] as int + 0x100 * h[i + 1]
  }

  lemma Assemble32(h: seq<nat>, b: seq<u8>, o: nat)
    requires |h| == 5 && Digits(h, b, o) && h[0] < 0x1_0000_0000
    ensures h[0] == Le32(b, o)
  {
    assert h[0] == b[o] as int + 0x100 * h[1] && h[1] == b[o + 1] as int + 0x100 * h[2];
    assert h[2] == b[o + 2] as int + 0x100 * h[3] && h[3] == b[o + 3] as int + 0x100 * h[4];
  }

  lemma Assemble64(h: seq<nat>, b: seq<u8>, o: nat)
    requires |h| == 9 && Digits(h, b, o) && h[0] <= U64_MAX
    ensures h[0] == Le64(b, o)
  {
    assert h[0] == b[o] as int + 0x100 * h[1] && h[1] == b[o + 1] as int + 0x100 * h[2];
    assert h[2] == b[o + 2] as int + 0x100 * h[3] && h[3] == b[o + 3] as int + 0x100 * h[4];
    assert h[4] == b[o + 4] as int + 0x100 * h[5] && h[5] == b[o + 5] as int + 0x100 * h[6];
    assert h[6] == b[o + 6] as int + 0x100 * h[7] && h[7] == b[o + 7] as int + 0x100 * h[8];
  }

  lemma StoredDigits(v: nat, b: seq<u8>, o: nat, n: nat) returns (h: seq<nat>)
    requires o + n <= |b| && b[o..o + n] == ToLe(v, n)
    ensures |h| == n + 1 && h[0] == v && Digits(h, b, o)
  {
    h := seq<nat>(n + 1, i requires 0 <= i => Shr8(v, i));
    forall i | 0 <= i < n ensures h[i] == b[o + i] as int + 0x100 * h[i + 1] {
      Digit(v, n, i);
      assert ToLe(v, n)[i] == b[o..o + n][i];
    }
  }

  lemma RoundTrip32(v: u32, b: seq<u8>, o: nat)
    requires o + 4 <= |b| && b[o..o + 4] == ToLe(v, 4)
    ensures Le32(b, o) == v
  {
    var h := StoredDigits(v, b, o, 4);
    Assemble32(h, b, o);
  }

  lemma RoundTrip64(v: u64, b: seq<u8>, o: nat)
    requires o + 8 <= |b| && b[o..o + 8] == ToLe(v, 8)
    ensures Le64(b, o) == v
  {
    var h := StoredDigits(v, b, o, 8);
    Assemble64(h, b, o);
  }

  lemma ToLeOnto(b0: u8, rest: nat, n: nat)
    ensures ToLe(b0 as int + 0x100 * rest, n + 1) == [b0] + ToLe(rest, n)
  {
    assert (b0 as int + 0x100 * rest) % 0x100 == b0 as int && (b0 as int + 0x100 * rest) / 0x100 == rest;
  }

  lemma FourOnto(a: u8, b: u8, c: u8, d: u8)
    ensures ToLe(a as int + 0x100 * (b as int + 0x100 * (c as int + 0x100 * (d as int + 0))), 4) == [a, b, c, d]
  {
    hide ToLe;
    ToLeOnto(d, 0, 0);
    ToLeOnto(c, d as int, 1);
    ToLeOnto(b, c as int + 0x100 * (d as int), 2);
    ToLeOnto(a, b as int + 0x100 * (c as int + 0x100 * (d as int)), 3);
    assert [d] + ToLe(0, 0) == [d];
    assert [c] + [d] == [c, d];
    assert [b] + [c, d] == [b, c, d];
    assert [a] + [b, c, d] == [a, b, c, d];
  }

  /** The bytes a word was read from are the bytes it is stored as. */
  lemma BytesOf32(b: seq<u8>, o: nat)
    requires o + 4 <= |b|
    ensures ToLe(Le32(b, o), 4) == b[o..o + 4]
  {
    hide ToLe;
    FourOnto(b[o], b[o + 1], b[o + 2], b[o + 3]);
    assert b[o..o + 4] == [b[o], b[o + 1], b[o + 2], b[o + 3]];
  }

  /** What the n-th byte counts. */
  function Scale(n: nat): nat {
    if n == 0 then 1 else 0x100 * Scale(n - 1)
  }

  lemma {:induction false} ToLeConcat(low: nat, high: nat, n: nat, m: nat)
    requires |ToLe(low, n)| == n && Shr8(low, n) == 0
    ensures ToLe(low + Scale(n) * high, n + m) == ToLe(low, n) + ToLe(high, m)
    decreases n
  {
    if n == 0 {
      assert ToLe(low, 0) + ToLe(high, m) == ToLe(high, m);
    } else {
      var l, h: nat := low / 0x100, Scale(n - 1) * high;
      assert Scale(n) * high == 0x100 * h;
      ToLeOnto(low % 0x100, l + h, n + m - 1);
      ToLeConcat(l, high, n - 1, m);
      assert [low % 0x100] + ToLe(l, n - 1) + ToLe(high, m) == [low % 0x100] + (ToLe(l, n - 1) + ToLe(high, m));
    }
  }

  lemma BytesOf64(b: seq<u8>, o: nat)
    requires o + 8 <= |b|
    ensures ToLe(Le64(b, o), 8) == b[o..o + 8]
  {
    var low: nat, high: nat := Le32(b, o), Le32(b, o + 4);
    BytesOf32(b, o);
    BytesOf32(b, o + 4);
    FourBytes(low);
    hide Le32, ToLe;
    ToLeConcat(low, high, 4, 4);
    assert b[o..o + 8] == b[o..o + 4] + b[o + 4..o + 8];
  }

  lemma FourBytes(low: nat)
    requires low < 0x1_0000_0000
    ensures Shr8(low, 4) == 0 && Scale(4) == 0x1_0000_0000
  {
    var v: nat := low / 0x100 / 0x100;
    assert Shr8(low, 4) == Shr8(low / 0x100, 3) == Shr8(v, 2) == Shr8(v / 0x100, 1) == v / 0x100 / 0x100;
    assert Scale(2) == 0x1_0000 && Scale(4) == 0x1_0000 * Scale(2);
  }

  // ----- powers of two -----

  function Pow2(k: nat): (p: nat)
    ensures p > 0
  {
    if k == 0 then 1 else 2 * Pow2(k - 1)
  }

  lemma {:induction false} Pow2Add(j: nat, k: nat)
    ensures Pow2(j + k) == Pow2(j) * Pow2(k)
  {
    if j > 0 {
      Pow2Add(j - 1, k);
    }
  }

  lemma SmallPowers()
    ensures Pow2(3) == 8 && Pow2(4) == 16 && Pow2(7) == 0x80
  {
    assert Pow2(2) == 4;
    assert Pow2(5) == 4 * Pow2(3);
  }

  lemma WordPowers()
    ensures Pow2(8) == 0x100 && Pow2(16) == 0x1_0000 && Pow2(32) == 0x1_0000_0000
    ensures Pow2(64) == 0x1_0000_0000_0000_0000
  {
    SmallPowers();
    hide Pow2;
    Pow2Add(4, 4);
    Pow2Add(8, 8);
    Pow2Add(16, 16);
    Pow2Add(32, 32);
  }
}
