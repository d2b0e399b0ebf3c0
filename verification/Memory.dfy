/** Byte-addressed guest RAM. */
module Memory {
  import opened Words

  type Ram = map<int, u8>

  /** Bytes nobody has stored yet read as zero. */
  function At(m: Ram, a: int): u8 {
    if a in m then m[a] else 0
  }

  function Load(m: Ram, a: int, n: nat): (b: seq<u8>)
    ensures |b| == n
    ensures forall i :: 0 <= i < n ==> b[i] == At(m, a + i)
  {
    seq<u8>(n, i requires 0 <= i < n => At(m, a + i))
  }

  function Store(m: Ram, a: int, b: seq<u8>): (r: Ram)
    ensures forall x :: At(r, x) == if a <= x < a + |b| then b[x - a] else At(m, x)
    decreases |b|
  {
    if b == [] then m else Store(m[a := b[0]], a + 1, b[1..])
  }

  predicate Apart(a: int, n: int, b: int, m: int) {
    a + n <= b || b + m <= a
  }

  lemma LoadStored(m: Ram, a: int, b: seq<u8>)
    ensures Load(Store(m, a, b), a, |b|) == b
  {
  }

  lemma LoadApart(m: Ram, a: int, b: seq<u8>, c: int, n: nat)
    requires Apart(a, |b|, c, n)
    ensures Load(Store(m, a, b), c, n) == Load(m, c, n)
  {
  }
}
