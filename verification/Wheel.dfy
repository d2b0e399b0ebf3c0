/** Running counts seen through a ring of d slots: entry k lies in slot k mod d
    and carries the phase tag of its lap.  Tags start at 1; the lap before the
    first, whose entries were never written, has tag 0. */
module Wheel {
  function Slot(k: int, d: int): (s: int)
    requires d > 0
    ensures 0 <= s < d
  {
    k % d
  }

  function Tag(k: int, d: int): (t: int)
    requires d > 0
    ensures 0 <= t < 2
  {
    1 - (k / d) % 2
  }

  lemma {:induction false} Laps(a: int, b: int, d: int)
    requires d > 0 && a < b
    ensures a * d + d <= b * d
    decreases b - a
  {
    assert (b - 1) * d + d == b * d;
    if a + 1 < b {
      Laps(a, b - 1, d);
    }
  }

  /** q and s are the lap and the slot of k. */
  lemma Lap(k: int, d: int, q: int, s: int)
    requires d > 0 && 0 <= s < d && k == q * d + s
    ensures k / d == q && k % d == s
  {
    var r, t := k / d, k % d;
    assert k == r * d + t;
    if r < q {
      Laps(r, q, d);
    } else if q < r {
      Laps(q, r, d);
    }
  }

  lemma Next(k: int, d: int)
    requires d > 0
    ensures Slot(k + 1, d) == (Slot(k, d) + 1) % d
    ensures Slot(k + 1, d) == if Slot(k, d) + 1 == d then 0 else Slot(k, d) + 1
    ensures Tag(k + 1, d) == if Slot(k, d) + 1 == d then 1 - Tag(k, d) else Tag(k, d)
  {
    var q, s := k / d, k % d;
    assert k == q * d + s;
    if s + 1 == d {
      assert k + 1 == (q + 1) * d;
      Lap(k + 1, d, q + 1, 0);
      Lap(d, d, 1, 0);
    } else {
      Lap(k + 1, d, q, s + 1);
      Lap(s + 1, d, 0, s + 1);
    }
  }

  lemma LapBefore(k: int, d: int)
    requires d > 0
    ensures Slot(k - d, d) == Slot(k, d) && Tag(k - d, d) == 1 - Tag(k, d)
  {
    var q, s := k / d, k % d;
    assert k == q * d + s;
    assert k - d == (q - 1) * d + s;
    Lap(k - d, d, q - 1, s);
  }

  lemma Start(d: int)
    requires d > 0
    ensures Slot(0, d) == 0 && Tag(0, d) == 1
  {
    Lap(0, d, 0, 0);
  }

  lemma Distinct(j: int, k: int, d: int)
    requires d > 0 && j < k < j + d
    ensures Slot(j, d) != Slot(k, d)
  {
    var q, r, s, t := j / d, k / d, j % d, k % d;
    assert j == q * d + s && k == r * d + t;
    if q < r {
      Laps(q, r, d);
    } else if r < q {
      Laps(r, q, d);
    }
  }

  /** Moving on from a slot is moving on in the count. */
  lemma Add(k: int, n: int, d: int)
    requires d > 0
    ensures (Slot(k, d) + n) % d == Slot(k + n, d)
  {
    var q, s := k / d, k % d;
    var p := (s + n) / d;
    assert k == q * d + s && s + n == p * d + (s + n) % d;
    assert k + n == (q + p) * d + (s + n) % d;
    Lap(k + n, d, q + p, (s + n) % d);
  }
}
