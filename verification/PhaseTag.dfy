/** The completion queue as the host sees it: slots tagged with the phase of
    their lap (section 4.6 of NVM Express 1.3), and the host's consumer, which
    takes the entry at its head whenever that entry's tag is its own phase. */
module PhaseTag {
  import opened Words
  import opened Memory
  import opened Host
  import opened AdminRing
  import opened RingTrace
  import W = Wheel

  function SlotAddress(base: int, d: int, k: int): int
    requires d > 0
  {
    base + 16 * W.Slot(k, d)
  }

  /** The phase tag in the slot of entry k. */
  function TagAt(m: Ram, base: int, d: int, k: int): int
    requires d > 0
  {
    At(m, SlotAddress(base, d, k) + 14) as int % 2
  }

  /** The last d entries, counting those of the lap before the first, carry the
      tags of their laps. */
  ghost predicate Tagged(m: Ram, base: int, d: int, published: int)
    requires d > 0
  {
    forall k :: published - d <= k < published ==> TagAt(m, base, d, k) == W.Tag(k, d)
  }

  /** The entries not yet acknowledged are intact. */
  ghost predicate Intact(m: Ram, base: int, d: int, published: seq<seq<u8>>, acked: int)
    requires d > 0
  {
    forall k :: acked <= k < |published| && 0 <= k ==> Load(m, SlotAddress(base, d, k), 16) == published[k]
  }

  /** A sound view of the queue by a host that has acknowledged `acked` entries. */
  ghost predicate View(m: Ram, base: int, d: int, published: seq<seq<u8>>, acked: int) {
    && d >= 2 && 0 <= acked <= |published| < acked + d
    && Tagged(m, base, d, |published|) && Intact(m, base, d, published, acked)
  }

  // ----- the consumer -----

  datatype Consumer = Consumer(head: int, phase: int, received: seq<seq<u8>>)

  const FRESH := Consumer(0, 1, [])

  predicate SeesNew(c: Consumer, m: Ram, base: int) {
    At(m, base + 16 * c.head + 14) as int % 2 == c.phase
  }

  /** Takes the entry at the head; the head wraps at the depth and the phase flips there. */
  function Taken(c: Consumer, m: Ram, base: int, d: int): Consumer {
    var entry := Load(m, base + 16 * c.head, 16);
    if c.head + 1 == d then Consumer(0, 1 - c.phase, c.received + [entry])
    else Consumer(c.head + 1, c.phase, c.received + [entry])
  }

  function Looked(c: Consumer, m: Ram, base: int, d: int): Consumer {
    if SeesNew(c, m, base) then Taken(c, m, base, d) else c
  }

  /** The consumer has taken exactly the first |received| published entries. */
  ghost predicate Following(c: Consumer, d: int, published: seq<seq<u8>>) {
    && d >= 2 && c.received <= published
    && c.head == W.Slot(|c.received|, d) && c.phase == W.Tag(|c.received|, d)
  }

  /** A sound view shows an entry as new exactly when it is published and not yet
      taken, and taking it yields that entry. */
  lemma NewExactlyWhenPublished(c: Consumer, m: Ram, base: int, d: int, published: seq<seq<u8>>, acked: int)
    requires View(m, base, d, published, acked) && Following(c, d, published) && acked <= |c.received|
    ensures SeesNew(c, m, base) <==> |c.received| < |published|
    ensures SeesNew(c, m, base) ==> Load(m, base + 16 * c.head, 16) == published[|c.received|]
    ensures Following(Looked(c, m, base, d), d, published)
    ensures |Looked(c, m, base, d).received| == if |c.received| < |published| then |c.received| + 1 else |c.received|
  {
    var k := |c.received|;
    W.Next(k, d);
    if k < |published| {
      assert TagAt(m, base, d, k) == W.Tag(k, d);
      assert Load(m, SlotAddress(base, d, k), 16) == published[k];
    } else {
      W.LapBefore(k, d);
      assert TagAt(m, base, d, k - d) == W.Tag(k - d, d);
    }
  }

  // ----- what the engine's stores do to the view -----

  /** A store of nothing, outside the queue, or into the body of the slot being filled. */
  predicate Harmless(e: Effect, base: int, d: int, n: int)
    requires d > 0
  {
    e.Stored? ==>
      || e.bytes == []
      || Apart(e.to, |e.bytes|, base, 16 * d)
      || (e.to == SlotAddress(base, d, n) && |e.bytes| <= 14)
  }

  lemma TagKept(m: Ram, e: Effect, base: int, d: int, n: int, k: int)
    requires d > 0 && e.Stored? && Harmless(e, base, d, n) && n - d <= k < n
    ensures TagAt(Applied(m, e), base, d, k) == TagAt(m, base, d, k)
  {
    if k == n - d {
      W.LapBefore(n, d);
    } else {
      W.Distinct(k, n, d);
    }
  }

  lemma EntryKept(m: Ram, e: Effect, base: int, d: int, n: int, k: int)
    requires d > 0 && e.Stored? && Harmless(e, base, d, n) && n - d < k < n
    ensures Load(Applied(m, e), SlotAddress(base, d, k), 16) == Load(m, SlotAddress(base, d, k), 16)
  {
    W.Distinct(k, n, d);
    if e.bytes != [] {
      LoadApart(m, e.to, e.bytes, SlotAddress(base, d, k), 16);
    }
  }

  lemma HarmlessKeepsView(m: Ram, e: Effect, base: int, d: int, published: seq<seq<u8>>, acked: int)
    requires View(m, base, d, published, acked) && Harmless(e, base, d, |published|)
    ensures View(Applied(m, e), base, d, published, acked)
  {
    if e.Stored? {
      hide TagAt, SlotAddress, Harmless, Applied;
      var n := |published|;
      var m1 := Applied(m, e);
      forall k | n - d <= k < n ensures TagAt(m1, base, d, k) == W.Tag(k, d) {
        TagKept(m, e, base, d, n, k);
      }
      forall k | acked <= k < n && 0 <= k ensures Load(m1, SlotAddress(base, d, k), 16) == published[k] {
        EntryKept(m, e, base, d, n, k);
      }
    }
  }

  lemma {:induction false} HarmlessRunKeepsView(m: Ram, es: seq<Effect>, base: int, d: int,
                                                published: seq<seq<u8>>, acked: int)
    requires View(m, base, d, published, acked)
    requires forall i :: 0 <= i < |es| ==> Harmless(es[i], base, d, |published|)
    ensures View(Replay(m, es), base, d, published, acked)
    decreases |es|
  {
    if es != [] {
      HarmlessRunKeepsView(m, es[..|es| - 1], base, d, published, acked);
      HarmlessKeepsView(Replay(m, es[..|es| - 1]), es[|es| - 1], base, d, published, acked);
    }
  }

  /** Storing the status word of an entry whose body is in place publishes it. */
  lemma StatusPublishes(m: Ram, c: seq<u8>, base: int, d: int, published: seq<seq<u8>>, acked: int)
    requires View(m, base, d, published, acked) && |published| + 1 < acked + d
    requires |c| == 16 && c[14] as int % 2 == W.Tag(|published|, d)
    requires Load(m, SlotAddress(base, d, |published|), 14) == c[..14]
    ensures View(Store(m, SlotAddress(base, d, |published|) + 14, c[14..]), base, d, published + [c], acked)
  {
    var n := |published|;
    var slot := SlotAddress(base, d, n);
    var m1 := Store(m, slot + 14, c[14..]);
    var after := published + [c];
    forall k | n + 1 - d <= k < n + 1 ensures TagAt(m1, base, d, k) == W.Tag(k, d) {
      if k < n {
        W.Distinct(k, n, d);
        assert TagAt(m, base, d, k) == W.Tag(k, d);
      }
    }
    forall k | acked <= k < n + 1 && 0 <= k ensures Load(m1, SlotAddress(base, d, k), 16) == after[k] {
      if k < n {
        W.Distinct(k, n, d);
        LoadApart(m, slot + 14, c[14..], SlotAddress(base, d, k), 16);
        assert Load(m, SlotAddress(base, d, k), 16) == published[k];
      } else {
        forall i | 0 <= i < 16 ensures Load(m1, slot, 16)[i] == c[i] {
          if i < 14 {
            assert Load(m, slot, 14)[i] == c[..14][i];
          }
        }
        assert Load(m1, slot, 16) == c;
      }
    }
  }

  /** A store that moved only the beginning of a status word already shows the
      slot as new, and spoils nothing published before. */
  lemma TornIsSeen(c: Consumer, m: Ram, base: int, d: int, published: seq<seq<u8>>, acked: int, b: seq<u8>)
    requires View(m, base, d, published, acked) && Following(c, d, published) && acked <= |c.received|
    requires 0 < |b| <= 2 && b[0] as int % 2 == W.Tag(|published|, d)
    ensures var m1 := Store(m, SlotAddress(base, d, |published|) + 14, b);
      && SeesNew(c, m1, base)
      && (|c.received| < |published| ==> Load(m1, base + 16 * c.head, 16) == published[|c.received|])
  {
    var n, k := |published|, |c.received|;
    var slot := SlotAddress(base, d, n);
    if k < n {
      W.Distinct(k, n, d);
      assert TagAt(m, base, d, k) == W.Tag(k, d);
      LoadApart(m, slot + 14, b, SlotAddress(base, d, k), 16);
      assert Load(m, SlotAddress(base, d, k), 16) == published[k];
    }
  }

  /** Acknowledging entries that were taken keeps the view. */
  lemma AckKeepsView(m: Ram, base: int, d: int, published: seq<seq<u8>>, acked: int, more: int)
    requires View(m, base, d, published, acked) && acked <= more <= |published|
    ensures View(m, base, d, published, more)
  {
  }

  /** A queue whose tags the host has cleared is a view of nothing published. */
  lemma ClearedQueueIsView(m: Ram, base: int, d: int)
    requires d >= 2
    requires forall s :: 0 <= s < d ==> At(m, base + 16 * s + 14) as int % 2 == 0
    ensures View(m, base, d, [], 0)
  {
    forall k | -d <= k < 0 ensures TagAt(m, base, d, k) == W.Tag(k, d) {
      W.Lap(k, d, -1, k + d);
    }
  }
}
