/** What the callers of the engine get: when a ring can be configured, what a reset
    leaves, and the code of every call. */
module RingCallers {
  import opened Words
  import opened Memory
  import opened Host
  import opened AdminPayload
  import opened AdminState
  import opened AdminRing
  import opened RingTrace
  import opened RingRuns
  import opened RingStores
  import AdminLaws
  import W = Wheel

  /** n bytes at a that RAM contains, not at 0 and within 64 bits. */
  predicate InRam(env: Env, a: u64, n: nat) {
    a > 0 && n > 0 && a as int + n <= U64_MAX && env.Contains(a, n)
  }

  /** A ring is configured exactly when there is none and nothing has failed, both
      depths are 2 to 256, and both queues are page aligned and in RAM; it is then
      empty, at phase 1, over exactly those queues, and in the next lifetime. */
  lemma ConfiguresExactly(env: Env, r: Ring, sq: u64, ns: u16, cq: u64, nc: u16)
    ensures Configurable(env, r, sq, ns, cq, nc) <==>
      && !r.active && !r.fatal && 2 <= ns <= 256 && 2 <= nc <= 256 && sq % 4096 == 0 && cq % 4096 == 0
      && InRam(env, sq, 64 * ns as int) && InRam(env, cq, 16 * nc as int)
    ensures Configured(r, sq, ns, cq, nc)
         == r.(active := true, lifecycle := AdminLaws.Later(r.lifecycle, 1),
               sq := Sq(sq, ns, 0, 0), cq := Cq(cq, nc, 0, 0, 0, 1))
  {
    if 2 <= ns <= 256 && 2 <= nc <= 256 {
      assert ns * 64 == 64 * ns as int && nc * 16 == 16 * nc as int;
    }
  }

  /** A reset ends the lifetime and any failure, forgets both rings, and leaves
      the interpreter without I/O queues and without a held event request; each
      generation moves on whose queue was there; the features stay, or with a full
      reset are all 0 but the write cache, which is on. */
  lemma ResetLeaves(r: Ring, full: bool, i: nat)
    requires |r.admin.features| == 12 && i < 12
    ensures var t := AfterRingReset(r, full);
      && !t.active && !t.fatal && t.lifecycle == AdminLaws.Later(r.lifecycle, 1) && t.policy == r.policy
      && t.sq == Sq(0, 0, 0, 0) && t.cq == Cq(0, 0, 0, 0, 0, 1)
      && t.admin.sq == t.admin.cq == IoQueue(0, 0, 0, false, false) && !t.admin.aerPresent && t.admin.aerCid == 0
      && t.admin.sqGeneration == AdminLaws.Later(r.admin.sqGeneration, if r.admin.sq.present then 1 else 0)
      && t.admin.cqGeneration == AdminLaws.Later(r.admin.cqGeneration, if r.admin.cq.present then 1 else 0)
      && |t.admin.features| == 12
      && t.admin.features[i] == if !full then r.admin.features[i] else if i == 6 then 1 else 0
  {
  }

  /** What init leaves: what a full reset would, with every generation 0. */
  lemma InitLeaves(p: Policy, i: nat)
    requires i < 12
    ensures var t := Started(p);
      && !t.active && !t.fatal && t.lifecycle == 0 && t.policy == p
      && t.sq == Sq(0, 0, 0, 0) && t.cq == Cq(0, 0, 0, 0, 0, 1)
      && t.admin.sq == t.admin.cq == IoQueue(0, 0, 0, false, false) && !t.admin.aerPresent
      && t.admin.sqGeneration == t.admin.cqGeneration == 0
      && |t.admin.features| == 12 && t.admin.features[i] == if i == 6 then 1 else 0
  {
  }

  /** A policy is valid exactly when the primary namespace, and the linked one when
      there is one, has 1 to 2^40 - 1 blocks and the transfer limit is at most 8. */
  lemma StartsExactly(env: Env, p: Policy)
    ensures Startable(env, p) <==>
      && env.setCache == env.getCache && 1 <= p.primaryLbas < 0x100_0000_0000 && p.mdts <= 8
      && (p.paired ==> 1 <= p.linkLbas < 0x100_0000_0000)
  {
  }

  /** Polling: -1 for a bad budget, and 0 when nothing serves, both without
      effect; otherwise -2 exactly when the engine has failed, and else how many
      commands were taken, at most the budget. */
  lemma PollAnswers(env: Env, r: Ring, w: World, budget: nat)
    requires Sound(r)
    ensures var (t, v, code) := Poll(env, r, w, budget);
      && (code == -1 <==> budget == 0 || budget > 256)
      && (code == -1 || !r.active || r.fatal ==> t == r && v == w)
      && (1 <= budget <= 256 && (!r.active || r.fatal) ==> code == 0)
      && (1 <= budget <= 256 && r.active && !r.fatal ==>
            (code == -2 <==> t.fatal) && (code == -2 || 0 <= code <= budget))
  {
  }

  /** A tail doorbell: nothing when nothing serves; out of range it fails;
      otherwise the tail is stored and 256 turns may run. */
  lemma TailAnswers(env: Env, r: Ring, w: World, tail: u32)
    requires Sound(r)
    ensures Tail(env, r, w, tail)
         == if !r.active || r.fatal then (r, w, 0)
            else if tail >= r.sq.depth then
              (r.(fatal := true), w.(log := w.log + [Level(false), Faulted], irq := false), -2)
            else Poll(env, r.(sq := r.sq.(tail := tail)), w, 256)
  {
    hide Drain;
    assert w.log + [Level(false)] + [Faulted] == w.log + [Level(false), Faulted];
  }

  /** An acknowledgement: nothing when nothing serves; a head out of range, or
      further on than what is pending, fails; otherwise the head is stored, that
      much less is pending, and the level is raised exactly when something still is. */
  lemma AckAnswers(r: Ring, w: World, head: u32, n: nat)
    requires Sound(r)
    requires r.active && head < r.cq.depth ==>
      n < r.cq.depth && (r.cq.head as int + n) % r.cq.depth as int == head as int
    ensures AdminRing.Ack(r, w, head)
         == if !r.active || r.fatal then (r, w, 0)
            else if head >= r.cq.depth || n > r.cq.pending then
              (r.(fatal := true), w.(log := w.log + [Level(false), Faulted], irq := false), -2)
            else
              (r.(cq := r.cq.(head := head, pending := r.cq.pending - n)),
               w.(log := w.log + [Level(n < r.cq.pending)], irq := n < r.cq.pending), 0)
  {
    assert w.log + [Level(false)] + [Faulted] == w.log + [Level(false), Faulted];
    if r.active && head < r.cq.depth {
      Ahead(r.cq.head, head, n, r.cq.depth);
    }
  }

  lemma Ahead(from: nat, to: nat, n: nat, d: nat)
    requires from < d && to < d && n < d && (from + n) % d == to
    ensures (to + d - from) % d == n
  {
    if from + n < d {
      W.Lap(from + n, d, 0, from + n);
      W.Lap(n + d, d, 1, n);
    } else {
      W.Lap(from + n, d, 1, from + n - d);
      W.Lap(n, d, 0, n);
    }
  }

  /** How many of the first k moves were resets or accepted configurations. */
  function Lifetimes(env: Env, s: Sys, moves: seq<Move>, k: nat): nat
    requires Sound(s.ring) && k <= |moves|
  {
    if k == 0 then 0
    else
      var r, m := Reached(env, s, moves, k - 1).ring, moves[k - 1];
      Lifetimes(env, s, moves, k - 1)
      + if m.Reset? || (m.Configure? && Configurable(env, r, m.sq, m.ns, m.cq, m.nc)) then 1 else 0
  }

  /** Over every run the lifetime number counts those, modulo 2^64, and the
      policy stays that of init. */
  lemma {:induction false} LifetimesCounted(env: Env, p: Policy, w: World, moves: seq<Move>, k: nat)
    requires k <= |moves|
    ensures var r := Reached(env, Boot(p, w), moves, k).ring;
      r.policy == p && r.lifecycle == AdminLaws.Later(0, Lifetimes(env, Boot(p, w), moves, k))
  {
    hide Make;
    if k > 0 {
      LifetimesCounted(env, p, w, moves, k - 1);
      MoveLives(env, Reached(env, Boot(p, w), moves, k - 1), moves[k - 1]);
      AdminLaws.NextIsSuccessor(Lifetimes(env, Boot(p, w), moves, k - 1));
    }
  }

  lemma MoveLives(env: Env, s: Sys, m: Move)
    requires Sound(s.ring)
    ensures var r, t := s.ring, Make(env, s, m).ring;
      && t.policy == r.policy
      && t.lifecycle
         == if m.Reset? || (m.Configure? && Configurable(env, r, m.sq, m.ns, m.cq, m.nc)) then Next(r.lifecycle)
            else r.lifecycle
  {
    hide TakeTurn, SpansOffQueue, Configurable, LookAll, Untorn, HeadSpans;
    if m.Turn? && Serving(s.ring) && Runnable(s.ring, 1) {
      TurnStays(env, s.ring, s.world);
    }
  }
}
