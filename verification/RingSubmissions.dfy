/** A host that submits: it writes its k-th command into slot k mod depth of the
    submission queue, never over one still outstanding, and then rings. */
module RingSubmissions {
  import opened Words
  import opened Memory
  import opened Host
  import opened AdminPayload
  import AdminLaws
  import opened AdminRing
  import opened RingTrace
  import opened RingRuns
  import opened RingLaws
  import opened RingStores
  import W = Wheel

  /** `sent` are the commands written since the ring was configured, and the tail
      was last rung past the first `rung` of them.  `orderly` stays true while the
      host only writes commands so and rings for what it has written, nothing else
      is stored into the submission queue, and the two queues lie apart. */
  datatype Submission = Submission(sent: seq<seq<u8>>, rung: nat, orderly: bool)

  function SqSlotOf(r: Ring, k: nat): int
    requires r.sq.depth > 0
  {
    r.sq.base as int + 64 * W.Slot(k, r.sq.depth)
  }

  predicate OffSq(r: Ring, a: int, n: int) {
    Apart(a, n, r.sq.base, 64 * r.sq.depth as int)
  }

  predicate SpansOffSq(env: Env, r: Ring, w: World)
    requires Sound(r)
  {
    forall i :: 0 <= i < |HeadSpans(env, r, w)| ==>
      OffSq(r, HeadSpans(env, r, w)[i].address, HeadSpans(env, r, w)[i].bytes)
  }

  /** A store of the next command, into its slot, while at most depth - 2 are outstanding. */
  predicate Submits(s: Sys, h: Submission, a: int, bytes: seq<u8>) {
    s.ring.sq.depth > 0 && |bytes| == 64 && a == SqSlotOf(s.ring, |h.sent|)
    && |h.sent| + 1 < |s.taken| + s.ring.sq.depth as int
  }

  /** The host's record after a move from s. */
  function Recorded(env: Env, s: Sys, h: Submission, m: Move): Submission
    requires Sound(s.ring)
  {
    match m
    case Configure(sq, ns, cq, nc) =>
      if Configurable(env, s.ring, sq, ns, cq, nc) then Submission([], 0, Apart(sq, 64 * ns as int, cq, 16 * nc as int))
      else h
    case Doorbell(tail) =>
      if !Serving(s.ring) then h
      else h.(rung := |h.sent|, orderly := h.orderly && tail == W.Slot(|h.sent|, s.ring.sq.depth))
    case Turn(_) =>
      if Serving(s.ring) && Runnable(s.ring, 1) then
        h.(orderly := h.orderly && SpansOffSq(env, s.ring, s.world))
      else h
    case Scribble(a, bytes) =>
      if !Serving(s.ring) then h
      else if Submits(s, h, a, bytes) then h.(sent := h.sent + [bytes])
      else h.(orderly := h.orderly && OffSq(s.ring, a, |bytes|))
    case _ => h
  }

  /** The record after the first k moves. */
  function Record(env: Env, s: Sys, moves: seq<Move>, k: nat): Submission
    requires Sound(s.ring) && k <= |moves|
  {
    if k == 0 then Submission([], 0, true)
    else Recorded(env, Reached(env, s, moves, k - 1), Record(env, s, moves, k - 1), moves[k - 1])
  }

  /** The slots of the commands outstanding hold them. */
  ghost predicate Queued(m: Ram, r: Ring, sent: seq<seq<u8>>, taken: nat)
    requires r.sq.depth > 0
  {
    forall k :: taken <= k < |sent| ==> Load(m, SqSlotOf(r, k), 64) == sent[k]
  }

  ghost predicate Submitted(s: Sys, h: Submission)
    requires Sound(s.ring)
  {
    Serving(s.ring) && h.orderly ==>
      && s.taken <= h.sent && |s.taken| <= h.rung <= |h.sent| < |s.taken| + s.ring.sq.depth as int
      && s.ring.sq.tail == W.Slot(h.rung, s.ring.sq.depth)
      && Apart(s.ring.sq.base, 64 * s.ring.sq.depth as int, s.ring.cq.base, 16 * s.ring.cq.depth as int)
      && Queued(s.world.ram, s.ring, h.sent, |s.taken|)
  }

  // ----- each move keeps it -----

  lemma OffSqKeeps(m: Ram, m1: Ram, r: Ring, sent: seq<seq<u8>>, taken: nat)
    requires r.sq.depth > 0 && Queued(m, r, sent, taken)
    requires forall x :: r.sq.base <= x < r.sq.base as int + 64 * r.sq.depth as int ==> At(m1, x) == At(m, x)
    ensures Queued(m1, r, sent, taken)
  {
    forall k | taken <= k < |sent| ensures Load(m1, SqSlotOf(r, k), 64) == sent[k] {
      assert Load(m1, SqSlotOf(r, k), 64) == Load(m, SqSlotOf(r, k), 64);
    }
  }

  lemma SubmitKeeps(s: Sys, h: Submission, bytes: seq<u8>)
    requires Sound(s.ring) && Serving(s.ring) && h.orderly && Submitted(s, h)
    requires Submits(s, h, SqSlotOf(s.ring, |h.sent|), bytes)
    ensures Queued(Store(s.world.ram, SqSlotOf(s.ring, |h.sent|), bytes), s.ring, h.sent + [bytes], |s.taken|)
  {
    var r, m, n := s.ring, s.world.ram, |h.sent|;
    var m1 := Store(m, SqSlotOf(r, n), bytes);
    forall k | |s.taken| <= k <= n ensures Load(m1, SqSlotOf(r, k), 64) == (h.sent + [bytes])[k] {
      if k < n {
        W.Distinct(k, n, r.sq.depth);
        LoadApart(m, SqSlotOf(r, n), bytes, SqSlotOf(r, k), 64);
      } else {
        LoadStored(m, SqSlotOf(r, n), bytes);
      }
    }
  }

  /** A turn takes the next command submitted, and leaves the queue's bytes. */
  lemma TurnKeepsSubmitted(env: Env, s: Sys, h: Submission, looks: seq<nat>)
    requires Counted(s) && Submitted(s, h) && Serving(s.ring) && Runnable(s.ring, 1)
    ensures Submitted(AfterTurn(env, s, looks), Recorded(env, s, h, Turn(looks)))
  {
    hide TakeTurn, HeadSpans, LookAll, SpansOffQueue, Untorn, Queued;
    var r, t := s.ring, TakeTurn(env, s.ring, s.world);
    var u, g := AfterTurn(env, s, looks), Recorded(env, s, h, Turn(looks));
    TurnMoves(env, r, s.world);
    TurnStays(env, r, s.world);
    if t.Served? && g.orderly {
      forall x | r.sq.base <= x < r.sq.base as int + 64 * r.sq.depth as int
        ensures At(t.world.ram, x) == At(s.world.ram, x)
      {
        OffBoth(env, s, x);
        RestUntouched(env, s, x);
      }
      OffSqKeeps(s.world.ram, t.world.ram, r, h.sent, |s.taken|);
      HeadIsNext(s, h);
      QueuedLater(t.world.ram, r, u.ring, h.sent, |s.taken|);
    }
  }

  lemma OffBoth(env: Env, s: Sys, x: int)
    requires Sound(s.ring) && s.ring.active && SpansOffSq(env, s.ring, s.world)
    requires Apart(s.ring.sq.base, 64 * s.ring.sq.depth as int, s.ring.cq.base, 16 * s.ring.cq.depth as int)
    requires s.ring.sq.base <= x < s.ring.sq.base as int + 64 * s.ring.sq.depth as int
    ensures !(CqSlot(s.ring) <= x < CqSlot(s.ring) + 16)
    ensures forall i :: 0 <= i < |HeadSpans(env, s.ring, s.world)| ==>
      !Within(x, 1, HeadSpans(env, s.ring, s.world)[i])
  {
    hide HeadSpans;
    forall i | 0 <= i < |HeadSpans(env, s.ring, s.world)| ensures !Within(x, 1, HeadSpans(env, s.ring, s.world)[i]) {
      assert OffSq(s.ring, HeadSpans(env, s.ring, s.world)[i].address, HeadSpans(env, s.ring, s.world)[i].bytes);
    }
  }

  /** What lies at the head is the next command submitted. */
  lemma HeadIsNext(s: Sys, h: Submission)
    requires Counted(s) && Submitted(s, h) && h.orderly && Serving(s.ring) && s.ring.sq.head != s.ring.sq.tail
    ensures |s.taken| < h.rung && HeadCommand(s.ring, s.world) == h.sent[|s.taken|]
  {
    assert |s.taken| < h.rung;
    assert Load(s.world.ram, SqSlotOf(s.ring, |s.taken|), 64) == h.sent[|s.taken|];
  }

  lemma QueuedLater(m: Ram, r: Ring, u: Ring, sent: seq<seq<u8>>, taken: nat)
    requires r.sq.depth > 0 && Queued(m, r, sent, taken) && u.sq.base == r.sq.base && u.sq.depth == r.sq.depth
    ensures Queued(m, u, sent, taken + 1)
  {
    forall k | taken + 1 <= k < |sent| ensures Load(m, SqSlotOf(u, k), 64) == sent[k] {
      assert Load(m, SqSlotOf(r, k), 64) == sent[k];
    }
  }

  lemma MoveKeepsSubmitted(env: Env, s: Sys, h: Submission, m: Move)
    requires Counted(s) && Submitted(s, h)
    ensures Submitted(Make(env, s, m), Recorded(env, s, h, m))
  {
    hide AfterTurn, Queued, SpansOffSq;
    match m
    case Configure(sq, ns, cq, nc) =>
      if Configurable(env, s.ring, sq, ns, cq, nc) {
        W.Start(ns);
        NothingQueued(Make(env, s, m));
      }
    case Turn(looks) =>
      if Serving(s.ring) && Runnable(s.ring, 1) {
        TurnKeepsSubmitted(env, s, h, looks);
      }
    case Scribble(a, bytes) => ScribbleKeepsSubmitted(env, s, h, a, bytes);
    case Reset(_) =>
    case Doorbell(_) => SameQueuedAfter(s, h, Make(env, s, m));
    case Ack(_) => SameQueuedAfter(s, h, Make(env, s, m));
    case Look => SameQueuedAfter(s, h, Make(env, s, m));
  }

  lemma SameQueuedAfter(s: Sys, h: Submission, t: Sys)
    requires Sound(s.ring) && Submitted(s, h) && s.ring.sq.depth == t.ring.sq.depth && s.ring.sq.base == t.ring.sq.base
    ensures Serving(s.ring) && h.orderly && t.ring.sq.depth > 0 ==>
      Queued(s.world.ram, t.ring, h.sent, |s.taken|)
  {
    if Serving(s.ring) && h.orderly {
      SameQueued(s.world.ram, s.ring, t.ring, h.sent, |s.taken|);
    }
  }

  lemma NothingQueued(s: Sys)
    requires s.ring.sq.depth > 0
    ensures Queued(s.world.ram, s.ring, [], 0)
  {
  }

  lemma SameQueued(m: Ram, r: Ring, u: Ring, sent: seq<seq<u8>>, taken: nat)
    requires r.sq.depth > 0 && Queued(m, r, sent, taken) && u.sq.base == r.sq.base && u.sq.depth == r.sq.depth
    ensures Queued(m, u, sent, taken)
  {
    forall k | taken <= k < |sent| ensures Load(m, SqSlotOf(u, k), 64) == sent[k] {
      assert Load(m, SqSlotOf(r, k), 64) == sent[k];
    }
  }

  lemma ScribbleKeepsSubmitted(env: Env, s: Sys, h: Submission, a: int, bytes: seq<u8>)
    requires Counted(s) && Submitted(s, h)
    ensures Submitted(Make(env, s, Scribble(a, bytes)), Recorded(env, s, h, Scribble(a, bytes)))
  {
    if Serving(s.ring) && h.orderly {
      hide Queued;
      if Submits(s, h, a, bytes) {
        SubmitKeeps(s, h, bytes);
      } else if OffSq(s.ring, a, |bytes|) {
        OffSqKeeps(s.world.ram, Store(s.world.ram, a, bytes), s.ring, h.sent, |s.taken|);
      }
    }
  }

  lemma {:induction false} EveryStateSubmitted(env: Env, p: Policy, w: World, moves: seq<Move>, k: nat)
    requires k <= |moves|
    ensures Submitted(Reached(env, Boot(p, w), moves, k), Record(env, Boot(p, w), moves, k))
  {
    hide Make, Recorded, Counted, InOrder, Viewed, Submitted;
    if k == 0 {
      BootSubmitted(p, w);
    } else {
      var s, h := Reached(env, Boot(p, w), moves, k - 1), Record(env, Boot(p, w), moves, k - 1);
      EveryStateSubmitted(env, p, w, moves, k - 1);
      EveryStateLawful(env, p, w, moves, k - 1);
      MoveKeepsSubmitted(env, s, h, moves[k - 1]);
    }
  }

  lemma BootSubmitted(p: Policy, w: World)
    ensures Submitted(Boot(p, w), Submission([], 0, true))
  {
  }

  /** Over every run with an orderly host: the commands taken are, in order and
      unchanged, the first ones it submitted, all of those rung for once the
      submission queue is empty and only then; and each completion names the
      command submitted in its turn. */
  lemma TakenAsSubmitted(env: Env, p: Policy, w: World, moves: seq<Move>, k: nat, j: nat)
    requires k <= |moves|
    ensures var s, h := Reached(env, Boot(p, w), moves, k), Record(env, Boot(p, w), moves, k);
      Serving(s.ring) && h.orderly ==>
        && s.taken <= h.sent && |s.taken| <= h.rung <= |h.sent|
        && (s.ring.sq.head == s.ring.sq.tail <==> s.taken == h.sent[..h.rung])
        && (j < |s.published| ==>
              var i := Answered(s.held, j);
              i < |h.sent| && |h.sent[i]| == 64 && |s.published[j]| == 16
              && Le16(s.published[j], 12) == Le16(h.sent[i], 2))
  {
    hide Make, Reached, Recorded, Viewed, AdminLaws.Coherent, Queued, Le16;
    EveryStateSubmitted(env, p, w, moves, k);
    EveryStateLawful(env, p, w, moves, k);
    var s, h := Reached(env, Boot(p, w), moves, k), Record(env, Boot(p, w), moves, k);
    if Serving(s.ring) && h.orderly {
      if |s.taken| < h.rung {
        W.Distinct(|s.taken|, h.rung, s.ring.sq.depth);
      }
      assert s.taken == h.sent[..|s.taken|];
      if j < |s.published| {
        OneInTurn(s, j);
      }
    }
  }
}
