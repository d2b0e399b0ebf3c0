/** The entry points as sequences of turns: budgets, backlogs and failures. */
module RingCalls {
  import opened Words
  import opened Memory
  import opened Host
  import opened AdminPayload
  import opened AdminState
  import AdminLaws
  import opened AdminRing
  import opened RingTrace
  import opened RingRuns
  import RingLaws
  import W = Wheel

  // ----- budgets -----

  /** A poll may be cut in two at any point: the ring, the world and the number
      of commands consumed are the same, also when a turn fails. */
  lemma {:induction false} DrainSplits(env: Env, r: Ring, w: World, a: nat, b: nat)
    requires Sound(r) && r.active && !r.fatal
    ensures var (r1, w1, n1) := Drain(env, r, w, a);
      Drain(env, r, w, a + b)
      == if n1 < 0 then (r1, w1, n1) else After(n1, Drain(env, r1, w1, b))
    decreases a
  {
    hide TakeTurn, Drain;
    if !Runnable(r, a) {
      DrainIdle(env, r, w, a);
      if a > 0 {
        DrainIdle(env, r, w, b);
        DrainIdle(env, r, w, a + b);
      }
    } else {
      DrainTurn(env, r, w, a);
      DrainTurn(env, r, w, a + b);
      var t := TakeTurn(env, r, w);
      if t.Served? {
        DrainSplits(env, t.ring, t.world, a - 1, b);
      }
    }
  }

  /** poll(a); poll(b) is poll(a + b). */
  lemma PollSplits(env: Env, r: Ring, w: World, a: nat, b: nat)
    requires Sound(r) && a > 0 && b > 0 && a + b <= 256
    ensures var (r1, w1, n1) := Poll(env, r, w, a);
      var (r2, w2, n2) := Poll(env, r1, w1, b);
      var (r3, w3, n3) := Poll(env, r, w, a + b);
      && (r2, w2) == (r3, w3)
      && n3 == (if n1 < 0 then n1 else if n2 < 0 then n2 else n1 + n2)
  {
    hide Drain;
    if Serving(r) {
      DrainSplits(env, r, w, a, b);
      DrainFailsFatally(env, r, w, a);
    }
  }

  lemma DrainFailsFatally(env: Env, r: Ring, w: World, budget: nat)
    requires Sound(r) && Serving(r)
    ensures Drain(env, r, w, budget).2 < 0 <==> Drain(env, r, w, budget).0.fatal
  {
  }

  // ----- calls are turns -----

  function Turns(env: Env, s: Sys, n: nat): (t: Sys)
    requires Sound(s.ring)
    ensures Sound(t.ring)
    decreases n
  {
    if n == 0 then s else Turns(env, Make(env, s, Turn([])), n - 1)
  }

  /** Polling with a budget is that many turns of a run. */
  lemma {:induction false} DrainIsTurns(env: Env, s: Sys, n: nat)
    requires Sound(s.ring) && Serving(s.ring)
    ensures var t := Turns(env, s, n);
      var (r, w, code) := Drain(env, s.ring, s.world, n);
      t.ring == r && t.world == w && (code >= 0 ==> |t.taken| == |s.taken| + code)
    decreases n
  {
    hide TakeTurn, SpansOffQueue;
    if n > 0 {
      var s1 := Make(env, s, Turn([]));
      if Runnable(s.ring, n) {
        DrainTurn(env, s.ring, s.world, n);
        if Serving(s1.ring) {
          DrainIsTurns(env, s1, n - 1);
        } else {
          FatalTurnsIdle(env, s1, n - 1);
        }
      } else {
        DrainIdle(env, s.ring, s.world, n);
        DrainIdle(env, s.ring, s.world, n - 1);
        DrainIsTurns(env, s, n - 1);
      }
    }
  }

  lemma {:induction false} FatalTurnsIdle(env: Env, s: Sys, n: nat)
    requires Sound(s.ring) && !Serving(s.ring)
    ensures Turns(env, s, n) == s
  {
    if n > 0 {
      FatalTurnsIdle(env, s, n - 1);
    }
  }

  /** A tail doorbell is the store of the tail followed by 256 turns. */
  lemma TailIsMoves(env: Env, s: Sys, tail: u32)
    requires Sound(s.ring)
    ensures var (r, w, code) := Tail(env, s.ring, s.world, tail);
      var t := Turns(env, Make(env, s, Doorbell(tail)), 256);
      t.ring == r && t.world == w
  {
    hide Drain, Turns;
    var s1 := Make(env, s, Doorbell(tail));
    if Serving(s1.ring) {
      DrainIsTurns(env, s1, 256);
    } else {
      FatalTurnsIdle(env, s1, 256);
    }
  }

  // ----- backlogs -----

  /** Commands submitted and not yet taken. */
  function Backlog(r: Ring): nat
    requires Sound(r) && r.active
  {
    (r.sq.tail as int + r.sq.depth as int - r.sq.head as int) % r.sq.depth as int
  }

  lemma BacklogValue(r: Ring)
    requires Sound(r) && r.active
    ensures Backlog(r) == if r.sq.head <= r.sq.tail then r.sq.tail - r.sq.head
                          else r.sq.tail as int + r.sq.depth as int - r.sq.head as int
    ensures Backlog(r) < r.sq.depth
    ensures Backlog(r) == 0 <==> r.sq.head == r.sq.tail
  {
    var x := r.sq.tail as int + r.sq.depth as int - r.sq.head as int;
    if r.sq.head <= r.sq.tail {
      W.Lap(x, r.sq.depth, 1, r.sq.tail - r.sq.head);
    } else {
      W.Lap(x, r.sq.depth, 0, x);
    }
  }

  /** A turn that is not fatal takes one command of the backlog and adds at most
      one pending completion. */
  lemma TurnTakesOne(env: Env, r: Ring, w: World)
    requires Ready(r) && r.sq.head != r.sq.tail
    ensures var t := TakeTurn(env, r, w);
      t.Served? ==>
        && Backlog(t.ring) == Backlog(r) - 1 && t.ring.sq.tail == r.sq.tail && t.ring.sq.depth == r.sq.depth
        && t.ring.cq.depth == r.cq.depth && r.cq.pending <= t.ring.cq.pending <= r.cq.pending + 1
  {
    hide TakeTurn, Backlog, HeadCommand, Answers;
    TurnMoves(env, r, w);
    W.Next(r.sq.head, r.sq.depth);
    W.Lap(r.sq.head, r.sq.depth, 0, r.sq.head);
    BacklogValue(r);
    var t := TakeTurn(env, r, w);
    if t.Served? {
      BacklogValue(t.ring);
    }
  }

  /** A poll that does not fail takes n commands, all of the backlog or else at
      least the free completion slots or the budget. */
  lemma {:induction false} DrainProgress(env: Env, r: Ring, w: World, budget: nat)
    requires Sound(r) && Serving(r) && r.cq.pending < r.cq.depth
    ensures var (r1, w1, n) := Drain(env, r, w, budget);
      n >= 0 ==>
        && Backlog(r) == Backlog(r1) + n && r1.cq.depth == r.cq.depth && r1.sq.depth == r.sq.depth
        && r.cq.pending <= r1.cq.pending <= r.cq.pending + n
        && (n == budget || r1.sq.head == r1.sq.tail || r1.cq.pending == r1.cq.depth - 1)
    decreases budget
  {
    hide TakeTurn, Backlog;
    if Runnable(r, budget) {
      TurnTakesOne(env, r, w);
      DrainTurn(env, r, w, budget);
      var t := TakeTurn(env, r, w);
      if t.Served? {
        DrainProgress(env, t.ring, t.world, budget - 1);
      }
    } else {
      DrainIdle(env, r, w, budget);
    }
  }

  /** A tail doorbell that does not fail leaves the submission queue empty or
      the completion queue full. */
  lemma TailEmptiesOrFills(env: Env, r: Ring, w: World, tail: u32)
    requires Sound(r) && Serving(r)
    ensures var (r1, w1, n) := Tail(env, r, w, tail);
      n >= 0 ==> r1.sq.head == r1.sq.tail || r1.cq.pending == r1.cq.depth - 1
  {
    hide Drain, Backlog;
    if tail < r.sq.depth {
      var r0 := r.(sq := r.sq.(tail := tail));
      DrainProgress(env, r0, w, 256);
      BacklogValue(r0);
      BacklogValue(Drain(env, r0, w, 256).0);
    }
  }

  /** One round of a draining host: acknowledge everything, then poll. */
  function Round(env: Env, r: Ring, w: World): (o: (Ring, World))
    requires Sound(r)
    ensures Sound(o.0)
  {
    var (r1, w1, _) := AdminRing.Ack(r, w, r.cq.tail);
    var (r2, w2, _) := Poll(env, r1, w1, 256);
    (r2, w2)
  }

  function Rounds(env: Env, r: Ring, w: World, n: nat): (o: (Ring, World))
    requires Sound(r)
    ensures Sound(o.0)
    decreases n
  {
    if n == 0 then (r, w)
    else
      var (r1, w1) := Round(env, r, w);
      Rounds(env, r1, w1, n - 1)
  }

  /** The tail is the head advanced by the pending count (see RingLaws.Conservation). */
  predicate Balanced(r: Ring)
    requires Sound(r) && r.active
  {
    r.cq.tail as int == (r.cq.head as int + r.cq.pending as int) % r.cq.depth as int
  }

  lemma AckAll(r: Ring, w: World)
    requires Sound(r) && Serving(r) && Balanced(r)
    ensures var (r1, w1, n) := AdminRing.Ack(r, w, r.cq.tail);
      n == 0 && Serving(r1) && r1.cq.pending == 0 && r1.cq.head == r.cq.tail && Balanced(r1)
      && r1.sq == r.sq && r1.cq.depth == r.cq.depth
  {
    var d, h, p := r.cq.depth as int, r.cq.head as int, r.cq.pending as int;
    if h + p < d {
      W.Lap(h + p, d, 0, h + p);
      W.Lap(p + d, d, 1, p);
    } else {
      W.Lap(h + p, d, 1, h + p - d);
      W.Lap(p, d, 0, p);
    }
    W.Lap(r.cq.tail, d, 0, r.cq.tail);
  }

  lemma {:induction false} DrainBalanced(env: Env, r: Ring, w: World, budget: nat)
    requires Sound(r) && Serving(r) && Balanced(r)
    ensures Balanced(Drain(env, r, w, budget).0) || Drain(env, r, w, budget).0.fatal
    decreases budget
  {
    hide TakeTurn, HeadCommand, Answers;
    if Runnable(r, budget) {
      DrainTurn(env, r, w, budget);
      TurnMoves(env, r, w);
      var d, x := r.cq.depth as int, r.cq.head as int + r.cq.pending as int;
      W.Next(x, d);
      var t := TakeTurn(env, r, w);
      if t.Served? {
        DrainBalanced(env, t.ring, t.world, budget - 1);
      }
    } else {
      DrainIdle(env, r, w, budget);
    }
  }

  /** One round takes the whole backlog or at least a queue-full of it. */
  lemma RoundProgress(env: Env, r: Ring, w: World)
    requires Sound(r) && Serving(r) && Balanced(r)
    ensures var (r1, w1) := Round(env, r, w);
      && r1.active && (Serving(r1) ==>
        && Balanced(r1) && r1.cq.depth == r.cq.depth
        && (Backlog(r1) == 0 || Backlog(r1) as int <= Backlog(r) as int - (r.cq.depth as int - 1)))
  {
    hide Drain, Backlog;
    var (r1, w1, n1) := AdminRing.Ack(r, w, r.cq.tail);
    AckAll(r, w);
    assert Backlog(r1) == Backlog(r) by {
      BacklogValue(r);
      BacklogValue(r1);
    }
    var (r2, w2, n2) := Drain(env, r1, w1, 256);
    DrainProgress(env, r1, w1, 256);
    DrainBalanced(env, r1, w1, 256);
    BacklogValue(r1);
    BacklogValue(r2);
  }

  /** The number of rounds a backlog of n takes: n / (depth - 1), rounded up. */
  function RoundsFor(n: nat, cqDepth: u16): nat
    requires cqDepth >= 2
  {
    (n + cqDepth - 2) / (cqDepth - 1)
  }

  lemma FewerRounds(n: nat, m: nat, cqDepth: u16)
    requires cqDepth >= 2 && n > 0 && (m == 0 || m <= n - (cqDepth - 1))
    ensures RoundsFor(n, cqDepth) > 0 && RoundsFor(m, cqDepth) <= RoundsFor(n, cqDepth) - 1
  {
    var c := cqDepth as int - 1;
    var q, s := (n + c - 1) / c, (n + c - 1) % c;
    assert n + c - 1 == q * c + s;
    var q1, s1 := (m + c - 1) / c, (m + c - 1) % c;
    assert m + c - 1 == q1 * c + s1;
    if m == 0 {
      W.Lap(c - 1, c, 0, c - 1);
      if q < 1 {
        W.Laps(q, 1, c);
      }
    } else {
      assert (q - 1) * c == q * c - c;
      if q1 > q - 1 {
        W.Laps(q - 1, q1, c);
      }
    }
  }

  /** Drain bound: repeatedly acknowledging everything and polling empties a
      backlog of n within n / (cqDepth - 1) rounds, rounded up, unless it fails. */
  lemma {:induction false} DrainBound(env: Env, r: Ring, w: World, n: nat)
    requires Sound(r) && Serving(r) && Balanced(r) && n >= RoundsFor(Backlog(r), r.cq.depth)
    ensures var (r1, w1) := Rounds(env, r, w, n); r1.fatal || (r1.active && Backlog(r1) == 0)
    decreases n
  {
    hide Round, Backlog;
    if n > 0 {
      RoundProgress(env, r, w);
      var (r1, w1) := Round(env, r, w);
      if Serving(r1) {
        if Backlog(r) > 0 {
          FewerRounds(Backlog(r), Backlog(r1), r.cq.depth);
        } else {
          W.Lap(r.cq.depth as int - 2, r.cq.depth as int - 1, 0, r.cq.depth as int - 2);
        }
        DrainBound(env, r1, w1, n - 1);
      } else {
        FatalRoundsIdle(env, r1, w1, n - 1);
      }
    } else if Backlog(r) > 0 {
      FewerRounds(Backlog(r), 0, r.cq.depth);
    }
  }

  lemma {:induction false} FatalRoundsIdle(env: Env, r: Ring, w: World, n: nat)
    requires Sound(r) && r.fatal
    ensures Rounds(env, r, w, n) == (r, w)
  {
    if n > 0 {
      FatalRoundsIdle(env, r, w, n - 1);
    }
  }

  /** In every serving state of every run the backlog drains within the bound. */
  lemma EveryBacklogDrains(env: Env, p: Policy, w: World, moves: seq<Move>, k: nat)
    requires k <= |moves|
    ensures var s := Reached(env, Boot(p, w), moves, k);
      Serving(s.ring) ==>
        var (r1, w1) := Rounds(env, s.ring, s.world, RoundsFor(Backlog(s.ring), s.ring.cq.depth));
        r1.fatal || (r1.active && Backlog(r1) == 0)
  {
    hide Make, Rounds, Backlog;
    RingLaws.Conservation(env, p, w, moves, k);
    var s := Reached(env, Boot(p, w), moves, k);
    if Serving(s.ring) {
      DrainBound(env, s.ring, s.world, RoundsFor(Backlog(s.ring), s.ring.cq.depth));
    }
  }
}
