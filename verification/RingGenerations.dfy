/** The generation counters over runs of the whole ring, with whatever the host
    does between commands. */
module RingGenerations {
  import opened Words
  import opened Host
  import opened AdminPayload
  import opened AdminState
  import opened AdminLaws
  import opened AdminRing
  import R = RingRuns
  import L = RingLaws

  /** A turn moves descriptors only with their generations, and so does a reset;
      nothing else touches them. */
  lemma MoveMoves(env: Env, s: R.Sys, m: R.Move)
    requires Sound(s.ring) && Coherent(s.ring.admin)
    ensures BothMoved(s.ring.admin, R.Make(env, s, m).ring.admin)
  {
    if m.Turn? && R.Serving(s.ring) && Runnable(s.ring, 1) {
      hide TakeTurn;
      R.TurnMoves(env, s.ring, s.world);
    }
  }

  ghost function SqHistory(env: Env, p: Policy, w: World, moves: seq<R.Move>): (t: seq<Stamp>)
    ensures |t| == |moves| + 1
    ensures forall n :: 0 <= n <= |moves| ==> t[n] == SqStamp(R.Reached(env, R.Boot(p, w), moves, n).ring.admin)
  {
    seq(|moves| + 1, n requires 0 <= n <= |moves| => SqStamp(R.Reached(env, R.Boot(p, w), moves, n).ring.admin))
  }

  ghost function CqHistory(env: Env, p: Policy, w: World, moves: seq<R.Move>): (t: seq<Stamp>)
    ensures |t| == |moves| + 1
    ensures forall n :: 0 <= n <= |moves| ==> t[n] == CqStamp(R.Reached(env, R.Boot(p, w), moves, n).ring.admin)
  {
    seq(|moves| + 1, n requires 0 <= n <= |moves| => CqStamp(R.Reached(env, R.Boot(p, w), moves, n).ring.admin))
  }

  lemma HistoriesAreTrails(env: Env, p: Policy, w: World, moves: seq<R.Move>)
    ensures Trail(SqHistory(env, p, w, moves)) && Trail(CqHistory(env, p, w, moves))
  {
    hide R.Make, L.Counted, L.InOrder, L.Viewed, Coherent, Moved;
    var sq, cq := SqHistory(env, p, w, moves), CqHistory(env, p, w, moves);
    forall n | 0 <= n < |moves| ensures Moved(sq[n], sq[n + 1]) && Moved(cq[n], cq[n + 1]) {
      L.EveryStateLawful(env, p, w, moves, n);
      MoveMoves(env, R.Reached(env, R.Boot(p, w), moves, n), moves[n]);
    }
  }

  /** Between any two points of a run of the ring each generation has advanced,
      modulo 2^64, by exactly the number of times its descriptor changed. */
  lemma RunCountsChanges(env: Env, p: Policy, w: World, moves: seq<R.Move>, i: nat, j: nat)
    requires i <= j <= |moves|
    ensures var a, b := R.Reached(env, R.Boot(p, w), moves, i).ring.admin,
      R.Reached(env, R.Boot(p, w), moves, j).ring.admin;
      && b.sqGeneration == Later(a.sqGeneration, Changes(SqHistory(env, p, w, moves), i, j))
      && b.cqGeneration == Later(a.cqGeneration, Changes(CqHistory(env, p, w, moves), i, j))
  {
    hide R.Make, R.Reached, Later, Changes, Trail;
    HistoriesAreTrails(env, p, w, moves);
    TrailCounts(SqHistory(env, p, w, moves), i, j);
    TrailCounts(CqHistory(env, p, w, moves), i, j);
  }

  /** No ABA: two points of a run of the ring fewer than 2^64 moves apart that
      show the same generation have had the same descriptor, throughout. */
  lemma NoAbaInRuns(env: Env, p: Policy, w: World, moves: seq<R.Move>, i: nat, k: nat, j: nat)
    requires i <= k <= j <= |moves| && j - i < 0x1_0000_0000_0000_0000
    ensures var a, m, b := R.Reached(env, R.Boot(p, w), moves, i).ring.admin,
                           R.Reached(env, R.Boot(p, w), moves, k).ring.admin,
                           R.Reached(env, R.Boot(p, w), moves, j).ring.admin;
      && (a.sqGeneration == b.sqGeneration ==> m.sq == a.sq && m.sqGeneration == a.sqGeneration)
      && (a.cqGeneration == b.cqGeneration ==> m.cq == a.cq && m.cqGeneration == a.cqGeneration)
  {
    hide R.Make, R.Reached, Trail;
    HistoriesAreTrails(env, p, w, moves);
    TrailUntouched(SqHistory(env, p, w, moves), i, k, j);
    TrailUntouched(CqHistory(env, p, w, moves), i, k, j);
  }
}
