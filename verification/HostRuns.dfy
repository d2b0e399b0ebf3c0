/** The host's polling loop in runs of the ring: while the engine works and the
    host waits, the loop takes the next completion published. */
module HostRuns {
  import opened Words
  import opened Memory
  import opened Host
  import opened AdminPayload
  import opened AdminRing
  import opened PhaseTag
  import opened RingRuns
  import opened RingLaws
  import opened HostQueue

  /** Moves during which the host's thread waits: the engine may be called, and
      RAM stored to, but nobody else looks and the ring is not set up anew. */
  predicate Waiting(m: Move) {
    !m.Configure? && !m.Reset? && !m.Look? && (m.Turn? ==> m.looks == [])
  }

  /** What a waiting host can rely on from s to a later t. */
  predicate Later(s: Sys, t: Sys) {
    && t.consumer == s.consumer && s.published <= t.published
    && t.ring.cq.base == s.ring.cq.base && t.ring.cq.depth == s.ring.cq.depth
    && (t.ring.active ==> s.ring.active) && (t.honest ==> s.honest) && (!t.torn ==> !s.torn)
  }

  lemma MoveIsLater(env: Env, s: Sys, m: Move)
    requires Sound(s.ring) && Waiting(m)
    ensures Later(s, Make(env, s, m))
  {
    hide TakeTurn, SpansOffQueue;
    if m.Turn? && Serving(s.ring) && Runnable(s.ring, 1) {
      TurnMoves(env, s.ring, s.world);
    }
  }

  lemma {:induction false} RunIsLater(env: Env, s: Sys, moves: seq<Move>, k: nat, j: nat)
    requires Sound(s.ring) && k <= j <= |moves| && forall n :: k <= n < j ==> Waiting(moves[n])
    ensures Later(Reached(env, s, moves, k), Reached(env, s, moves, j))
    decreases j
  {
    hide Make;
    if k < j {
      RunIsLater(env, s, moves, k, j - 1);
      MoveIsLater(env, Reached(env, s, moves, j - 1), moves[j - 1]);
    }
  }

  /** The points k to j of a run. */
  function Points(env: Env, s: Sys, moves: seq<Move>, k: nat, j: nat): seq<Sys>
    requires Sound(s.ring) && k <= j <= |moves|
  {
    seq(j + 1 - k, n requires 0 <= n < j + 1 - k => Reached(env, s, moves, k + n))
  }

  function Views(ps: seq<Sys>): (v: seq<Ram>)
    ensures |v| == |ps| && forall n :: 0 <= n < |v| ==> v[n] == ps[n].world.ram
  {
    seq(|ps|, n requires 0 <= n < |ps| => ps[n].world.ram)
  }

  function Published(ps: seq<Sys>): (v: seq<seq<seq<u8>>>)
    ensures |v| == |ps| && forall n :: 0 <= n < |v| ==> v[n] == ps[n].published
  {
    seq(|ps|, n requires 0 <= n < |ps| => ps[n].published)
  }

  lemma PointIsVisible(env: Env, p: Policy, w: World, moves: seq<Move>, k: nat, i: nat, j: nat)
    requires k <= i <= j <= |moves| && forall n :: k <= n < j ==> Waiting(moves[n])
    ensures var s, u, t := Reached(env, Boot(p, w), moves, k), Reached(env, Boot(p, w), moves, i),
                           Reached(env, Boot(p, w), moves, j);
      t.ring.active && t.honest && !t.torn ==>
        && Visible(s.consumer, u.world.ram, s.ring.cq.base, s.ring.cq.depth, u.published)
        && u.published <= t.published
  {
    hide Make, Reached, View, Following, Counted, InOrder;
    var boot := Boot(p, w);
    EveryStateLawful(env, p, w, moves, i);
    RunIsLater(env, boot, moves, k, i);
    RunIsLater(env, boot, moves, i, j);
    var u := Reached(env, boot, moves, i);
    if Reached(env, boot, moves, j).ring.active && Reached(env, boot, moves, j).honest
      && !Reached(env, boot, moves, j).torn {
      assert View(u.world.ram, u.ring.cq.base, u.ring.cq.depth, u.published, u.acked);
    }
  }

  /** Polling in a run: an honest host that waits from point k to point j takes
      the completion published next after those it has, from the first point at
      which there is one; and as long as there is none it takes nothing. */
  lemma WaitingTakesTheNext(env: Env, p: Policy, w: World, moves: seq<Move>, k: nat, j: nat)
    requires k <= j <= |moves| && forall n :: k <= n < j ==> Waiting(moves[n])
    ensures var ps := Points(env, Boot(p, w), moves, k, j);
      var c, cq, t := ps[0].consumer, ps[0].ring.cq, ps[j - k];
      t.ring.active && t.honest && !t.torn ==>
        var n := FirstNew(c, cq.base, Views(ps));
        && (n < |ps| <==> |c.received| < |t.published|)
        && (n < |ps| ==>
              && |c.received| < |ps[n].published|
              && Taken(c, ps[n].world.ram, cq.base, cq.depth).received == t.published[..|c.received| + 1])
        && forall i :: 0 <= i < n && i < |ps| ==> |ps[i].published| == |c.received|
  {
    hide Make, Reached, Visible, FirstNew, Taken;
    var ps := Points(env, Boot(p, w), moves, k, j);
    var c, cq, t := ps[0].consumer, ps[0].ring.cq, ps[j - k];
    if t.ring.active && t.honest && !t.torn {
      forall n | 0 <= n < |ps|
        ensures Visible(c, ps[n].world.ram, cq.base, cq.depth, ps[n].published) && ps[n].published <= t.published
      {
        PointIsVisible(env, p, w, moves, k, k + n, j);
      }
      AwaitsNext(c, cq.base, cq.depth, Views(ps), Published(ps), t.published);
    }
  }
}
