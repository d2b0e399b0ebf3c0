/** What completions report, over whole runs: each carries the interpreter's
    answer to its command, executed in the state the earlier commands left. */
module RingReplies {
  import opened Words
  import opened Memory
  import opened Host
  import opened AdminPayload
  import opened AdminState
  import opened AdminRing
  import opened RingTrace
  import opened RingRuns
  import opened RingLaws
  import opened RingStores

  /** A completion that reports the interpreter's answer x. */
  predicate Reports(c: seq<u8>, x: Result, spans: seq<Span>) {
    |c| == 16 && Le16(c, 14) / 2 == StatusFor(x, spans) && Le32(c, 0) == ResultFor(x, spans)
  }

  lemma Halved(word: int, status: int, phase: int)
    requires word == 2 * status + phase && 0 <= phase < 2
    ensures word / 2 == status
  {
  }

  /** A served turn leaves the state and the payload buffer as executing the
      command does, and its completion reports the answer. */
  predicate Obeys(env: Env, t: Turn, e: Executed, spans: seq<Span>, policy: Policy) {
    t.Served? ==>
      && t.ring.admin == e.state && t.ring.payload == e.page && t.ring.policy == policy
      && (t.answer.Some? ==> Reports(t.answer.value, e.result, spans))
  }

  lemma AnswerObeys(env: Env, r: Ring, w: World, e: Executed)
    requires Ready(r) && e.result.status < 0x8000 && r.admin == e.state && r.payload == e.page
    ensures Obeys(env, Answer(env, r, w, e.result), e, Resolve(env, r.command, e.result.bytes), r.policy)
  {
    var t := Answer(env, r, w, e.result);
    AnswerStays(env, r, w, e.result);
    hide Answer, Resolve;
    if e.result.deferred {
      HeldAnswersNothing(env, r, w, e.result);
    } else {
      AnswerReports(env, r, w, e.result);
      if t.Served? {
        Halved(Le16(t.answer.value, 14), StatusFor(e.result, Resolve(env, r.command, e.result.bytes)), r.cq.phase);
      }
    }
  }

  lemma ServeObeys(env: Env, r: Ring, w: World)
    requires Ready(r)
    ensures var e := Execute(env, r.admin, r.policy, r.command, r.payload, w);
      Obeys(env, Serve(env, r, w), e, Resolve(env, r.command, e.result.bytes), r.policy)
  {
    hide Execute, Answer, Resolve, Reports;
    var e := Execute(env, r.admin, r.policy, r.command, r.payload, w);
    ExecuteHolds(env, r.admin, r.policy, r.command, r.payload, w);
    if e.code == 1 {
      var r2 := r.(admin := e.state, payload := e.page, sq := r.sq.(head := NextHead(r)));
      AnswerObeys(env, r2, e.world, e);
      AnswerObeys(env, r2, AfterReconcile(env, e.world, e.result.changed), e);
    }
  }

  lemma TurnObeys(env: Env, r: Ring, w: World)
    requires Ready(r)
    ensures Obeys(env, TakeTurn(env, r, w), HeadResult(env, r, w), HeadSpans(env, r, w), r.policy)
  {
    hide TakeTurn, Serve, HeadCommand, Execute, Resolve, Reports;
    TurnReads(env, r, w);
    ServeObeys(env, r.(command := HeadCommand(r, w)), AfterRead(env, w, SqSlot(r), 64));
  }

  // ----- over runs -----

  /** Executing the command that was at the head. */
  function Outcome(env: Env, b: Start): Executed
    requires Sound(b.ring)
  {
    HeadResult(env, b.ring, b.world)
  }

  /** The command taken from b is cmd, and whatever follows starts from what it left. */
  predicate Left(env: Env, b: Start, cmd: seq<u8>, next: Ring) {
    && Sound(b.ring) && cmd == HeadCommand(b.ring, b.world)
    && next.admin == Outcome(env, b).state && next.payload == Outcome(env, b).page && next.policy == b.ring.policy
  }

  function NextRing(starts: seq<Start>, i: nat, last: Ring): Ring {
    if i + 1 < |starts| then starts[i + 1].ring else last
  }

  predicate SameState(a: Ring, b: Ring) {
    b.admin == a.admin && b.payload == a.payload && b.policy == a.policy
  }

  /** The commands taken ran one after the other: the first from the ring as
      configured, and the ring stands where the last one left it. */
  predicate Chained(env: Env, origin: Ring, taken: seq<seq<u8>>, starts: seq<Start>, last: Ring) {
    && |starts| == |taken| && SameState(origin, if starts == [] then last else starts[0].ring)
    && forall i :: 0 <= i < |taken| ==> Left(env, starts[i], taken[i], NextRing(starts, i, last))
  }

  predicate Reported(env: Env, starts: seq<Start>, i: nat, c: seq<u8>) {
    i < |starts| && Sound(starts[i].ring)
    && Reports(c, Outcome(env, starts[i]).result, HeadSpans(env, starts[i].ring, starts[i].world))
  }

  predicate AllReported(env: Env, starts: seq<Start>, held: Option<nat>, published: seq<seq<u8>>) {
    forall j :: 0 <= j < |published| ==> Reported(env, starts, Answered(held, j), published[j])
  }

  predicate Replied(env: Env, s: Sys) {
    Serving(s.ring) ==>
      Chained(env, s.origin, s.taken, s.starts, s.ring) && AllReported(env, s.starts, s.held, s.published)
  }

  lemma OneMoreLink(env: Env, origin: Ring, taken: seq<seq<u8>>, starts: seq<Start>, b: Start, cmd: seq<u8>, last: Ring)
    requires Chained(env, origin, taken, starts, b.ring) && Left(env, b, cmd, last)
    ensures Chained(env, origin, taken + [cmd], starts + [b], last)
  {
    hide Left;
    forall i | 0 <= i <= |taken|
      ensures Left(env, (starts + [b])[i], (taken + [cmd])[i], NextRing(starts + [b], i, last))
    {
      if i < |taken| {
        assert Left(env, starts[i], taken[i], NextRing(starts, i, b.ring));
      }
    }
  }

  lemma OneMoreReport(env: Env, starts: seq<Start>, held: Option<nat>, published: seq<seq<u8>>, b: Start, c: seq<u8>)
    requires AllReported(env, starts, held, published) && Reported(env, starts + [b], |starts|, c)
    requires |starts| == |published| + (if held.Some? then 1 else 0) && (held.Some? ==> held.value < |starts|)
    ensures AllReported(env, starts + [b], held, published + [c])
  {
    hide Reports, Outcome;
    forall j | 0 <= j <= |published|
      ensures Reported(env, starts + [b], Answered(held, j), (published + [c])[j])
    {
      if j < |published| {
        assert Reported(env, starts, Answered(held, j), published[j]);
      }
    }
  }

  lemma OneMoreUnreported(env: Env, starts: seq<Start>, published: seq<seq<u8>>, b: Start)
    requires AllReported(env, starts, None, published) && |starts| == |published|
    ensures AllReported(env, starts + [b], Some(|starts|), published)
  {
    hide Reports, Outcome;
    forall j | 0 <= j < |published|
      ensures Reported(env, starts + [b], Answered(Some(|starts|), j), published[j])
    {
      assert Reported(env, starts, Answered(None, j), published[j]);
    }
  }

  lemma TurnKeepsReplied(env: Env, s: Sys, looks: seq<nat>)
    requires Counted(s) && InOrder(s) && Replied(env, s) && Serving(s.ring) && Runnable(s.ring, 1)
    ensures Replied(env, AfterTurn(env, s, looks))
  {
    hide TakeTurn, LookAll, SpansOffQueue, HeadCommand, HeadSpans, HeadResult, Untorn, Ordered, Answers,
      AllAnswerInTurn, Reports, Chained, AllReported, Sound;
    var r, b := s.ring, Start(s.ring, s.world);
    var t, cmd := TakeTurn(env, r, s.world), HeadCommand(r, s.world);
    TurnMoves(env, r, s.world);
    TurnObeys(env, r, s.world);
    LinksAre(env, s);
    if t.Served? {
      OneMoreLink(env, s.origin, s.taken, s.starts, b, cmd, t.ring);
      if t.answer.Some? {
        assert Reported(env, s.starts + [b], |s.starts|, t.answer.value);
        OneMoreReport(env, s.starts, s.held, s.published, b, t.answer.value);
      } else {
        OneMoreUnreported(env, s.starts, s.published, b);
      }
    }
  }

  lemma LinksAre(env: Env, s: Sys)
    requires Replied(env, s) && Serving(s.ring)
    ensures |s.starts| == |s.taken|
  {
  }

  /** Nothing but a turn matters while the engine serves. */
  lemma SameRing(env: Env, origin: Ring, taken: seq<seq<u8>>, starts: seq<Start>, a: Ring, b: Ring)
    requires Chained(env, origin, taken, starts, a) && SameState(a, b)
    ensures Chained(env, origin, taken, starts, b)
  {
    hide Outcome;
    forall i | 0 <= i < |taken| ensures Left(env, starts[i], taken[i], NextRing(starts, i, b)) {
      assert Left(env, starts[i], taken[i], NextRing(starts, i, a));
    }
  }

  lemma MoveKeepsReplied(env: Env, s: Sys, m: Move)
    requires Counted(s) && InOrder(s) && Replied(env, s)
    ensures Replied(env, Make(env, s, m))
  {
    hide AfterTurn, Answers, InOrder, Chained, AllReported, Configurable;
    var t := Make(env, s, m);
    match m
    case Configure(_, _, _, _) =>
      NothingTaken(env, t.ring);
    case Turn(looks) =>
      if Serving(s.ring) && Runnable(s.ring, 1) {
        TurnKeepsReplied(env, s, looks);
      }
    case _ =>
      if Serving(s.ring) && Serving(t.ring) {
        SameRing(env, s.origin, s.taken, s.starts, s.ring, t.ring);
      }
  }

  lemma NothingTaken(env: Env, r: Ring)
    ensures Chained(env, r, [], [], r) && AllReported(env, [], None, [])
  {
  }

  lemma {:induction false} EveryStateReplied(env: Env, p: Policy, w: World, moves: seq<Move>, k: nat)
    requires k <= |moves|
    ensures Replied(env, Reached(env, Boot(p, w), moves, k))
  {
    hide Counted, InOrder, Viewed, Replied, Make;
    if k == 0 {
      BootReplied(env, p, w);
    } else {
      var s := Reached(env, Boot(p, w), moves, k - 1);
      EveryStateReplied(env, p, w, moves, k - 1);
      EveryStateLawful(env, p, w, moves, k - 1);
      MoveKeepsReplied(env, s, moves[k - 1]);
    }
  }

  lemma BootReplied(env: Env, p: Policy, w: World)
    ensures Replied(env, Boot(p, w))
  {
  }

  /** The interpreter's state before command i of a lifetime, or after the last. */
  function StateBefore(s: Sys, i: nat): State {
    if i < |s.starts| then s.starts[i].ring.admin else s.ring.admin
  }

  /** Over every run the commands of a lifetime run one after the other: the first
      in the state the ring was configured with, each in the state that the one
      before left, and the ring is in the state that the last one left. */
  lemma CommandsRunInTurn(env: Env, p: Policy, w: World, moves: seq<Move>, k: nat, i: nat)
    requires k <= |moves|
    ensures var s := Reached(env, Boot(p, w), moves, k);
      Serving(s.ring) ==>
        && StateBefore(s, 0) == s.origin.admin && |s.starts| == |s.taken|
        && (i < |s.taken| ==>
              var b := s.starts[i];
              && Sound(b.ring) && s.taken[i] == HeadCommand(b.ring, b.world)
              && StateBefore(s, i + 1) == Execute(env, StateBefore(s, i), b.ring.policy, s.taken[i], b.ring.payload,
                                                  AfterRead(env, b.world, SqSlot(b.ring), 64)).state)
  {
    hide Make, HeadCommand, Execute;
    EveryStateReplied(env, p, w, moves, k);
    var s := Reached(env, Boot(p, w), moves, k);
    if Serving(s.ring) && i < |s.taken| {
      assert Left(env, s.starts[i], s.taken[i], NextRing(s.starts, i, s.ring));
    }
  }

  /** Over every run, completion j reports the status and the result of executing
      the command it answers, in the state that the commands before it left. */
  lemma RepliesAreExecuted(env: Env, p: Policy, w: World, moves: seq<Move>, k: nat, j: nat)
    requires k <= |moves|
    ensures var s := Reached(env, Boot(p, w), moves, k);
      Serving(s.ring) && j < |s.published| ==>
        var i := Answered(s.held, j);
        && i < |s.taken| == |s.starts| && |s.taken[i]| == 64 && |s.published[j]| == 16
        && var b := s.starts[i];
        && Sound(b.ring)
        && var x := Execute(env, StateBefore(s, i), b.ring.policy, s.taken[i], b.ring.payload,
                            AfterRead(env, b.world, SqSlot(b.ring), 64)).result;
           var spans := Resolve(env, s.taken[i], x.bytes);
        && Le16(s.published[j], 14) / 2 == StatusFor(x, spans) && Le32(s.published[j], 0) == ResultFor(x, spans)
  {
    hide Make, HeadCommand, Execute, Resolve;
    EveryStateReplied(env, p, w, moves, k);
    var s := Reached(env, Boot(p, w), moves, k);
    if Serving(s.ring) && j < |s.published| {
      var i := Answered(s.held, j);
      assert Reported(env, s.starts, i, s.published[j]);
      assert Left(env, s.starts[i], s.taken[i], NextRing(s.starts, i, s.ring));
    }
  }
}
