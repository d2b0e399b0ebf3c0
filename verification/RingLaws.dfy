/** Laws of every run of the ring engine: conservation and order of commands and
    completions, and what the host sees of the completion queue. */
module RingLaws {
  import opened Words
  import opened Memory
  import opened Host
  import opened AdminPayload
  import opened AdminState
  import AdminLaws
  import opened AdminRing
  import opened RingTrace
  import opened PhaseTag
  import opened RingRuns
  import W = Wheel

  // ----- conservation -----

  /** Every register is a count seen through its ring, commands taken are
      completions published plus the held event request, and the line follows
      the pending count. */
  predicate Counted(s: Sys) {
    var r := s.ring;
    && Sound(r)
    && (!r.active ==> !r.admin.aerPresent)
    && s.world.irq == (Serving(r) && r.cq.pending != 0)
    && (Serving(r) ==>
      && r.sq.head == W.Slot(|s.taken|, r.sq.depth)
      && r.cq.tail == W.Slot(|s.published|, r.cq.depth)
      && r.cq.phase == W.Tag(|s.published|, r.cq.depth)
      && r.cq.head == W.Slot(s.acked, r.cq.depth)
      && |s.published| == s.acked + r.cq.pending
      && |s.taken| == |s.published| + (if s.held.Some? then 1 else 0)
      && (s.held.Some? <==> r.admin.aerPresent))
  }

  lemma TurnKeepsCounted(env: Env, s: Sys, looks: seq<nat>)
    requires Counted(s) && Serving(s.ring) && Runnable(s.ring, 1)
    ensures Counted(AfterTurn(env, s, looks))
  {
    hide TakeTurn, LookAll, SpansOffQueue, HeadCommand, Untorn, Answers, Ordered, AdminLaws.BothMoved,
      AdminLaws.Coherent;
    TurnMoves(env, s.ring, s.world);
    W.Next(|s.taken|, s.ring.sq.depth);
    W.Next(|s.published|, s.ring.cq.depth);
  }

  lemma AckKeepsCounted(env: Env, s: Sys, head: u32)
    requires Counted(s)
    ensures Counted(Make(env, s, Ack(head)))
  {
    if Serving(s.ring) && head < s.ring.cq.depth {
      var d := s.ring.cq.depth;
      var n := Acknowledged(s, head);
      W.Add(s.acked, n, d);
      HeadAfter(s.ring.cq.head, head, d);
    }
  }

  lemma HeadAfter(a: int, b: int, d: int)
    requires 0 <= a < d && 0 <= b < d
    ensures (a + (b + d - a) % d) % d == b
  {
    var n := (b + d - a) % d;
    if b >= a {
      W.Lap(b + d - a, d, 1, b - a);
      W.Lap(b, d, 0, b);
    } else {
      W.Lap(b + d - a, d, 0, b + d - a);
      W.Lap(b + d, d, 1, b);
    }
  }

  lemma MoveKeepsCounted(env: Env, s: Sys, m: Move)
    requires Counted(s)
    ensures Counted(Make(env, s, m))
  {
    hide AfterTurn;
    match m
    case Configure(sq, ns, cq, nc) =>
      ConfigureKeepsCounted(env, s, sq, ns, cq, nc);
    case Turn(looks) =>
      if Serving(s.ring) && Runnable(s.ring, 1) {
        TurnKeepsCounted(env, s, looks);
      }
    case Ack(head) => AckKeepsCounted(env, s, head);
    case _ =>
  }

  lemma ConfigureKeepsCounted(env: Env, s: Sys, sq: u64, ns: u16, cq: u64, nc: u16)
    requires Counted(s)
    ensures Counted(Make(env, s, Configure(sq, ns, cq, nc)))
  {
    if Configurable(env, s.ring, sq, ns, cq, nc) {
      W.Start(ns);
      W.Start(nc);
    }
  }

  /** The tail is always the head advanced by the pending count. */
  lemma TailIsHeadPlusPending(s: Sys)
    requires Counted(s) && Serving(s.ring)
    ensures s.ring.cq.tail as int == (s.ring.cq.head as int + s.ring.cq.pending as int) % s.ring.cq.depth as int
  {
    W.Add(s.acked, s.ring.cq.pending, s.ring.cq.depth);
  }

  // ----- order -----

  /** The command that completion j answers: the j-th one that was not held. */
  function Answered(held: Option<nat>, j: nat): nat {
    if held.Some? && j >= held.value then j + 1 else j
  }

  predicate AnswersInTurn(taken: seq<seq<u8>>, held: Option<nat>, c: seq<u8>, j: nat, sqDepth: u16, cqDepth: u16)
    requires sqDepth > 0 && cqDepth > 0
  {
    var i := Answered(held, j);
    i < |taken| && |taken[i]| == 64 && Answers(c, Le16(taken[i], 2), W.Slot(i + 1, sqDepth), W.Tag(j, cqDepth))
  }

  predicate AllAnswerInTurn(taken: seq<seq<u8>>, held: Option<nat>, published: seq<seq<u8>>,
                            sqDepth: u16, cqDepth: u16)
    requires sqDepth > 0 && cqDepth > 0
  {
    forall j :: 0 <= j < |published| ==> AnswersInTurn(taken, held, published[j], j, sqDepth, cqDepth)
  }

  lemma OneMoreAnswer(taken: seq<seq<u8>>, held: Option<nat>, published: seq<seq<u8>>,
                      sqDepth: u16, cqDepth: u16, cmd: seq<u8>, c: seq<u8>)
    requires sqDepth > 0 && cqDepth > 0 && AllAnswerInTurn(taken, held, published, sqDepth, cqDepth)
    requires |taken| == |published| + (if held.Some? then 1 else 0) && (held.Some? ==> held.value < |taken|)
    requires |cmd| == 64 && Answers(c, Le16(cmd, 2), W.Slot(|taken| + 1, sqDepth), W.Tag(|published|, cqDepth))
    ensures AllAnswerInTurn(taken + [cmd], held, published + [c], sqDepth, cqDepth)
  {
    hide Answers;
    forall j | 0 <= j <= |published|
      ensures AnswersInTurn(taken + [cmd], held, (published + [c])[j], j, sqDepth, cqDepth)
    {
      if j < |published| {
        assert AnswersInTurn(taken, held, published[j], j, sqDepth, cqDepth);
      }
    }
  }

  lemma OneMoreHeld(taken: seq<seq<u8>>, published: seq<seq<u8>>, sqDepth: u16, cqDepth: u16, cmd: seq<u8>)
    requires sqDepth > 0 && cqDepth > 0 && AllAnswerInTurn(taken, None, published, sqDepth, cqDepth)
    requires |taken| == |published|
    ensures AllAnswerInTurn(taken + [cmd], Some(|taken|), published, sqDepth, cqDepth)
  {
    hide Answers;
    forall j | 0 <= j < |published|
      ensures AnswersInTurn(taken + [cmd], Some(|taken|), published[j], j, sqDepth, cqDepth)
    {
      assert AnswersInTurn(taken, None, published[j], j, sqDepth, cqDepth);
    }
  }

  /** Completions are in submission order; each names its own command, the slot
      just past it and its lap.  The held event request is remembered by its command's identifier. */
  predicate InOrder(s: Sys)
    requires Sound(s.ring)
  {
    Serving(s.ring) ==>
      && (s.held.Some? ==> s.held.value < |s.taken| && |s.taken[s.held.value]| == 64
                           && s.ring.admin.aerCid == Le16(s.taken[s.held.value], 2))
      && AllAnswerInTurn(s.taken, s.held, s.published, s.ring.sq.depth, s.ring.cq.depth)
  }

  lemma TurnKeepsOrder(env: Env, s: Sys, looks: seq<nat>)
    requires Counted(s) && InOrder(s) && Serving(s.ring) && Runnable(s.ring, 1)
    ensures InOrder(AfterTurn(env, s, looks))
  {
    hide TakeTurn, LookAll, SpansOffQueue, HeadCommand, Untorn, Ordered, Answers, AllAnswerInTurn;
    TurnMoves(env, s.ring, s.world);
    W.Next(|s.taken|, s.ring.sq.depth);
    var t := TakeTurn(env, s.ring, s.world);
    var cmd := HeadCommand(s.ring, s.world);
    if t.Served? {
      if t.answer.Some? {
        OneMoreAnswer(s.taken, s.held, s.published, s.ring.sq.depth, s.ring.cq.depth, cmd, t.answer.value);
      } else {
        OneMoreHeld(s.taken, s.published, s.ring.sq.depth, s.ring.cq.depth, cmd);
      }
    }
  }

  lemma MoveKeepsOrder(env: Env, s: Sys, m: Move)
    requires Counted(s) && InOrder(s)
    ensures InOrder(Make(env, s, m))
  {
    hide AfterTurn, Answers;
    if m.Turn? && Serving(s.ring) && Runnable(s.ring, 1) {
      TurnKeepsOrder(env, s, m.looks);
    }
  }

  // ----- what the host sees -----

  /** The host's view is sound, its consumer is where the engine has published
      to, and it has acknowledged nothing it has not taken; also after the engine
      has stopped, unless that left part of a status word. */
  ghost predicate Viewed(s: Sys)
    requires Sound(s.ring)
  {
    s.ring.active && s.honest && !s.torn ==>
      && View(s.world.ram, s.ring.cq.base, s.ring.cq.depth, s.published, s.acked)
      && Following(s.consumer, s.ring.cq.depth, s.published)
      && s.acked <= |s.consumer.received|
  }

  /** What is published once the first i effects of a turn are visible. */
  function PublishedBy(published: seq<seq<u8>>, t: Turn, quiet: nat, i: nat): seq<seq<u8>> {
    if i > quiet && t.Served? && t.answer.Some? then published + [t.answer.value] else published
  }

  lemma QuietIsHarmless(r: Ring, es: seq<Effect>, spans: seq<Span>, n: int)
    requires Sound(r) && r.active && Quiet(es, spans, CqSlot(r)) && r.cq.tail == W.Slot(n, r.cq.depth)
    requires forall i :: 0 <= i < |spans| ==> OffQueue(r, spans[i].address, spans[i].bytes)
    ensures forall i :: 0 <= i < |es| ==> Harmless(es[i], r.cq.base, r.cq.depth, n)
  {
    forall i | 0 <= i < |es| ensures Harmless(es[i], r.cq.base, r.cq.depth, n) {
      assert Placed(es[i], spans, CqSlot(r));
    }
  }

  lemma BodyIsInPlace(m: Ram, quiet: seq<Effect>, slot: int, c: seq<u8>)
    requires |c| == 16 && |quiet| >= 2 && quiet[|quiet| - 2..] == BodyStore(slot, c)
    ensures Load(Replay(m, quiet), slot, 14) == c[..14]
  {
    var before := quiet[..|quiet| - 2];
    assert quiet == before + BodyStore(slot, c);
    ReplayConcat(m, before, BodyStore(slot, c));
    var m1 := Replay(m, before);
    assert BodyStore(slot, c) == [Stored(slot, c[..14], true)] + [Fenced];
    ReplayConcat(m1, [Stored(slot, c[..14], true)], [Fenced]);
    ReplayOne(m1, Stored(slot, c[..14], true));
    ReplayOne(Store(m1, slot, c[..14]), Fenced);
    LoadStored(m1, slot, c[..14]);
  }

  /** A turn fails in a way that leaves the queue alone, unless it leaves part of a status word. */
  lemma EndingIsHarmless(r: Ring, rest: seq<Effect>, spans: seq<Span>, phase: u8, n: int)
    requires Sound(r) && r.active && Ending(rest, spans, CqSlot(r), phase) && r.cq.tail == W.Slot(n, r.cq.depth)
    requires forall i :: 0 <= i < |spans| ==> OffQueue(r, spans[i].address, spans[i].bytes)
    requires !TornStatus(rest[0], CqSlot(r))
    ensures forall i :: 0 <= i < |rest| ==> Harmless(rest[i], r.cq.base, r.cq.depth, n)
  {
    forall i | 0 <= i < |rest| ensures Harmless(rest[i], r.cq.base, r.cq.depth, n) {
      if |rest| == 3 && i > 0 {
        assert rest[i] == rest[1..][i - 1];
      }
    }
  }

  /** The view after the first i effects of a turn, as long as they leave no part of a status word. */
  lemma PrefixIsView(env: Env, s: Sys, quiet: seq<Effect>, rest: seq<Effect>, i: nat)
    requires Counted(s) && Viewed(s) && s.honest && !s.torn && Serving(s.ring) && Runnable(s.ring, 1)
    requires SpansOffQueue(env, s.ring, s.world)
    requires Shaped(TakeTurn(env, s.ring, s.world), quiet, rest, HeadSpans(env, s.ring, s.world), CqSlot(s.ring))
    requires i <= |quiet + rest| && Untorn((quiet + rest)[..i], CqSlot(s.ring))
    ensures var t := TakeTurn(env, s.ring, s.world);
      View(Replay(s.world.ram, (quiet + rest)[..i]), s.ring.cq.base, s.ring.cq.depth,
           PublishedBy(s.published, t, |quiet|, i), s.acked)
  {
    hide TakeTurn, HeadSpans, View, Answers, Quiet, Harmless, Replay, Ending, TornStatus;
    var r, t, m := s.ring, TakeTurn(env, s.ring, s.world), s.world.ram;
    var spans, base, d := HeadSpans(env, r, s.world), r.cq.base, r.cq.depth;
    TurnMoves(env, r, s.world);
    QuietIsHarmless(r, quiet, spans, |s.published|);
    if i <= |quiet| {
      assert (quiet + rest)[..i] == quiet[..i];
      HarmlessRunKeepsView(m, quiet[..i], base, d, s.published, s.acked);
    } else {
      var m1 := Replay(m, quiet);
      HarmlessRunKeepsView(m, quiet, base, d, s.published, s.acked);
      var last := rest[..i - |quiet|];
      assert (quiet + rest)[..i] == quiet + last;
      ReplayConcat(m, quiet, last);
      if t.Stopped? {
        assert rest[0] == (quiet + rest)[..i][|quiet|];
        EndingIsHarmless(r, rest, spans, t.ring.cq.phase, |s.published|);
        HarmlessRunKeepsView(m1, last, base, d, s.published, s.acked);
      } else {
        var c := t.answer.value;
        BodyIsInPlace(m, quiet, CqSlot(r), c);
        StatusIsLast(m1, c, CqSlot(r), i - |quiet|);
        AnswerTag(c, Le16(HeadCommand(r, s.world), 2), NextHead(r), r.cq.phase);
        PublishingIsView(m1, r, c, s.published, s.acked);
      }
    }
  }

  lemma AnswerTag(c: seq<u8>, cid: u16, head: u16, phase: u8)
    requires Answers(c, cid, head, phase)
    ensures |c| == 16 && c[14] as int % 2 == phase
  {
  }

  lemma StatusIsLast(m: Ram, c: seq<u8>, slot: int, i: nat)
    requires |c| == 16 && 0 < i <= 2
    ensures Replay(m, StatusStore(slot, c)[..i]) == Store(m, slot + 14, c[14..])
  {
    var a, b := [Stored(slot + 14, c[14..], true)], [Level(true)];
    ReplayOne(m, a[0]);
    assert StatusStore(slot, c)[..1] == a && StatusStore(slot, c)[..2] == a + b;
    ReplayConcat(m, a, b);
    ReplayOne(Store(m, slot + 14, c[14..]), b[0]);
  }

  lemma PublishingIsView(m: Ram, r: Ring, c: seq<u8>, published: seq<seq<u8>>, acked: int)
    requires Sound(r) && r.active && r.cq.tail == W.Slot(|published|, r.cq.depth)
    requires View(m, r.cq.base, r.cq.depth, published, acked) && |published| + 1 < acked + r.cq.depth as int
    requires |c| == 16 && c[14] as int % 2 == W.Tag(|published|, r.cq.depth)
    requires Load(m, CqSlot(r), 14) == c[..14]
    ensures View(Store(m, CqSlot(r) + 14, c[14..]), r.cq.base, r.cq.depth, published + [c], acked)
  {
    StatusPublishes(m, c, r.cq.base, r.cq.depth, published, acked);
  }

  lemma FollowingGrows(c: Consumer, d: int, a: seq<seq<u8>>, b: seq<seq<u8>>)
    requires Following(c, d, a) && a <= b
    ensures Following(c, d, b)
  {
  }

  /** Looks during a turn take only what is published by then. */
  lemma {:induction false} LooksFollow(env: Env, s: Sys, quiet: seq<Effect>, rest: seq<Effect>, looks: seq<nat>)
    requires Counted(s) && Viewed(s) && s.honest && !s.torn && Serving(s.ring) && Runnable(s.ring, 1)
    requires SpansOffQueue(env, s.ring, s.world) && Ordered(looks) && Untorn(quiet + rest, CqSlot(s.ring))
    requires Shaped(TakeTurn(env, s.ring, s.world), quiet, rest, HeadSpans(env, s.ring, s.world), CqSlot(s.ring))
    ensures var t := TakeTurn(env, s.ring, s.world);
      var c := LookAll(s.consumer, s.world.ram, quiet + rest, looks, s.ring.cq.base, s.ring.cq.depth);
      && Following(c, s.ring.cq.depth,
                   PublishedBy(s.published, t, |quiet|, if looks == [] then 0 else looks[|looks| - 1]))
      && |s.consumer.received| <= |c.received|
    decreases |looks|
  {
    hide TakeTurn, HeadSpans, View, Following, Shaped, Replay, SpansOffQueue, TornStatus;
    if looks != [] {
      var n := |looks| - 1;
      var t, m, es := TakeTurn(env, s.ring, s.world), s.world.ram, quiet + rest;
      var base, d := s.ring.cq.base, s.ring.cq.depth;
      LooksFollow(env, s, quiet, rest, looks[..n]);
      var c := LookAll(s.consumer, m, es, looks[..n], base, d);
      var before := PublishedBy(s.published, t, |quiet|, if n == 0 then 0 else looks[n - 1]);
      var now := PublishedBy(s.published, t, |quiet|, looks[n]);
      assert before <= now;
      FollowingGrows(c, d, before, now);
      if looks[n] <= |es| {
        PrefixIsView(env, s, quiet, rest, looks[n]);
        NewExactlyWhenPublished(c, Replay(m, es[..looks[n]]), base, d, now, s.acked);
      }
    }
  }

  /** What the host sees at the end of a turn, and where its looks have led it. */
  lemma TurnIsSeen(env: Env, s: Sys, quiet: seq<Effect>, rest: seq<Effect>, looks: seq<nat>, u: Consumer)
    requires Counted(s) && Viewed(s) && s.honest && !s.torn && Serving(s.ring) && Runnable(s.ring, 1)
    requires SpansOffQueue(env, s.ring, s.world) && Untorn(quiet + rest, CqSlot(s.ring))
    requires Shaped(TakeTurn(env, s.ring, s.world), quiet, rest, HeadSpans(env, s.ring, s.world), CqSlot(s.ring))
    requires u == if Ordered(looks) then
                    LookAll(s.consumer, s.world.ram, quiet + rest, looks, s.ring.cq.base, s.ring.cq.depth)
                  else s.consumer
    ensures var seen := PublishedBy(s.published, TakeTurn(env, s.ring, s.world), |quiet|, |quiet + rest|);
      && View(Replay(s.world.ram, quiet + rest), s.ring.cq.base, s.ring.cq.depth, seen, s.acked)
      && Following(u, s.ring.cq.depth, seen) && s.acked <= |u.received|
  {
    hide TakeTurn, HeadSpans, View, Following, Replay, SpansOffQueue, TornStatus, LookAll, Shaped;
    var t, es := TakeTurn(env, s.ring, s.world), quiet + rest;
    assert es[..|es|] == es;
    PrefixIsView(env, s, quiet, rest, |es|);
    if Ordered(looks) {
      LooksFollow(env, s, quiet, rest, looks);
      var upTo := if looks == [] then 0 else looks[|looks| - 1];
      LastLook(t, quiet, rest, HeadSpans(env, s.ring, s.world), CqSlot(s.ring), s.published, upTo);
      FollowingGrows(u, s.ring.cq.depth, PublishedBy(s.published, t, |quiet|, upTo),
        PublishedBy(s.published, t, |quiet|, |es|));
    } else {
      FollowingGrows(u, s.ring.cq.depth, s.published, PublishedBy(s.published, t, |quiet|, |es|));
    }
  }

  lemma LastLook(t: Turn, quiet: seq<Effect>, rest: seq<Effect>, spans: seq<Span>, slot: int,
                 published: seq<seq<u8>>, upTo: nat)
    requires Shaped(t, quiet, rest, spans, slot)
    ensures PublishedBy(published, t, |quiet|, upTo) <= PublishedBy(published, t, |quiet|, |quiet + rest|)
  {
  }

  lemma TurnIsUntorn(env: Env, s: Sys, looks: seq<nat>, es: seq<Effect>)
    requires Ready(s.ring) && TakeTurn(env, s.ring, s.world).world.log == s.world.log + es
    ensures !AfterTurn(env, s, looks).torn <==> !s.torn && Untorn(es, CqSlot(s.ring))
  {
    hide TakeTurn, Untorn, LookAll, SpansOffQueue;
    assert TakeTurn(env, s.ring, s.world).world.log[|s.world.log|..] == es;
  }

  /** A turn keeps the view, whether it is served or stops, with looks at any moment of it. */
  lemma TurnKeepsView(env: Env, s: Sys, looks: seq<nat>)
    requires Counted(s) && Viewed(s) && Serving(s.ring) && Runnable(s.ring, 1)
    ensures Viewed(AfterTurn(env, s, looks))
  {
    hide TakeTurn, HeadSpans, View, Following, Replay, SpansOffQueue, TornStatus, LookAll, Shaped;
    var t, u := TakeTurn(env, s.ring, s.world), AfterTurn(env, s, looks);
    var quiet, rest := TurnTrace(env, s.ring, s.world);
    assert t.world.log[|s.world.log|..] == quiet + rest;
    TurnIsUntorn(env, s, looks, quiet + rest);
    if u.honest && !u.torn {
      hide Counted, Untorn;
      TurnIsSeen(env, s, quiet, rest, looks, u.consumer);
      EndOfTurn(t, quiet, rest, HeadSpans(env, s.ring, s.world), CqSlot(s.ring), s.published);
      TurnMoves(env, s.ring, s.world);
    }
  }

  /** At the end of a turn its completion, if any, is published. */
  lemma EndOfTurn(t: Turn, quiet: seq<Effect>, rest: seq<Effect>, spans: seq<Span>, slot: int, published: seq<seq<u8>>)
    requires Shaped(t, quiet, rest, spans, slot)
    ensures PublishedBy(published, t, |quiet|, |quiet + rest|)
         == if t.Served? && t.answer.Some? then published + [t.answer.value] else published
  {
  }

  lemma NothingRefused(t: Turn, quiet: seq<Effect>, rest: seq<Effect>, spans: seq<Span>, slot: int)
    requires Shaped(t, quiet, rest, spans, slot) && t.Served?
    ensures forall n :: 0 <= n < |quiet + rest| ==> !Refused((quiet + rest)[n])
    ensures t.answer.Some? ==> |quiet + rest| > |quiet|
  {
  }

  lemma MoveKeepsView(env: Env, s: Sys, m: Move)
    requires Counted(s) && Viewed(s)
    ensures Viewed(Make(env, s, m))
  {
    hide AfterTurn, View;
    var r := s.ring;
    match m
    case Configure(sq, ns, cq, nc) =>
      if Configurable(env, r, sq, ns, cq, nc) {
        W.Start(nc);
        if TagsClear(s.world.ram, cq, nc) {
          ClearedQueueIsView(s.world.ram, cq, nc);
        }
      }
    case Turn(looks) =>
      if Serving(r) && Runnable(r, 1) {
        TurnKeepsView(env, s, looks);
      }
    case Ack(head) =>
      var t := Make(env, s, m);
      if t.ring.active && t.honest && !s.torn {
        AckKeepsView(s.world.ram, r.cq.base, r.cq.depth, s.published, s.acked, t.acked);
      }
    case Scribble(a, bytes) =>
      if r.active && s.honest && !s.torn && OffQueue(r, a, |bytes|) {
        HarmlessKeepsView(s.world.ram, Stored(a, bytes, true), r.cq.base, r.cq.depth, s.published, s.acked);
      }
    case Look =>
      if r.active && s.honest && !s.torn {
        NewExactlyWhenPublished(s.consumer, s.world.ram, r.cq.base, r.cq.depth, s.published, s.acked);
      }
    case _ =>
  }

  // ----- every state of every run -----

  ghost predicate Lawful(s: Sys) {
    Counted(s) && InOrder(s) && Viewed(s) && AdminLaws.Coherent(s.ring.admin)
  }

  lemma MoveKeepsCoherent(env: Env, s: Sys, m: Move)
    requires Sound(s.ring) && AdminLaws.Coherent(s.ring.admin)
    ensures AdminLaws.Coherent(Make(env, s, m).ring.admin)
  {
    if m.Turn? && Serving(s.ring) && Runnable(s.ring, 1) {
      hide TakeTurn;
      TurnMoves(env, s.ring, s.world);
    }
  }

  lemma BootLawful(p: Policy, w: World)
    ensures Lawful(Boot(p, w))
  {
  }

  lemma {:induction false} EveryStateLawful(env: Env, p: Policy, w: World, moves: seq<Move>, k: nat)
    requires k <= |moves|
    ensures Lawful(Reached(env, Boot(p, w), moves, k))
  {
    hide Counted, InOrder, Viewed, AdminLaws.Coherent, Make;
    if k == 0 {
      BootLawful(p, w);
    } else {
      var s, m := Reached(env, Boot(p, w), moves, k - 1), moves[k - 1];
      EveryStateLawful(env, p, w, moves, k - 1);
      MoveKeepsCounted(env, s, m);
      MoveKeepsOrder(env, s, m);
      MoveKeepsView(env, s, m);
      MoveKeepsCoherent(env, s, m);
    }
  }

  /** Conservation and the line: in every serving state of every run, commands
      taken are completions published plus the held event request, the pending
      count is what is published and not acknowledged, the tail is the head plus
      the pending count, and the last level reported is whether any is pending. */
  lemma Conservation(env: Env, p: Policy, w: World, moves: seq<Move>, k: nat)
    requires k <= |moves|
    ensures var s := Reached(env, Boot(p, w), moves, k);
      && s.world.irq == (Serving(s.ring) && s.ring.cq.pending != 0)
      && (Serving(s.ring) ==>
        && |s.taken| == |s.published| + (if s.ring.admin.aerPresent then 1 else 0)
        && |s.published| == s.acked + s.ring.cq.pending && s.ring.cq.pending < s.ring.cq.depth
        && s.ring.cq.tail as int == (s.ring.cq.head as int + s.ring.cq.pending as int) % s.ring.cq.depth as int)
  {
    hide Make;
    EveryStateLawful(env, p, w, moves, k);
    var s := Reached(env, Boot(p, w), moves, k);
    if Serving(s.ring) {
      TailIsHeadPlusPending(s);
    }
  }

  lemma OneInTurn(s: Sys, j: nat)
    requires Sound(s.ring) && InOrder(s) && Serving(s.ring) && j < |s.published|
    ensures var i := if s.held.Some? && j >= s.held.value then j + 1 else j;
      && i < |s.taken| && |s.taken[i]| == 64 && |s.published[j]| == 16
      && Le16(s.published[j], 12) == Le16(s.taken[i], 2)
      && Le16(s.published[j], 8) == (i + 1) % s.ring.sq.depth as int
      && s.published[j][14] as int % 2 == 1 - j / s.ring.cq.depth as int % 2
  {
    hide Le16;
    assert AnswersInTurn(s.taken, s.held, s.published[j], j, s.ring.sq.depth, s.ring.cq.depth);
  }

  /** First in, first out: completion j answers the j-th command that was not
      held, with its identifier, the submission-queue slot just past it and the tag of lap j. */
  lemma FirstInFirstOut(env: Env, p: Policy, w: World, moves: seq<Move>, k: nat, j: nat)
    requires k <= |moves|
    ensures var s := Reached(env, Boot(p, w), moves, k);
      Serving(s.ring) && j < |s.published| ==>
        var i := if s.held.Some? && j >= s.held.value then j + 1 else j;
        && i < |s.taken| && |s.taken[i]| == 64 && |s.published[j]| == 16
        && Le16(s.published[j], 12) == Le16(s.taken[i], 2)
        && Le16(s.published[j], 8) == (i + 1) % s.ring.sq.depth as int
        && s.published[j][14] as int % 2 == 1 - j / s.ring.cq.depth as int % 2
  {
    hide Make, Reached, Counted, InOrder, Viewed, AdminLaws.Coherent, Le16;
    EveryStateLawful(env, p, w, moves, k);
    var s := Reached(env, Boot(p, w), moves, k);
    if Serving(s.ring) && j < |s.published| {
      OneInTurn(s, j);
    }
  }

  /** The effects of the next turn, if there is one to take. */
  function NextEffects(env: Env, s: Sys): seq<Effect>
    requires Sound(s.ring)
  {
    if !Serving(s.ring) || !Runnable(s.ring, 1) then []
    else
      var t := TakeTurn(env, s.ring, s.world);
      if |s.world.log| <= |t.world.log| then t.world.log[|s.world.log|..] else []
  }

  lemma EffectsAre(env: Env, s: Sys) returns (quiet: seq<Effect>, rest: seq<Effect>)
    requires Sound(s.ring) && Serving(s.ring) && Runnable(s.ring, 1)
    ensures NextEffects(env, s) == quiet + rest
    ensures Shaped(TakeTurn(env, s.ring, s.world), quiet, rest, HeadSpans(env, s.ring, s.world), CqSlot(s.ring))
    ensures Grew(s.world, TakeTurn(env, s.ring, s.world).world, quiet + rest)
  {
    hide TakeTurn, HeadSpans, Shaped;
    quiet, rest := TurnTrace(env, s.ring, s.world);
    assert TakeTurn(env, s.ring, s.world).world.log[|s.world.log|..] == quiet + rest;
  }

  /** What is published when the first i effects of the next turn are visible:
      its completion is, once the store of its status word is among them. */
  function VisibleBy(env: Env, s: Sys, i: nat): seq<seq<u8>>
    requires Sound(s.ring)
  {
    if !Serving(s.ring) || !Runnable(s.ring, 1) then s.published
    else
      var t := TakeTurn(env, s.ring, s.world);
      if t.Served? && t.answer.Some? && i + 1 >= |NextEffects(env, s)| then s.published + [t.answer.value]
      else s.published
  }

  /** The host keeps its side, also in the next turn, and no stop has left part
      of a status word before. */
  predicate Observable(env: Env, s: Sys, i: nat)
    requires Sound(s.ring)
  {
    && s.ring.active && s.honest && !s.torn && i <= |NextEffects(env, s)|
    && (Serving(s.ring) && Runnable(s.ring, 1) ==> SpansOffQueue(env, s.ring, s.world))
  }

  /** A refused store is among the first i effects and has moved part of the status word. */
  predicate TornBy(env: Env, s: Sys, i: nat)
    requires Sound(s.ring) && i <= |NextEffects(env, s)|
  {
    exists n :: 0 <= n < i && TornStatus(NextEffects(env, s)[n], CqSlot(s.ring))
  }

  /** With the first i effects of the next turn visible, the consumer sees the
      slot at its head as new exactly when that completion is fully published and
      not yet taken, and what it then reads is that completion, whole. */
  predicate SeesExactlyPublished(env: Env, s: Sys, i: nat)
    requires Sound(s.ring) && i <= |NextEffects(env, s)|
  {
    var c, seen := s.consumer, VisibleBy(env, s, i);
    var m := Replay(s.world.ram, NextEffects(env, s)[..i]);
    && c.received <= seen
    && (SeesNew(c, m, s.ring.cq.base) <==> |c.received| < |seen|)
    && (SeesNew(c, m, s.ring.cq.base) ==> Load(m, s.ring.cq.base + 16 * c.head, 16) == seen[|c.received|])
  }

  /** A consumer that has taken everything is misled exactly by a torn status word. */
  predicate Misled(env: Env, s: Sys, i: nat)
    requires Sound(s.ring) && i <= |NextEffects(env, s)|
  {
    TornBy(env, s, i) && |s.consumer.received| == |s.published|
  }

  /** A turn's effects that leave no part of a status word show exactly what is published. */
  lemma UntornIsSafe(env: Env, s: Sys, i: nat)
    requires Lawful(s) && Observable(env, s, i) && !TornBy(env, s, i)
    requires Serving(s.ring) && Runnable(s.ring, 1)
    ensures SeesExactlyPublished(env, s, i)
  {
    hide TakeTurn, HeadSpans, SpansOffQueue, View, Quiet, Looked, Replay, InOrder, TornStatus;
    var t := TakeTurn(env, s.ring, s.world);
    var quiet, rest := TurnTrace(env, s.ring, s.world);
    var es := quiet + rest;
    assert NextEffects(env, s) == es;
    PrefixIsView(env, s, quiet, rest, i);
    var seen := PublishedBy(s.published, t, |quiet|, i);
    assert seen == VisibleBy(env, s, i);
    var d, m := s.ring.cq.depth, Replay(s.world.ram, es[..i]);
    FollowingGrows(s.consumer, d, s.published, seen);
    NewExactlyWhenPublished(s.consumer, m, s.ring.cq.base, d, seen, s.acked);
  }

  /** Where a torn status word stands among the effects of a turn, and what it carries. */
  lemma TornIsLast(t: Turn, quiet: seq<Effect>, rest: seq<Effect>, spans: seq<Span>, r: Ring, n: nat)
    requires Sound(r) && r.active && Shaped(t, quiet, rest, spans, CqSlot(r)) && t.ring.cq == r.cq
    requires n < |quiet + rest| && TornStatus((quiet + rest)[n], CqSlot(r))
    requires forall i :: 0 <= i < |spans| ==> OffQueue(r, spans[i].address, spans[i].bytes)
    ensures t.Stopped? && n == |quiet| && |rest| == 3 && rest[1..] == [Level(false), Faulted]
    ensures |rest[0].bytes| <= 2 && rest[0].bytes[0] as int % 2 == r.cq.phase
  {
    var e := (quiet + rest)[n];
    assert forall j :: 0 <= j < |quiet| ==> (quiet + rest)[j] == quiet[j] && !Refused(quiet[j]);
    assert e == rest[n - |quiet|];
    assert t.Stopped? && |rest| == 3;
    assert rest[1] == rest[1..][0] && rest[2] == rest[1..][1];
    forall j | 0 <= j < |spans| ensures !Within(e.to, |e.bytes|, spans[j]) {
      assert OffQueue(r, spans[j].address, spans[j].bytes);
    }
  }

  lemma TornRam(m: Ram, quiet: seq<Effect>, rest: seq<Effect>, i: nat)
    requires |quiet| < i <= |quiet + rest| && |rest| == 3 && rest[0].Stored? && rest[1..] == [Level(false), Faulted]
    ensures Replay(m, (quiet + rest)[..i]) == Store(Replay(m, quiet), rest[0].to, rest[0].bytes)
  {
    var m1, tail := Replay(m, quiet), rest[1..][..i - |quiet| - 1];
    assert (quiet + rest)[..i] == quiet + ([rest[0]] + tail);
    ReplayConcat(m, quiet, [rest[0]] + tail);
    ReplayConcat(m1, [rest[0]], tail);
    ReplayOne(m1, rest[0]);
    var m2 := Store(m1, rest[0].to, rest[0].bytes);
    if |tail| == 1 {
      assert tail == [Level(false)];
      ReplayOne(m2, Level(false));
    } else if |tail| == 2 {
      assert tail == [Level(false)] + [Faulted];
      ReplayConcat(m2, [Level(false)], [Faulted]);
      ReplayOne(m2, Level(false));
      ReplayOne(m2, Faulted);
    }
  }

  /** A torn status word misleads a consumer that has taken everything, and no other. */
  lemma TornMisleads(env: Env, s: Sys, i: nat)
    requires Lawful(s) && Observable(env, s, i) && TornBy(env, s, i)
    ensures SeesExactlyPublished(env, s, i) <==> |s.consumer.received| != |s.published|
  {
    hide TakeTurn, HeadSpans, View, Looked, Replay, InOrder, TornStatus, Shaped, Grew, Answers, AdminLaws.BothMoved,
      AdminLaws.Coherent;
    var r, m := s.ring, s.world.ram;
    var t, spans := TakeTurn(env, r, s.world), HeadSpans(env, r, s.world);
    var quiet, rest := EffectsAre(env, s);
    TurnMoves(env, r, s.world);
    var n :| 0 <= n < i && TornStatus(NextEffects(env, s)[n], CqSlot(r));
    TornStops(t, quiet, rest, spans, CqSlot(r), n);
    TornIsLast(t, quiet, rest, spans, r, n);
    ShapedQuiet(t, quiet, rest, spans, CqSlot(r));
    QuietIsHarmless(r, quiet, spans, |s.published|);
    HarmlessRunKeepsView(m, quiet, r.cq.base, r.cq.depth, s.published, s.acked);
    TornAddress(rest[0], CqSlot(r));
    TornRam(m, quiet, rest, i);
    TornIsSeen(s.consumer, Replay(m, quiet), r.cq.base, r.cq.depth, s.published, s.acked, rest[0].bytes);
    assert VisibleBy(env, s, i) == s.published;
  }

  lemma TornStops(t: Turn, quiet: seq<Effect>, rest: seq<Effect>, spans: seq<Span>, slot: int, n: nat)
    requires Shaped(t, quiet, rest, spans, slot) && n < |quiet + rest| && TornStatus((quiet + rest)[n], slot)
    ensures t.Stopped?
  {
    assert forall j :: 0 <= j < |quiet| ==> (quiet + rest)[j] == quiet[j] && !Refused(quiet[j]);
  }

  lemma TornAddress(e: Effect, slot: int)
    requires TornStatus(e, slot)
    ensures e.Stored? && e.to == slot + 14 && e.bytes != []
  {
  }

  lemma ShapedQuiet(t: Turn, quiet: seq<Effect>, rest: seq<Effect>, spans: seq<Span>, slot: int)
    requires Shaped(t, quiet, rest, spans, slot)
    ensures Quiet(quiet, spans, slot)
  {
  }

  /** After any number of effects of the next turn, also one that fails, and
      when there is no next turn. */
  lemma NextStoreIsSafe(env: Env, s: Sys, i: nat)
    requires Lawful(s) && Observable(env, s, i)
    ensures SeesExactlyPublished(env, s, i) <==> !Misled(env, s, i)
  {
    hide TakeTurn, SpansOffQueue, View, InOrder, TornStatus;
    if !Serving(s.ring) || !Runnable(s.ring, 1) {
      NewExactlyWhenPublished(s.consumer, s.world.ram, s.ring.cq.base, s.ring.cq.depth, s.published, s.acked);
    } else if TornBy(env, s, i) {
      TornMisleads(env, s, i);
    } else {
      UntornIsSafe(env, s, i);
    }
  }

  /** Phase-tag safety: in every run, for every depth, after every single store of
      every turn and between turns, an honest host's consumer sees an entry as new
      exactly when it is published and not yet taken, whole and in order; except
      exactly when it had taken everything and a store that reported failure has
      moved part of the next status word. */
  lemma PhaseTagSafety(env: Env, p: Policy, w: World, moves: seq<Move>, k: nat, i: nat)
    requires k <= |moves| && Observable(env, Reached(env, Boot(p, w), moves, k), i)
    ensures var s := Reached(env, Boot(p, w), moves, k);
      SeesExactlyPublished(env, s, i) <==> !Misled(env, s, i)
  {
    hide Make, Lawful, Observable;
    EveryStateLawful(env, p, w, moves, k);
    NextStoreIsSafe(env, Reached(env, Boot(p, w), moves, k), i);
  }

  /** Exactly once: whatever the interleaving of looks, stores, turns and
      acknowledgements, also of turns that stop the engine, an honest host has
      received a prefix of what was published, in order and without loss or repetition. */
  lemma ReceivedExactlyOnce(env: Env, p: Policy, w: World, moves: seq<Move>, k: nat)
    requires k <= |moves|
    ensures var s := Reached(env, Boot(p, w), moves, k);
      s.ring.active && s.honest && !s.torn ==>
        s.consumer.received <= s.published && s.acked <= |s.consumer.received|
  {
    hide Make;
    EveryStateLawful(env, p, w, moves, k);
  }

  /** Over every run of the ring, a queue of the interpreter is present exactly
      when its generation is odd, and a submission queue has its completion queue. */
  lemma QueuesCoherent(env: Env, p: Policy, w: World, moves: seq<Move>, k: nat)
    requires k <= |moves|
    ensures var a := Reached(env, Boot(p, w), moves, k).ring.admin;
      && (a.sq.present <==> a.sqGeneration % 2 == 1) && (a.cq.present <==> a.cqGeneration % 2 == 1)
      && (a.sq.present ==> a.cq.present)
  {
    hide Make;
    EveryStateLawful(env, p, w, moves, k);
  }
}
