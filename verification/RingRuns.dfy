/** Runs of the ring engine together with its host, one poll-loop turn at a
    time, with the history that the whole-run laws speak about. */
module RingRuns {
  import opened Words
  import opened Memory
  import opened Host
  import opened AdminPayload
  import opened AdminState
  import AdminLaws
  import opened AdminRing
  import opened RingTrace
  import opened PhaseTag
  import W = Wheel

  /** `taken` are the commands consumed, `published` the completions stored and
      `acked` how many of those the host has acknowledged, all since the ring was
      configured; `held` is where in `taken` the held event request is.
      `origin` is the ring as configured, and `starts` where the engine and the
      world stood when each command was taken.  `honest` stays true while the host keeps its side: completion-queue
      tags cleared before configuring, no store and no PRP target inside the live
      queue, and no acknowledgement of entries it has not taken.  `torn` is
      whether a refused store has moved part of a status word. */
  datatype Sys = Sys(ring: Ring, world: World, taken: seq<seq<u8>>, held: Option<nat>,
                     published: seq<seq<u8>>, acked: nat, consumer: Consumer, honest: bool,
                     torn: bool, origin: Ring, starts: seq<Start>)

  datatype Start = Start(ring: Ring, world: World)

  /** `Turn(looks)`: one turn during which the consumer looks at the queue after
      the first looks[0], looks[1], ... effects of the turn. */
  datatype Move =
    | Configure(sq: u64, ns: u16, cq: u64, nc: u16)
    | Reset(full: bool)
    | Doorbell(tail: u32)
    | Turn(looks: seq<nat>)
    | Ack(head: u32)
    | Scribble(a: int, bytes: seq<u8>)
    | Look

  predicate Serving(r: Ring) {
    r.active && !r.fatal
  }

  predicate OffQueue(r: Ring, a: int, n: int) {
    Apart(a, n, r.cq.base, 16 * r.cq.depth as int)
  }

  predicate TagsClear(m: Ram, cq: u64, nc: u16) {
    forall s :: 0 <= s < nc ==> At(m, cq + 16 * s + 14) as int % 2 == 0
  }

  predicate SpansOffQueue(env: Env, r: Ring, w: World)
    requires Sound(r)
  {
    forall i :: 0 <= i < |HeadSpans(env, r, w)| ==>
      OffQueue(r, HeadSpans(env, r, w)[i].address, HeadSpans(env, r, w)[i].bytes)
  }

  /** The consumer looks at RAM after `upTo` effects. */
  function LookAfter(c: Consumer, m: Ram, es: seq<Effect>, upTo: nat, base: int, d: int): Consumer {
    if upTo > |es| then c
    else Looked(c, Replay(m, es[..upTo]), base, d)
  }

  function LookAll(c: Consumer, m: Ram, es: seq<Effect>, looks: seq<nat>, base: int, d: int): Consumer
    decreases |looks|
  {
    if looks == [] then c
    else LookAfter(LookAll(c, m, es, looks[..|looks| - 1], base, d), m, es, looks[|looks| - 1], base, d)
  }

  predicate Ordered(looks: seq<nat>) {
    forall i, j :: 0 <= i < j < |looks| ==> looks[i] <= looks[j]
  }

  function AfterTurn(env: Env, s: Sys, looks: seq<nat>): Sys
    requires Ready(s.ring)
  {
    var t := TakeTurn(env, s.ring, s.world);
    var es := if |s.world.log| <= |t.world.log| then t.world.log[|s.world.log|..] else [];
    var base, d := s.ring.cq.base, s.ring.cq.depth;
    s.(ring := t.ring, world := t.world,
       taken := if t.Served? then s.taken + [t.ring.command] else s.taken,
       held := if t.Served? && t.answer.None? then Some(|s.taken|) else s.held,
       published := if t.Served? && t.answer.Some? then s.published + [t.answer.value] else s.published,
       consumer := if Ordered(looks) then LookAll(s.consumer, s.world.ram, es, looks, base, d) else s.consumer,
       honest := s.honest && SpansOffQueue(env, s.ring, s.world),
       torn := s.torn || !Untorn(es, CqSlot(s.ring)),
       starts := if t.Served? then s.starts + [Start(s.ring, s.world)] else s.starts)
  }

  function Acknowledged(s: Sys, head: u32): nat
    requires Sound(s.ring)
  {
    if Serving(s.ring) && head < s.ring.cq.depth then
      (head as int + s.ring.cq.depth as int - s.ring.cq.head as int) % s.ring.cq.depth as int
    else 0
  }

  function Make(env: Env, s: Sys, m: Move): (t: Sys)
    requires Sound(s.ring)
    ensures Sound(t.ring)
  {
    match m
    case Configure(sq, ns, cq, nc) =>
      if !Configurable(env, s.ring, sq, ns, cq, nc) then s
      else
        var r := Configured(s.ring, sq, ns, cq, nc);
        Sys(r, AfterLevel(s.world, false), [], None, [], 0, FRESH, TagsClear(s.world.ram, cq, nc), false, r, [])
    case Reset(full) =>
      s.(ring := AfterRingReset(s.ring, full), world := AfterLevel(s.world, false))
    case Doorbell(tail) =>
      if !Serving(s.ring) then s
      else if tail >= s.ring.sq.depth then
        var (r, w) := Failed(s.ring, s.world);
        s.(ring := r, world := w)
      else s.(ring := s.ring.(sq := s.ring.sq.(tail := tail)))
    case Turn(looks) =>
      if Serving(s.ring) && Runnable(s.ring, 1) then AfterTurn(env, s, looks) else s
    case Ack(head) =>
      var (r, w, code) := AdminRing.Ack(s.ring, s.world, head);
      var acked := s.acked + if r.fatal then 0 else Acknowledged(s, head);
      s.(ring := r, world := w, acked := acked, honest := s.honest && acked <= |s.consumer.received|)
    case Scribble(a, bytes) =>
      s.(world := s.world.(ram := Store(s.world.ram, a, bytes)),
         honest := s.honest && OffQueue(s.ring, a, |bytes|))
    case Look =>
      if s.ring.active then
        s.(consumer := Looked(s.consumer, s.world.ram, s.ring.cq.base, s.ring.cq.depth))
      else s
  }

  /** The system after the first k moves. */
  function Reached(env: Env, s: Sys, moves: seq<Move>, k: nat): (t: Sys)
    requires Sound(s.ring) && k <= |moves|
    ensures Sound(t.ring)
  {
    if k == 0 then s else Make(env, Reached(env, s, moves, k - 1), moves[k - 1])
  }

  lemma OneMoreMove(env: Env, s: Sys, moves: seq<Move>, k: nat)
    requires Sound(s.ring) && k < |moves|
    ensures Reached(env, s, moves, k + 1) == Make(env, Reached(env, s, moves, k), moves[k])
  {
    hide Make;
  }

  function Boot(p: Policy, w: World): Sys {
    Sys(Started(p), w.(irq := false), [], None, [], 0, FRESH, true, false, Started(p), [])
  }

  // ----- what one turn does to the registers -----

  /** The completion names its command, the submission-queue head and its lap. */
  predicate Answers(c: seq<u8>, cid: u16, head: u16, phase: u8) {
    |c| == 16 && Le16(c, 12) == cid && Le16(c, 8) == head && c[14] as int % 2 == phase
  }

  /** A decoded completion entry (section 4.6 of NVM Express 1.3). */
  lemma CompletionFields(result: u32, head: u16, cid: u16, status: u16, phase: u8)
    requires phase < 2 && status < 0x8000
    ensures var c := Completion(result, head, cid, status, phase);
      && Le32(c, 0) == result && Le32(c, 4) == 0 && Le16(c, 8) == head && Le16(c, 10) == 0
      && Le16(c, 12) == cid && Le16(c, 14) == 2 * status + phase
      && Answers(c, cid, head, phase)
  {
    hide ToLe;
    var last: u16 := 2 * status as int + phase as int;
    var c := Completion(result, head, cid, status, phase);
    SixParts(ToLe(result, 4), ToLe(0, 4), ToLe(head, 2), ToLe(0, 2), ToLe(cid, 2), ToLe(last, 2));
    RoundTrip32(result, c, 0);
    RoundTrip32(0, c, 4);
    RoundTrip16(head, c, 8);
    RoundTrip16(0, c, 10);
    RoundTrip16(cid, c, 12);
    RoundTrip16(last, c, 14);
    LowBit(status, phase, c[14], c[15]);
  }

  lemma LowBit(status: int, phase: int, lo: int, hi: int)
    requires 0 <= phase < 2 && 2 * status + phase == lo + 0x100 * hi && 0 <= lo < 0x100
    ensures lo % 2 == phase
  {
    assert lo == 2 * (status - 0x80 * hi) + phase;
  }

  lemma SixParts(a: seq<u8>, b: seq<u8>, c: seq<u8>, d: seq<u8>, e: seq<u8>, f: seq<u8>)
    requires |a| == |b| == 4 && |c| == |d| == |e| == |f| == 2
    ensures var s := a + b + c + d + e + f;
      s[0..4] == a && s[4..8] == b && s[8..10] == c && s[10..12] == d && s[12..14] == e && s[14..16] == f
  {
  }

  /** Only a newly held event request is deferred, and only then is one held. */
  predicate Held(s: State, cmd: seq<u8>, e: Executed)
    requires |cmd| == 64
  {
    && e.result.status < 0x8000
    && (if e.result.deferred then !s.aerPresent && e.state.aerPresent && e.state.aerCid == Le16(cmd, 2)
        else e.state.aerPresent == s.aerPresent && e.state.aerCid == s.aerCid)
  }

  lemma ExecuteHolds(env: Env, s: State, p: Policy, cmd: seq<u8>, page: seq<u8>, w: World)
    requires |s.features| == 12 && |cmd| == 64
    ensures var e := Execute(env, s, p, cmd, page, w); Held(s, cmd, e) && e.world.irq == w.irq
  {
    hide Identify, LogPage;
  }

  lemma StoreEntryQuiet(env: Env, w: World, slot: int, c: seq<u8>)
    requires |c| == 16
    ensures StoreEntry(env, w, slot, c).1.irq == w.irq
  {
  }

  lemma {:induction false} DeliverQuiet(env: Env, w: World, spans: seq<Span>, payload: seq<u8>)
    requires SpanBytes(spans) <= |payload|
    ensures Deliver(env, w, spans, payload).1.irq == w.irq
    decreases |spans|
  {
    if spans != [] && env.Ok(w.tick) {
      var w1 := AfterWrite(env, w, spans[0].address, payload[..spans[0].bytes]);
      DeliverQuiet(env, w1, spans[1..], payload[spans[0].bytes..]);
    }
  }

  /** The registers and the line after a turn that started from r and `line`. */
  predicate Moved(r: Ring, command: seq<u8>, head: u16, line: bool, t: Turn)
    requires Ready(r) && |command| == 64
  {
    if t.Stopped? then !t.world.irq && t.ring.cq == r.cq
    else
      && t.ring.command == command && t.ring.sq == r.sq.(head := head)
      && match t.answer
         case None => t.ring.cq == r.cq && t.world.irq == line
         case Some(c) =>
           && t.ring.cq == Advanced(r).cq && t.world.irq
           && Answers(c, Le16(command, 2), head, r.cq.phase)
  }

  lemma PublishMoves(env: Env, r: Ring, w: World, status: u16, result: u32)
    requires Ready(r) && status < 0x8000
    ensures var t := Publish(env, r, w, status, result);
      && Moved(r, r.command, r.sq.head, w.irq, t) && t.ring.admin == r.admin
      && (t.Served? ==> t.answer.Some?)
  {
    hide StoreEntry, Completion, Answers;
    CompletionFields(result, r.sq.head, Le16(r.command, 2), status, r.cq.phase);
    StoreEntryQuiet(env, w, CqSlot(r), Completion(result, r.sq.head, Le16(r.command, 2), status, r.cq.phase));
  }

  lemma AnswerMoves(env: Env, r: Ring, w: World, x: Result)
    requires Ready(r) && x.status < 0x8000
    ensures var t := Answer(env, r, w, x);
      && Moved(r, r.command, r.sq.head, w.irq, t) && t.ring.admin == r.admin
      && (t.Served? ==> (t.answer.None? <==> x.deferred))
  {
    hide Publish, Deliver, Resolve, Answers;
    var spans := Resolve(env, r.command, x.bytes);
    if x.deferred {
    } else if x.bytes == 0 {
      PublishMoves(env, r, w, x.status, x.result);
    } else if spans == [] {
      PublishMoves(env, r, w, 2, 0);
    } else {
      var (done, w1) := Deliver(env, w, spans, r.payload);
      DeliverQuiet(env, w, spans, r.payload);
      PublishMoves(env, r, w1, x.status, x.result);
    }
  }

  function NextHead(r: Ring): u16
    requires Ready(r)
  {
    (r.sq.head as int + 1) % r.sq.depth as int
  }

  lemma ServeMoves(env: Env, r: Ring, w: World)
    requires Ready(r)
    ensures var t := Serve(env, r, w);
      && Moved(r, r.command, NextHead(r), w.irq, t)
      && (t.Served? && t.answer.None? ==>
            !r.admin.aerPresent && t.ring.admin.aerPresent && t.ring.admin.aerCid == Le16(r.command, 2))
      && (t.Served? && t.answer.Some? ==>
            t.ring.admin.aerPresent == r.admin.aerPresent && t.ring.admin.aerCid == r.admin.aerCid)
      && (AdminLaws.Coherent(r.admin) ==> AdminLaws.Coherent(t.ring.admin))
      && AdminLaws.BothMoved(r.admin, t.ring.admin)
  {
    hide Execute, Answer, Answers, AdminLaws.Coherent, AdminLaws.BothMoved;
    var e := Execute(env, r.admin, r.policy, r.command, r.payload, w);
    ExecuteHolds(env, r.admin, r.policy, r.command, r.payload, w);
    AdminLaws.ExecuteAccounted(env, r.admin, r.policy, r.command, r.payload, w);
    if e.code == 1 {
      var r2 := r.(admin := e.state, payload := e.page, sq := r.sq.(head := NextHead(r)));
      AnswerMoves(env, r2, e.world, e.result);
      AnswerMoves(env, r2, AfterReconcile(env, e.world, e.result.changed), e.result);
    }
  }

  /** A turn stops before it has read a command, or serves the command read. */
  lemma TurnReads(env: Env, r: Ring, w: World)
    requires Ready(r)
    ensures var t := TakeTurn(env, r, w);
      || (t.Stopped? && t.ring == r.(fatal := true) && !t.world.irq)
      || t == Serve(env, r.(command := HeadCommand(r, w)), AfterRead(env, w, SqSlot(r), 64))
  {
    hide Serve;
  }

  /** A served turn moves the submission-queue head by one, and the completion
      queue by one exactly when it answers; a stopped turn drops the line and
      leaves the completion queue.  I/O queue descriptors move with their generations. */
  lemma TurnMoves(env: Env, r: Ring, w: World)
    requires Ready(r)
    ensures var t := TakeTurn(env, r, w);
      && Moved(r, HeadCommand(r, w), NextHead(r), w.irq, t)
      && (t.Served? && t.answer.None? ==>
            !r.admin.aerPresent && t.ring.admin.aerPresent && t.ring.admin.aerCid == Le16(HeadCommand(r, w), 2))
      && (t.Served? && t.answer.Some? ==>
            t.ring.admin.aerPresent == r.admin.aerPresent && t.ring.admin.aerCid == r.admin.aerCid)
      && (AdminLaws.Coherent(r.admin) ==> AdminLaws.Coherent(t.ring.admin))
      && AdminLaws.BothMoved(r.admin, t.ring.admin)
  {
    hide TakeTurn, Serve, HeadCommand, Answers, AdminLaws.Coherent, AdminLaws.BothMoved;
    TurnReads(env, r, w);
    AdminLaws.Unmoved(r.admin);
    ServeMoves(env, r.(command := HeadCommand(r, w)), AfterRead(env, w, SqSlot(r), 64));
  }
}
