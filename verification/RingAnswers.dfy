/** From a command in the submission queue to what the host finds: the page in
    its RAM, the completion, and what the owner was asked to reconcile. */
module RingAnswers {
  import opened Words
  import opened Memory
  import opened Host
  import opened AdminPayload
  import opened AdminState
  import opened AdminScripts
  import opened AdminAnswers
  import AdminLaws
  import opened AdminRing
  import opened RingTrace
  import opened RingRuns
  import opened RingLaws
  import opened RingStores
  import opened RingReplies

  lemma HeadIsUsable(env: Env, r: Ring, w: World)
    requires Sound(r) && Startable(env, r.policy)
    ensures Usable(env, r.admin, r.policy, r.payload)
  {
  }

  lemma WholePage(b: seq<u8>)
    requires |b| == 4096
    ensures b[..4096] == b
  {
  }

  /** Identify Controller: wherever the host's PRP entries point, it reads the
      controller there, byte by byte, and the completion reports success. */
  lemma ControllerReachesHost(env: Env, r: Ring, w: World, s: seq<Span>)
    requires Ready(r) && Startable(env, r.policy) && Identifies(HeadCommand(r, w), 1)
    requires Le32(HeadCommand(r, w), 4) in {0, 0xffff_ffff}
    requires Describes(env, HeadCommand(r, w), 4096, s) && SpansOffSlot(s, CqSlot(r))
    ensures var t := TakeTurn(env, r, w);
      t.Served? ==>
        && t.answer.Some? && ShowsController(Gathered(t.world.ram, s), r.policy)
        && |t.answer.value| == 16 && Le16(t.answer.value, 14) == r.cq.phase && t.ring.admin == r.admin
  {
    var w1 := AfterRead(env, w, SqSlot(r), 64);
    HeadIsUsable(env, r, w);
    hide Execute, TakeTurn, HeadCommand, Describes, Gathered, ShowsController, Identifies, Reports, Resolve, Usable;
    ControllerAnswer(env, r.admin, r.policy, HeadCommand(r, w), r.payload, w1);
    TurnDelivers(env, r, w, s);
    TurnObeys(env, r, w);
    TurnMoves(env, r, w);
    WholePage(HeadResult(env, r, w).page);
  }

  /** An opcode the interpreter does not know: Invalid Opcode, result 0, the state
      as before, and nothing stored outside the completion's slot. */
  lemma UnknownOpcodeReachesHost(env: Env, r: Ring, w: World)
    requires Ready(r) && Startable(env, r.policy) && Plain(HeadCommand(r, w))
    requires HeadCommand(r, w)[0] !in {0, 1, 2, 4, 5, 6, 8, 9, 10, 12}
    ensures var t := TakeTurn(env, r, w);
      && (t.Served? ==>
            && t.answer.Some? && |t.answer.value| == 16
            && Le16(t.answer.value, 14) / 2 == 1 && Le32(t.answer.value, 0) == 0
            && t.ring.admin == r.admin && t.ring.payload == r.payload)
      && HeadSpans(env, r, w) == []
  {
    HeadIsUsable(env, r, w);
    hide Execute, TakeTurn, HeadCommand, Plain, Usable;
    OpcodeAnswers(env, r.admin, r.policy, HeadCommand(r, w), r.payload, AfterRead(env, w, SqSlot(r), 64));
    TurnObeys(env, r, w);
    TurnMoves(env, r, w);
  }

  // ----- what the owner reconciles -----

  /** The calls to reconcile in a log. */
  function Reconciliations(log: seq<Effect>): seq<Effect> {
    if log == [] then []
    else
      Reconciliations(log[..|log| - 1]) + if log[|log| - 1].Reconciled? then [log[|log| - 1]] else []
  }

  lemma OneMore(log: seq<Effect>, e: Effect)
    ensures Reconciliations(log + [e]) == Reconciliations(log) + if e.Reconciled? then [e] else []
  {
    assert (log + [e])[..|log|] == log;
  }

  lemma PublishReconciles(env: Env, r: Ring, w: World, status: u16, result: u32)
    requires Ready(r)
    ensures var t := Publish(env, r, w, status, result);
      t.Served? ==> Reconciliations(t.world.log) == Reconciliations(w.log)
  {
    hide Reconciliations, Completion;
    var c, slot := Completion(result, r.sq.head, Le16(r.command, 2), status, r.cq.phase), CqSlot(r);
    if Publish(env, r, w, status, result).Served? {
      var w1 := AfterWrite(env, w, slot, c[..14]);
      var w2 := Logged(w1, Fenced);
      var w3 := AfterWrite(env, w2, slot + 14, c[14..]);
      OneMore(w.log, Stored(slot, Transferred(env, w, c[..14]), env.Ok(w.tick)));
      OneMore(w1.log, Fenced);
      OneMore(w2.log, Stored(slot + 14, Transferred(env, w2, c[14..]), env.Ok(w2.tick)));
      OneMore(w3.log, Level(true));
    }
  }

  lemma {:induction false} DeliverReconciles(env: Env, w: World, spans: seq<Span>, payload: seq<u8>)
    requires SpanBytes(spans) <= |payload|
    ensures Reconciliations(Deliver(env, w, spans, payload).1.log) == Reconciliations(w.log)
    decreases |spans|
  {
    hide Reconciliations;
    if spans != [] {
      var b := payload[..spans[0].bytes];
      var w1 := AfterWrite(env, w, spans[0].address, b);
      OneMore(w.log, Stored(spans[0].address, Transferred(env, w, b), env.Ok(w.tick)));
      if env.Ok(w.tick) {
        DeliverReconciles(env, w1, spans[1..], payload[spans[0].bytes..]);
      }
    }
  }

  lemma AnswerReconciles(env: Env, r: Ring, w: World, x: Result)
    requires Ready(r)
    ensures var t := Answer(env, r, w, x);
      t.Served? ==> Reconciliations(t.world.log) == Reconciliations(w.log)
  {
    hide Reconciliations, Publish, Deliver, Resolve;
    var spans := Resolve(env, r.command, x.bytes);
    if x.deferred {
    } else if x.bytes == 0 {
      PublishReconciles(env, r, w, x.status, x.result);
    } else if spans == [] {
      PublishReconciles(env, r, w, 2, 0);
    } else {
      DeliverReconciles(env, w, spans, r.payload);
      PublishReconciles(env, r, Deliver(env, w, spans, r.payload).1, x.status, x.result);
    }
  }

  lemma ServeReconciles(env: Env, r: Ring, w: World)
    requires Ready(r)
    ensures var t, e := Serve(env, r, w), Execute(env, r.admin, r.policy, r.command, r.payload, w);
      t.Served? ==>
        Reconciliations(t.world.log) == Reconciliations(w.log)
          + if e.result.changed == 0 then [] else [Reconciled(e.result.changed, true)]
  {
    var e := Execute(env, r.admin, r.policy, r.command, r.payload, w);
    ExecuteReconciles(env, r.admin, r.policy, r.command, r.payload, w);
    hide Reconciliations, Execute, Answer;
    if e.code == 1 {
      var r2 := r.(admin := e.state, payload := e.page, sq := r.sq.(head := NextHead(r)));
      var w1 := AfterReconcile(env, e.world, e.result.changed);
      OneMore(e.world.log, Reconciled(e.result.changed, env.Ok(e.world.tick)));
      AnswerReconciles(env, r2, e.world, e.result);
      AnswerReconciles(env, r2, w1, e.result);
    }
  }

  lemma ExecuteReconciles(env: Env, s: State, p: Policy, cmd: seq<u8>, page: seq<u8>, w: World)
    requires |s.features| == 12
    ensures Reconciliations(Execute(env, s, p, cmd, page, w).world.log) == Reconciliations(w.log)
  {
    AdminLaws.ExecuteAccounted(env, s, p, cmd, page, w);
    hide Reconciliations, Execute;
    var e := Execute(env, s, p, cmd, page, w);
    if e.world != w {
      var on :| e.world == AfterSetCache(env, w, on);
      OneMore(w.log, CacheSet(on, env.Ok(w.tick)));
    }
  }

  /** A served turn asks the owner to reconcile exactly once, with exactly the
      descriptors that moved and the cache policy when it was switched, and not at
      all when nothing did; since a completion is stored last, before answering. */
  lemma TurnReconciles(env: Env, r: Ring, w: World)
    requires Ready(r)
    ensures var t, e := TakeTurn(env, r, w), HeadResult(env, r, w);
      t.Served? ==>
        && Reconciliations(t.world.log) == Reconciliations(w.log)
             + (if e.result.changed == 0 then [] else [Reconciled(e.result.changed, true)])
        && (e.result.changed % 2 == 1 <==> t.ring.admin.sq != r.admin.sq)
        && (e.result.changed / 2 % 2 == 1 <==> t.ring.admin.cq != r.admin.cq)
  {
    hide Reconciliations, Execute, TakeTurn, Serve, HeadCommand, Reports, Resolve, Startable, AdminLaws.Coherent;
    var w1 := AfterRead(env, w, SqSlot(r), 64);
    OneMore(w.log, Loaded(SqSlot(r), 64, env.Ok(w.tick)));
    TurnObeys(env, r, w);
    AdminLaws.ExecuteAccounted(env, r.admin, r.policy, HeadCommand(r, w), r.payload, w1);
    TurnReads(env, r, w);
    ServeReconciles(env, r.(command := HeadCommand(r, w)), w1);
  }
}
