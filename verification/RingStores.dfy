/** Where a turn stores, what it delivers, and what makes it stop. */
module RingStores {
  import opened Words
  import opened Memory
  import opened Host
  import opened AdminPayload
  import opened AdminState
  import AdminLaws
  import opened AdminRing
  import opened RingTrace
  import opened RingRuns
  import opened RingLaws

  // ----- the PRP spans (section 4.3 of NVM Express 1.3) -----

  predicate InOnePage(s: Span) {
    s.bytes > 0 && s.address / 4096 == (s.address as int + s.bytes as int - 1) / 4096
  }

  /** Usable spans take all n bytes, each stays in one page that the host's RAM
      contains, the second starts its page, and the two never overlap, whatever
      the two PRP entries are. */
  lemma SpansFit(env: Env, command: seq<u8>, n: nat)
    requires |command| == 64
    ensures var s := Resolve(env, command, n);
      && (forall i :: 0 <= i < |s| ==> InOnePage(s[i]) && env.Contains(s[i].address, s[i].bytes))
      && (s != [] ==> SpanBytes(s) == n && s[0].address == Le64(command, 24))
      && (|s| == 2 ==> s[1].address == Le64(command, 32) && s[1].address % 4096 == 0
                       && (s[0].address as int + s[0].bytes as int) % 4096 == 0
                       && Apart(s[0].address, s[0].bytes, s[1].address, s[1].bytes))
  {
    hide Le64;
    var a, b := Le64(command, 24), Le64(command, 32);
    var room := 4096 - a % 4096;
    PageOf(a, if room > n then n else room);
    if n > room && n <= 4096 && b % 4096 == 0 {
      PageOf(b, n - room);
    }
  }

  /** What a pair of PRP entries describes: n bytes, at most a page of them, from
      the first entry on, and past the end of its page from the second one on,
      each part nonempty, within 64 bits, in one page and in the host's RAM. */
  predicate Describes(env: Env, command: seq<u8>, n: nat, s: seq<Span>)
    requires |command| == 64
  {
    && 0 < n <= 4096 && 1 <= |s| <= 2
    && n == (if |s| == 1 then s[0].bytes as int else s[0].bytes as int + s[1].bytes as int)
    && (forall i :: 0 <= i < |s| ==>
          && InOnePage(s[i]) && s[i].address != 0 && s[i].address as int + s[i].bytes as int <= U64_MAX
          && env.Contains(s[i].address, s[i].bytes))
    && s[0].address == Le64(command, 24) && s[0].address % 4 == 0
    && (|s| == 2 ==> (s[0].address as int + s[0].bytes as int) % 4096 == 0
                     && s[1].address == Le64(command, 32) && s[1].address % 4096 == 0)
  }

  /** Resolving finds exactly what the entries describe, and nothing only when
      they describe nothing. */
  lemma ResolvesExactly(env: Env, command: seq<u8>, n: nat, s: seq<Span>)
    requires |command| == 64
    ensures Describes(env, command, n, s) <==> s != [] && Resolve(env, command, n) == s
    ensures Resolve(env, command, n) == [] <==> forall t :: !Describes(env, command, n, t)
  {
    forall t ensures Describes(env, command, n, t) <==> t != [] && Resolve(env, command, n) == t {
      if Describes(env, command, n, t) {
        DescribedResolves(env, command, n, t);
      }
      ResolvedDescribes(env, command, n);
    }
    hide Resolve, Describes;
    var r := Resolve(env, command, n);
    assert r != [] ==> Describes(env, command, n, r);
  }

  lemma ResolvedDescribes(env: Env, command: seq<u8>, n: nat)
    requires |command| == 64
    ensures Resolve(env, command, n) != [] ==> Describes(env, command, n, Resolve(env, command, n))
  {
    hide Le64;
    var a, b := Le64(command, 24), Le64(command, 32);
    var room := 4096 - a % 4096;
    PageOf(a, if room > n then n else room);
    if n > room && n <= 4096 && b % 4096 == 0 {
      PageOf(b, n - room);
    }
  }

  lemma DescribedResolves(env: Env, command: seq<u8>, n: nat, s: seq<Span>)
    requires |command| == 64 && Describes(env, command, n, s)
    ensures Resolve(env, command, n) == s
  {
    hide Le64;
    PageEnds(s[0].address, s[0].bytes);
    if |s| == 1 {
      assert s == [Span(s[0].address, s[0].bytes)];
    } else {
      assert s == [Span(s[0].address, s[0].bytes), Span(s[1].address, s[1].bytes)];
    }
  }

  /** Bytes in one page do not reach past its end, and end there only when they fill it. */
  lemma PageEnds(a: nat, n: int)
    requires n > 0 && a / 4096 == (a + n - 1) / 4096
    ensures n <= 4096 - a % 4096
    ensures (a + n) % 4096 == 0 ==> n == 4096 - a % 4096
  {
  }

  lemma PageOf(a: nat, n: int)
    ensures 0 < n <= 4096 - a % 4096 ==> a / 4096 == (a + n - 1) / 4096
    ensures (a + (4096 - a % 4096)) % 4096 == 0
  {
  }

  /** The bytes at the spans, in order. */
  function Gathered(m: Ram, spans: seq<Span>): seq<u8> {
    if spans == [] then [] else Load(m, spans[0].address, spans[0].bytes) + Gathered(m, spans[1..])
  }

  /** A store that lies in one of the command's spans or in the slot being filled. */
  predicate Contained(e: Effect, spans: seq<Span>, slot: int) {
    e.Stored? ==>
      || (exists i :: 0 <= i < |spans| && Within(e.to, |e.bytes|, spans[i]))
      || (slot <= e.to && e.to + |e.bytes| <= slot + 16)
  }

  lemma StoresContained(env: Env, s: Sys, i: nat)
    requires Sound(s.ring) && Serving(s.ring) && Runnable(s.ring, 1) && i < |NextEffects(env, s)|
    ensures Contained(NextEffects(env, s)[i], HeadSpans(env, s.ring, s.world), CqSlot(s.ring))
  {
    hide TakeTurn, HeadSpans, Shaped, Contained, Grew;
    var quiet, rest := EffectsAre(env, s);
    ShapedContained(TakeTurn(env, s.ring, s.world), quiet, rest, HeadSpans(env, s.ring, s.world), CqSlot(s.ring), i);
  }

  lemma ShapedContained(t: Turn, quiet: seq<Effect>, rest: seq<Effect>, spans: seq<Span>, slot: int, i: nat)
    requires Shaped(t, quiet, rest, spans, slot) && i < |quiet + rest|
    ensures Contained((quiet + rest)[i], spans, slot)
  {
    if i < |quiet| {
      assert Placed(quiet[i], spans, slot);
    } else if t.Stopped? && i > |quiet| && |rest| == 3 {
      assert rest[i - |quiet|] == rest[1..][i - |quiet| - 1];
    }
  }

  /** A turn that completes ends with the body, the barrier, the status word and
      the raised line, in that order. */
  lemma CompletionStoredInOrder(env: Env, s: Sys)
    requires Sound(s.ring) && Serving(s.ring) && Runnable(s.ring, 1)
    ensures var t, es := TakeTurn(env, s.ring, s.world), NextEffects(env, s);
      t.Served? && t.answer.Some? ==>
        && |t.answer.value| == 16 && |es| >= 4
        && es[|es| - 4..] == [Stored(CqSlot(s.ring), t.answer.value[..14], true), Fenced,
                              Stored(CqSlot(s.ring) + 14, t.answer.value[14..], true), Level(true)]
  {
    hide TakeTurn, HeadSpans, Quiet;
    var t := TakeTurn(env, s.ring, s.world);
    var quiet, rest := TurnTrace(env, s.ring, s.world);
    var es := quiet + rest;
    assert NextEffects(env, s) == es;
    if t.Served? && t.answer.Some? {
      assert es[|es| - 4..] == quiet[|quiet| - 2..] + rest;
    }
  }

  /** RAM outside the spans and the slot is untouched by a turn. */
  lemma RestUntouched(env: Env, s: Sys, x: int)
    requires Sound(s.ring) && Serving(s.ring) && Runnable(s.ring, 1)
    requires !(CqSlot(s.ring) <= x < CqSlot(s.ring) + 16)
    requires forall i :: 0 <= i < |HeadSpans(env, s.ring, s.world)| ==>
      !Within(x, 1, HeadSpans(env, s.ring, s.world)[i])
    ensures At(TakeTurn(env, s.ring, s.world).world.ram, x) == At(s.world.ram, x)
  {
    hide TakeTurn, HeadSpans;
    var quiet, rest := TurnTrace(env, s.ring, s.world);
    assert NextEffects(env, s) == quiet + rest;
    forall i | 0 <= i < |quiet + rest|
      ensures Contained((quiet + rest)[i], HeadSpans(env, s.ring, s.world), CqSlot(s.ring))
    {
      StoresContained(env, s, i);
    }
    Untouched(s.world.ram, quiet + rest, HeadSpans(env, s.ring, s.world), CqSlot(s.ring), x);
  }

  lemma {:induction false} Untouched(m: Ram, es: seq<Effect>, spans: seq<Span>, slot: int, x: int)
    requires forall i :: 0 <= i < |es| ==> Contained(es[i], spans, slot)
    requires !(slot <= x < slot + 16) && forall i :: 0 <= i < |spans| ==> !Within(x, 1, spans[i])
    ensures At(Replay(m, es), x) == At(m, x)
    decreases |es|
  {
    if es != [] {
      var e := es[|es| - 1];
      Untouched(m, es[..|es| - 1], spans, slot, x);
      assert Contained(e, spans, slot);
    }
  }

  // ----- what is delivered -----

  lemma BytesOfTwo(a: Span, b: Span)
    ensures SpanBytes([a]) == a.bytes && SpanBytes([a, b]) == a.bytes as int + b.bytes as int
  {
    assert [a][1..] == [] && [b][1..] == [] && [a, b][1..] == [b];
    assert SpanBytes([b]) == b.bytes;
  }

  lemma OneSpan(env: Env, w: World, a: Span, payload: seq<u8>)
    requires SpanBytes([a]) <= |payload| && a.bytes <= |payload|
    ensures Deliver(env, w, [a], payload) == (env.Ok(w.tick), AfterWrite(env, w, a.address, payload[..a.bytes]))
  {
    assert [a][1..] == [];
  }

  lemma GatheredTwo(m: Ram, a: Span, b: Span)
    ensures Gathered(m, [a]) == Load(m, a.address, a.bytes)
    ensures Gathered(m, [a, b]) == Load(m, a.address, a.bytes) + Load(m, b.address, b.bytes)
  {
    assert [a][1..] == [] && [b][1..] == [] && [a, b][1..] == [b];
    assert Load(m, a.address, a.bytes) + [] == Load(m, a.address, a.bytes);
    assert Load(m, b.address, b.bytes) + [] == Load(m, b.address, b.bytes);
  }

  lemma OneSpanGathers(env: Env, w: World, a: Span, payload: seq<u8>)
    requires SpanBytes([a]) <= |payload|
    ensures var (done, w1) := Deliver(env, w, [a], payload);
      done ==> a.bytes <= |payload| && w1.ram == Store(w.ram, a.address, payload[..a.bytes])
               && Gathered(w1.ram, [a]) == payload[..a.bytes]
  {
    BytesOfTwo(a, a);
    OneSpan(env, w, a, payload);
    GatheredTwo(Deliver(env, w, [a], payload).1.ram, a, a);
    LoadStored(w.ram, a.address, payload[..a.bytes]);
  }

  lemma TwoSpansGather(env: Env, w: World, a: Span, b: Span, payload: seq<u8>)
    requires SpanBytes([a, b]) <= |payload| && Apart(a.address, a.bytes, b.address, b.bytes)
    ensures var (done, w2) := Deliver(env, w, [a, b], payload);
      done ==> Gathered(w2.ram, [a, b]) == payload[..SpanBytes([a, b])]
  {
    hide Gathered;
    BytesOfTwo(a, b);
    BytesOfTwo(b, b);
    var x, y := payload[..a.bytes], payload[a.bytes..];
    var w1 := AfterWrite(env, w, a.address, x);
    assert [a, b][1..] == [b];
    if env.Ok(w.tick) && Deliver(env, w1, [b], y).0 {
      OneSpanGathers(env, w1, b, y);
      var m := Deliver(env, w1, [b], y).1.ram;
      LoadStored(w.ram, a.address, x);
      LoadApart(w1.ram, b.address, y[..b.bytes], a.address, a.bytes);
      GatheredTwo(m, a, b);
      GatheredTwo(m, b, b);
      assert x + y[..b.bytes] == payload[..SpanBytes([a, b])];
    }
  }

  /** A delivery that is done leaves exactly the payload in the spans. */
  lemma DeliveryGathers(env: Env, w: World, command: seq<u8>, n: nat, payload: seq<u8>)
    requires |command| == 64 && n <= |payload| && Resolve(env, command, n) != []
    ensures var spans := Resolve(env, command, n);
      Deliver(env, w, spans, payload).0 ==> Gathered(Deliver(env, w, spans, payload).1.ram, spans) == payload[..n]
  {
    hide Resolve, Deliver, Gathered;
    var spans := Resolve(env, command, n);
    SpansFit(env, command, n);
    if |spans| == 1 {
      assert spans == [spans[0]];
      BytesOfTwo(spans[0], spans[0]);
      OneSpanGathers(env, w, spans[0], payload);
    } else {
      assert spans == [spans[0], spans[1]];
      TwoSpansGather(env, w, spans[0], spans[1], payload);
    }
  }

  predicate SpansOffSlot(spans: seq<Span>, slot: int) {
    forall i :: 0 <= i < |spans| ==> Apart(spans[i].address, spans[i].bytes, slot, 16)
  }

  lemma {:induction false} GatheredApart(m: Ram, m1: Ram, spans: seq<Span>, slot: int)
    requires SpansOffSlot(spans, slot)
    requires forall x :: !(slot <= x < slot + 16) ==> At(m1, x) == At(m, x)
    ensures Gathered(m1, spans) == Gathered(m, spans)
    decreases |spans|
  {
    if spans != [] {
      var s := spans[0];
      assert Load(m1, s.address, s.bytes) == Load(m, s.address, s.bytes);
      GatheredApart(m, m1, spans[1..], slot);
    }
  }

  lemma PublishOutcome(env: Env, r: Ring, w: World, status: u16, result: u32)
    requires Ready(r) && status < 0x8000
    ensures var t := Publish(env, r, w, status, result);
      && (forall x :: !(CqSlot(r) <= x < CqSlot(r) + 16) ==> At(t.world.ram, x) == At(w.ram, x))
      && t.ring.payload == r.payload && t.ring.admin == r.admin && t.world.cache == w.cache
      && (t.Served? ==>
            && t.answer.Some? && |t.answer.value| == 16
            && Le16(t.answer.value, 14) == 2 * status + r.cq.phase && Le32(t.answer.value, 0) == result)
  {
    hide Completion, Range;
    CompletionFields(result, r.sq.head, Le16(r.command, 2), status, r.cq.phase);
  }

  /** A payload that resolves is delivered whole and the completion reports
      success; one that does not is answered Invalid Field with result 0. */
  predicate Delivered(t: Turn, spans: seq<Span>, page: seq<u8>, n: nat, phase: u8)
    requires |page| == 4096
  {
    t.Served? && t.answer.Some? && 0 < n <= 4096 ==>
      && |t.answer.value| == 16
      && (if spans != [] then Gathered(t.world.ram, spans) == page[..n] && Le16(t.answer.value, 14) == phase
          else Le16(t.answer.value, 14) == 4 + phase && Le32(t.answer.value, 0) == 0)
  }

  lemma AnswerDelivers(env: Env, r: Ring, w: World, x: Result)
    requires Ready(r) && !x.deferred && (x.bytes > 0 ==> x.status == 0)
    requires SpansOffSlot(Resolve(env, r.command, x.bytes), CqSlot(r))
    ensures Delivered(Answer(env, r, w, x), Resolve(env, r.command, x.bytes), r.payload, x.bytes, r.cq.phase)
  {
    hide Publish, Deliver, Resolve;
    var spans := Resolve(env, r.command, x.bytes);
    if 0 < x.bytes <= 4096 {
      if spans == [] {
        PublishOutcome(env, r, w, 2, 0);
      } else {
        var (done, w1) := Deliver(env, w, spans, r.payload);
        DeliveryGathers(env, w, r.command, x.bytes, r.payload);
        var t := Publish(env, r, w1, x.status, x.result);
        PublishOutcome(env, r, w1, x.status, x.result);
        GatheredApart(w1.ram, t.world.ram, spans, CqSlot(r));
      }
    }
  }

  /** Only the payload commands answer with bytes, and they succeed without
      touching the interpreter's state. */
  lemma PayloadCommandsArePure(env: Env, s: State, p: Policy, cmd: seq<u8>, page: seq<u8>, w: World)
    requires |s.features| == 12
    ensures var e := Execute(env, s, p, cmd, page, w);
      e.result.bytes > 0 ==>
        e.result.status == 0 && e.result.changed == 0 && !e.result.deferred && e.state == s && e.world == w
        && e.page == Respond(cmd, p, page).page && e.result.bytes <= 4096
  {
    hide Identify, LogPage;
  }

  lemma ServeDelivers(env: Env, r: Ring, w: World)
    requires Ready(r)
    requires var e := Execute(env, r.admin, r.policy, r.command, r.payload, w);
      SpansOffSlot(Resolve(env, r.command, e.result.bytes), CqSlot(r))
    ensures var e := Execute(env, r.admin, r.policy, r.command, r.payload, w);
      Delivered(Serve(env, r, w), Resolve(env, r.command, e.result.bytes), e.page, e.result.bytes, r.cq.phase)
  {
    hide Execute, Answer, Resolve, Gathered;
    var e := Execute(env, r.admin, r.policy, r.command, r.payload, w);
    PayloadCommandsArePure(env, r.admin, r.policy, r.command, r.payload, w);
    if e.result.bytes > 0 && e.code == 1 {
      var r2 := r.(admin := e.state, payload := e.page, sq := r.sq.(head := NextHead(r)));
      AnswerDelivers(env, r2, e.world, e.result);
    }
  }

  lemma HeadDelivers(env: Env, r: Ring, w: World)
    requires Ready(r) && SpansOffSlot(HeadSpans(env, r, w), CqSlot(r))
    ensures Delivered(TakeTurn(env, r, w), HeadSpans(env, r, w), HeadResult(env, r, w).page,
                      HeadResult(env, r, w).result.bytes, r.cq.phase)
    ensures HeadResult(env, r, w).result.bytes <= 4096
  {
    hide Execute, Serve, Resolve, Gathered;
    var r1 := r.(command := HeadCommand(r, w));
    PayloadCommandsArePure(env, r.admin, r.policy, r1.command, r.payload, AfterRead(env, w, SqSlot(r), 64));
    ServeDelivers(env, r1, AfterRead(env, w, SqSlot(r), 64));
  }

  /** What a turn delivers, by what the PRP entries of the command at the head
      describe and not by how they are resolved: the bytes answered lie in the
      spans described, unless those meet the slot being filled, and the completion
      reports success; or nothing is described, and it reports Invalid Field. */
  lemma TurnDelivers(env: Env, r: Ring, w: World, s: seq<Span>)
    requires Ready(r)
    ensures var t, e, cmd := TakeTurn(env, r, w), HeadResult(env, r, w), HeadCommand(r, w);
      var n := e.result.bytes;
      t.Served? && t.answer.Some? && n > 0 ==>
        && n <= |e.page| && |t.answer.value| == 16
        && (Describes(env, cmd, n, s) && SpansOffSlot(s, CqSlot(r)) ==>
              Gathered(t.world.ram, s) == e.page[..n] && Le16(t.answer.value, 14) == r.cq.phase)
        && ((forall x :: !Describes(env, cmd, n, x)) ==>
              Le16(t.answer.value, 14) == 4 + r.cq.phase && Le32(t.answer.value, 0) == 0)
  {
    hide Execute, TakeTurn, Resolve, Gathered, Describes;
    var n := HeadResult(env, r, w).result.bytes;
    ResolvesExactly(env, HeadCommand(r, w), n, s);
    PayloadCommandsArePure(env, r.admin, r.policy, HeadCommand(r, w), r.payload, AfterRead(env, w, SqSlot(r), 64));
    if SpansOffSlot(HeadSpans(env, r, w), CqSlot(r)) {
      HeadDelivers(env, r, w);
    } else {
      var quiet, rest := TurnTrace(env, r, w);
    }
  }

  // ----- a completion that reports an error -----

  lemma {:induction false} DeliverKeepsCache(env: Env, w: World, spans: seq<Span>, payload: seq<u8>)
    requires SpanBytes(spans) <= |payload|
    ensures Deliver(env, w, spans, payload).1.cache == w.cache
    decreases |spans|
  {
    if spans != [] && env.Ok(w.tick) {
      DeliverKeepsCache(env, AfterWrite(env, w, spans[0].address, payload[..spans[0].bytes]), spans[1..],
                        payload[spans[0].bytes..]);
    }
  }

  /** What the completion of a command reports: the interpreter's answer, or
      Invalid Field when its payload has nowhere to go. */
  function StatusFor(x: Result, spans: seq<Span>): u16 {
    if x.bytes > 0 && spans == [] then 2 else x.status
  }

  function ResultFor(x: Result, spans: seq<Span>): u32 {
    if x.bytes > 0 && spans == [] then 0 else x.result
  }

  lemma AnswerReports(env: Env, r: Ring, w: World, x: Result)
    requires Ready(r) && !x.deferred && x.status < 0x8000
    ensures var t := Answer(env, r, w, x);
      t.Served? ==>
        && t.answer.Some? && |t.answer.value| == 16 && t.ring.admin == r.admin && t.world.cache == w.cache
        && t.ring.payload == r.payload
        && Le16(t.answer.value, 14) == 2 * StatusFor(x, Resolve(env, r.command, x.bytes)) + r.cq.phase
        && Le32(t.answer.value, 0) == ResultFor(x, Resolve(env, r.command, x.bytes))
  {
    hide Publish, Deliver, Resolve;
    var spans := Resolve(env, r.command, x.bytes);
    if x.bytes == 0 {
      PublishOutcome(env, r, w, x.status, x.result);
    } else if spans == [] {
      PublishOutcome(env, r, w, 2, 0);
    } else {
      var (done, w1) := Deliver(env, w, spans, r.payload);
      DeliverKeepsCache(env, w, spans, r.payload);
      PublishOutcome(env, r, w1, x.status, x.result);
    }
  }

  lemma HeldAnswersNothing(env: Env, r: Ring, w: World, x: Result)
    requires Ready(r) && x.deferred
    ensures Answer(env, r, w, x) == Served(r, w, None)
  {
  }

  predicate ReportsError(t: Turn) {
    t.Served? && t.answer.Some? && |t.answer.value| == 16 && Le16(t.answer.value, 14) / 2 != 0
  }

  lemma AnswerError(env: Env, r: Ring, w: World, x: Result)
    requires Ready(r) && x.status < 0x8000 && ReportsError(Answer(env, r, w, x))
    ensures Answer(env, r, w, x).ring.admin == r.admin && Answer(env, r, w, x).world.cache == w.cache
    ensures x.bytes > 0 || x.status != 0
  {
    hide Answer, Resolve;
    if x.deferred {
      HeldAnswersNothing(env, r, w, x);
    } else {
      AnswerReports(env, r, w, x);
    }
  }

  lemma ServeError(env: Env, r: Ring, w: World)
    requires Ready(r) && ReportsError(Serve(env, r, w))
    ensures Serve(env, r, w).ring.admin == r.admin && Serve(env, r, w).world.cache == w.cache
  {
    hide Execute, Answer, ReportsError;
    var e := Execute(env, r.admin, r.policy, r.command, r.payload, w);
    PayloadCommandsArePure(env, r.admin, r.policy, r.command, r.payload, w);
    ExecuteHolds(env, r.admin, r.policy, r.command, r.payload, w);
    AdminLaws.ExecuteAccounted(env, r.admin, r.policy, r.command, r.payload, w);
    var r2 := r.(admin := e.state, payload := e.page, sq := r.sq.(head := NextHead(r)));
    var w1 := if e.result.changed != 0 then AfterReconcile(env, e.world, e.result.changed) else e.world;
    if e.code != 1 || (e.result.changed != 0 && !env.Ok(e.world.tick)) {
      StoppedReportsNothing(Serve(env, r, w));
    } else {
      AnswerError(env, r2, w1, e.result);
    }
  }

  lemma StoppedReportsNothing(t: Turn)
    ensures t.Stopped? ==> !ReportsError(t)
  {
  }

  /** A completion with a nonzero status means the command changed neither the
      interpreter's state nor the cache policy. */
  lemma ErrorCompletionChangesNothing(env: Env, r: Ring, w: World)
    requires Ready(r)
    ensures var t := TakeTurn(env, r, w);
      t.Served? && t.answer.Some? && |t.answer.value| == 16 && Le16(t.answer.value, 14) / 2 != 0 ==>
        t.ring.admin == r.admin && t.world.cache == w.cache
  {
    hide Serve;
    var r1, w1 := r.(command := HeadCommand(r, w)), AfterRead(env, w, SqSlot(r), 64);
    if ReportsError(TakeTurn(env, r, w)) {
      ServeError(env, r1, w1);
    }
  }

  // ----- what makes the engine stop -----

  /** The log ends in a refused callback that was not there before. */
  predicate EndsRefused(w: World, w1: World) {
    |w1.log| > |w.log| && Refused(w1.log[|w1.log| - 1])
  }

  lemma StoreEntryRefusal(env: Env, w: World, slot: u64, c: seq<u8>)
    requires |c| == 16 && Range(env, slot, 16)
    ensures !StoreEntry(env, w, slot, c).0 ==> EndsRefused(w, StoreEntry(env, w, slot, c).1)
    ensures |StoreEntry(env, w, slot, c).1.log| >= |w.log|
  {
  }

  lemma {:induction false} DeliverRefusal(env: Env, w: World, spans: seq<Span>, payload: seq<u8>)
    requires SpanBytes(spans) <= |payload|
    ensures !Deliver(env, w, spans, payload).0 ==> EndsRefused(w, Deliver(env, w, spans, payload).1)
    ensures |Deliver(env, w, spans, payload).1.log| >= |w.log|
    decreases |spans|
  {
    if spans != [] && env.Ok(w.tick) {
      DeliverRefusal(env, AfterWrite(env, w, spans[0].address, payload[..spans[0].bytes]), spans[1..],
                     payload[spans[0].bytes..]);
    }
  }

  /** The turn was stopped by a refused callback: the line was then dropped and the fault raised. */
  predicate StoppedByRefusal(w: World, t: Turn) {
    && |t.world.log| >= |w.log| + 3
    && t.world.log[|t.world.log| - 2..] == [Level(false), Faulted]
    && Refused(t.world.log[|t.world.log| - 3])
  }

  lemma StopRefused(r: Ring, w: World, w1: World)
    requires EndsRefused(w, w1)
    ensures StoppedByRefusal(w, Stop(r, w1))
  {
  }

  lemma PublishRefusal(env: Env, r: Ring, w: World, status: u16, result: u32)
    requires Ready(r) && Range(env, CqSlot(r), 16)
    ensures var t := Publish(env, r, w, status, result); t.Stopped? ==> StoppedByRefusal(w, t)
  {
    hide StoreEntry, Range, StoppedByRefusal, EndsRefused;
    var c := Completion(result, r.sq.head, Le16(r.command, 2), status, r.cq.phase);
    StoreEntryRefusal(env, w, CqSlot(r), c);
    if !StoreEntry(env, w, CqSlot(r), c).0 {
      StopRefused(r.(completion := c), w, StoreEntry(env, w, CqSlot(r), c).1);
    }
  }

  lemma AnswerRefusal(env: Env, r: Ring, w: World, x: Result)
    requires Ready(r) && Range(env, CqSlot(r), 16)
    ensures var t := Answer(env, r, w, x); t.Stopped? ==> StoppedByRefusal(w, t)
  {
    hide Publish, Deliver, Resolve, Range;
    var spans := Resolve(env, r.command, x.bytes);
    if x.deferred {
    } else if x.bytes == 0 {
      PublishRefusal(env, r, w, x.status, x.result);
    } else if spans == [] {
      PublishRefusal(env, r, w, 2, 0);
    } else {
      var (done, w1) := Deliver(env, w, spans, r.payload);
      DeliverRefusal(env, w, spans, r.payload);
      PublishRefusal(env, r, w1, x.status, x.result);
    }
  }

  /** What a successful init and configure establish and every move keeps: the
      policy is valid and the host's RAM contains both rings. */
  predicate Grounded(env: Env, r: Ring) {
    && Startable(env, r.policy)
    && (r.active ==> env.Contains(r.sq.base, 64 * r.sq.depth) && env.Contains(r.cq.base, 16 * r.cq.depth))
  }

  lemma SlotsInRange(env: Env, r: Ring)
    requires Ready(r) && Grounded(env, r) && SubRangeClosed(env)
    ensures Range(env, SqSlot(r), 64) && Range(env, CqSlot(r), 16)
  {
    assert env.Contains(SqSlot(r), 64);
    assert env.Contains(CqSlot(r), 16);
  }

  lemma TurnRefusal(env: Env, r: Ring, w: World)
    requires Ready(r) && Grounded(env, r) && SubRangeClosed(env)
    ensures var t := TakeTurn(env, r, w); t.Stopped? ==> StoppedByRefusal(w, t)
  {
    hide Execute, Answer, Resolve, Range, SubRangeClosed;
    SlotsInRange(env, r);
    var cmd := HeadCommand(r, w);
    var w1 := AfterRead(env, w, SqSlot(r), 64);
    AdminLaws.EveryCommandAnswered(env, r.admin, r.policy, cmd, r.payload, w1);
    var e := Execute(env, r.admin, r.policy, cmd, r.payload, w1);
    var es := ExecuteTrace(env, r.admin, r.policy, cmd, r.payload, w1);
    if env.Ok(w.tick) {
      var r2 := r.(command := cmd, admin := e.state, payload := e.page, sq := r.sq.(head := NextHead(r)));
      AnswerRefusal(env, r2, e.world, e.result);
      AnswerRefusal(env, r2, AfterReconcile(env, e.world, e.result.changed), e.result);
    }
  }

  /** Two states of a ring over the same queues, under the same policy. */
  predicate SamePlace(a: Ring, b: Ring) {
    && b.policy == a.policy && b.lifecycle == a.lifecycle && b.active == a.active
    && b.sq.base == a.sq.base && b.sq.depth == a.sq.depth
    && b.cq.base == a.cq.base && b.cq.depth == a.cq.depth
  }

  lemma AnswerStays(env: Env, r: Ring, w: World, x: Result)
    requires Ready(r)
    ensures SamePlace(r, Answer(env, r, w, x).ring)
  {
    hide StoreEntry, Deliver, Resolve, Completion;
  }

  lemma ServeStays(env: Env, r: Ring, w: World)
    requires Ready(r)
    ensures SamePlace(r, Serve(env, r, w).ring)
  {
    hide Execute, Answer;
    var e := Execute(env, r.admin, r.policy, r.command, r.payload, w);
    if e.code == 1 {
      var r2 := r.(admin := e.state, payload := e.page, sq := r.sq.(head := NextHead(r)));
      AnswerStays(env, r2, e.world, e.result);
      AnswerStays(env, r2, AfterReconcile(env, e.world, e.result.changed), e.result);
    }
  }

  /** A turn stays on its queues. */
  lemma TurnStays(env: Env, r: Ring, w: World)
    requires Ready(r)
    ensures SamePlace(r, TakeTurn(env, r, w).ring)
  {
    hide TakeTurn, Serve, HeadCommand;
    TurnReads(env, r, w);
    ServeStays(env, r.(command := HeadCommand(r, w)), AfterRead(env, w, SqSlot(r), 64));
  }

  lemma MoveKeepsGrounded(env: Env, s: Sys, m: Move)
    requires Sound(s.ring) && Grounded(env, s.ring)
    ensures Grounded(env, Make(env, s, m).ring)
  {
    hide TakeTurn, Startable;
    if m.Turn? && Serving(s.ring) && Runnable(s.ring, 1) {
      TurnStays(env, s.ring, s.world);
    }
  }

  lemma {:induction false} EveryStateGrounded(env: Env, p: Policy, w: World, moves: seq<Move>, k: nat)
    requires k <= |moves| && Startable(env, p)
    ensures Grounded(env, Reached(env, Boot(p, w), moves, k).ring)
  {
    hide Make;
    if k > 0 {
      EveryStateGrounded(env, p, w, moves, k - 1);
      MoveKeepsGrounded(env, Reached(env, Boot(p, w), moves, k - 1), moves[k - 1]);
    }
  }

  /** The moves that stop a serving engine: a doorbell or an acknowledgement out
      of range, an acknowledgement of more than is pending, or a turn in which a
      read, a write or a reconciliation fails. */
  predicate Fails(env: Env, s: Sys, m: Move)
    requires Sound(s.ring) && Serving(s.ring)
  {
    match m
    case Doorbell(tail) => tail >= s.ring.sq.depth
    case Ack(head) => head >= s.ring.cq.depth || Acknowledged(s, head) > s.ring.cq.pending
    case Turn(_) => Runnable(s.ring, 1) && exists i :: 0 <= i < |NextEffects(env, s)| && Refused(NextEffects(env, s)[i])
    case _ => false
  }

  lemma TurnFailsExactly(env: Env, s: Sys)
    requires Counted(s) && Serving(s.ring) && Runnable(s.ring, 1) && Grounded(env, s.ring) && SubRangeClosed(env)
    ensures TakeTurn(env, s.ring, s.world).Stopped?
       <==> exists i :: 0 <= i < |NextEffects(env, s)| && Refused(NextEffects(env, s)[i])
  {
    hide TakeTurn, HeadSpans, Quiet;
    var t := TakeTurn(env, s.ring, s.world);
    var quiet, rest := TurnTrace(env, s.ring, s.world);
    var es := NextEffects(env, s);
    assert es == quiet + rest;
    if t.Stopped? {
      TurnRefusal(env, s.ring, s.world);
      assert Refused(es[|es| - 3]);
    } else {
      NothingRefused(t, quiet, rest, HeadSpans(env, s.ring, s.world), CqSlot(s.ring));
    }
  }

  /** In every run after a successful init, with RAM validity closed under
      sub-ranges, the engine turns fatal exactly by those moves. */
  lemma FatalExactlyWhen(env: Env, p: Policy, w: World, moves: seq<Move>, k: nat)
    requires k < |moves| && Startable(env, p) && SubRangeClosed(env)
    ensures var s := Reached(env, Boot(p, w), moves, k);
      Serving(s.ring) ==>
        (Reached(env, Boot(p, w), moves, k + 1).ring.fatal <==> Fails(env, s, moves[k]))
  {
    var s, m := Reached(env, Boot(p, w), moves, k), moves[k];
    EveryStateLawful(env, p, w, moves, k);
    EveryStateGrounded(env, p, w, moves, k);
    if Serving(s.ring) {
      MoveFailsExactly(env, s, m);
    }
  }

  lemma MoveFailsExactly(env: Env, s: Sys, m: Move)
    requires Counted(s) && Serving(s.ring) && Grounded(env, s.ring) && SubRangeClosed(env)
    ensures Make(env, s, m).ring.fatal <==> Fails(env, s, m)
  {
    hide TakeTurn, NextEffects, SubRangeClosed, Grounded;
    if m.Turn? && Runnable(s.ring, 1) {
      TurnFailsExactly(env, s);
    }
  }
}
