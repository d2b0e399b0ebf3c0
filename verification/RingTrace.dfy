/** The memory-visible effects of one turn of the poll loop, in order. */
module RingTrace {
  import opened Words
  import opened Memory
  import opened Host
  import opened AdminPayload
  import opened AdminState
  import opened AdminRing

  function Applied(m: Ram, e: Effect): Ram {
    if e.Stored? then Store(m, e.to, e.bytes) else m
  }

  /** RAM after a sequence of effects. */
  function Replay(m: Ram, es: seq<Effect>): Ram
    decreases |es|
  {
    if es == [] then m else Applied(Replay(m, es[..|es| - 1]), es[|es| - 1])
  }

  lemma {:induction false} ReplayConcat(m: Ram, a: seq<Effect>, b: seq<Effect>)
    ensures Replay(m, a + b) == Replay(Replay(m, a), b)
    decreases |b|
  {
    if b == [] {
      assert a + b == a;
    } else {
      var c := b[..|b| - 1];
      assert (a + b)[..|a + b| - 1] == a + c;
      ReplayConcat(m, a, c);
    }
  }

  lemma ReplayOne(m: Ram, e: Effect)
    ensures Replay(m, [e]) == Applied(m, e)
  {
    assert [e][..0] == [];
    assert Replay(m, []) == m;
  }

  /** w1 is w after exactly the effects es. */
  predicate Grew(w: World, w1: World, es: seq<Effect>) {
    w1.log == w.log + es && w1.ram == Replay(w.ram, es)
  }

  lemma GrewTrans(a: World, b: World, c: World, es: seq<Effect>, fs: seq<Effect>)
    requires Grew(a, b, es) && Grew(b, c, fs)
    ensures Grew(a, c, es + fs)
  {
    ReplayConcat(a.ram, es, fs);
    assert a.log + es + fs == a.log + (es + fs);
  }

  lemma GrewOne(a: World, b: World, e: Effect)
    requires b.log == a.log + [e] && b.ram == Applied(a.ram, e)
    ensures Grew(a, b, [e])
  {
    ReplayOne(a.ram, e);
  }

  /** The PRP spans the command at the head of the submission queue is going to use. */
  function HeadCommand(r: Ring, w: World): (c: seq<u8>)
    ensures |c| == 64
  {
    Load(w.ram, SqSlot(r), 64)
  }

  function HeadResult(env: Env, r: Ring, w: World): Executed
    requires Sound(r)
  {
    Execute(env, r.admin, r.policy, HeadCommand(r, w), r.payload, AfterRead(env, w, SqSlot(r), 64))
  }

  function HeadSpans(env: Env, r: Ring, w: World): (s: seq<Span>)
    requires Sound(r)
    ensures |s| <= 2
  {
    Resolve(env, HeadCommand(r, w), HeadResult(env, r, w).result.bytes)
  }

  predicate Within(a: int, n: int, s: Span) {
    s.address <= a && a + n <= s.address as int + s.bytes as int
  }

  /** A store into one of the spans or into the body of the entry at `slot`. */
  predicate Placed(e: Effect, spans: seq<Span>, slot: int) {
    e.Stored? ==>
      || (exists i :: 0 <= i < |spans| && Within(e.to, |e.bytes|, spans[i]))
      || (slot == e.to && |e.bytes| <= 14)
  }

  /** Completed callbacks whose stores are all `Placed`. */
  predicate Quiet(es: seq<Effect>, spans: seq<Span>, slot: int) {
    forall i :: 0 <= i < |es| ==> Placed(es[i], spans, slot) && !Refused(es[i])
  }

  lemma QuietConcat(a: seq<Effect>, b: seq<Effect>, spans: seq<Span>, slot: int)
    requires Quiet(a, spans, slot) && Quiet(b, spans, slot)
    ensures Quiet(a + b, spans, slot)
  {
  }

  /** Completed callbacks whose stores all lie in the spans. */
  predicate Calm(es: seq<Effect>, spans: seq<Span>) {
    forall i :: 0 <= i < |es| ==>
      && !Refused(es[i])
      && (es[i].Stored? ==> exists j :: 0 <= j < |spans| && Within(es[i].to, |es[i].bytes|, spans[j]))
  }

  lemma CalmIsQuiet(es: seq<Effect>, spans: seq<Span>, slot: int)
    requires Calm(es, spans)
    ensures Quiet(es, spans, slot)
  {
  }

  lemma CalmConcat(a: seq<Effect>, b: seq<Effect>, spans: seq<Span>)
    requires Calm(a, spans) && Calm(b, spans)
    ensures Calm(a + b, spans)
  {
  }

  /** A refused store to the status word of the entry at `slot` that moved some of it. */
  predicate TornStatus(e: Effect, slot: int) {
    e.Stored? && !e.done && e.to == slot + 14 && e.bytes != []
  }

  predicate Untorn(es: seq<Effect>, slot: int) {
    forall n :: 0 <= n < |es| ==> !TornStatus(es[n], slot)
  }

  /** A refused store to the status word; what it moved starts with the phase tag. */
  predicate StatusRefused(e: Effect, slot: int, phase: u8) {
    e.Stored? && !e.done && e.to == slot + 14 && |e.bytes| <= 2 && (e.bytes != [] ==> e.bytes[0] as int % 2 == phase)
  }

  /** How a failing stage ends: at most one refused callback, itself placed or a
      store to the status word, then the line is dropped and the fault raised. */
  predicate Ending(rest: seq<Effect>, spans: seq<Span>, slot: int, phase: u8) {
    || rest == [Level(false), Faulted]
    || (|rest| == 3 && rest[1..] == [Level(false), Faulted] && Refused(rest[0])
        && (Placed(rest[0], spans, slot) || StatusRefused(rest[0], slot, phase)))
  }

  function StatusStore(slot: int, c: seq<u8>): seq<Effect>
    requires |c| == 16
  {
    [Stored(slot + 14, c[14..], true), Level(true)]
  }

  function BodyStore(slot: int, c: seq<u8>): seq<Effect>
    requires |c| == 16
  {
    [Stored(slot, c[..14], true), Fenced]
  }

  /** The effects of a turn: quiet ones, then what makes it final.  The slot is
      stored to only at the very end, body first. */
  predicate Shaped(t: Turn, quiet: seq<Effect>, rest: seq<Effect>, spans: seq<Span>, slot: int) {
    && Quiet(quiet, spans, slot)
    && match t
       case Stopped(_, _) => Ending(rest, spans, slot, t.ring.cq.phase)
       case Served(_, _, None) => rest == []
       case Served(_, _, Some(c)) =>
         && |c| == 16 && rest == StatusStore(slot, c) && |quiet| >= 2 && quiet[|quiet| - 2..] == BodyStore(slot, c)
         && Calm(quiet[..|quiet| - 2], spans)
  }

  lemma StopTrace(r: Ring, w: World, w1: World, es: seq<Effect>)
    requires Grew(w, w1, es)
    ensures Grew(w, Stop(r, w1).world, es + [Level(false), Faulted])
  {
    GrewOne(w1, AfterLevel(w1, false), Level(false));
    GrewOne(AfterLevel(w1, false), Stop(r, w1).world, Faulted);
    GrewTrans(w, w1, AfterLevel(w1, false), es, [Level(false)]);
    GrewTrans(w, AfterLevel(w1, false), Stop(r, w1).world, es + [Level(false)], [Faulted]);
    assert es + [Level(false)] + [Faulted] == es + [Level(false), Faulted];
  }

  /** The first byte of the status word carries the phase tag. */
  lemma TagByte(result: u32, head: u16, cid: u16, status: u16, phase: u8)
    requires phase < 2
    ensures Completion(result, head, cid, status, phase)[14] as int % 2 == phase
  {
    var word := (2 * status as int + phase as int) % 0x1_0000;
    ToLeAt(word, 2, 0);
    assert word % 0x100 % 2 == phase;
    hide ToLe;
    assert Completion(result, head, cid, status, phase)[14..] == ToLe(word, 2);
  }

  lemma StoreEntryTrace(env: Env, w: World, slot: int, c: seq<u8>, spans: seq<Span>, phase: u8)
    returns (quiet: seq<Effect>, rest: seq<Effect>)
    requires |c| == 16 && c[14] as int % 2 == phase
    ensures var (done, w1) := StoreEntry(env, w, slot, c);
      && Grew(w, w1, quiet + rest) && Quiet(quiet, spans, slot)
      && (done ==> quiet == BodyStore(slot, c) && rest == [Stored(slot + 14, c[14..], true)])
      && (!done ==> Ending(rest + [Level(false), Faulted], spans, slot, phase))
  {
    hide Grew, AfterWrite, Range;
    quiet, rest := [], [];
    if slot < 0 || slot > U64_MAX || !Range(env, slot, 16) {
      NothingGrew(w);
      return;
    }
    var w1, body := OneStore(env, w, slot, c[..14]);
    if !env.Ok(w.tick) {
      rest := [body];
      assert quiet + rest == [body];
      return;
    }
    var w2 := Logged(w1, Fenced);
    FenceGrows(w, w1, body);
    quiet := [body, Fenced];
    var w3, last := OneStore(env, w2, slot + 14, c[14..]);
    GrewTrans(w, w2, w3, quiet, [last]);
    rest := [last];
  }

  lemma NothingGrew(w: World)
    ensures Grew(w, w, [] + [])
  {
    assert w.log + [] == w.log;
  }

  /** A memory write as an effect: all of the bytes when it is done, a first part when not. */
  lemma OneStore(env: Env, w: World, a: int, b: seq<u8>) returns (w1: World, e: Effect)
    ensures w1 == AfterWrite(env, w, a, b) && Grew(w, w1, [e])
    ensures e.Stored? && e.to == a && e.done == env.Ok(w.tick) && e.bytes <= b && (e.done ==> e.bytes == b)
  {
    w1 := AfterWrite(env, w, a, b);
    e := Stored(a, Transferred(env, w, b), env.Ok(w.tick));
    GrewOne(w, w1, e);
  }

  lemma FenceGrows(w: World, w1: World, body: Effect)
    requires Grew(w, w1, [body])
    ensures Grew(w, Logged(w1, Fenced), [body, Fenced])
  {
    GrewOne(w1, Logged(w1, Fenced), Fenced);
    hide Grew;
    GrewTrans(w, w1, Logged(w1, Fenced), [body], [Fenced]);
    assert [body] + [Fenced] == [body, Fenced];
  }

  lemma PublishTrace(env: Env, r: Ring, w: World, status: u16, result: u32, spans: seq<Span>)
    returns (quiet: seq<Effect>, rest: seq<Effect>)
    requires Ready(r)
    ensures var t := Publish(env, r, w, status, result);
      Grew(w, t.world, quiet + rest) && Shaped(t, quiet, rest, spans, CqSlot(r))
  {
    hide StoreEntry, Quiet, Completion, Ending;
    var slot := CqSlot(r);
    var c := Completion(result, r.sq.head, Le16(r.command, 2), status, r.cq.phase);
    var r1 := r.(completion := c);
    var (done, w1) := StoreEntry(env, w, slot, c);
    TagByte(result, r.sq.head, Le16(r.command, 2), status, r.cq.phase);
    var last;
    quiet, last := StoreEntryTrace(env, w, slot, c, spans, r.cq.phase);
    hide Grew;
    if done {
      rest := StatusStore(slot, c);
      RaisedTrace(w, w1, quiet, last, rest);
      assert quiet[|quiet| - 2..] == quiet;
    } else {
      StopTrace(r1, w, w1, quiet + last);
      rest := last + [Level(false), Faulted];
      assert quiet + last + [Level(false), Faulted] == quiet + rest;
    }
  }

  lemma RaisedTrace(w: World, w1: World, quiet: seq<Effect>, last: seq<Effect>, rest: seq<Effect>)
    requires Grew(w, w1, quiet + last) && rest == last + [Level(true)]
    ensures Grew(w, AfterLevel(w1, true), quiet + rest)
  {
    GrewOne(w1, AfterLevel(w1, true), Level(true));
    GrewTrans(w, w1, AfterLevel(w1, true), quiet + last, [Level(true)]);
    assert quiet + last + [Level(true)] == quiet + rest;
  }

  lemma {:induction false} DeliverTrace(env: Env, w: World, spans: seq<Span>, payload: seq<u8>, all: seq<Span>,
      slot: int, phase: u8)
    returns (quiet: seq<Effect>, rest: seq<Effect>)
    requires SpanBytes(spans) <= |payload| && |spans| <= |all| && spans == all[|all| - |spans|..]
    ensures var (done, w1) := Deliver(env, w, spans, payload);
      && Grew(w, w1, quiet + rest) && Calm(quiet, all)
      && (done ==> rest == [])
      && (!done ==> Ending(rest + [Level(false), Faulted], all, slot, phase))
    decreases |spans|
  {
    quiet, rest := [], [];
    if spans == [] {
      assert quiet + rest == [];
      assert w.log + [] == w.log;
      return;
    }
    hide AfterWrite, Ending, Resolve, Grew, Calm, SpanBytes;
    var s := spans[0];
    DeliveryStep(env, w, spans, payload);
    var w1 := AfterWrite(env, w, s.address, payload[..s.bytes]);
    var e := FirstStore(env, w, s, payload, all, |all| - |spans|, slot, phase);
    if !env.Ok(w.tick) {
      rest := [e];
      assert quiet + rest == [e];
      return;
    }
    quiet, rest := DeliverTrace(env, w1, spans[1..], payload[s.bytes..], all, slot, phase);
    var (done, w2) := Deliver(env, w1, spans[1..], payload[s.bytes..]);
    GrewTrans(w, w1, w2, [e], quiet + rest);
    assert [e] + (quiet + rest) == ([e] + quiet) + rest;
    CalmConcat([e], quiet, all);
    quiet := [e] + quiet;
  }

  lemma DeliveryStep(env: Env, w: World, spans: seq<Span>, payload: seq<u8>)
    requires SpanBytes(spans) <= |payload| && spans != []
    ensures spans[0].bytes as int <= |payload| && SpanBytes(spans[1..]) <= |payload[spans[0].bytes..]|
    ensures var w1 := AfterWrite(env, w, spans[0].address, payload[..spans[0].bytes]);
      Deliver(env, w, spans, payload)
      == if env.Ok(w.tick) then Deliver(env, w1, spans[1..], payload[spans[0].bytes..]) else (false, w1)
  {
  }

  /** The store into one span: where it lies, and how the turn ends when it is refused. */
  lemma FirstStore(env: Env, w: World, s: Span, payload: seq<u8>, all: seq<Span>, i: nat, slot: int, phase: u8)
    returns (e: Effect)
    requires s.bytes as int <= |payload| && i < |all| && all[i] == s
    ensures Grew(w, AfterWrite(env, w, s.address, payload[..s.bytes]), [e])
    ensures if env.Ok(w.tick) then Calm([e], all) else Ending([e] + [Level(false), Faulted], all, slot, phase)
  {
    var w1;
    w1, e := OneStore(env, w, s.address, payload[..s.bytes]);
    assert Within(e.to, |e.bytes|, all[i]);
  }

  lemma AnswerTrace(env: Env, r: Ring, w: World, x: Result) returns (quiet: seq<Effect>, rest: seq<Effect>)
    requires Ready(r)
    ensures var t := Answer(env, r, w, x);
      Grew(w, t.world, quiet + rest) && Shaped(t, quiet, rest, Resolve(env, r.command, x.bytes), CqSlot(r))
  {
    hide Publish, Deliver, Placed, Ending, Resolve;
    var spans := Resolve(env, r.command, x.bytes);
    quiet, rest := [], [];
    if x.deferred {
      assert quiet + rest == [];
      assert w.log + [] == w.log;
    } else if x.bytes == 0 {
      quiet, rest := PublishTrace(env, r, w, x.status, x.result, spans);
    } else if spans == [] {
      quiet, rest := PublishTrace(env, r, w, 2, 0, spans);
    } else {
      var (done, w1) := Deliver(env, w, spans, r.payload);
      var q, last := DeliverTrace(env, w, spans, r.payload, spans, CqSlot(r), r.cq.phase);
      if !done {
        CalmIsQuiet(q, spans, CqSlot(r));
        StopTrace(r, w, w1, q + last);
        quiet, rest := q, last + [Level(false), Faulted];
        assert q + last + [Level(false), Faulted] == quiet + rest;
      } else {
        assert q + last == q;
        quiet, rest := PublishTrace(env, r, w1, x.status, x.result, spans);
        var t := Publish(env, r, w1, x.status, x.result);
        Prefixed(w, w1, t, q, quiet, rest, spans, CqSlot(r));
        quiet := q + quiet;
      }
    }
  }

  /** Quiet effects may precede a turn's own. */
  lemma Prefixed(w: World, w1: World, t: Turn, q: seq<Effect>, quiet: seq<Effect>, rest: seq<Effect>,
                 spans: seq<Span>, slot: int)
    requires Grew(w, w1, q) && Calm(q, spans)
    requires Grew(w1, t.world, quiet + rest) && Shaped(t, quiet, rest, spans, slot)
    ensures Grew(w, t.world, q + quiet + rest) && Shaped(t, q + quiet, rest, spans, slot)
  {
    GrewTrans(w, w1, t.world, q, quiet + rest);
    assert q + (quiet + rest) == q + quiet + rest;
    CalmIsQuiet(q, spans, slot);
    QuietConcat(q, quiet, spans, slot);
    if |quiet| >= 2 {
      hide Calm, Quiet, Grew;
      assert (q + quiet)[|q + quiet| - 2..] == quiet[|quiet| - 2..];
      assert (q + quiet)[..|q + quiet| - 2] == q + quiet[..|quiet| - 2];
      if t.Served? && t.answer.Some? {
        CalmConcat(q, quiet[..|quiet| - 2], spans);
      }
    }
  }

  lemma ExecuteTrace(env: Env, s: State, p: Policy, cmd: seq<u8>, page: seq<u8>, w: World) returns (es: seq<Effect>)
    requires |s.features| == 12
    ensures var e := Execute(env, s, p, cmd, page, w);
      Grew(w, e.world, es) && (es == [] || exists on, done :: es == [CacheSet(on, done)])
  {
    hide Create, Delete, HoldEvent, Respond;
    var v := Execute(env, s, p, cmd, page, w).world;
    if v == w {
      es := [];
      assert w.log + [] == w.log;
    } else {
      var on := Dw(cmd, 1) != 0;
      assert v == AfterSetCache(env, w, on);
      es := [CacheSet(on, env.Ok(w.tick))];
      GrewOne(w, v, es[0]);
    }
  }

  lemma ServeTrace(env: Env, r: Ring, w: World) returns (quiet: seq<Effect>, rest: seq<Effect>)
    requires Ready(r)
    ensures var t := Serve(env, r, w);
      var n := Execute(env, r.admin, r.policy, r.command, r.payload, w).result.bytes;
      Grew(w, t.world, quiet + rest) && Shaped(t, quiet, rest, Resolve(env, r.command, n), CqSlot(r))
  {
    hide Execute, Answer, Resolve;
    var e := Execute(env, r.admin, r.policy, r.command, r.payload, w);
    var spans := Resolve(env, r.command, e.result.bytes);
    var slot := CqSlot(r);
    var r1 := r.(admin := e.state, payload := e.page);
    var es := ExecuteTrace(env, r.admin, r.policy, r.command, r.payload, w);
    if e.code != 1 {
      StopTrace(r1, w, e.world, es);
      quiet, rest := es, [Level(false), Faulted];
      return;
    }
    var r2 := r1.(sq := r.sq.(head := (r.sq.head as int + 1) % r.sq.depth as int));
    if e.result.changed != 0 {
      var w1 := AfterReconcile(env, e.world, e.result.changed);
      var f := Reconciled(e.result.changed, env.Ok(e.world.tick));
      GrewOne(e.world, w1, f);
      GrewTrans(w, e.world, w1, es, [f]);
      if !env.Ok(e.world.tick) {
        StopTrace(r2, w, w1, es + [f]);
        quiet, rest := es, [f] + [Level(false), Faulted];
        assert es + [f] + [Level(false), Faulted] == quiet + rest;
      } else {
        quiet, rest := AnswerTrace(env, r2, w1, e.result);
        Prefixed(w, w1, Answer(env, r2, w1, e.result), es + [f], quiet, rest, spans, slot);
        quiet := es + [f] + quiet;
      }
    } else {
      quiet, rest := AnswerTrace(env, r2, e.world, e.result);
      Prefixed(w, e.world, Answer(env, r2, e.world, e.result), es, quiet, rest, spans, slot);
      quiet := es + quiet;
    }
  }

  /** Every turn is a run of quiet effects followed by the store of the status
      word and the raised line, by nothing (a held event), or by a failure. */
  lemma TurnTrace(env: Env, r: Ring, w: World) returns (quiet: seq<Effect>, rest: seq<Effect>)
    requires Ready(r)
    ensures var t := TakeTurn(env, r, w);
      Grew(w, t.world, quiet + rest) && Shaped(t, quiet, rest, HeadSpans(env, r, w), CqSlot(r))
  {
    hide Execute, Serve, Resolve;
    var spans, slot := HeadSpans(env, r, w), CqSlot(r);
    quiet := [];
    if !Range(env, SqSlot(r), 64) {
      assert w.log + [] == w.log;
      StopTrace(r, w, w, []);
      rest := [Level(false), Faulted];
      assert quiet + rest == [] + rest;
      return;
    }
    var w1 := AfterRead(env, w, SqSlot(r), 64);
    var e := Loaded(SqSlot(r), 64, env.Ok(w.tick));
    GrewOne(w, w1, e);
    if !env.Ok(w.tick) {
      StopTrace(r, w, w1, [e]);
      rest := [e] + [Level(false), Faulted];
      assert quiet + rest == [e] + [Level(false), Faulted];
      return;
    }
    var r1 := r.(command := HeadCommand(r, w));
    quiet, rest := ServeTrace(env, r1, w1);
    Prefixed(w, w1, Serve(env, r1, w1), [e], quiet, rest, spans, slot);
    quiet := [e] + quiet;
  }
}
