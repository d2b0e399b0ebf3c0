/** The admin submission/completion ring (admin_ring.c). */
module AdminRing {
  import opened Words
  import opened Memory
  import opened Host
  import opened AdminPayload
  import opened AdminState

  datatype Sq = Sq(base: u64, depth: u16, head: u16, tail: u16)

  datatype Cq = Cq(base: u64, depth: u16, head: u16, tail: u16, pending: u16, phase: u8)

  datatype Ring = Ring(
    policy: Policy, admin: State, sq: Sq, cq: Cq, lifecycle: u64, active: bool, fatal: bool,
    command: seq<u8>, payload: seq<u8>, completion: seq<u8>)

  const NO_SQ := Sq(0, 0, 0, 0)
  const NO_CQ := Cq(0, 0, 0, 0, 0, 1)

  /** What an active ring satisfies whatever the host does. */
  predicate Sound(r: Ring) {
    && |r.command| == 64 && |r.payload| == 4096 && |r.completion| == 16
    && |r.admin.features| == 12
    && r.cq.phase < 2
    && (r.active ==>
      && 2 <= r.sq.depth <= 256 && 2 <= r.cq.depth <= 256
      && r.sq.head < r.sq.depth && r.sq.tail < r.sq.depth
      && r.cq.head < r.cq.depth && r.cq.tail < r.cq.depth && r.cq.pending < r.cq.depth
      && 0 < r.sq.base <= U64_MAX - 64 * r.sq.depth
      && 0 < r.cq.base <= U64_MAX - 16 * r.cq.depth)
  }

  predicate Range(env: Env, a: u64, n: u32) {
    a != 0 && n != 0 && a <= U64_MAX - n && env.Contains(a, n)
  }

  function Failed(r: Ring, w: World): (Ring, World) {
    (r.(fatal := true), AfterFault(AfterLevel(w, false)))
  }

  // ----- initialisation, reset, configuration -----

  function Started(p: Policy): Ring {
    Ring(p, Initial(), NO_SQ, NO_CQ, 0, false, false, Zeros(64), Zeros(4096), Zeros(16))
  }

  predicate Startable(env: Env, p: Policy) {
    env.setCache == env.getCache && PolicyValid(p)
  }

  function AfterRingReset(r: Ring, full: bool): Ring {
    r.(active := false, fatal := false, lifecycle := Next(r.lifecycle), sq := NO_SQ, cq := NO_CQ,
       admin := AfterReset(r.admin, full))
  }

  predicate Configurable(env: Env, r: Ring, sq: u64, ns: u16, cq: u64, nc: u16) {
    && !r.active && !r.fatal && 2 <= ns <= 256 && 2 <= nc <= 256
    && sq % 4096 == 0 && cq % 4096 == 0 && Range(env, sq, ns * 64) && Range(env, cq, nc * 16)
  }

  function Configured(r: Ring, sq: u64, ns: u16, cq: u64, nc: u16): Ring {
    r.(sq := Sq(sq, ns, 0, 0), cq := Cq(cq, nc, 0, 0, 0, 1), lifecycle := Next(r.lifecycle), active := true)
  }

  // ----- serving one command -----

  datatype Span = Span(address: u64, bytes: u32)

  function SpanBytes(spans: seq<Span>): nat {
    if spans == [] then 0 else spans[0].bytes as int + SpanBytes(spans[1..])
  }

  /** The one or two PRP spans that take n payload bytes; none when they are unusable. */
  function Resolve(env: Env, command: seq<u8>, n: nat): (s: seq<Span>)
    requires |command| == 64
    ensures |s| <= 2 && (s != [] ==> SpanBytes(s) == n <= 4096)
  {
    var a, b := Le64(command, 24), Le64(command, 32);
    if n == 0 || n > 4096 || a % 4 != 0 then []
    else
      var room := 4096 - a % 4096;
      var first := if room > n then n else room;
      if !Range(env, a, first) then []
      else if first == n then [Span(a, first)]
      else if b % 4096 != 0 || !Range(env, b, n - first) then []
      else
        var two := [Span(a, first), Span(b, n - first)];
        assert two[1..] == [Span(b, n - first)] && SpanBytes(two[1..]) == n - first;
        two
  }

  function Completion(result: u32, sqHead: u16, cid: u16, status: u16, phase: u8): (c: seq<u8>)
    ensures |c| == 16
  {
    ToLe(result, 4) + ToLe(0, 4) + ToLe(sqHead, 2) + ToLe(0, 2) + ToLe(cid, 2)
    + ToLe((2 * status as int + phase as int) % 0x1_0000, 2)
  }

  /** One turn of the poll loop either stops the engine or goes on, having
      answered the command with a completion or held it without one. */
  datatype Turn = Stopped(ring: Ring, world: World) | Served(ring: Ring, world: World, answer: Option<seq<u8>>)

  function Stop(r: Ring, w: World): Turn {
    var (r', w') := Failed(r, w);
    Stopped(r', w')
  }

  /** A turn keeps the ring active and well formed, and it stops exactly by a fatal failure. */
  predicate Orderly(t: Turn) {
    Sound(t.ring) && t.ring.active && (t.Stopped? <==> t.ring.fatal)
  }

  predicate Ready(r: Ring) {
    Sound(r) && r.active && !r.fatal && r.cq.pending < r.cq.depth - 1
  }

  function SqSlot(r: Ring): int {
    r.sq.base as int + 64 * r.sq.head as int
  }

  function CqSlot(r: Ring): int {
    r.cq.base as int + 16 * r.cq.tail as int
  }

  function Advanced(r: Ring): Ring
    requires Ready(r)
  {
    var tail: u16 := (r.cq.tail as int + 1) % r.cq.depth as int;
    r.(cq := r.cq.(tail := tail, pending := r.cq.pending + 1,
      phase := if tail == 0 then 1 - r.cq.phase else r.cq.phase))
  }

  /** Stores a completion entry: its body, a barrier, then the status word that
      carries the phase tag. */
  function StoreEntry(env: Env, w: World, slot: int, c: seq<u8>): (bool, World)
    requires |c| == 16
  {
    if slot < 0 || slot > U64_MAX || !Range(env, slot, 16) then (false, w)
    else
      var w1 := AfterWrite(env, w, slot, c[..14]);
      if !env.Ok(w.tick) then (false, w1)
      else
        var w2 := Logged(w1, Fenced);
        (env.Ok(w2.tick), AfterWrite(env, w2, slot + 14, c[14..]))
  }

  function Publish(env: Env, r: Ring, w: World, status: u16, result: u32): (t: Turn)
    requires Ready(r)
    ensures Orderly(t)
  {
    var c := Completion(result, r.sq.head, Le16(r.command, 2), status, r.cq.phase);
    var r1 := r.(completion := c);
    var (done, w1) := StoreEntry(env, w, CqSlot(r), c);
    if !done then Stop(r1, w1) else Served(Advanced(r1), AfterLevel(w1, true), Some(c))
  }

  /** Stores the payload span by span: whether all stores were done, and the world after. */
  function Deliver(env: Env, w: World, spans: seq<Span>, payload: seq<u8>): (bool, World)
    requires SpanBytes(spans) <= |payload|
    decreases |spans|
  {
    if spans == [] then (true, w)
    else
      var w1 := AfterWrite(env, w, spans[0].address, payload[..spans[0].bytes]);
      if !env.Ok(w.tick) then (false, w1)
      else Deliver(env, w1, spans[1..], payload[spans[0].bytes..])
  }

  function Answer(env: Env, r: Ring, w: World, x: Result): (t: Turn)
    requires Ready(r)
    ensures Orderly(t)
  {
    if x.deferred then Served(r, w, None)
    else if x.bytes == 0 then Publish(env, r, w, x.status, x.result)
    else
      var spans := Resolve(env, r.command, x.bytes);
      if spans == [] then Publish(env, r, w, 2, 0)
      else
        var (done, w1) := Deliver(env, w, spans, r.payload);
        if !done then Stop(r, w1) else Publish(env, r, w1, x.status, x.result)
  }

  function Serve(env: Env, r: Ring, w: World): (t: Turn)
    requires Ready(r)
    ensures Orderly(t)
  {
    var e := Execute(env, r.admin, r.policy, r.command, r.payload, w);
    var r1 := r.(admin := e.state, payload := e.page);
    if e.code != 1 then Stop(r1, e.world)
    else
      var r2 := r1.(sq := r.sq.(head := (r.sq.head as int + 1) % r.sq.depth as int));
      if e.result.changed != 0 then
        var w1 := AfterReconcile(env, e.world, e.result.changed);
        if !env.Ok(e.world.tick) then Stop(r2, w1) else Answer(env, r2, w1, e.result)
      else Answer(env, r2, e.world, e.result)
  }

  function TakeTurn(env: Env, r: Ring, w: World): (t: Turn)
    requires Ready(r)
    ensures Orderly(t)
  {
    if !Range(env, SqSlot(r), 64) then Stop(r, w)
    else
      var w1 := AfterRead(env, w, SqSlot(r), 64);
      if !env.Ok(w.tick) then Stop(r, w1)
      else Serve(env, r.(command := Load(w.ram, SqSlot(r), 64)), w1)
  }

  // ----- doorbells and polling -----

  predicate Runnable(r: Ring, budget: nat) {
    budget > 0 && r.sq.head != r.sq.tail && r.cq.pending as int < r.cq.depth as int - 1
  }

  /** The ring and world after at most `budget` turns, and how many commands
      were consumed, or -2 after a failure. */
  function Drain(env: Env, r: Ring, w: World, budget: nat): (o: (Ring, World, int))
    requires Sound(r) && r.active && !r.fatal
    ensures Sound(o.0) && o.0.active && (o.2 == -2 <==> o.0.fatal) && (o.2 == -2 || 0 <= o.2 <= budget)
    decreases budget
  {
    if !Runnable(r, budget) then (r, w, 0)
    else
      match TakeTurn(env, r, w)
      case Stopped(r1, w1) => (r1, w1, -2)
      case Served(r1, w1, _) =>
        After(1, Drain(env, r1, w1, budget - 1))
  }

  /** An outcome reached after k commands were already consumed. */
  function After(k: nat, o: (Ring, World, int)): (Ring, World, int) {
    (o.0, o.1, if o.2 < 0 then o.2 else o.2 + k)
  }

  lemma DrainIdle(env: Env, r: Ring, w: World, budget: nat)
    requires Sound(r) && r.active && !r.fatal && !Runnable(r, budget)
    ensures Drain(env, r, w, budget) == (r, w, 0)
  {
  }

  lemma DrainTurn(env: Env, r: Ring, w: World, budget: nat)
    requires Sound(r) && r.active && !r.fatal && Runnable(r, budget)
    ensures var t := TakeTurn(env, r, w);
      Drain(env, r, w, budget)
      == if t.Stopped? then (t.ring, t.world, -2) else After(1, Drain(env, t.ring, t.world, budget - 1))
  {
  }

  function Poll(env: Env, r: Ring, w: World, budget: nat): (o: (Ring, World, int))
    requires Sound(r)
    ensures Sound(o.0)
  {
    if budget == 0 || budget > 256 then (r, w, -1)
    else if !r.active || r.fatal then (r, w, 0)
    else Drain(env, r, w, budget)
  }

  function Tail(env: Env, r: Ring, w: World, tail: u32): (o: (Ring, World, int))
    requires Sound(r)
    ensures Sound(o.0)
  {
    if !r.active || r.fatal then (r, w, 0)
    else if tail >= r.sq.depth then
      var (r1, w1) := Failed(r, w);
      (r1, w1, -2)
    else Poll(env, r.(sq := r.sq.(tail := tail)), w, 256)
  }

  function Ack(r: Ring, w: World, head: u32): (o: (Ring, World, int))
    requires Sound(r)
    ensures Sound(o.0)
  {
    if !r.active || r.fatal then (r, w, 0)
    else if head >= r.cq.depth then
      var (r1, w1) := Failed(r, w);
      (r1, w1, -2)
    else
      var count := (head as int + r.cq.depth as int - r.cq.head as int) % r.cq.depth as int;
      if count > r.cq.pending then
        var (r1, w1) := Failed(r, w);
        (r1, w1, -2)
      else
        var left: u16 := r.cq.pending as int - count;
        (r.(cq := r.cq.(head := head, pending := left)), AfterLevel(w, left != 0), 0)
  }

  // ----- the completion entry in its buffer -----

  lemma SixFields(s: seq<u8>, a: seq<u8>, b: seq<u8>, c: seq<u8>, d: seq<u8>, e: seq<u8>, f: seq<u8>)
    requires |s| == 16 && |a| == |b| == 4 && |c| == |d| == |e| == |f| == 2
    ensures Splice(Splice(Splice(Splice(Splice(Splice(s, 0, a), 4, b), 8, c), 10, d), 12, e), 14, f)
         == a + b + c + d + e + f
  {
  }

  method FillCompletion(out: array<u8>, result: u32, sqHead: u16, cid: u16, status: u16, phase: u8)
    requires out.Length == 16
    modifies out
    ensures out[..] == Completion(result, sqHead, cid, status, phase)
  {
    ghost var s := out[..];
    var last := (2 * status as int + phase as int) % 0x1_0000;
    Put(out, 0, result, 4);
    Put(out, 4, 0, 4);
    Put(out, 8, sqHead, 2);
    Put(out, 10, 0, 2);
    Put(out, 12, cid, 2);
    Put(out, 14, last, 2);
    SixFields(s, ToLe(result, 4), ToLe(0, 4), ToLe(sqHead, 2), ToLe(0, 2), ToLe(cid, 2), ToLe(last, 2));
  }
}
