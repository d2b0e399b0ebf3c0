/** What every run of the admin interpreter keeps. */
module AdminLaws {
  import opened Words
  import opened Memory
  import opened Host
  import opened AdminPayload
  import opened AdminState

  datatype Event = Command(cmd: seq<u8>) | Reset(full: bool)

  datatype Config = Config(state: State, page: seq<u8>, world: World)

  predicate Sized(c: Config) {
    |c.state.features| == 12 && |c.page| >= 4096
  }

  function Step(env: Env, p: Policy, c: Config, e: Event): (d: Config)
    requires Sized(c)
    ensures Sized(d)
  {
    match e
    case Command(cmd) =>
      var x := Execute(env, c.state, p, cmd, c.page, c.world);
      Config(x.state, x.page, x.world)
    case Reset(full) => c.(state := AfterReset(c.state, full))
  }

  /** The configuration after the first k events. */
  function Reached(env: Env, p: Policy, c: Config, events: seq<Event>, k: nat): (d: Config)
    requires Sized(c) && k <= |events|
    ensures Sized(d)
  {
    if k == 0 then c else Step(env, p, Reached(env, p, c, events, k - 1), events[k - 1])
  }

  predicate Described(q: IoQueue) {
    q.present && 2 <= q.depth <= 256 && q.base != 0 && q.base % 4096 == 0
  }

  /** A queue is present exactly when its generation is odd, a descriptor is
      either blank or complete, and a submission queue never lacks its
      completion queue. */
  predicate Coherent(s: State) {
    && (s.sq == NO_QUEUE || Described(s.sq)) && (s.cq == NO_QUEUE || Described(s.cq))
    && (s.sq.present <==> s.sqGeneration % 2 == 1)
    && (s.cq.present <==> s.cqGeneration % 2 == 1)
    && (s.sq.present ==> s.cq.present && s.sq.cqid == 1)
  }

  lemma NextFlipsParity(g: u64)
    ensures Next(g) % 2 == 1 - g % 2 && Next(g) != g
  {
  }

  /** `changed` names exactly the descriptors that moved, each with its
      generation, and a command that fails changes nothing. */
  predicate Accounted(s: State, t: State, r: Result) {
    && (r.changed % 2 == 1 <==> t.sq != s.sq)
    && (r.changed / 2 % 2 == 1 <==> t.cq != s.cq)
    && BothMoved(s, t)
    && (r.status != 0 ==> t == s && r.changed == 0 && r.bytes == 0 && !r.deferred)
  }

  lemma CreateAccounted(env: Env, s: State, cmd: seq<u8>)
    requires |cmd| == 64 && (cmd[0] == 1 || cmd[0] == 5)
    ensures var (t, r) := Create(env, s, cmd);
      Accounted(s, t, r) && r.changed < 4 && (Coherent(s) ==> Coherent(t))
  {
    NextFlipsParity(s.sqGeneration);
    NextFlipsParity(s.cqGeneration);
  }

  lemma DeleteAccounted(s: State, cmd: seq<u8>)
    requires |cmd| == 64 && (cmd[0] == 0 || cmd[0] == 4)
    ensures var (t, r) := Delete(s, cmd);
      Accounted(s, t, r) && r.changed < 4 && (Coherent(s) ==> Coherent(t))
  {
    NextFlipsParity(s.sqGeneration);
    NextFlipsParity(s.cqGeneration);
  }

  lemma FeatureAccounted(env: Env, s: State, w: World, cmd: seq<u8>)
    requires |cmd| == 64 && (cmd[0] == 9 || cmd[0] == 10) && |s.features| == 12
    ensures var (t, v, r) := Feature(env, s, w, cmd);
      && Accounted(s, t, r) && (Coherent(s) ==> Coherent(t))
      && (v == w || exists on :: v == AfterSetCache(env, w, on))
      && (r.changed == 4 <==> v != w && env.Ok(w.tick)) && r.changed in {0, 4}
  {
  }

  /** A completion that reports an error changes no descriptor, feature, held
      event, cache policy or RAM and asks for no reconciliation; otherwise
      `changed` says exactly what moved: a descriptor, or the cache policy, whose
      bit is set exactly when the backend was asked to switch and did. */
  lemma ExecuteAccounted(env: Env, s: State, p: Policy, cmd: seq<u8>, page: seq<u8>, w: World)
    requires |s.features| == 12
    ensures var e := Execute(env, s, p, cmd, page, w);
      && Accounted(s, e.state, e.result) && (Coherent(s) ==> Coherent(e.state))
      && (e.world == w || exists on :: e.world == AfterSetCache(env, w, on))
      && (e.result.changed / 4 == 1 <==> e.world != w && env.Ok(w.tick)) && e.result.changed < 8
      && (e.result.status != 0 ==> e.page == page)
  {
    hide Create, Delete, Feature, Identify, LogPage;
    if |cmd| == 64 {
      if cmd[0] == 1 || cmd[0] == 5 {
        CreateAccounted(env, s, cmd);
      } else if cmd[0] == 0 || cmd[0] == 4 {
        DeleteAccounted(s, cmd);
      } else if cmd[0] == 9 || cmd[0] == 10 {
        FeatureAccounted(env, s, w, cmd);
      }
    }
  }

  /** With a valid policy and paired cache callbacks, and only then, every
      64-byte command is answered. */
  lemma EveryCommandAnswered(env: Env, s: State, p: Policy, cmd: seq<u8>, page: seq<u8>, w: World)
    requires |s.features| == 12 && |cmd| == 64 && |page| >= 4096
    ensures Execute(env, s, p, cmd, page, w).code == 1 <==> PolicyValid(p) && env.setCache == env.getCache
  {
  }

  lemma StepKeepsCoherent(env: Env, p: Policy, c: Config, e: Event)
    requires Sized(c) && Coherent(c.state)
    ensures Coherent(Step(env, p, c, e).state)
  {
    match e
    case Command(cmd) => ExecuteAccounted(env, c.state, p, cmd, c.page, c.world);
    case Reset(full) =>
      NextFlipsParity(c.state.sqGeneration);
      NextFlipsParity(c.state.cqGeneration);
  }

  lemma {:induction false} EveryStateCoherent(env: Env, p: Policy, c: Config, events: seq<Event>, k: nat)
    requires Sized(c) && Coherent(c.state) && k <= |events|
    ensures Coherent(Reached(env, p, c, events, k).state)
  {
    if k > 0 {
      EveryStateCoherent(env, p, c, events, k - 1);
      StepKeepsCoherent(env, p, Reached(env, p, c, events, k - 1), events[k - 1]);
    }
  }

  lemma InitiallyCoherent()
    ensures Coherent(Initial())
  {
  }

  // ----- generation counters along a run -----

  datatype Stamp = Stamp(queue: IoQueue, generation: u64)

  function SqStamp(s: State): Stamp {
    Stamp(s.sq, s.sqGeneration)
  }

  function CqStamp(s: State): Stamp {
    Stamp(s.cq, s.cqGeneration)
  }

  /** A descriptor changes exactly together with its generation, by one. */
  predicate Moved(a: Stamp, b: Stamp) {
    b == a || (b.queue != a.queue && b.generation == Next(a.generation))
  }

  predicate BothMoved(s: State, t: State) {
    Moved(SqStamp(s), SqStamp(t)) && Moved(CqStamp(s), CqStamp(t))
  }

  lemma Unmoved(s: State)
    ensures BothMoved(s, s)
  {
  }

  ghost predicate Trail(t: seq<Stamp>) {
    forall k :: 0 <= k < |t| - 1 ==> Moved(t[k], t[k + 1])
  }

  /** How often the descriptor changed between two points. */
  ghost function Changes(t: seq<Stamp>, i: nat, j: nat): (n: nat)
    requires i <= j < |t|
    ensures n <= j - i
    decreases j
  {
    if i == j then 0
    else Changes(t, i, j - 1) + if t[j].queue == t[j - 1].queue then 0 else 1
  }

  /** The generation n changes later. */
  function Later(generation: u64, n: nat): u64 {
    (generation as int + n) % 0x1_0000_0000_0000_0000
  }

  lemma NextIsSuccessor(n: nat)
    ensures Next(n % 0x1_0000_0000_0000_0000) == (n + 1) % 0x1_0000_0000_0000_0000
  {
    assert n == 0x1_0000_0000_0000_0000 * (n / 0x1_0000_0000_0000_0000) + n % 0x1_0000_0000_0000_0000;
  }

  lemma {:induction false} TrailCounts(t: seq<Stamp>, i: nat, j: nat)
    requires Trail(t) && i <= j < |t|
    ensures t[j].generation == Later(t[i].generation, Changes(t, i, j))
    ensures Changes(t, i, j) == 0 ==> t[j] == t[i]
    decreases j
  {
    if i < j {
      TrailCounts(t, i, j - 1);
      assert Moved(t[j - 1], t[j - 1 + 1]);
      NextIsSuccessor(t[i].generation as int + Changes(t, i, j - 1));
    }
  }

  lemma {:induction false} ChangesGrow(t: seq<Stamp>, i: nat, k: nat, j: nat)
    requires i <= k <= j < |t|
    ensures Changes(t, i, k) <= Changes(t, i, j)
    decreases j
  {
    if k < j {
      ChangesGrow(t, i, k, j - 1);
    }
  }

  lemma NoFullTurn(g: u64, n: nat)
    requires n < 0x1_0000_0000_0000_0000 && g == Later(g, n)
    ensures n == 0
  {
  }

  /** Equal generations less than a full turn of the counter apart mean that the
      descriptor was the same throughout. */
  lemma TrailUntouched(t: seq<Stamp>, i: nat, k: nat, j: nat)
    requires Trail(t) && i <= k <= j < |t| && j - i < 0x1_0000_0000_0000_0000
    ensures t[i].generation == t[j].generation ==> t[k] == t[i]
  {
    if t[i].generation == t[j].generation {
      TrailCounts(t, i, j);
      NoFullTurn(t[i].generation, Changes(t, i, j));
      ChangesGrow(t, i, k, j);
      TrailCounts(t, i, k);
    }
  }

  ghost function SqTrail(env: Env, p: Policy, c: Config, events: seq<Event>): (t: seq<Stamp>)
    requires Sized(c)
    ensures |t| == |events| + 1
    ensures forall n :: 0 <= n <= |events| ==> t[n] == SqStamp(Reached(env, p, c, events, n).state)
  {
    seq(|events| + 1, n requires 0 <= n <= |events| => SqStamp(Reached(env, p, c, events, n).state))
  }

  ghost function CqTrail(env: Env, p: Policy, c: Config, events: seq<Event>): (t: seq<Stamp>)
    requires Sized(c)
    ensures |t| == |events| + 1
    ensures forall n :: 0 <= n <= |events| ==> t[n] == CqStamp(Reached(env, p, c, events, n).state)
  {
    seq(|events| + 1, n requires 0 <= n <= |events| => CqStamp(Reached(env, p, c, events, n).state))
  }

  lemma StepMoves(env: Env, p: Policy, c: Config, e: Event)
    requires Sized(c) && Coherent(c.state)
    ensures BothMoved(c.state, Step(env, p, c, e).state)
  {
    if e.Command? {
      ExecuteAccounted(env, c.state, p, e.cmd, c.page, c.world);
    }
  }

  lemma RunsLeaveTrails(env: Env, p: Policy, c: Config, events: seq<Event>)
    requires Sized(c) && Coherent(c.state)
    ensures Trail(SqTrail(env, p, c, events)) && Trail(CqTrail(env, p, c, events))
  {
    var sq, cq := SqTrail(env, p, c, events), CqTrail(env, p, c, events);
    forall n | 0 <= n < |events| ensures Moved(sq[n], sq[n + 1]) && Moved(cq[n], cq[n + 1]) {
      EveryStateCoherent(env, p, c, events, n);
      StepMoves(env, p, Reached(env, p, c, events, n), events[n]);
    }
  }

  /** Between any two points of a run each generation has advanced, modulo 2^64,
      by exactly the number of times its descriptor changed. */
  lemma GenerationCountsChanges(env: Env, p: Policy, c: Config, events: seq<Event>, i: nat, j: nat)
    requires Sized(c) && Coherent(c.state) && i <= j <= |events|
    ensures var s, t := Reached(env, p, c, events, i).state, Reached(env, p, c, events, j).state;
      && t.sqGeneration == Later(s.sqGeneration, Changes(SqTrail(env, p, c, events), i, j))
      && t.cqGeneration == Later(s.cqGeneration, Changes(CqTrail(env, p, c, events), i, j))
  {
    hide Step, Coherent, Trail, Later, Changes;
    RunsLeaveTrails(env, p, c, events);
    TrailCounts(SqTrail(env, p, c, events), i, j);
    TrailCounts(CqTrail(env, p, c, events), i, j);
  }

  /** No ABA: two points of a run fewer than 2^64 events apart that show the same
      generation have had the same descriptor, throughout. */
  lemma EqualGenerationsMeanUntouched(env: Env, p: Policy, c: Config, events: seq<Event>, i: nat, k: nat, j: nat)
    requires Sized(c) && c.state == Initial() && i <= k <= j <= |events| && j - i < 0x1_0000_0000_0000_0000
    ensures var s, m, t := Reached(env, p, c, events, i).state, Reached(env, p, c, events, k).state,
                           Reached(env, p, c, events, j).state;
      && (s.sqGeneration == t.sqGeneration ==> m.sq == s.sq && m.sqGeneration == s.sqGeneration)
      && (s.cqGeneration == t.cqGeneration ==> m.cq == s.cq && m.cqGeneration == s.cqGeneration)
  {
    InitiallyCoherent();
    RunsLeaveTrails(env, p, c, events);
    TrailUntouched(SqTrail(env, p, c, events), i, k, j);
    TrailUntouched(CqTrail(env, p, c, events), i, k, j);
  }
}
