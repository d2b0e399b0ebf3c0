/** Commands as a host encodes them, and what sequences of them do: creating a
    queue and deleting it, setting a feature and getting it, identifying. */
module AdminScripts {
  import opened Words
  import opened Memory
  import opened Host
  import opened AdminPayload
  import opened AdminState
  import AdminLaws

  /** A command with no flags, metadata or second data pointer. */
  function Command(op: u8, cid: u16, nsid: u32, prp1: u64, dw10: u32, dw11: u32): (c: seq<u8>)
    ensures |c| == 64
  {
    [op, 0] + ToLe(cid, 2) + ToLe(nsid, 4) + Zeros(16) + ToLe(prp1, 8) + Zeros(8) + ToLe(dw10, 4) + ToLe(dw11, 4)
    + Zeros(16)
  }

  lemma NineParts(a: seq<u8>, b: seq<u8>, c: seq<u8>, d: seq<u8>, e: seq<u8>, f: seq<u8>, g: seq<u8>, h: seq<u8>,
      i: seq<u8>)
    requires |a| == |b| == 2 && |c| == |g| == |h| == 4 && |d| == |i| == 16 && |e| == |f| == 8
    ensures var s := a + b + c + d + e + f + g + h + i;
      && s[0..2] == a && s[2..4] == b && s[4..8] == c && s[8..24] == d && s[24..32] == e && s[32..40] == f
      && s[40..44] == g && s[44..48] == h && s[48..64] == i
  {
  }

  lemma ZeroField(s: seq<u8>, from: nat, n: nat, o: nat)
    requires from + n <= |s| && s[from..from + n] == Zeros(n) && from <= o
    ensures o + 4 <= from + n ==> Le32(s, o) == 0
    ensures o + 8 <= from + n ==> Le64(s, o) == 0
  {
    forall i | from <= i < from + n ensures s[i] == 0 {
      assert s[i] == s[from..from + n][i - from];
    }
  }

  lemma CommandFields(op: u8, cid: u16, nsid: u32, prp1: u64, dw10: u32, dw11: u32)
    ensures var c := Command(op, cid, nsid, prp1, dw10, dw11);
      && c[0] == op && c[1] == 0 && Le16(c, 2) == cid && Le32(c, 4) == nsid && Le64(c, 16) == 0
      && Le64(c, 24) == prp1 && Dw(c, 0) == dw10 && Dw(c, 1) == dw11
      && Dw(c, 2) == 0 && Dw(c, 3) == 0 && Dw(c, 4) == 0 && Dw(c, 5) == 0
  {
    var c := Command(op, cid, nsid, prp1, dw10, dw11);
    NineParts([op, 0], ToLe(cid, 2), ToLe(nsid, 4), Zeros(16), ToLe(prp1, 8), Zeros(8), ToLe(dw10, 4), ToLe(dw11, 4),
              Zeros(16));
    hide ToLe, Command;
    assert c[0] == c[0..2][0] && c[1] == c[0..2][1];
    RoundTrip16(cid, c, 2);
    RoundTrip32(nsid, c, 4);
    RoundTrip64(prp1, c, 24);
    RoundTrip32(dw10, c, 40);
    RoundTrip32(dw11, c, 44);
    ZeroField(c, 8, 16, 16);
    ZeroField(c, 48, 16, 48);
    ZeroField(c, 48, 16, 52);
    ZeroField(c, 48, 16, 56);
    ZeroField(c, 48, 16, 60);
  }

  /** Every execution below is of an engine whose init succeeded. */
  predicate Usable(env: Env, s: State, p: Policy, page: seq<u8>) {
    |s.features| == 12 && PolicyValid(p) && env.setCache == env.getCache && |page| >= 4096
  }

  // ----- queues -----

  function CreateCq(base: u64, depth: u16, ien: bool, cid: u16): (c: seq<u8>)
    requires 1 <= depth
    ensures |c| == 64
  {
    Command(5, cid, 0, base, 1 + 0x1_0000 * (depth as int - 1), if ien then 3 else 1)
  }

  function CreateSq(base: u64, depth: u16, cid: u16): (c: seq<u8>)
    requires 1 <= depth
    ensures |c| == 64
  {
    Command(1, cid, 0, base, 1 + 0x1_0000 * (depth as int - 1), 0x1_0001)
  }

  function DeleteCq(cid: u16): (c: seq<u8>)
    ensures |c| == 64
  {
    Command(4, cid, 0, 0, 1, 0)
  }

  function DeleteSq(cid: u16): (c: seq<u8>)
    ensures |c| == 64
  {
    Command(0, cid, 0, 0, 1, 0)
  }

  lemma DepthField(depth: u16)
    requires depth >= 1
    ensures var dw := 1 + 0x1_0000 * (depth as int - 1); dw % 0x1_0000 == 1 && dw / 0x1_0000 + 1 == depth
  {
  }

  /** A plain command other than Identify and Get Log Page goes to its own handler. */
  lemma Dispatched(env: Env, s: State, p: Policy, cmd: seq<u8>, page: seq<u8>, w: World)
    requires Usable(env, s, p, page) && |cmd| == 64 && cmd[1] == 0 && Le64(cmd, 16) == 0
    ensures var e := Execute(env, s, p, cmd, page, w);
      && (cmd[0] == 1 || cmd[0] == 5 ==> (e.state, e.result) == Create(env, s, cmd))
      && (cmd[0] == 0 || cmd[0] == 4 ==> (e.state, e.result) == Delete(s, cmd))
      && (cmd[0] == 9 || cmd[0] == 10 ==> (e.state, e.world, e.result) == Feature(env, s, w, cmd))
  {
    hide Create, Delete, Feature, Le64;
  }

  lemma CqAsked(env: Env, s: State, cmd: seq<u8>, base: u64, depth: u16, ien: bool)
    requires |cmd| == 64 && cmd[0] == 5 && Le32(cmd, 4) == 0 && Le64(cmd, 24) == base
    requires Dw(cmd, 0) % 0x1_0000 == 1 && Dw(cmd, 0) / 0x1_0000 + 1 == depth
    requires Dw(cmd, 1) == if ien then 3 else 1
    ensures Create(env, s, cmd)
         == if !s.cq.present && QueueValid(env, base, depth, 16)
            then (s.(cq := IoQueue(base, depth, 0, true, ien), cqGeneration := Next(s.cqGeneration)),
                  Result(0, 0, 0, 2, false))
            else (s, INVALID_FIELD)
  {
    hide QueueValid, Dw, Le32, Le64;
    if ien {
      assert 3 % 2 == 1 && 3 / 0x1_0000 == 0 && 3 / 2 % 2 == 1;
    } else {
      assert 1 / 2 % 2 == 0;
    }
  }

  /** A completion queue is created with exactly the base, depth and interrupt
      enable the host asked for, and exactly when there is none yet and the
      host's memory can hold it. */
  lemma CqCreatedAsAsked(env: Env, s: State, p: Policy, page: seq<u8>, w: World, base: u64, depth: u16, ien: bool,
      cid: u16)
    requires Usable(env, s, p, page) && depth >= 1
    ensures var e := Execute(env, s, p, CreateCq(base, depth, ien, cid), page, w);
      if !s.cq.present && QueueValid(env, base, depth, 16) then
        e.result == Result(0, 0, 0, 2, false)
        && e.state == s.(cq := IoQueue(base, depth, 0, true, ien), cqGeneration := Next(s.cqGeneration))
      else e.state == s && e.result == INVALID_FIELD
  {
    CommandFields(5, cid, 0, base, 1 + 0x1_0000 * (depth as int - 1), if ien then 3 else 1);
    DepthField(depth);
    var cmd := CreateCq(base, depth, ien, cid);
    hide Command, CreateCq, QueueValid, Execute, Dw, Le32, Le64;
    Dispatched(env, s, p, cmd, page, w);
    CqAsked(env, s, cmd, base, depth, ien);
  }

  lemma SqCreatedAsAsked(env: Env, s: State, p: Policy, page: seq<u8>, w: World, base: u64, depth: u16, cid: u16)
    requires Usable(env, s, p, page) && depth >= 1
    ensures var e := Execute(env, s, p, CreateSq(base, depth, cid), page, w);
      if s.cq.present && !s.sq.present && QueueValid(env, base, depth, 64) then
        e.result == Result(0, 0, 0, 1, false)
        && e.state == s.(sq := IoQueue(base, depth, 1, true, false), sqGeneration := Next(s.sqGeneration))
      else e.state == s && e.result == INVALID_FIELD
  {
    CommandFields(1, cid, 0, base, 1 + 0x1_0000 * (depth as int - 1), 0x1_0001);
    DepthField(depth);
    var cmd := CreateSq(base, depth, cid);
    hide Command, CreateSq, QueueValid, Execute, Create, Delete, Feature, Dw, Le32, Le64;
    Dispatched(env, s, p, cmd, page, w);
    SqAsked(env, s, cmd, base, depth);
  }

  lemma SqAsked(env: Env, s: State, cmd: seq<u8>, base: u64, depth: u16)
    requires |cmd| == 64 && cmd[0] == 1 && Le32(cmd, 4) == 0 && Le64(cmd, 24) == base
    requires Dw(cmd, 0) % 0x1_0000 == 1 && Dw(cmd, 0) / 0x1_0000 + 1 == depth && Dw(cmd, 1) == 0x1_0001
    ensures Create(env, s, cmd)
         == if s.cq.present && !s.sq.present && QueueValid(env, base, depth, 64)
            then (s.(sq := IoQueue(base, depth, 1, true, false), sqGeneration := Next(s.sqGeneration)),
                  Result(0, 0, 0, 1, false))
            else (s, INVALID_FIELD)
  {
    hide QueueValid, Dw, Le32, Le64;
    assert 0x1_0001 % 2 == 1 && 0x1_0001 / 0x1_0000 == 1;
  }

  lemma CqDeletedUnlessInUse(env: Env, s: State, p: Policy, page: seq<u8>, w: World, cid: u16)
    requires Usable(env, s, p, page)
    ensures var e := Execute(env, s, p, DeleteCq(cid), page, w);
      if s.cq.present && !s.sq.present then
        e.result.status == 0 && e.state == s.(cq := NO_QUEUE, cqGeneration := Next(s.cqGeneration))
      else e.state == s && e.result.status == if s.cq.present then 0x10c else 2
  {
    CommandFields(4, cid, 0, 0, 1, 0);
    hide Command, Execute, Dw, Le32, Le64;
    Dispatched(env, s, p, DeleteCq(cid), page, w);
  }

  lemma SqDeleted(env: Env, s: State, p: Policy, page: seq<u8>, w: World, cid: u16)
    requires Usable(env, s, p, page)
    ensures var e := Execute(env, s, p, DeleteSq(cid), page, w);
      if s.sq.present then e.result.status == 0 && e.state == s.(sq := NO_QUEUE, sqGeneration := Next(s.sqGeneration))
      else e.state == s && e.result.status == 2
  {
    CommandFields(0, cid, 0, 0, 1, 0);
    hide Command, Execute, Dw, Le32, Le64;
    Dispatched(env, s, p, DeleteSq(cid), page, w);
  }

  /** Creating both queues and deleting them in the reverse order restores the
      state, with both generations two further on; deleting the completion queue
      first is refused. */
  lemma CreateThenDelete(env: Env, s: State, p: Policy, page: seq<u8>, w: World, cq: u64, sq: u64, depth: u16,
      ien: bool, cid: u16)
    requires Usable(env, s, p, page) && AdminLaws.Coherent(s) && s.sq == NO_QUEUE && s.cq == NO_QUEUE
    requires depth >= 1 && QueueValid(env, cq, depth, 16) && QueueValid(env, sq, depth, 64)
    ensures var e1 := Execute(env, s, p, CreateCq(cq, depth, ien, cid), page, w);
      var e2 := Execute(env, e1.state, p, CreateSq(sq, depth, cid), page, w);
      var e3 := Execute(env, e2.state, p, DeleteSq(cid), page, w);
      var e4 := Execute(env, e3.state, p, DeleteCq(cid), page, w);
      && e4.state == s.(sqGeneration := Next(Next(s.sqGeneration)), cqGeneration := Next(Next(s.cqGeneration)))
      && Execute(env, e2.state, p, DeleteCq(cid), page, w).result.status == 0x10c
  {
    hide Execute, QueueValid, CreateCq, CreateSq, DeleteCq, DeleteSq;
    CqCreatedAsAsked(env, s, p, page, w, cq, depth, ien, cid);
    var s1 := Execute(env, s, p, CreateCq(cq, depth, ien, cid), page, w).state;
    SqCreatedAsAsked(env, s1, p, page, w, sq, depth, cid);
    var s2 := Execute(env, s1, p, CreateSq(sq, depth, cid), page, w).state;
    CqDeletedUnlessInUse(env, s2, p, page, w, cid);
    SqDeleted(env, s2, p, page, w, cid);
    var s3 := Execute(env, s2, p, DeleteSq(cid), page, w).state;
    CqDeletedUnlessInUse(env, s3, p, page, w, cid);
  }

  // ----- features -----

  lemma FeatureSet(env: Env, s: State, p: Policy, page: seq<u8>, w: World, fid: u32, v: u32, cid: u16)
    requires Usable(env, s, p, page) && KnownFeature(fid) && !(env.setCache && fid == 6)
    ensures var e := Execute(env, s, p, Command(9, cid, 0, 0, fid, v), page, w);
      e.state == s.(features := s.features[fid := v]) && e.result == Result(v, 0, 0, 0, false) && e.world == w
  {
    CommandFields(9, cid, 0, 0, fid, v);
    hide Command, Execute, Create, Delete, Feature, Dw, Le32, Le64;
    Dispatched(env, s, p, Command(9, cid, 0, 0, fid, v), page, w);
    FeatureAnswers(env, s, w, Command(9, cid, 0, 0, fid, v), fid);
  }

  lemma FeatureAnswers(env: Env, s: State, w: World, cmd: seq<u8>, fid: u32)
    requires |cmd| == 64 && (cmd[0] == 9 || cmd[0] == 10) && |s.features| == 12
    requires Dw(cmd, 0) == fid && KnownFeature(fid) && !(env.setCache && fid == 6)
    ensures var (t, v, r) := Feature(env, s, w, cmd);
      && t == (if cmd[0] == 9 then s.(features := s.features[fid := Dw(cmd, 1)]) else s)
      && v == w && r == Result(t.features[fid], 0, 0, 0, false)
  {
    hide Dw, CacheFeature;
  }

  lemma FeatureGot(env: Env, s: State, p: Policy, page: seq<u8>, w: World, fid: u32, cid: u16)
    requires Usable(env, s, p, page) && KnownFeature(fid) && !(env.setCache && fid == 6)
    ensures var e := Execute(env, s, p, Command(10, cid, 0, 0, fid, 0), page, w);
      e.state == s && e.result == Result(s.features[fid], 0, 0, 0, false) && e.world == w
  {
    CommandFields(10, cid, 0, 0, fid, 0);
    hide Command, Execute, Create, Delete, Feature, Dw, Le32, Le64;
    Dispatched(env, s, p, Command(10, cid, 0, 0, fid, 0), page, w);
    FeatureAnswers(env, s, w, Command(10, cid, 0, 0, fid, 0), fid);
  }

  predicate SetsFeature(cmd: seq<u8>, fid: u32) {
    |cmd| == 64 && cmd[0] == 9 && Dw(cmd, 0) % 0x100 == fid
  }

  lemma ExecuteKeepsFeature(env: Env, s: State, p: Policy, cmd: seq<u8>, page: seq<u8>, w: World, fid: u32)
    requires |s.features| == 12 && fid < 12 && !SetsFeature(cmd, fid)
    ensures Execute(env, s, p, cmd, page, w).state.features[fid] == s.features[fid]
  {
    hide Respond, Le64, Le32;
  }

  lemma ExecuteKeepsCache(env: Env, s: State, p: Policy, cmd: seq<u8>, page: seq<u8>, w: World)
    requires |s.features| == 12 && !SetsFeature(cmd, 6)
    ensures Execute(env, s, p, cmd, page, w).world.cache == w.cache
  {
    hide Respond, Le64, Le32, Create, Delete, HoldEvent;
  }

  /** Events that leave feature fid alone: no Set Features of it, no full reset. */
  predicate Spares(events: seq<AdminLaws.Event>, fid: u32) {
    forall i :: 0 <= i < |events| ==>
      match events[i]
      case Command(cmd) => !SetsFeature(cmd, fid)
      case Reset(full) => !full
  }

  lemma {:induction false} FeatureKept(env: Env, p: Policy, c: AdminLaws.Config, events: seq<AdminLaws.Event>, k: nat,
      fid: u32)
    requires AdminLaws.Sized(c) && k <= |events| && fid < 12 && Spares(events, fid)
    ensures AdminLaws.Reached(env, p, c, events, k).state.features[fid] == c.state.features[fid]
  {
    hide Execute;
    if k > 0 {
      FeatureKept(env, p, c, events, k - 1, fid);
      var d := AdminLaws.Reached(env, p, c, events, k - 1);
      if events[k - 1].Command? {
        ExecuteKeepsFeature(env, d.state, p, events[k - 1].cmd, d.page, d.world, fid);
      }
    }
  }

  lemma {:induction false} CacheKept(env: Env, p: Policy, c: AdminLaws.Config, events: seq<AdminLaws.Event>, k: nat)
    requires AdminLaws.Sized(c) && k <= |events|
    requires forall i :: 0 <= i < |events| && events[i].Command? ==> !SetsFeature(events[i].cmd, 6)
    ensures AdminLaws.Reached(env, p, c, events, k).world.cache == c.world.cache
  {
    hide Execute;
    if k > 0 {
      CacheKept(env, p, c, events, k - 1);
      var d := AdminLaws.Reached(env, p, c, events, k - 1);
      if events[k - 1].Command? {
        ExecuteKeepsCache(env, d.state, p, events[k - 1].cmd, d.page, d.world);
      }
    }
  }

  /** A feature kept by the interpreter reads back as last set, after any run of
      commands and resets that does not set it again or reset it. */
  lemma FeatureReadsBack(env: Env, p: Policy, c: AdminLaws.Config, events: seq<AdminLaws.Event>, fid: u32, v: u32,
      cid: u16)
    requires Usable(env, c.state, p, c.page) && KnownFeature(fid) && !(env.setCache && fid == 6) && Spares(events, fid)
    ensures var c1 := AdminLaws.Step(env, p, c, AdminLaws.Command(Command(9, cid, 0, 0, fid, v)));
      var d := AdminLaws.Reached(env, p, c1, events, |events|);
      Execute(env, d.state, p, Command(10, cid, 0, 0, fid, 0), d.page, d.world).result == Result(v, 0, 0, 0, false)
  {
    hide Command, Execute, AdminLaws.Reached;
    FeatureSet(env, c.state, p, c.page, c.world, fid, v, cid);
    var c1 := AdminLaws.Step(env, p, c, AdminLaws.Command(Command(9, cid, 0, 0, fid, v)));
    var d := AdminLaws.Reached(env, p, c1, events, |events|);
    FeatureKept(env, p, c1, events, |events|, fid);
    FeatureGot(env, d.state, p, d.page, d.world, fid, cid);
  }

  lemma CacheSwitched(env: Env, s: State, p: Policy, page: seq<u8>, w: World, on: bool, cid: u16)
    requires Usable(env, s, p, page) && env.setCache
    ensures var e := Execute(env, s, p, Command(9, cid, 0, 0, 6, if on then 1 else 0), page, w);
      && e.result.status == (if env.Ok(w.tick) then 0 else 6)
      && e.world.cache == if env.Ok(w.tick) then on else w.cache
  {
    var cmd := Command(9, cid, 0, 0, 6, if on then 1 else 0);
    CommandFields(9, cid, 0, 0, 6, if on then 1 else 0);
    hide Command, Execute, Create, Delete, Feature, CacheFeature, Dw, Le32, Le64;
    Dispatched(env, s, p, cmd, page, w);
    CacheAnswers(env, s, w, cmd);
  }

  lemma CacheGot(env: Env, s: State, p: Policy, page: seq<u8>, w: World, cid: u16)
    requires Usable(env, s, p, page) && env.setCache
    ensures Execute(env, s, p, Command(10, cid, 0, 0, 6, 0), page, w).result ==
      Result(if w.cache then 1 else 0, 0, 0, 0, false)
  {
    CommandFields(10, cid, 0, 0, 6, 0);
    hide Command, Execute, Create, Delete, Feature, CacheFeature, Dw, Le32, Le64;
    Dispatched(env, s, p, Command(10, cid, 0, 0, 6, 0), page, w);
    CacheAnswers(env, s, w, Command(10, cid, 0, 0, 6, 0));
  }

  lemma CacheAnswers(env: Env, s: State, w: World, cmd: seq<u8>)
    requires |cmd| == 64 && (cmd[0] == 9 || cmd[0] == 10) && Dw(cmd, 0) == 6 && Dw(cmd, 1) < 2
    requires Dw(cmd, 2) == 0 && Dw(cmd, 3) == 0 && Dw(cmd, 4) == 0 && Dw(cmd, 5) == 0
    requires env.setCache && |s.features| == 12
    ensures var (t, v, r) := Feature(env, s, w, cmd);
      && (cmd[0] == 10 ==> v == w && r == Result(if w.cache then 1 else 0, 0, 0, 0, false))
      && (cmd[0] == 9 ==> r.status == (if env.Ok(w.tick) then 0 else 6)
                          && v.cache == if env.Ok(w.tick) then Dw(cmd, 1) != 0 else w.cache)
  {
    hide Dw;
  }

  /** The write cache, when a backend is attached, reads back as last switched,
      after any run of commands and resets that does not switch it again; a
      refused switch reports status 6 and leaves it. */
  lemma CacheReadsBack(env: Env, p: Policy, c: AdminLaws.Config, events: seq<AdminLaws.Event>, on: bool, cid: u16)
    requires Usable(env, c.state, p, c.page) && env.setCache
    requires forall i :: 0 <= i < |events| && events[i].Command? ==> !SetsFeature(events[i].cmd, 6)
    ensures var switch := Command(9, cid, 0, 0, 6, if on then 1 else 0);
      var c1 := AdminLaws.Step(env, p, c, AdminLaws.Command(switch));
      var d := AdminLaws.Reached(env, p, c1, events, |events|);
      var now := if env.Ok(c.world.tick) then on else c.world.cache;
      && Execute(env, c.state, p, switch, c.page, c.world).result.status == (if env.Ok(c.world.tick) then 0 else 6)
      && Execute(env, d.state, p, Command(10, cid, 0, 0, 6, 0), d.page, d.world).result
         == Result(if now then 1 else 0, 0, 0, 0, false)
  {
    hide Command, Execute, AdminLaws.Reached;
    CacheSwitched(env, c.state, p, c.page, c.world, on, cid);
    var c1 := AdminLaws.Step(env, p, c, AdminLaws.Command(Command(9, cid, 0, 0, 6, if on then 1 else 0)));
    var d := AdminLaws.Reached(env, p, c1, events, |events|);
    CacheKept(env, p, c1, events, |events|);
    CacheGot(env, d.state, p, d.page, d.world, cid);
  }

  // ----- identify -----

  /** What a host reads from an Identify Namespace response is the policy's size
      of that namespace, and the command fails exactly for a namespace that is not there. */
  lemma IdentifyGivesSize(env: Env, s: State, p: Policy, page: seq<u8>, w: World, nsid: u32, prp: u64, cid: u16)
    requires Usable(env, s, p, page)
    ensures var e := Execute(env, s, p, Command(6, cid, nsid, prp, 0, 0), page, w);
      if nsid == 1 || (p.paired && nsid == 2) then
        e.result.status == 0 && e.result.bytes == 4096
        && Le64(e.page, 0) == (if nsid == 1 then p.primaryLbas else p.linkLbas)
      else e.result.status == 0xb && e.result.bytes == 0 && e.page == page
  {
    hide Command, NamespacePage, Le64;
    CommandFields(6, cid, nsid, prp, 0, 0);
    var lbas := if nsid == 1 then p.primaryLbas else p.linkLbas;
    var ro := nsid == 1 && p.primaryReadonly;
    NamespacePageDecodes(lbas, ro);
    var n := NamespacePage(lbas, ro);
    SpliceReads(page, n);
  }

  lemma SpliceReads(page: seq<u8>, n: seq<u8>)
    requires |page| >= |n| >= 8
    ensures Le64(Splice(page, 0, n), 0) == Le64(n, 0)
  {
  }
}
