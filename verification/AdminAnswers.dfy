/** What every command is answered, from the bytes of the command to the numbers
    in the result and the bytes of the page. */
module AdminAnswers {
  import opened Words
  import opened Memory
  import opened Host
  import opened AdminPayload
  import opened AdminState
  import opened AdminScripts
  import W = Wheel

  /** A 64-byte command without flags and metadata pointer. */
  predicate Plain(cmd: seq<u8>) {
    |cmd| == 64 && cmd[1] == 0 && forall i :: 16 <= i < 24 ==> cmd[i] == 0
  }

  lemma PlainFields(cmd: seq<u8>)
    requires |cmd| == 64
    ensures Plain(cmd) <==> cmd[1] == 0 && Le64(cmd, 16) == 0
    ensures Dw(cmd, 0) % 0x100 == cmd[40] && Dw(cmd, 0) / 0x100 % 0x100 == cmd[41]
    ensures Dw(cmd, 0) % 0x1_0000 == Le16(cmd, 40) && Dw(cmd, 0) / 0x1_0000 == Le16(cmd, 42)
    ensures Dw(cmd, 1) % 0x1_0000 == Le16(cmd, 44) && Dw(cmd, 1) / 0x1_0000 == Le16(cmd, 46)
    ensures Dw(cmd, 1) == Le32(cmd, 44) && Dw(cmd, 2) == Le32(cmd, 48) && Dw(cmd, 3) == Le32(cmd, 52)
    ensures Dw(cmd, 4) == Le32(cmd, 56) && Dw(cmd, 5) == Le32(cmd, 60)
  {
    FourDigits(cmd[40], cmd[41], cmd[42], cmd[43], Dw(cmd, 0));
    FourDigits(cmd[44], cmd[45], cmd[46], cmd[47], Dw(cmd, 1));
  }

  lemma FourDigits(a: u8, b: u8, c: u8, d: u8, x: int)
    requires x == a as int + 0x100 * b as int + 0x1_0000 * c as int + 0x100_0000 * d as int
    ensures x % 0x100 == a && x / 0x100 % 0x100 == b
    ensures x % 0x1_0000 == a as int + 0x100 * b as int && x / 0x1_0000 == c as int + 0x100 * d as int
    ensures x % 2 == a % 2 && x / 2 % 2 == a / 2 % 2
  {
    var h := c as int + 0x100 * d as int;
    var t := 64 * b as int + 0x4000 * h;
    W.Lap(x, 0x100, b as int + 0x100 * h, a);
    W.Lap(b as int + 0x100 * h, 0x100, h, b);
    W.Lap(x, 0x1_0000, h, a as int + 0x100 * b as int);
    W.Lap(x, 2, a as int / 2 + 2 * t, a as int % 2);
    W.Lap(a as int / 2 + 2 * t, 2, a as int / 4 + t, a as int / 2 % 2);
  }

  // ----- commands without a payload -----

  /** Flags or a metadata pointer make any command an Invalid Field; an opcode
      outside the ten known ones is an Invalid Opcode; Abort reports that nothing was
      aborted; and one event request is held, a second one refused. */
  lemma OpcodeAnswers(env: Env, s: State, p: Policy, cmd: seq<u8>, page: seq<u8>, w: World)
    requires Usable(env, s, p, page) && |cmd| == 64
    ensures var e := Execute(env, s, p, cmd, page, w);
      && (!Plain(cmd) ==> e == Executed(1, s, page, w, Result(0, 0, 2, 0, false)))
      && (Plain(cmd) && cmd[0] !in {0, 1, 2, 4, 5, 6, 8, 9, 10, 12} ==>
            e == Executed(1, s, page, w, Result(0, 0, 1, 0, false)))
      && (Plain(cmd) && cmd[0] == 8 ==> e == Executed(1, s, page, w, Result(1, 0, 0, 0, false)))
      && (Plain(cmd) && cmd[0] == 12 ==>
            e == if s.aerPresent then Executed(1, s, page, w, Result(0, 0, 0x105, 0, false))
                 else Executed(1, s.(aerPresent := true, aerCid := Le16(cmd, 2)), page, w, Result(0, 0, 0, 0, true)))
  {
    PlainFields(cmd);
    hide Le64, Create, Delete, Feature, Identify, LogPage, Plain;
  }

  /** The same for a command as a host encodes it. */
  lemma UnknownOpcodeRefused(env: Env, s: State, p: Policy, page: seq<u8>, w: World, op: u8, cid: u16, nsid: u32,
      prp1: u64, dw10: u32, dw11: u32)
    requires Usable(env, s, p, page) && op !in {0, 1, 2, 4, 5, 6, 8, 9, 10, 12}
    ensures Execute(env, s, p, Command(op, cid, nsid, prp1, dw10, dw11), page, w)
         == Executed(1, s, page, w, Result(0, 0, 1, 0, false))
  {
    CommandFields(op, cid, nsid, prp1, dw10, dw11);
    PlainFields(Command(op, cid, nsid, prp1, dw10, dw11));
    OpcodeAnswers(env, s, p, Command(op, cid, nsid, prp1, dw10, dw11), page, w);
    hide Command, Execute;
  }

  /** `depth` entries of `entry` bytes each at `base` can be an I/O queue. */
  predicate QueueFits(env: Env, base: u64, depth: nat, entry: nat) {
    && 2 <= depth <= 256 && base > 0 && base % 4096 == 0 && base as int + depth * entry <= U64_MAX
    && env.queueRanges.Some? && (base as int, depth * entry) in env.queueRanges.value
  }

  lemma FitsIsValid(env: Env, base: u64, depth: u32, entry: u32)
    requires entry == 16 || entry == 64
    ensures QueueValid(env, base, depth, entry) <==> QueueFits(env, base, depth, entry)
  {
  }

  /** A queue is created exactly when the namespace is 0, the queue is number 1
      and contiguous, RAM can hold it, and there is none: a completion queue with
      vector 0, a submission queue on completion queue 1 that is there. */
  lemma CreateAnswers(env: Env, s: State, p: Policy, cmd: seq<u8>, page: seq<u8>, w: World)
    requires Usable(env, s, p, page) && Plain(cmd) && (cmd[0] == 5 || cmd[0] == 1)
    ensures var base, depth, entry := Le64(cmd, 24), Le16(cmd, 42) as int + 1, if cmd[0] == 5 then 16 else 64;
      var fit := Le32(cmd, 4) == 0 && Le16(cmd, 40) == 1 && cmd[44] % 2 == 1 && QueueFits(env, base, depth, entry);
      Execute(env, s, p, cmd, page, w)
      == if cmd[0] == 5 && fit && Le16(cmd, 46) == 0 && !s.cq.present then
           Executed(1, s.(cq := IoQueue(base, depth, 0, true, cmd[44] / 2 % 2 == 1),
                          cqGeneration := Next(s.cqGeneration)), page, w, Result(0, 0, 0, 2, false))
         else if cmd[0] == 1 && fit && Le16(cmd, 46) == 1 && !s.sq.present && s.cq.present then
           Executed(1, s.(sq := IoQueue(base, depth, 1, true, false), sqGeneration := Next(s.sqGeneration)),
                    page, w, Result(0, 0, 0, 1, false))
         else Executed(1, s, page, w, Result(0, 0, 2, 0, false))
  {
    PlainFields(cmd);
    ContiguousBits(cmd);
    FitsIsValid(env, Le64(cmd, 24), Dw(cmd, 0) / 0x1_0000 + 1, if cmd[0] == 5 then 16 else 64);
    hide QueueValid, QueueFits, Dw, Le64, Le32, Le16, Plain;
  }

  lemma ContiguousBits(cmd: seq<u8>)
    requires |cmd| == 64
    ensures Dw(cmd, 1) % 2 == cmd[44] % 2 && Dw(cmd, 1) / 2 % 2 == cmd[44] / 2 % 2
  {
    FourDigits(cmd[44], cmd[45], cmd[46], cmd[47], Dw(cmd, 1));
  }

  /** A queue is deleted exactly when it is number 1 and there, the completion
      queue only after the submission queue. */
  lemma DeleteAnswers(env: Env, s: State, p: Policy, cmd: seq<u8>, page: seq<u8>, w: World)
    requires Usable(env, s, p, page) && Plain(cmd) && (cmd[0] == 4 || cmd[0] == 0)
    ensures var there := if cmd[0] == 4 then s.cq.present else s.sq.present;
      Execute(env, s, p, cmd, page, w)
      == if Le16(cmd, 40) != 1 || !there then Executed(1, s, page, w, Result(0, 0, 2, 0, false))
         else if cmd[0] == 0 then
           Executed(1, s.(sq := NO_QUEUE, sqGeneration := Next(s.sqGeneration)), page, w, Result(0, 0, 0, 1, false))
         else if s.sq.present then Executed(1, s, page, w, Result(0, 0, 0x10c, 0, false))
         else
           Executed(1, s.(cq := NO_QUEUE, cqGeneration := Next(s.cqGeneration)), page, w, Result(0, 0, 0, 2, false))
  {
    PlainFields(cmd);
    hide Dw, Le64, Le16, Plain, Create, Feature;
  }

  /** Number of Queues reads 0 whatever was set; nine features are kept as set,
      unless a cache backend takes the write cache; and any other is an Invalid Field. */
  lemma FeatureAnswer(env: Env, s: State, p: Policy, cmd: seq<u8>, page: seq<u8>, w: World)
    requires Usable(env, s, p, page) && Plain(cmd) && (cmd[0] == 9 || cmd[0] == 10)
    ensures var e, fid, v := Execute(env, s, p, cmd, page, w), cmd[40], Le32(cmd, 44);
      && (fid == 7 ==> e == Executed(1, s, page, w, Result(0, 0, 0, 0, false)))
      && (fid !in {1, 2, 4, 5, 6, 7, 8, 9, 10, 11} ==> e == Executed(1, s, page, w, Result(0, 0, 2, 0, false)))
      && (fid in {1, 2, 4, 5, 6, 8, 9, 10, 11} && !(fid == 6 && env.setCache) ==>
            e == if cmd[0] == 9 then
                   Executed(1, s.(features := s.features[fid := v]), page, w, Result(v, 0, 0, 0, false))
                 else Executed(1, s, page, w, Result(s.features[fid], 0, 0, 0, false)))
  {
    PlainFields(cmd);
    hide Dw, Le64, Le32, Plain, Create, Delete, CacheFeature;
  }

  /** With a cache backend, the write cache: reserved bits must be zero; the
      default is 1, the capability 4, no other selector reads and only the current
      value can be set, to 0 or 1. */
  lemma CacheAnswer(env: Env, s: State, p: Policy, cmd: seq<u8>, page: seq<u8>, w: World)
    requires Usable(env, s, p, page) && Plain(cmd) && (cmd[0] == 9 || cmd[0] == 10) && cmd[40] == 6 && env.setCache
    ensures var sel, v := cmd[41], Le32(cmd, 44);
      var good := sel < 8 && Le16(cmd, 42) == 0 && forall i :: 48 <= i < 64 ==> cmd[i] == 0;
      Execute(env, s, p, cmd, page, w)
      == if good && cmd[0] == 10 && sel in {0, 1, 3} then
           Executed(1, s, page, w, Result(if sel == 1 then 1 else if sel == 3 then 4 else if w.cache then 1 else 0,
                                          0, 0, 0, false))
         else if good && cmd[0] == 9 && sel == 0 && v < 2 then
           Executed(1, s, page, AfterSetCache(env, w, v == 1),
                    if env.Ok(w.tick) then Result(v, 0, 0, 4, false) else Result(0, 0, 6, 0, false))
         else Executed(1, s, page, w, Result(0, 0, 2, 0, false))
  {
    PlainFields(cmd);
    ReservedZero(cmd);
    Selector(cmd);
    hide Dw, Le64, Le32, Le16, Plain, Create, Delete;
  }

  lemma Selector(cmd: seq<u8>)
    requires |cmd| == 64
    ensures Dw(cmd, 0) < 0x800 <==> cmd[41] < 8 && Le16(cmd, 42) == 0
    ensures Dw(cmd, 0) / 0x100 % 8 == cmd[41] % 8
  {
    Above(cmd[40], cmd[41], Le16(cmd, 42), Dw(cmd, 0));
  }

  lemma Above(a: u8, b: u8, h: u16, x: int)
    requires x == a as int + 0x100 * b as int + 0x1_0000 * h as int
    ensures x < 0x800 <==> b < 8 && h == 0
    ensures x / 0x100 % 8 == b % 8
  {
    W.Lap(x, 0x100, b as int + 0x100 * h as int, a);
    W.Lap(b as int + 0x100 * h as int, 8, b as int / 8 + 32 * h as int, b as int % 8);
  }

  lemma ReservedZero(cmd: seq<u8>)
    requires |cmd| == 64
    ensures Dw(cmd, 2) == Dw(cmd, 3) == Dw(cmd, 4) == Dw(cmd, 5) == 0 <==> forall i :: 48 <= i < 64 ==> cmd[i] == 0
  {
    if Dw(cmd, 2) == Dw(cmd, 3) == Dw(cmd, 4) == Dw(cmd, 5) == 0 {
      forall i | 48 <= i < 64 ensures cmd[i] == 0 {
        assert Le32(cmd, 48) == Le32(cmd, 52) == Le32(cmd, 56) == Le32(cmd, 60) == 0;
      }
    }
  }

  // ----- commands that answer with a page -----

  lemma PayloadAnswer(env: Env, s: State, p: Policy, cmd: seq<u8>, page: seq<u8>, w: World)
    requires Usable(env, s, p, page) && Plain(cmd) && (cmd[0] == 6 || cmd[0] == 2)
    ensures var r := if cmd[0] == 6 then Identify(cmd, p, page) else LogPage(cmd, page);
      Execute(env, s, p, cmd, page, w) == Executed(1, s, r.page, w, Result(0, r.bytes, r.status, 0, false))
  {
    PlainFields(cmd);
    hide Le64, Identify, LogPage, Plain;
  }

  /** The text, cut or filled up with blanks to n bytes. */
  predicate ReadsAs(b: seq<u8>, o: nat, s: string, n: nat)
    requires o + n <= |b|
  {
    forall i :: 0 <= i < n ==> b[o + i] as int == if i < |s| then s[i] as int % 0x100 else 0x20
  }

  /** An Identify command with nothing beside its CNS and its namespace. */
  predicate Identifies(cmd: seq<u8>, cns: u8) {
    Plain(cmd) && cmd[0] == 6 && cmd[40] == cns && forall i :: 41 <= i < 64 ==> cmd[i] == 0
  }

  lemma IdentifyFields(cmd: seq<u8>)
    requires |cmd| == 64
    ensures (forall i :: 41 <= i < 64 ==> cmd[i] == 0)
       <==> Dw(cmd, 0) / 0x100 == 0 && Dw(cmd, 1) == Dw(cmd, 2) == Dw(cmd, 3) == Dw(cmd, 4) == Dw(cmd, 5) == 0
    ensures Dw(cmd, 0) % 0x100 == cmd[40]
  {
    ReservedZero(cmd);
    if Dw(cmd, 0) / 0x100 == 0 && Dw(cmd, 1) == 0 {
      assert cmd[41] == 0 && cmd[42] == 0 && cmd[43] == 0;
      assert Le32(cmd, 44) == 0;
    }
  }

  /** Nothing but the answer page changes, and the rest of the buffer stays. */
  predicate Answered(e: Executed, s: State, page: seq<u8>, w: World, n: nat) {
    && e.code == 1 && e.state == s && e.world == w && e.result == Result(0, n, 0, 0, false)
    && |e.page| == |page| && n <= |page| && e.page[n..] == page[n..]
  }

  lemma PageShown(page: seq<u8>, n: seq<u8>)
    requires |n| <= |page|
    ensures Splice(page, 0, n)[..|n|] == n && Splice(page, 0, n)[|n|..] == page[|n|..]
  {
  }

  lemma ReadsInside(b: seq<u8>, n: seq<u8>, o: nat)
    requires |n| <= |b| && b[..|n|] == n
    ensures o < |n| ==> b[o] == n[o]
    ensures o + 2 <= |n| ==> Le16(b, o) == Le16(n, o)
    ensures o + 4 <= |n| ==> Le32(b, o) == Le32(n, o)
    ensures o + 8 <= |n| ==> Le64(b, o) == Le64(n, o)
  {
    assert forall i :: 0 <= i < |n| ==> b[i] == b[..|n|][i];
  }

  /** Identify with CNS 1 and namespace 0 or all ones: the controller, byte by byte. */
  predicate ShowsController(b: seq<u8>, p: Policy) {
    && |b| >= 4096
    && Le16(b, 0) == 0x1234 && Le16(b, 2) == 0x1234
    && ReadsAs(b, 4, "NWOAS-RO-00000000001", 20) && ReadsAs(b, 24, "NWOAS ANS2 READ ONLY BRIDGE", 40)
    && ReadsAs(b, 64, "S92", 8)
    && b[77] == p.mdts && Le16(b, 78) == 1 && Le32(b, 80) == 0x10300 && b[512] == 0x66 && b[513] == 0x44
    && Le32(b, 516) == (if p.paired then 2 else 1) && b[525] == (if p.volatileCache then 1 else 0)
    && forall i :: 72 <= i < 4096 && !(77 <= i < 84) && i !in {512, 513, 516, 517, 518, 519, 525} ==> b[i] == 0
  }

  lemma ControllerAnswer(env: Env, s: State, p: Policy, cmd: seq<u8>, page: seq<u8>, w: World)
    requires Usable(env, s, p, page) && Identifies(cmd, 1)
    ensures var e, nsid := Execute(env, s, p, cmd, page, w), Le32(cmd, 4);
      if nsid == 0 || nsid == 0xffff_ffff then Answered(e, s, page, w, 4096) && ShowsController(e.page, p)
      else e == Executed(1, s, page, w, Result(0, 0, 0xb, 0, false))
  {
    IdentifyFields(cmd);
    hide Execute, NamespacePage, ControllerPage, ListPage, PolicyValid, Dw, Le32, ShowsController, Splice;
    PayloadAnswer(env, s, p, cmd, page, w);
    PageShown(page, ControllerPage(p));
    ControllerShown(Splice(page, 0, ControllerPage(p)), p);
  }

  lemma ControllerShown(b: seq<u8>, p: Policy)
    requires |b| >= 4096 && b[..4096] == ControllerPage(p)
    ensures ShowsController(b, p)
  {
    ControllerPageDecodes(p);
    var n := ControllerPage(p);
    hide ControllerPage, Le16, Le32;
    forall o ensures o == 0 || o == 2 || o == 78 ==> Le16(b, o) == Le16(n, o) {
      if o == 0 || o == 2 || o == 78 {
        ReadsInside(b, n, o);
      }
    }
    ReadsInside(b, n, 80);
    ReadsInside(b, n, 516);
    assert forall i :: 0 <= i < 4096 ==> b[i] == b[..4096][i];
    TextShown(b, 4, "NWOAS-RO-00000000001", 20);
    TextShown(b, 24, "NWOAS ANS2 READ ONLY BRIDGE", 40);
    TextShown(b, 64, "S92", 8);
  }

  lemma TextShown(b: seq<u8>, o: nat, s: string, n: nat)
    requires o + n <= |b| 
    ensures b[o..o + n] == Text(s, n) ==> ReadsAs(b, o, s, n)
  {
    if b[o..o + n] == Text(s, n) {
      forall i | 0 <= i < n ensures b[o + i] == Text(s, n)[i] {
        assert b[o + i] == b[o..o + n][i];
      }
    }
  }

  predicate ShowsNamespace(b: seq<u8>, size: u64, protect: bool) {
    && |b| >= 4096
    && Le64(b, 0) == size && Le64(b, 8) == size && Le64(b, 16) == size
    && b[130] == 12 && b[99] == (if protect then 1 else 0)
    && forall i :: 24 <= i < 4096 && i != 99 && i != 130 ==> b[i] == 0
  }

  /** Identify with CNS 0: the size three times, the 4 KiB format and the
      write-protect bit of a namespace that is there. */
  lemma NamespaceAnswer(env: Env, s: State, p: Policy, cmd: seq<u8>, page: seq<u8>, w: World)
    requires Usable(env, s, p, page) && Identifies(cmd, 0)
    ensures var e, nsid := Execute(env, s, p, cmd, page, w), Le32(cmd, 4);
      if nsid == 1 || (nsid == 2 && p.paired) then
        && Answered(e, s, page, w, 4096)
        && ShowsNamespace(e.page, if nsid == 1 then p.primaryLbas else p.linkLbas, nsid == 1 && p.primaryReadonly)
      else e == Executed(1, s, page, w, Result(0, 0, 0xb, 0, false))
  {
    NamespacePayload(cmd, p, page);
    hide Execute, Identify, NamespacePage, Le32, ShowsNamespace, Splice, Identifies;
    PayloadAnswer(env, s, p, cmd, page, w);
    var nsid := Le32(cmd, 4);
    var lbas, ro := if nsid == 1 then p.primaryLbas else p.linkLbas, nsid == 1 && p.primaryReadonly;
    PageShown(page, NamespacePage(lbas, ro));
    NamespaceShown(Splice(page, 0, NamespacePage(lbas, ro)), lbas, ro);
  }

  lemma NamespacePayload(cmd: seq<u8>, p: Policy, page: seq<u8>)
    requires Identifies(cmd, 0) && |page| >= 4096
    ensures Plain(cmd) && cmd[0] == 6
    ensures var nsid := Le32(cmd, 4);
      Identify(cmd, p, page)
      == if nsid == 1 || (nsid == 2 && p.paired) then
           Response(1, 0, 4096, Splice(page, 0, NamespacePage(if nsid == 1 then p.primaryLbas else p.linkLbas,
                                                              nsid == 1 && p.primaryReadonly)))
         else Response(1, 0xb, 0, page)
  {
    IdentifyFields(cmd);
    hide NamespacePage, Dw, Le32, Splice;
  }

  lemma NamespaceShown(b: seq<u8>, lbas: u64, ro: bool)
    requires |b| >= 4096 && b[..4096] == NamespacePage(lbas, ro)
    ensures ShowsNamespace(b, lbas, ro)
  {
    NamespacePageDecodes(lbas, ro);
    var n := NamespacePage(lbas, ro);
    hide NamespacePage, Le64;
    ReadsInside(b, n, 0);
    ReadsInside(b, n, 8);
    ReadsInside(b, n, 16);
    assert forall i :: 0 <= i < 4096 ==> b[i] == b[..4096][i];
  }

  /** Entry i of a list that holds ids and then zeros. */
  predicate Lists(b: seq<u8>, ids: seq<u32>, i: nat) {
    |b| >= 4096 && i < 1024 && Le32(b, 4 * i) == if i < |ids| then ids[i] else 0
  }

  /** Identify with CNS 2: the namespaces there are above the one given, then zeros. */
  lemma ListAnswer(env: Env, s: State, p: Policy, cmd: seq<u8>, page: seq<u8>, w: World, i: nat)
    requires Usable(env, s, p, page) && Identifies(cmd, 2) && i < 1024
    ensures var e, nsid := Execute(env, s, p, cmd, page, w), Le32(cmd, 4);
      var ids := if nsid == 0 then (if p.paired then [1, 2] else [1]) else if nsid == 1 && p.paired then [2] else [];
      Answered(e, s, page, w, 4096) && Lists(e.page, ids, i)
  {
    ListPayload(cmd, p, page);
    ActiveIds(p, Le32(cmd, 4));
    hide Execute, Identify, ActiveAbove, ListPage, Le32, Lists, Splice, Identifies;
    PayloadAnswer(env, s, p, cmd, page, w);
    var ids := ActiveAbove(p, Le32(cmd, 4));
    PageShown(page, ListPage(ids));
    ListShown(Splice(page, 0, ListPage(ids)), ids, i);
  }

  lemma ListPayload(cmd: seq<u8>, p: Policy, page: seq<u8>)
    requires Identifies(cmd, 2) && |page| >= 4096
    ensures Plain(cmd) && cmd[0] == 6
    ensures Identify(cmd, p, page)
         == Response(1, 0, 4096, Splice(page, 0, ListPage(ActiveAbove(p, Le32(cmd, 4)))))
  {
    IdentifyFields(cmd);
    hide ListPage, ActiveAbove, Dw, Le32, Splice;
  }

  lemma ActiveIds(p: Policy, nsid: u32)
    ensures ActiveAbove(p, nsid)
         == if nsid == 0 then (if p.paired then [1, 2] else [1]) else if nsid == 1 && p.paired then [2] else []
  {
  }

  lemma ListShown(b: seq<u8>, ids: seq<u32>, i: nat)
    requires |ids| <= 2 && |b| >= 4096 && b[..4096] == ListPage(ids) && i < 1024
    ensures Lists(b, ids, i)
  {
    ListEntry(ids, i);
    hide ListPage, Le32;
    ReadsInside(b, ListPage(ids), 4 * i);
  }

  /** Any other CNS, or a reserved byte that is not zero, is an Invalid Field. */
  lemma OtherIdentifyRefused(env: Env, s: State, p: Policy, cmd: seq<u8>, page: seq<u8>, w: World)
    requires Usable(env, s, p, page) && Plain(cmd) && cmd[0] == 6
    requires !Identifies(cmd, 0) && !Identifies(cmd, 1) && !Identifies(cmd, 2)
    ensures Execute(env, s, p, cmd, page, w) == Executed(1, s, page, w, Result(0, 0, 2, 0, false))
  {
    IdentifyFields(cmd);
    hide Execute, Dw, Le32, NamespacePage, ControllerPage, ListPage, Splice;
    PayloadAnswer(env, s, p, cmd, page, w);
  }

  /** Get Log Page: logs 1, 2 and 3 from their start, exactly the dwords asked for
      and at most a page; health shows 300 kelvin and all spare, the firmware log
      slot 1 and its revision, and everything else is zero. */
  lemma LogAnswer(env: Env, s: State, p: Policy, cmd: seq<u8>, page: seq<u8>, w: World, i: nat)
    requires Usable(env, s, p, page) && Plain(cmd) && cmd[0] == 2
    ensures var e, lid := Execute(env, s, p, cmd, page, w), cmd[40];
      var n := 4 * (Le16(cmd, 42) as int + 0x1_0000 * Le16(cmd, 44) as int + 1);
      if lid in {1, 2, 3} && n <= 4096 && Le32(cmd, 48) == 0 && Le32(cmd, 52) == 0 then
        && Answered(e, s, page, w, n)
        && (lid == 2 ==> Le16(e.page, 1) == 300 && e.page[3] == 100)
        && (lid == 3 && n >= 16 ==> e.page[0] == 1 && ReadsAs(e.page, 8, "S93", 8))
        && (i < n && !(lid == 2 && 1 <= i < 4) && !(lid == 3 && n >= 16 && (i == 0 || 8 <= i < 16)) ==> e.page[i] == 0)
      else e == Executed(1, s, page, w, Result(0, 0, 2, 0, false))
  {
    PlainFields(cmd);
    var n, lid := LogBytes(cmd), cmd[40];
    assert n == 4 * (Le16(cmd, 42) as int + 0x1_0000 * Le16(cmd, 44) as int + 1);
    hide Execute, LogContents, Dw, Le16, Le32, LogBytes, Splice;
    PayloadAnswer(env, s, p, cmd, page, w);
    if lid in {1, 2, 3} && n <= 4096 && Le32(cmd, 48) == 0 && Le32(cmd, 52) == 0 {
      var c := LogContents(lid, n);
      PageShown(page, c);
      LogShown(Splice(page, 0, c), lid, n, i);
    }
  }

  lemma LogShown(b: seq<u8>, lid: u8, n: nat, i: nat)
    requires 4 <= n <= |b| && b[..n] == LogContents(lid, n)
    ensures lid == 2 ==> Le16(b, 1) == 300 && b[3] == 100
    ensures lid == 3 && n >= 16 ==> b[0] == 1 && ReadsAs(b, 8, "S93", 8)
    ensures lid in {1, 2, 3} ==>
      i < n && !(lid == 2 && 1 <= i < 4) && !(lid == 3 && n >= 16 && (i == 0 || 8 <= i < 16)) ==> b[i] == 0
  {
    LogPageDecodes(lid, n, if i < n then i else 0);
    hide LogContents, Le16;
    ReadsInside(b, LogContents(lid, n), 1);
    assert forall k :: 0 <= k < n ==> b[k] == b[..n][k];
    if lid == 3 && n >= 16 {
      assert b[8..16] == b[..n][8..16];
      TextShown(b, 8, "S93", 8);
    }
  }
}
