/** The admin command interpreter (admin_state.c): I/O queue descriptors,
    features, the held asynchronous event request and generation counters. */
module AdminState {
  import opened Words
  import opened Memory
  import opened Host
  import opened AdminPayload

  datatype IoQueue = IoQueue(base: u64, depth: u16, cqid: u16, present: bool, ien: bool)

  const NO_QUEUE := IoQueue(0, 0, 0, false, false)

  datatype State = State(sq: IoQueue, cq: IoQueue, features: seq<u32>,
                         sqGeneration: u64, cqGeneration: u64, aerCid: u16, aerPresent: bool)

  /** `changed`: bit 0 the submission queue, bit 1 the completion queue, bit 2 the cache policy. */
  datatype Result = Result(result: u32, bytes: nat, status: u16, changed: u8, deferred: bool)

  const INVALID_FIELD := Result(0, 0, 2, 0, false)

  datatype Executed = Executed(code: int, state: State, page: seq<u8>, world: World, result: Result)

  /** A 64-bit counter wraps. */
  function Next(generation: u64): u64 {
    if generation == U64_MAX then 0 else generation + 1
  }

  function DefaultFeatures(): (f: seq<u32>)
    ensures |f| == 12
  {
    seq<u32>(12, i => if i == 6 then 1 else 0)
  }

  function AfterReset(s: State, full: bool): State {
    State(NO_QUEUE, NO_QUEUE, if full then DefaultFeatures() else s.features,
          if s.sq.present then Next(s.sqGeneration) else s.sqGeneration,
          if s.cq.present then Next(s.cqGeneration) else s.cqGeneration, 0, false)
  }

  function Initial(): State {
    State(NO_QUEUE, NO_QUEUE, DefaultFeatures(), 0, 0, 0, false)
  }

  predicate QueueValid(env: Env, base: u64, depth: u32, stride: u32) {
    && 2 <= depth <= 256 && base != 0 && base % 4096 == 0
    && env.queueRanges.Some?
    && base <= U64_MAX - depth * stride
    && (base, depth * stride) in env.queueRanges.value
  }

  /** Create I/O Completion Queue (5) and Create I/O Submission Queue (1). */
  function Create(env: Env, s: State, cmd: seq<u8>): (State, Result)
    requires |cmd| == 64 && (cmd[0] == 1 || cmd[0] == 5)
  {
    var qid, depth, base := Dw(cmd, 0) % 0x1_0000, Dw(cmd, 0) / 0x1_0000 + 1, Le64(cmd, 24);
    if Le32(cmd, 4) != 0 || qid != 1 || Dw(cmd, 1) % 2 == 0
       || !QueueValid(env, base, depth, if cmd[0] == 5 then 16 else 64) then (s, INVALID_FIELD)
    else if cmd[0] == 5 then
      if s.cq.present || Dw(cmd, 1) / 0x1_0000 != 0 then (s, INVALID_FIELD)
      else
        (s.(cq := IoQueue(base, depth, 0, true, Dw(cmd, 1) / 2 % 2 == 1),
            cqGeneration := Next(s.cqGeneration)), Result(0, 0, 0, 2, false))
    else if s.sq.present || Dw(cmd, 1) / 0x1_0000 != 1 || !s.cq.present then (s, INVALID_FIELD)
    else
      (s.(sq := IoQueue(base, depth, 1, true, false), sqGeneration := Next(s.sqGeneration)),
       Result(0, 0, 0, 1, false))
  }

  /** Delete I/O Submission Queue (0) and Delete I/O Completion Queue (4). */
  function Delete(s: State, cmd: seq<u8>): (State, Result)
    requires |cmd| == 64 && (cmd[0] == 0 || cmd[0] == 4)
  {
    if Dw(cmd, 0) % 0x1_0000 != 1 || !(if cmd[0] == 0 then s.sq else s.cq).present then (s, INVALID_FIELD)
    else if cmd[0] == 4 && s.sq.present then (s, Result(0, 0, 0x10c, 0, false))
    else if cmd[0] == 0 then
      (s.(sq := NO_QUEUE, sqGeneration := Next(s.sqGeneration)), Result(0, 0, 0, 1, false))
    else
      (s.(cq := NO_QUEUE, cqGeneration := Next(s.cqGeneration)), Result(0, 0, 0, 2, false))
  }

  /** The volatile write cache feature when a cache backend is attached. */
  function CacheFeature(env: Env, w: World, cmd: seq<u8>): (World, Result)
    requires |cmd| == 64 && (cmd[0] == 9 || cmd[0] == 10)
  {
    var sel := Dw(cmd, 0) / 0x100 % 8;
    if Dw(cmd, 0) >= 0x800 || Dw(cmd, 2) != 0 || Dw(cmd, 3) != 0 || Dw(cmd, 4) != 0 || Dw(cmd, 5) != 0 then
      (w, INVALID_FIELD)
    else if cmd[0] == 10 then
      if sel == 1 then (w, Result(1, 0, 0, 0, false))
      else if sel == 3 then (w, Result(4, 0, 0, 0, false))
      else if sel != 0 then (w, INVALID_FIELD)
      else (w, Result(if w.cache then 1 else 0, 0, 0, 0, false))
    else if sel != 0 || Dw(cmd, 1) >= 2 then (w, INVALID_FIELD)
    else
      var v := AfterSetCache(env, w, Dw(cmd, 1) != 0);
      if !env.Ok(w.tick) then (v, Result(0, 0, 6, 0, false))
      else (v, Result(if v.cache then 1 else 0, 0, 0, 4, false))
  }

  predicate KnownFeature(fid: u32) {
    fid in {1, 2, 4, 5, 6, 8, 9, 10, 11}
  }

  /** Set Features (9) and Get Features (10). */
  function Feature(env: Env, s: State, w: World, cmd: seq<u8>): (State, World, Result)
    requires |cmd| == 64 && (cmd[0] == 9 || cmd[0] == 10) && |s.features| == 12
  {
    var fid := Dw(cmd, 0) % 0x100;
    if fid == 7 then (s, w, Result(0, 0, 0, 0, false))
    else if !KnownFeature(fid) then (s, w, INVALID_FIELD)
    else if fid == 6 && env.setCache then
      var (v, r) := CacheFeature(env, w, cmd);
      (s, v, r)
    else
      var t := if cmd[0] == 9 then s.(features := s.features[fid := Dw(cmd, 1)]) else s;
      (t, w, Result(t.features[fid], 0, 0, 0, false))
  }

  /** Asynchronous Event Request: at most one is held, and it gets no completion. */
  function HoldEvent(s: State, cmd: seq<u8>): (State, Result)
    requires |cmd| == 64
  {
    if s.aerPresent then (s, Result(0, 0, 0x105, 0, false))
    else (s.(aerPresent := true, aerCid := Le16(cmd, 2)), Result(0, 0, 0, 0, true))
  }

  function Execute(env: Env, s: State, p: Policy, cmd: seq<u8>, page: seq<u8>, w: World): (e: Executed)
    requires |s.features| == 12
    ensures |e.state.features| == 12 && |e.page| == |page|
  {
    if |cmd| != 64 || |page| < 4096 || env.setCache != env.getCache then Executed(-1, s, page, w, INVALID_FIELD)
    else
      var a := Respond(cmd, p, page);
      if a.code < 0 then Executed(-1, s, a.page, w, INVALID_FIELD)
      else if cmd[1] != 0 || Le64(cmd, 16) != 0 then Executed(1, s, a.page, w, INVALID_FIELD)
      else if a.code != 0 then Executed(1, s, a.page, w, Result(0, a.bytes, a.status, 0, false))
      else if cmd[0] == 1 || cmd[0] == 5 then
        var (t, r) := Create(env, s, cmd);
        Executed(1, t, a.page, w, r)
      else if cmd[0] == 0 || cmd[0] == 4 then
        var (t, r) := Delete(s, cmd);
        Executed(1, t, a.page, w, r)
      else if cmd[0] == 9 || cmd[0] == 10 then
        var (t, v, r) := Feature(env, s, w, cmd);
        Executed(1, t, a.page, v, r)
      else if cmd[0] == 12 then
        var (t, r) := HoldEvent(s, cmd);
        Executed(1, t, a.page, w, r)
      else if cmd[0] == 8 then Executed(1, s, a.page, w, Result(1, 0, 0, 0, false))
      else Executed(1, s, a.page, w, Result(0, 0, 1, 0, false))
  }

  // ----- the interpreter as the program updates it -----

  class Admin {
    var sq: IoQueue
    var cq: IoQueue
    const features: array<u32>
    var sqGeneration: u64
    var cqGeneration: u64
    var aerCid: u16
    var aerPresent: bool

    ghost predicate Valid()
      reads this
    {
      features.Length == 12
    }

    ghost function Abs(): State
      reads this, features
    {
      State(sq, cq, features[..], sqGeneration, cqGeneration, aerCid, aerPresent)
    }

    constructor ()
      ensures Valid() && fresh(features) && Abs() == Initial()
    {
      features := new u32[12];
      sq, cq, sqGeneration, cqGeneration, aerCid, aerPresent := NO_QUEUE, NO_QUEUE, 0, 0, 0, false;
      new;
      Reset(true);
    }

    method Reset(full: bool)
      requires Valid()
      modifies this, features
      ensures Abs() == AfterReset(old(Abs()), full)
    {
      if sq.present {
        sqGeneration := Next(sqGeneration);
      }
      if cq.present {
        cqGeneration := Next(cqGeneration);
      }
      sq, cq, aerPresent, aerCid := NO_QUEUE, NO_QUEUE, false, 0;
      if full {
        var i := 0;
        while i < 12
          modifies features
          invariant i <= 12 && forall k :: 0 <= k < i ==> features[k] == 0
        {
          features[i] := 0;
          i := i + 1;
        }
        features[6] := 1;
        assert features[..] == DefaultFeatures();
      }
    }

    method ExecuteCreate(env: Env, cmd: seq<u8>) returns (r: Result)
      requires Valid() && |cmd| == 64 && (cmd[0] == 1 || cmd[0] == 5)
      modifies this
      ensures (Abs(), r) == Create(env, old(Abs()), cmd)
    {
      r := INVALID_FIELD;
      var op, qid, depth, base := cmd[0], Dw(cmd, 0) % 0x1_0000, Dw(cmd, 0) / 0x1_0000 + 1, Le64(cmd, 24);
      if Le32(cmd, 4) != 0 || qid != 1 || Dw(cmd, 1) % 2 == 0
         || !QueueValid(env, base, depth, if op == 5 then 16 else 64) {
        return;
      }
      if op == 5 {
        if cq.present || Dw(cmd, 1) / 0x1_0000 != 0 {
          return;
        }
        cq := IoQueue(base, depth, 0, true, Dw(cmd, 1) / 2 % 2 == 1);
        cqGeneration := Next(cqGeneration);
        r := r.(changed := 2);
      } else {
        if sq.present || Dw(cmd, 1) / 0x1_0000 != 1 || !cq.present {
          return;
        }
        sq := IoQueue(base, depth, 1, true, false);
        sqGeneration := Next(sqGeneration);
        r := r.(changed := 1);
      }
      r := r.(status := 0);
    }

    method ExecuteDelete(cmd: seq<u8>) returns (r: Result)
      requires Valid() && |cmd| == 64 && (cmd[0] == 0 || cmd[0] == 4)
      modifies this
      ensures (Abs(), r) == Delete(old(Abs()), cmd)
    {
      r := INVALID_FIELD;
      var op := cmd[0];
      if Dw(cmd, 0) % 0x1_0000 != 1 {
        return;
      }
      if !(if op == 0 then sq else cq).present {
        return;
      }
      if op == 4 && sq.present {
        return r.(status := 0x10c);
      }
      if op == 0 {
        sq := NO_QUEUE;
        sqGeneration := Next(sqGeneration);
        r := r.(changed := 1);
      } else {
        cq := NO_QUEUE;
        cqGeneration := Next(cqGeneration);
        r := r.(changed := 2);
      }
      r := r.(status := 0);
    }

    method ExecuteCacheFeature(cb: Callbacks, cmd: seq<u8>) returns (r: Result)
      requires Valid() && |cmd| == 64 && (cmd[0] == 9 || cmd[0] == 10)
      modifies cb
      ensures (cb.w, r) == CacheFeature(cb.env, old(cb.w), cmd)
    {
      r := INVALID_FIELD;
      if Dw(cmd, 0) >= 0x800 || Dw(cmd, 2) != 0 || Dw(cmd, 3) != 0 || Dw(cmd, 4) != 0 || Dw(cmd, 5) != 0 {
        return;
      }
      var sel := Dw(cmd, 0) / 0x100 % 8;
      if cmd[0] == 10 {
        if sel == 1 {
          return r.(status := 0, result := 1);
        }
        if sel == 3 {
          return r.(status := 0, result := 4);
        }
        if sel != 0 {
          return;
        }
      }
      if cmd[0] == 9 {
        if sel != 0 || Dw(cmd, 1) >= 2 {
          return;
        }
        var ok := cb.SetCache(Dw(cmd, 1) != 0);
        if !ok {
          return r.(status := 6);
        }
        r := r.(changed := 4);
      }
      r := r.(status := 0, result := if cb.w.cache then 1 else 0);
    }

    method ExecuteFeature(cb: Callbacks, cmd: seq<u8>) returns (r: Result)
      requires Valid() && |cmd| == 64 && (cmd[0] == 9 || cmd[0] == 10)
      modifies features, cb
      ensures (Abs(), cb.w, r) == Feature(cb.env, old(Abs()), old(cb.w), cmd)
    {
      r := INVALID_FIELD;
      var fid := Dw(cmd, 0) % 0x100;
      if fid == 7 {
        return r.(status := 0);
      }
      if !KnownFeature(fid) {
        return;
      }
      if fid == 6 && cb.env.setCache {
        r := ExecuteCacheFeature(cb, cmd);
        return;
      }
      if cmd[0] == 9 {
        features[fid] := Dw(cmd, 1);
      }
      r := r.(status := 0, result := features[fid]);
    }

    method Run(cb: Callbacks, p: Policy, cmd: seq<u8>, out: array<u8>) returns (code: int, r: Result)
      requires Valid() && out as object != features
      modifies this, features, out, cb
      ensures Executed(code, Abs(), out[..], cb.w, r)
           == Execute(cb.env, old(Abs()), p, cmd, old(out[..]), old(cb.w))
    {
      r := INVALID_FIELD;
      if |cmd| != 64 || out.Length < 4096 || cb.env.setCache != cb.env.getCache {
        return -1, r;
      }
      var handled, status, bytes := Fill(cmd, p, out);
      if handled < 0 {
        return -1, r;
      }
      code := 1;
      if cmd[1] != 0 || Le64(cmd, 16) != 0 {
        return;
      }
      if handled != 0 {
        r := r.(status := status, bytes := bytes);
        return;
      }
      var op := cmd[0];
      if op == 1 || op == 5 {
        r := ExecuteCreate(cb.env, cmd);
      } else if op == 0 || op == 4 {
        r := ExecuteDelete(cmd);
      } else if op == 9 || op == 10 {
        r := ExecuteFeature(cb, cmd);
      } else if op == 12 {
        if aerPresent {
          return 1, r.(status := 0x105);
        }
        aerPresent, aerCid := true, Le16(cmd, 2);
        r := r.(status := 0, deferred := true);
      } else if op == 8 {
        r := r.(status := 0, result := 1);
      } else {
        r := r.(status := 1);
      }
    }
  }
}
