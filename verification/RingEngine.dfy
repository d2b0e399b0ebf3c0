/** The ring as the program runs it: one object whose fields and buffers are
    updated in place, proved against the functions of AdminRing. */
module RingEngine {
  import opened Words
  import opened Memory
  import opened Host
  import opened AdminPayload
  import opened AdminState
  import opened AdminRing

  class Engine {
    const cb: Callbacks
    const policy: Policy
    const admin: Admin
    const command: array<u8>
    const payload: array<u8>
    const completion: array<u8>
    var sq: Sq
    var cq: Cq
    var lifecycle: u64
    var active: bool
    var fatal: bool

    /** The objects and buffers are disjoint. */
    ghost predicate Valid()
      reads this, admin, admin.features, command, payload, completion
    {
      && command != payload && command != completion && payload != completion
      && command as object != admin.features && payload as object != admin.features
      && completion as object != admin.features
      && admin.Valid()
      && Sound(Abs())
    }

    ghost function Abs(): Ring
      reads this, admin, admin.features, command, payload, completion
    {
      Ring(policy, admin.Abs(), sq, cq, lifecycle, active, fatal, command[..], payload[..], completion[..])
    }

    constructor (cb: Callbacks, p: Policy)
      requires Startable(cb.env, p)
      ensures Valid() && this.cb == cb && cb.w == old(cb.w)
      ensures Abs() == Started(p)
      ensures fresh(admin) && fresh(admin.features) && fresh(command) && fresh(payload) && fresh(completion)
    {
      this.cb, policy := cb, p;
      admin := new Admin();
      command := new u8[64](_ => 0);
      payload := new u8[4096](_ => 0);
      completion := new u8[16](_ => 0);
      sq, cq, lifecycle, active, fatal := NO_SQ, NO_CQ, 0, false, false;
      new;
      assert command[..] == Zeros(64) && payload[..] == Zeros(4096) && completion[..] == Zeros(16);
    }

    method Fail()
      requires Valid()
      modifies this`fatal, cb
      ensures (Abs(), cb.w) == Failed(old(Abs()), old(cb.w))
    {
      fatal := true;
      cb.Pending(false);
      cb.Fault();
    }

    method Reset(full: bool)
      requires Valid()
      modifies this, admin, admin.features, cb
      ensures Valid() && Abs() == AfterRingReset(old(Abs()), full) && cb.w == AfterLevel(old(cb.w), false)
    {
      active, fatal, lifecycle := false, false, Next(lifecycle);
      sq, cq := NO_SQ, NO_CQ;
      admin.Reset(full);
      cb.Pending(false);
    }

    method Configure(sq: u64, ns: u16, cq: u64, nc: u16) returns (done: bool)
      requires Valid()
      modifies this, cb
      ensures Valid() && done == Configurable(cb.env, old(Abs()), sq, ns, cq, nc)
      ensures done ==> Abs() == Configured(old(Abs()), sq, ns, cq, nc) && cb.w == AfterLevel(old(cb.w), false)
      ensures !done ==> Abs() == old(Abs()) && cb.w == old(cb.w)
    {
      if active || fatal || ns < 2 || ns > 256 || nc < 2 || nc > 256 || sq % 4096 != 0 || cq % 4096 != 0
         || !Range(cb.env, sq, ns * 64) || !Range(cb.env, cq, nc * 16) {
        return false;
      }
      this.sq, this.cq := Sq(sq, ns, 0, 0), Cq(cq, nc, 0, 0, 0, 1);
      lifecycle, active := Next(lifecycle), true;
      cb.Pending(false);
      done := true;
    }

    method DeliverPayload(spans: seq<Span>, data: seq<u8>) returns (done: bool)
      requires SpanBytes(spans) <= |data|
      modifies cb
      ensures (done, cb.w) == Deliver(cb.env, old(cb.w), spans, data)
    {
      var offset, i := 0, 0;
      while i < |spans|
        invariant i <= |spans| && offset + SpanBytes(spans[i..]) <= |data|
        invariant Deliver(cb.env, old(cb.w), spans, data) == Deliver(cb.env, cb.w, spans[i..], data[offset..])
      {
        var n := spans[i].bytes;
        assert spans[i..][1..] == spans[i + 1..];
        assert data[offset..][..n] == data[offset..offset + n];
        assert data[offset..][n..] == data[offset + n..];
        done := cb.Write(spans[i].address, data[offset..offset + n]);
        if !done {
          return;
        }
        offset, i := offset + n, i + 1;
      }
      assert spans[i..] == [];
      done := true;
    }

    method WriteEntry(slot: u64, c: seq<u8>) returns (done: bool)
      requires |c| == 16
      modifies cb
      ensures (done, cb.w) == StoreEntry(cb.env, old(cb.w), slot, c)
    {
      if !Range(cb.env, slot, 16) {
        return false;
      }
      done := cb.Write(slot, c[..14]);
      if !done {
        return;
      }
      cb.Barrier();
      done := cb.Write(slot + 14, c[14..]);
    }

    method AdvanceTail()
      requires Valid() && Ready(Abs())
      modifies this`cq
      ensures Valid() && Abs() == Advanced(old(Abs()))
    {
      cq := cq.(tail := (cq.tail as int + 1) % cq.depth as int, pending := cq.pending + 1);
      if cq.tail == 0 {
        cq := cq.(phase := 1 - cq.phase);
      }
    }

    method PublishCompletion(status: u16, result: u32) returns (done: bool)
      requires Valid() && Ready(Abs())
      modifies this`cq, this`fatal, completion, cb
      ensures Valid() && var t := Publish(cb.env, old(Abs()), old(cb.w), status, result);
        t.ring == Abs() && t.world == cb.w && t.Served? == done
    {
      FillCompletion(completion, result, sq.head, Le16(command[..], 2), status, cq.phase);
      done := WriteEntry(cq.base + cq.tail * 16, completion[..]);
      if !done {
        Fail();
        return;
      }
      AdvanceTail();
      cb.Pending(true);
    }

    method AnswerCommand(x: Result) returns (done: bool)
      requires Valid() && Ready(Abs())
      modifies this`cq, this`fatal, completion, cb
      ensures Valid() && var t := Answer(cb.env, old(Abs()), old(cb.w), x);
        t.ring == Abs() && t.world == cb.w && t.Served? == done
    {
      if x.deferred {
        return true;
      }
      var status, result := x.status, x.result;
      if x.bytes != 0 {
        var spans := Resolve(cb.env, command[..], x.bytes);
        if spans == [] {
          status, result := 2, 0;
        } else {
          done := DeliverPayload(spans, payload[..]);
          if !done {
            Fail();
            return;
          }
        }
      }
      done := PublishCompletion(status, result);
    }

    method ServeCommand() returns (done: bool)
      requires Valid() && Ready(Abs())
      modifies this, admin, admin.features, payload, completion, cb
      ensures Valid() && var t := Serve(cb.env, old(Abs()), old(cb.w));
        t.ring == Abs() && t.world == cb.w && t.Served? == done
    {
      hide Answer, Execute;
      var code, x := admin.Run(cb, policy, command[..], payload);
      if code != 1 {
        Fail();
        return false;
      }
      sq := sq.(head := (sq.head as int + 1) % sq.depth as int);
      if x.changed != 0 {
        done := cb.Reconcile(x.changed);
        if !done {
          Fail();
          return;
        }
      }
      done := AnswerCommand(x);
    }

    /** One turn of the poll loop. */
    method ServeOne() returns (done: bool)
      requires Valid() && Ready(Abs())
      modifies this, admin, admin.features, command, payload, completion, cb
      ensures Valid() && var t := TakeTurn(cb.env, old(Abs()), old(cb.w));
        t.ring == Abs() && t.world == cb.w && t.Served? == done
    {
      hide Serve, Execute;
      var address := sq.base + sq.head * 64;
      if !Range(cb.env, address, 64) {
        Fail();
        return false;
      }
      done := cb.Read(address, command);
      if !done {
        Fail();
        return;
      }
      done := ServeCommand();
    }

    /** The poll loop. */
    method Loop(budget: nat) returns (consumed: int)
      requires Valid() && active && !fatal
      modifies this, admin, admin.features, command, payload, completion, cb
      ensures Valid() && (Abs(), cb.w, consumed) == Drain(cb.env, old(Abs()), old(cb.w), budget)
    {
      hide TakeTurn, Drain;
      consumed := 0;
      ghost var goal := Drain(cb.env, Abs(), cb.w, budget);
      while consumed < budget && sq.head != sq.tail && cq.pending < cq.depth - 1
        invariant Valid() && active && !fatal && 0 <= consumed <= budget
        invariant goal == After(consumed, Drain(cb.env, Abs(), cb.w, budget - consumed))
      {
        ghost var r, w, left := Abs(), cb.w, budget - consumed;
        DrainTurn(cb.env, r, w, left);
        var done := ServeOne();
        if !done {
          return -2;
        }
        consumed := consumed + 1;
      }
      DrainIdle(cb.env, Abs(), cb.w, budget - consumed);
    }

    method PollRing(budget: nat) returns (consumed: int)
      requires Valid()
      modifies this, admin, admin.features, command, payload, completion, cb
      ensures Valid() && (Abs(), cb.w, consumed) == Poll(cb.env, old(Abs()), old(cb.w), budget)
    {
      if budget == 0 || budget > 256 {
        return -1;
      }
      if !active || fatal {
        return 0;
      }
      consumed := Loop(budget);
    }

    method RingTail(tail: u32) returns (consumed: int)
      requires Valid()
      modifies this, admin, admin.features, command, payload, completion, cb
      ensures Valid() && (Abs(), cb.w, consumed) == Tail(cb.env, old(Abs()), old(cb.w), tail)
    {
      if !active || fatal {
        return 0;
      }
      if tail >= sq.depth {
        Fail();
        return -2;
      }
      sq := sq.(tail := tail);
      consumed := PollRing(256);
    }

    method RingAck(head: u32) returns (code: int)
      requires Valid()
      modifies this, cb
      ensures Valid() && (Abs(), cb.w, code) == Ack(old(Abs()), old(cb.w), head)
    {
      if !active || fatal {
        return 0;
      }
      if head >= cq.depth {
        Fail();
        return -2;
      }
      var count := (head as int + cq.depth as int - cq.head as int) % cq.depth as int;
      if count > cq.pending {
        Fail();
        return -2;
      }
      cq := cq.(head := head, pending := cq.pending - count);
      cb.Pending(cq.pending != 0);
      code := 0;
    }
  }

  /** An engine for a valid policy and paired cache callbacks, and otherwise none. */
  method Init(cb: Callbacks, p: Policy) returns (e: Engine?)
    ensures (e != null) == Startable(cb.env, p)
    ensures e != null ==> fresh(e) && e.Valid() && e.cb == cb && e.Abs() == Started(p)
    ensures cb.w == old(cb.w)
  {
    if Startable(cb.env, p) {
      e := new Engine(cb, p);
    } else {
      e := null;
    }
  }
}
