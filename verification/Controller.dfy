/** The controller as the program updates it: one object whose methods are
    proved against the functions of Control. */
module Controller {
  import opened Words
  import opened Control

  class NvmeControl {
    const env: Env
    var owner: Owner
    var bar: u64
    var asq: u64
    var acq: u64
    var cc: u32
    var csts: u32
    var aqa: u32
    var mask: u32
    var command: u16
    var probeLow: bool
    var probeHigh: bool
    var pending: bool

    ghost function Abs(): Registers
      reads this
    {
      Registers(bar, asq, acq, cc, csts, aqa, mask, command, probeLow, probeHigh, pending)
    }

    constructor (bar: u64, env: Env)
      ensures this.env == env
      ensures (Abs(), owner) == AfterReset(env, Powered(bar), Owner(None, None, 0))
    {
      this.env, this.bar, owner := env, bar, Owner(None, None, 0);
      command, probeLow, probeHigh := 0, false, false;
      asq, acq, cc, csts, aqa, mask, pending := 0, 0, 0, 0, 0, 0, false;
      new;
      ResetAll();
    }

    method Irq(level: bool)
      modifies this`owner
      ensures owner == if env.hasIrq then old(owner).(irq := Some(level)) else old(owner)
    {
      if env.hasIrq {
        owner := owner.(irq := Some(level));
      }
    }

    method UpdateIrq()
      modifies this`owner
      ensures owner == IrqUpdated(env, Abs(), old(owner))
    {
      Irq(pending && mask % 2 == 0 && command / 0x400 % 2 == 0);
    }

    method ResetQueues()
      modifies this`pending, this`owner
      ensures !pending && owner == QueuesReset(old(owner))
    {
      pending := false;
      owner := owner.(queues := None);
    }

    method ResetAll()
      modifies this
      ensures (Abs(), owner) == AfterReset(env, old(Abs()), old(owner))
    {
      cc, csts, aqa, mask := 0, 0, 0, 0;
      asq, acq := 0, 0;
      ResetQueues();
      UpdateIrq();
    }

    method Pend(pending: bool)
      modifies this`pending, this`owner
      ensures (Abs(), owner) == AfterPending(env, old(Abs()), old(owner), pending)
    {
      this.pending := pending;
      UpdateIrq();
    }

    method Fail()
      modifies this`csts, this`owner
      ensures (Abs(), owner) == Failed(env, old(Abs()), old(owner))
    {
      csts := WithFatal(csts);
      Irq(false);
    }

    /** A callback that may fail. */
    method Call() returns (ok: bool)
      modifies this`owner
      ensures ok == (old(owner).calls !in env.failing) && owner == old(owner).(calls := old(owner).calls + 1)
    {
      ok := owner.calls !in env.failing;
      owner := owner.(calls := owner.calls + 1);
    }

    method Enable(v: u64) returns (done: bool)
      modifies this`csts, this`owner
      ensures (done, Abs(), owner) == Enabling(env, old(Abs()), old(owner), v)
    {
      hide QueueValid, WithFatal;
      ghost var r := Abs();
      var sq, cq := SqDepth(aqa), CqDepth(aqa);
      if v / 0x80 % 16 != 0 || v / 0x10 % 8 != 0 || v / 0x1_0000 % 16 != 6 || v / 0x10_0000 % 16 != 4
         || !QueueValid(env, asq, sq, 64) || !QueueValid(env, acq, cq, 16) || !env.canSetUp {
        Fail();
        return false;
      }
      var ok := Call();
      if !ok {
        Fail();
        return false;
      }
      owner := owner.(queues := Some(Queues(asq, sq, acq, cq)));
      csts := 1;
      done := true;
    }

    method ShutDown(asked: bool)
      modifies this`csts, this`owner
      ensures (Abs(), owner) == ShuttingDown(env, old(Abs()), old(owner), asked)
    {
      hide WithFatal;
      if asked && csts / 2 % 2 == 0 && Shutdown(csts) != 2 {
        csts := WithShutdown(csts, 1);
        if !env.canFlush {
          Fail();
          return;
        }
        var ok := Call();
        if !ok {
          Fail();
          return;
        }
        csts := WithShutdown(csts, 2);
      }
    }

    method WriteConfig(v: u64)
      modifies this
      ensures (Abs(), owner) == ConfigWritten(env, old(Abs()), old(owner), v)
    {
      hide Enabling, ShuttingDown, Interrupting;
      var before := cc;
      cc := Low32(v);
      if v % 2 == 0 {
        ResetQueues();
        csts := 0;
        UpdateIrq();
      } else if before % 2 == 0 {
        var done := Enable(v);
        if !done {
          return;
        }
      }
      ShutDown(v / 0x4000 % 4 != 0);
    }

    method WriteRegister(o: u32, w: nat, value: u64) returns (a: Access)
      modifies this
      ensures (a, Abs(), owner) == RegisterWritten(env, old(Abs()), old(owner), o, w, value)
    {
      hide ConfigWritten, Interrupting, Or32, AndNot, BaseWritten, Truncated;
      if !FitsIn(o, w, 0x4000) || (w != 32 && w != 64) || o % 4 != 0 {
        return Invalid;
      }
      if o >= 0x1000 {
        return NotHandled;
      }
      if w == 64 && o != 0x28 && o != 0x30 && value >= 0x1_0000_0000 {
        return Invalid;
      }
      if w == 64 && (o == 0x2c || o == 0x34) {
        return Invalid;
      }
      var v := Truncated(value, w);
      if o == 0xc {
        mask := Or32(mask, Low32(v));
        UpdateIrq();
      } else if o == 0x10 {
        mask := AndNot(mask, Low32(v));
        UpdateIrq();
      } else if o == 0x14 {
        WriteConfig(v);
      } else if o == 0x24 && cc % 2 == 0 {
        aqa := Low32(v);
      } else if (o == 0x28 || o == 0x2c || o == 0x30 || o == 0x34) && cc % 2 == 0 {
        if o < 0x30 {
          asq := BaseWritten(asq, o, w, v);
        } else {
          acq := BaseWritten(acq, o, w, v);
        }
      }
      a := Handled;
    }

    /** The command bytes a write covers, one by one, then the bits that stick. */
    method WritePci(o: u32, w: nat, value: u64) returns (a: Access)
      modifies this
      ensures (a, Abs(), owner) == PciWritten(env, old(Abs()), old(owner), o, w, value)
    {
      hide Interrupting, Truncated, ByteOf;
      if !FitsIn(o, w, 4096) {
        return Invalid;
      }
      var v := Truncated(value, w);
      if o <= 4 && 4 - o < w / 8 {
        var low, high := command % 0x100, command / 0x100;
        var i := 0;
        while i < w / 8
          invariant 0 <= i <= w / 8
          invariant low == if 4 - o < i then ByteOf(v, 4 - o) else command % 0x100
          invariant high == if 5 - o < i then ByteOf(v, 5 - o) else command / 0x100
        {
          if o + i == 4 {
            low := ByteOf(v, i);
          } else if o + i == 5 {
            high := ByteOf(v, i);
          }
          i := i + 1;
        }
        command := low % 8 + 0x100 * (4 * (high / 4 % 2));
        UpdateIrq();
      } else if w == 32 && (o == 0x10 || o == 0x14) {
        if o == 0x10 {
          probeLow := v == 0xffff_ffff;
        } else {
          probeHigh := v == 0xffff_ffff;
        }
      }
      a := Handled;
    }

    method ReadPci(o: u32, w: nat) returns (a: Access, v: Option<nat>)
      ensures (a, v) == PciRead(Abs(), o, w)
    {
      hide PciByte;
      if !WidthOk(w) {
        return Invalid, None;
      }
      if !FitsIn(o, w, 4096) {
        return Invalid, Some(Truncated(U64_MAX, w));
      }
      ghost var b := PciBytes(Abs(), o, w / 8);
      var r := Registers(bar, asq, acq, cc, csts, aqa, mask, command, probeLow, probeHigh, pending);
      var x, scale, i := 0, 1, 0;
      while i < w / 8
        invariant 0 <= i <= w / 8 && x == Assembled(b[..i]) && scale == Scale(i)
      {
        AssembledSnoc(b, i);
        x := x + scale * PciByte(r, o + i) as int;
        scale := 0x100 * scale;
        i := i + 1;
      }
      assert b[..i] == b;
      return Handled, Some(x);
    }

    method ReadRegister(o: u32, w: nat) returns (a: Access, v: nat)
      ensures (a, v) == RegisterRead(Abs(), o, w)
    {
      hide RegisterByte;
      if !FitsIn(o, w, 0x4000) {
        return Invalid, 0;
      }
      ghost var b := RegisterBytes(Abs(), o, w / 8);
      var r := Registers(bar, asq, acq, cc, csts, aqa, mask, command, probeLow, probeHigh, pending);
      var x, scale, i := 0, 1, 0;
      while i < w / 8
        invariant 0 <= i <= w / 8 && x == Assembled(b[..i]) && scale == Scale(i)
      {
        AssembledSnoc(b, i);
        x := x + scale * RegisterByte(r, o + i) as int;
        scale := 0x100 * scale;
        i := i + 1;
      }
      assert b[..i] == b;
      return Handled, x;
    }
  }
}
