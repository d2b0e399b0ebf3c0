/** Exactly what each register and configuration-space access does: which are
    accepted, what a configuration write leads to, and what every read shows. */
module ControlAnswers {
  import opened Words
  import opened Control
  import opened ControlLaws
  import opened ControlRegisters

  // ----- accepted accesses -----

  /** The offsets below the doorbells that a write can change. */
  predicate Writable(o: u32) {
    o in {0xc, 0x10, 0x14, 0x24, 0x28, 0x2c, 0x30, 0x34}
  }

  /** A register write is refused when it is not an aligned dword or quadword
      inside the BAR, or a quadword that would store an upper half where there is
      none; from 1000h on it is the owner's; and what is not a register, or frozen
      by an enabled controller, is accepted and ignored. */
  lemma WriteAccess(env: Env, r: Registers, u: Owner, o: u32, w: nat, v: u64)
    ensures var (a, s, t) := RegisterWritten(env, r, u, o, w, v);
      var shaped := (w == 32 || w == 64) && o % 4 == 0 && o as int + w / 8 <= 0x4000;
      var whole := w == 64 ==> (o in {0x28, 0x30} || v < 0x1_0000_0000) && o !in {0x2c, 0x34};
      && (a == Invalid <==> !shaped || (o < 0x1000 && !whole))
      && (a == NotHandled <==> shaped && o >= 0x1000)
      && (a != Handled || !Writable(o) || (o >= 0x24 && r.cc % 2 == 1) ==> s == r && t == u)
  {
    hide ConfigWritten, Or32, AndNot, BaseWritten, Truncated, Interrupting;
  }

  /** A byte, a word, a dword or a quadword inside the 4 KiB is accepted; what a
      write changes is the command register when it covers its first byte, and the
      two sizing probes; after it the owner knows the interrupt level. */
  lemma PciAccess(env: Env, r: Registers, u: Owner, o: u32, w: nat, v: u64)
    ensures var (a, s, t) := PciWritten(env, r, u, o, w, v);
      && (a == Handled <==> w in {8, 16, 32, 64} && o as int + w / 8 <= 4096) && a != NotHandled
      && s == r.(command := s.command, probeLow := s.probeLow, probeHigh := s.probeHigh)
      && (a == Handled && o <= 4 < o as int + w / 8 && env.hasIrq ==> t == u.(irq := Some(Interrupting(s))))
      && (a != Handled || !(o <= 4 < o as int + w / 8) || !env.hasIrq ==> t == u)
      && s.probeLow == (if a == Handled && w == 32 && o == 0x10 then v % 0x1_0000_0000 == 0xffff_ffff else r.probeLow)
      && s.probeHigh == (if a == Handled && w == 32 && o == 0x14 then v % 0x1_0000_0000 == 0xffff_ffff else r.probeHigh)
  {
    hide CommandWritten, Interrupting;
  }

  // ----- configuration writes (section 3.1.5 of NVM Express 1.3) -----

  datatype Rest = Rest(csts: u32, calls: nat, dropped: bool)

  /** What a request to shut down makes of a status, if there is one: in 0 and 1 the owner is
      asked to flush; then bit 3 says done, or bits 1 and 2 that it failed midway. */
  function Flushed(env: Env, csts: u32, asked: bool, calls: nat): Rest
    requires csts <= 10
  {
    if !asked || csts > 1 then Rest(csts, calls, false)
    else if !env.canFlush then Rest(csts + 6, calls, true)
    else if calls in env.failing then Rest(csts + 6, calls + 1, true)
    else Rest(csts + 8, calls + 1, false)
  }

  lemma ShutdownOutcome(env: Env, r: Registers, u: Owner, asked: bool)
    requires AtRest(r.csts)
    ensures var (s, t) := ShuttingDown(env, r, u, asked);
      var f := Flushed(env, r.csts, asked, u.calls);
      && s == r.(csts := f.csts)
      && t == u.(calls := f.calls, irq := if f.dropped && env.hasIrq then Some(false) else u.irq)
  {
    hide WithFatal, WithShutdown, FatalStatus;
    if r.csts > 1 {
      AlreadyDown(env, r, u, asked);
    } else if asked {
      ShutdownStatus(r.csts);
      FlushOutcome(env, r, u);
    }
  }

  lemma AlreadyDown(env: Env, r: Registers, u: Owner, asked: bool)
    requires AtRest(r.csts) && r.csts > 1
    ensures ShuttingDown(env, r, u, asked) == (r, u)
  {
    assert FatalStatus(r) || Shutdown(r.csts) == 2;
  }

  lemma FlushOutcome(env: Env, r: Registers, u: Owner)
    requires r.csts <= 1 && WithShutdown(r.csts, 1) == r.csts + 4 && WithFatal(r.csts + 4) == r.csts + 6
    requires WithShutdown(r.csts + 4, 2) == r.csts + 8
    ensures var (s, t) := ShuttingDown(env, r, u, true);
      var f := Flushed(env, r.csts, true, u.calls);
      && s == r.(csts := f.csts)
      && t == u.(calls := f.calls, irq := if f.dropped && env.hasIrq then Some(false) else u.irq)
  {
    assert !FatalStatus(r) && Shutdown(r.csts) != 2;
    hide WithFatal, WithShutdown, Shutdown, FatalStatus;
  }

  /** `depth` entries of `entry` bytes each at `base` can be an admin queue. */
  predicate Holds(env: Env, base: u64, depth: nat, entry: nat) {
    && 2 <= depth <= 256 && base > 0 && base % 4096 == 0 && base as int + depth * entry <= U64_MAX
    && env.ranges.Some? && (base, depth * entry) in env.ranges.value
  }

  /** The command set, page size and entry sizes asked for, and both queues. */
  predicate Supported(env: Env, r: Registers, v: u32) {
    && v / 0x10 % 8 == 0 && v / 0x80 % 16 == 0 && v / 0x1_0000 % 16 == 6 && v / 0x10_0000 % 16 == 4
    && Holds(env, r.asq, r.aqa % 0x1000 + 1, 64) && Holds(env, r.acq, r.aqa / 0x1_0000 % 0x1000 + 1, 16)
    && env.canSetUp
  }

  lemma SupportedIsAcceptable(env: Env, r: Registers, v: u32)
    ensures Supported(env, r, v) <==> Acceptable(env, r, v)
  {
    HoldsIsValid(env, r.asq, SqDepth(r.aqa), 64);
    HoldsIsValid(env, r.acq, CqDepth(r.aqa), 16);
    hide Holds, QueueValid;
  }

  lemma HoldsIsValid(env: Env, base: u64, depth: u16, entry: u32)
    requires entry == 16 || entry == 64
    ensures Holds(env, base, depth, entry) <==> QueueValid(env, base, depth, entry)
  {
    if 2 <= depth <= 256 {
      var n: u32 := depth as int * entry as int;
      assert n == depth as int * entry as int;
    }
  }

  /** A configuration write that clears EN: nothing is pending, the owner drops
      its queues and the line, and the status is 0 or what a shutdown makes of 0. */
  lemma DisableOutcome(env: Env, r: Registers, u: Owner, w: nat, v: u32)
    requires (w == 32 || w == 64) && v % 2 == 0
    ensures var (a, s, t) := RegisterWritten(env, r, u, 0x14, w, v);
      var f := Flushed(env, 0, v / 0x4000 % 4 != 0, u.calls);
      && a == Handled && s == r.(cc := v, csts := f.csts, pending := false)
      && t == Owner(if env.hasIrq then Some(false) else u.irq, None, f.calls)
  {
    ConfigWrite(env, r, u, w, v);
    hide RegisterWritten, ShuttingDown, Low32, Flushed;
    var r2 := r.(cc := v, pending := false, csts := 0);
    ShutdownOutcome(env, r2, IrqUpdated(env, r2, QueuesReset(u)), v / 0x4000 % 4 != 0);
  }

  lemma ConfigWrite(env: Env, r: Registers, u: Owner, w: nat, v: u32)
    requires w == 32 || w == 64
    ensures Low32(v) == v
    ensures RegisterWritten(env, r, u, 0x14, w, v)
         == (Handled, ConfigWritten(env, r, u, v).0, ConfigWritten(env, r, u, v).1)
  {
    assert Truncated(v, w) == v;
    hide ConfigWritten, Truncated;
  }

  /** A configuration write that sets EN: exactly when what is asked for is
      supported and the owner's setup works, the controller becomes ready with its
      queues set up; otherwise it is fatal, without queues, the line dropped and any
      request to shut down ignored. */
  lemma EnableOutcome(env: Env, r: Registers, u: Owner, w: nat, v: u32)
    requires (w == 32 || w == 64) && v % 2 == 1 && r.cc % 2 == 0 && Lawful(env, r, u)
    ensures var (a, s, t) := RegisterWritten(env, r, u, 0x14, w, v);
      var tried := Supported(env, r, v);
      a == Handled &&
      if tried && u.calls !in env.failing then
        var f := Flushed(env, 1, v / 0x4000 % 4 != 0, u.calls + 1);
        && s == r.(cc := v, csts := f.csts)
        && t == Owner(if f.dropped && env.hasIrq then Some(false) else u.irq,
                      Some(Queues(r.asq, r.aqa % 0x1000 + 1, r.acq, r.aqa / 0x1_0000 % 0x1000 + 1)), f.calls)
      else
        && s == r.(cc := v, csts := if r.csts in {0, 8} then r.csts + 2 else r.csts)
        && t == Owner(if env.hasIrq then Some(false) else u.irq, None, u.calls + if tried then 1 else 0)
  {
    ConfigWrite(env, r, u, w, v);
    var r1 := r.(cc := v);
    SupportedIsAcceptable(env, r, v);
    assert Acceptable(env, r1, v) == Acceptable(env, r, v);
    FatalFrom(r.csts);
    hide RegisterWritten, ShuttingDown, Low32, Flushed, Supported, Acceptable, WithFatal;
    ShutdownOutcome(env, r1.(csts := 1), u.(calls := u.calls + 1, queues := Some(Wanted(r1))), v / 0x4000 % 4 != 0);
  }

  lemma FatalFrom(csts: u32)
    requires AtRest(csts) && csts % 2 == 0
    ensures WithFatal(csts) == if csts in {0, 8} then csts + 2 else csts
  {
  }

  /** A configuration write to an enabled controller that leaves EN set only
      stores the register and may shut down. */
  lemma StayOutcome(env: Env, r: Registers, u: Owner, w: nat, v: u32)
    requires (w == 32 || w == 64) && v % 2 == 1 && r.cc % 2 == 1 && Lawful(env, r, u)
    ensures var (a, s, t) := RegisterWritten(env, r, u, 0x14, w, v);
      var f := Flushed(env, r.csts, v / 0x4000 % 4 != 0, u.calls);
      && a == Handled && s == r.(cc := v, csts := f.csts)
      && t == u.(calls := f.calls, irq := if f.dropped && env.hasIrq then Some(false) else u.irq)
  {
    ConfigWrite(env, r, u, w, v);
    hide RegisterWritten, ShuttingDown, Low32, Flushed, Lawful;
    assert AtRest(r.csts) by {
      LawfulRests(env, r, u);
    }
    ShutdownOutcome(env, r.(cc := v), u, v / 0x4000 % 4 != 0);
  }

  lemma LawfulRests(env: Env, r: Registers, u: Owner)
    requires Lawful(env, r, u)
    ensures AtRest(r.csts)
  {
  }

  /** A reset: every register zero, the owner without queues and the line
      dropped; the BAR, the command register and the sizing probes stay. */
  lemma ResetOutcome(env: Env, r: Registers, u: Owner)
    ensures AfterReset(env, r, u)
         == (Registers(r.bar, 0, 0, 0, 0, 0, 0, r.command, r.probeLow, r.probeHigh, false),
             Owner(if env.hasIrq then Some(false) else u.irq, None, u.calls))
  {
  }

  /** What the owner reports as pending is shown and decides the line at once,
      with the mask and the INTx disable bit. */
  lemma PendOutcome(env: Env, r: Registers, u: Owner, pending: bool)
    ensures AfterPending(env, r, u, pending)
         == (r.(pending := pending),
             if env.hasIrq then u.(irq := Some(pending && r.mask % 2 == 0 && r.command / 0x400 % 2 == 0)) else u)
  {
  }

  // ----- reads -----

  lemma {:induction false} BytesOf(b: seq<u8>, v: nat)
    requires v < Scale(|b|) && forall i :: 0 <= i < |b| ==> b[i] == Shr8(v, i) % 0x100
    ensures Assembled(b) == v
  {
    forall i | 0 <= i < |b| ensures ToLe(v, |b|)[i] == b[i] {
      ToLeAt(v, |b|, i);
    }
    assert b == ToLe(v, |b|);
    BytesAssemble(v, |b|);
  }

  /** A dword of configuration space. */
  predicate IsPciField(r: Registers, o: u32, v: u32) {
    || (o == 0 && v == 0x00101234) || (o == 8 && v == 0x01080201) || (o == 0x2c && v == 0x00101234)
    || (o == 0x10 && v == if r.probeLow then 0xffffc004 else WithBit2(Low32(r.bar)))
    || (o == 0x14 && v == if r.probeHigh then 0xffffffff else r.bar / 0x1_0000_0000)
  }

  lemma PciFieldReads(r: Registers, o: u32, v: u32)
    requires IsPciField(r, o, v)
    ensures PciRead(r, o, 32) == (Handled, Some(v))
  {
    ScaleOf8();
    hide Assembled, Scale, Shr8, WithBit2;
    var b := PciBytes(r, o, 4);
    forall i | 0 <= i < 4 ensures b[i] == Shr8(v, i) % 0x100 {
      assert b[i] == PciByte(r, o as int + i);
    }
    BytesOf(b, v);
  }

  /** Configuration space shows the device, its class, its BAR (or its size while
      probed), the command register, the pending bit and interrupt pin A. */
  lemma PciReadsAsFields(r: Registers)
    ensures PciRead(r, 0, 32) == (Handled, Some(0x00101234)) && PciRead(r, 8, 32) == (Handled, Some(0x01080201))
    ensures PciRead(r, 4, 16) == (Handled, Some(r.command as nat))
    ensures PciRead(r, 6, 16) == (Handled, Some(if r.pending then 8 else 0))
    ensures PciRead(r, 0x2c, 32) == (Handled, Some(0x00101234)) && PciRead(r, 0x3d, 8) == (Handled, Some(1))
    ensures PciRead(r, 0x10, 32)
         == (Handled, Some(if r.probeLow then 0xffffc004 else r.bar % 0x1_0000_0000
                                                              + if r.bar / 4 % 2 == 1 then 0 else 4))
    ensures PciRead(r, 0x14, 32) == (Handled, Some(if r.probeHigh then 0xffff_ffff else r.bar / 0x1_0000_0000))
  {
    LowBar(r.bar);
    PciFieldReads(r, 0, 0x00101234);
    PciFieldReads(r, 8, 0x01080201);
    PciFieldReads(r, 0x2c, 0x00101234);
    PciFieldReads(r, 0x10, if r.probeLow then 0xffffc004 else WithBit2(Low32(r.bar)));
    PciFieldReads(r, 0x14, if r.probeHigh then 0xffffffff else r.bar / 0x1_0000_0000);
    PciShortReads(r);
    hide PciRead;
  }

  lemma LowBar(bar: u64)
    ensures Low32(bar) / 4 % 2 == bar / 4 % 2
  {
  }

  lemma PciShortReads(r: Registers)
    ensures PciRead(r, 4, 16) == (Handled, Some(r.command as nat))
    ensures PciRead(r, 6, 16) == (Handled, Some(if r.pending then 8 else 0))
    ensures PciRead(r, 0x3d, 8) == (Handled, Some(1))
  {
    assert Scale(2) == 0x1_0000 && Scale(1) == 0x100;
    hide Assembled, Scale, Shr8;
    var c, p, pin := PciBytes(r, 4, 2), PciBytes(r, 6, 2), PciBytes(r, 0x3d, 1);
    var status := if r.pending then 8 else 0;
    forall i | 0 <= i < 2 ensures c[i] == Shr8(r.command, i) % 0x100 && p[i] == Shr8(status, i) % 0x100 {
      assert c[i] == PciByte(r, 4 + i) && p[i] == PciByte(r, 6 + i);
    }
    BytesOf(c, r.command);
    BytesOf(p, status);
    assert Shr8(1, 0) == 1;
    assert pin[0] == PciByte(r, 0x3d);
    BytesOf(pin, 1);
  }

  /** Everything else in configuration space is zero. */
  predicate UnusedPci(o: nat) {
    12 <= o < 0x10 || 0x18 <= o < 0x2c || (0x30 <= o < 4096 && o != 0x3d)
  }

  /** CAP: 256 entries, contiguous queues, 10 s, the NVM command set; VS: 1.3. */
  lemma CapabilitiesRead(r: Registers)
    ensures RegisterRead(r, 0, 64) == (Handled, 0x20_1401_00ff) && RegisterRead(r, 8, 32) == (Handled, 0x10300)
  {
    ScaleOf8();
    assert CAPABILITIES == 0x20_1401_00ff;
    hide Assembled, Scale, Shr8;
    var c, v := RegisterBytes(r, 0, 8), RegisterBytes(r, 8, 4);
    forall i | 0 <= i < 8 ensures c[i] == Shr8(CAPABILITIES, i) % 0x100 {
      assert c[i] == RegisterByte(r, i);
    }
    forall i | 0 <= i < 4 ensures v[i] == Shr8(0x10300, i) % 0x100 {
      assert v[i] == RegisterByte(r, 8 + i);
    }
    BytesOf(c, CAPABILITIES);
    BytesOf(v, 0x10300);
  }

  /** Registers that are not there. */
  predicate UnusedRegister(o: nat) {
    0x18 <= o < 0x1c || 0x20 <= o < 0x24 || 0x38 <= o < 0x4000
  }

  /** Where there is nothing, a byte read gives zero; a read that does not fit
      gives all ones in configuration space and nothing from the registers. */
  lemma NothingElseReads(r: Registers, o: u32, w: nat)
    ensures UnusedPci(o) ==> PciRead(r, o, 8) == (Handled, Some(0))
    ensures UnusedRegister(o) ==> RegisterRead(r, o, 8) == (Handled, 0)
    ensures w !in {8, 16, 32, 64} ==> PciRead(r, o, w) == (Invalid, None)
    ensures w in {8, 16, 32, 64} && o as int + w / 8 > 4096 ==>
      PciRead(r, o, w) == (Invalid, Some(if w == 8 then 0xff else if w == 16 then 0xffff
                                         else if w == 32 then 0xffff_ffff else 0xffff_ffff_ffff_ffff))
    ensures w !in {8, 16, 32, 64} || o as int + w / 8 > 0x4000 ==> RegisterRead(r, o, w) == (Invalid, 0)
  {
    if UnusedPci(o) {
      assert PciBytes(r, o, 1)[0] == PciByte(r, o as int + 0) == 0;
      OneByte(PciBytes(r, o, 1));
    }
    if UnusedRegister(o) {
      assert RegisterBytes(r, o, 1)[0] == RegisterByte(r, o as int + 0) == 0;
      OneByte(RegisterBytes(r, o, 1));
    }
  }

  lemma OneByte(b: seq<u8>)
    requires |b| == 1
    ensures Assembled(b) == b[0] as int
  {
    assert b[1..] == [];
  }
}
