/** What every run of register writes, PCI writes, resets and pending updates keeps. */
module ControlLaws {
  import opened Words
  import opened Control

  datatype Move =
    | WriteRegister(o: u32, w: nat, v: u64)
    | WritePci(o: u32, w: nat, v: u64)
    | SetPending(pending: bool)
    | Reset

  function Make(env: Env, r: Registers, u: Owner, m: Move): (Registers, Owner) {
    match m
    case WriteRegister(o, w, v) =>
      var (_, r1, u1) := RegisterWritten(env, r, u, o, w, v);
      (r1, u1)
    case WritePci(o, w, v) =>
      var (_, r1, u1) := PciWritten(env, r, u, o, w, v);
      (r1, u1)
    case SetPending(pending) => AfterPending(env, r, u, pending)
    case Reset => AfterReset(env, r, u)
  }

  /** Registers and owner after the first k moves from power-up. */
  function Reached(env: Env, bar: u64, moves: seq<Move>, k: nat): (Registers, Owner)
    requires k <= |moves|
  {
    if k == 0 then AfterReset(env, Powered(bar), Owner(None, None, 0))
    else
      var (r, u) := Reached(env, bar, moves, k - 1);
      Make(env, r, u, moves[k - 1])
  }

  /** The values CSTS has at rest. */
  predicate AtRest(csts: u32) {
    csts == 0 || csts == 1 || csts == 2 || csts == 6 || csts == 7 || csts == 8 || csts == 9 || csts == 10
  }

  /** RDY stands for an enabled controller whose owner has queues set up, exactly
      those of the current queue registers; without RDY the owner has none. */
  predicate ReadyIsEarned(r: Registers, u: Owner) {
    && (Ready(r) ==> Enabled(r))
    && u.queues == if Ready(r) then Some(Wanted(r)) else None
  }

  /** The owner was last told the interrupt condition, or false after a fatal stop. */
  predicate LineIsTrue(env: Env, r: Registers, u: Owner) {
    env.hasIrq ==> u.irq == Some(Interrupting(r)) || (u.irq == Some(false) && FatalStatus(r) && Enabled(r))
  }

  predicate Lawful(env: Env, r: Registers, u: Owner) {
    AtRest(r.csts) && ReadyIsEarned(r, u) && LineIsTrue(env, r, u)
    && (!Enabled(r) ==> r.csts % 2 == 0)
  }

  /** The status word on its way through a shutdown: in progress, then complete or fatal. */
  lemma ShutdownStatus(csts: u32)
    requires AtRest(csts) && csts / 2 % 2 == 0 && Shutdown(csts) != 2
    ensures csts == 0 || csts == 1
    ensures WithShutdown(csts, 1) == csts + 4 && WithFatal(csts + 4) == csts + 6
    ensures WithShutdown(csts + 4, 2) == csts + 8
  {
  }

  lemma FatalAtRest(csts: u32)
    requires AtRest(csts) && csts % 2 == 0
    ensures AtRest(WithFatal(csts)) && WithFatal(csts) % 2 == 0 && WithFatal(csts) / 2 % 2 == 1
  {
  }

  lemma ShutdownKeepsLaw(env: Env, r: Registers, u: Owner, asked: bool)
    requires Lawful(env, r, u) && (!Enabled(r) ==> !Interrupting(r))
    ensures var (r1, u1) := ShuttingDown(env, r, u, asked); Lawful(env, r1, u1)
  {
    hide Interrupting, Shutdown, WithShutdown, WithFatal;
    if !FatalStatus(r) && Shutdown(r.csts) != 2 {
      ShutdownStatus(r.csts);
      SameLine(r, r.(csts := r.csts + 4));
      SameLine(r, r.(csts := r.csts + 6));
      SameLine(r, r.(csts := r.csts + 8));
    }
  }

  lemma SameLine(r: Registers, s: Registers)
    requires s == r.(csts := s.csts)
    ensures Interrupting(s) == Interrupting(r) && Wanted(s) == Wanted(r)
  {
  }

  lemma EnablingKeepsLaw(env: Env, r: Registers, u: Owner, v: u64)
    requires AtRest(r.csts) && r.csts % 2 == 0 && u.queues == None && Enabled(r)
    requires LineIsTrue(env, r.(cc := r.cc - r.cc % 2), u)
    ensures var (done, r1, u1) := Enabling(env, r, u, v);
      Lawful(env, r1, u1) && r1.cc == r.cc && r1.csts == (if done then 1 else WithFatal(r.csts))
  {
    hide Acceptable, Interrupting, WithFatal;
    FatalAtRest(r.csts);
    SameLine(r, r.(csts := 1));
    SameLine(r, r.(csts := WithFatal(r.csts)));
    ConfigIsNotTheLine(r, r.cc - r.cc % 2);
  }

  lemma ConfigIsNotTheLine(r: Registers, cc: u32)
    ensures Interrupting(r.(cc := cc)) == Interrupting(r) && Wanted(r.(cc := cc)) == Wanted(r)
  {
  }

  lemma ConfigKeepsLaw(env: Env, r: Registers, u: Owner, v: u64)
    requires Lawful(env, r, u)
    ensures var (r1, u1) := ConfigWritten(env, r, u, v); Lawful(env, r1, u1)
  {
    hide Enabling, ShuttingDown, Interrupting, Wanted, Lawful;
    var r1, asked := r.(cc := Low32(v)), v / 0x4000 % 4 != 0;
    LowBit(v);
    if v % 2 == 0 {
      var r2 := r1.(pending := false, csts := 0);
      NotPending(r2);
      DisabledLawful(env, r2, IrqUpdated(env, r2, QueuesReset(u)));
      ShutdownKeepsLaw(env, r2, IrqUpdated(env, r2, QueuesReset(u)), asked);
    } else if !Enabled(r) {
      BeforeEnabling(env, r, u, r1.cc);
      var (done, r2, u2) := Enabling(env, r1, u, v);
      EnablingKeepsLaw(env, r1, u, v);
      LawfulEnabled(r1, r2);
      ShutdownKeepsLaw(env, r2, u2, asked);
    } else {
      StillLawful(env, r, u, r1.cc);
      ShutdownKeepsLaw(env, r1, u, asked);
    }
  }

  lemma LowBit(v: u64)
    ensures Low32(v) % 2 == v % 2
  {
  }

  lemma DisabledLawful(env: Env, r: Registers, u: Owner)
    requires r.csts == 0 && u.queues == None && (env.hasIrq ==> u.irq == Some(Interrupting(r)))
    ensures Lawful(env, r, u)
  {
    hide Interrupting, Wanted;
  }

  lemma BeforeEnabling(env: Env, r: Registers, u: Owner, cc: u32)
    requires Lawful(env, r, u) && !Enabled(r) && cc % 2 == 1
    ensures var s := r.(cc := cc);
      && AtRest(s.csts) && s.csts % 2 == 0 && u.queues == None && Enabled(s)
      && LineIsTrue(env, s.(cc := cc - cc % 2), u)
  {
    ConfigIsNotTheLine(r, cc - cc % 2);
    hide Interrupting, Wanted;
  }

  lemma LawfulEnabled(r: Registers, s: Registers)
    requires Enabled(r) && s.cc == r.cc
    ensures Enabled(s)
  {
  }

  lemma StillLawful(env: Env, r: Registers, u: Owner, cc: u32)
    requires Lawful(env, r, u) && Enabled(r) && cc % 2 == 1
    ensures Lawful(env, r.(cc := cc), u)
  {
    ConfigIsNotTheLine(r, cc);
    hide Interrupting, Wanted;
  }

  lemma NotPending(r: Registers)
    ensures !r.pending ==> !Interrupting(r)
  {
  }

  lemma MaskKeepsLaw(env: Env, r: Registers, u: Owner, mask: u32)
    requires Lawful(env, r, u)
    ensures var r1 := r.(mask := mask); Lawful(env, r1, IrqUpdated(env, r1, u))
  {
    hide Interrupting;
  }

  lemma QueueWriteKeepsLaw(env: Env, r: Registers, u: Owner, aqa: u32, asq: u64, acq: u64)
    requires Lawful(env, r, u) && !Enabled(r)
    ensures Lawful(env, r.(aqa := aqa, asq := asq, acq := acq), u)
  {
    hide Wanted;
  }

  lemma WriteKeepsLaw(env: Env, r: Registers, u: Owner, o: u32, w: nat, v: u64)
    requires Lawful(env, r, u)
    ensures var (_, r1, u1) := RegisterWritten(env, r, u, o, w, v); Lawful(env, r1, u1)
  {
    hide ConfigWritten, Or32, AndNot, BaseWritten, Lawful;
    var x := Truncated(v, w);
    ConfigKeepsLaw(env, r, u, x);
    MaskKeepsLaw(env, r, u, Or32(r.mask, Low32(x)));
    MaskKeepsLaw(env, r, u, AndNot(r.mask, Low32(x)));
    if !Enabled(r) {
      QueueWriteKeepsLaw(env, r, u, Low32(x), r.asq, r.acq);
      QueueWriteKeepsLaw(env, r, u, r.aqa, BaseWritten(r.asq, o, w, x), r.acq);
      QueueWriteKeepsLaw(env, r, u, r.aqa, r.asq, BaseWritten(r.acq, o, w, x));
    }
  }

  lemma CommandKeepsLaw(env: Env, r: Registers, u: Owner, command: u16)
    requires Lawful(env, r, u)
    ensures var r1 := r.(command := command); Lawful(env, r1, IrqUpdated(env, r1, u))
  {
    hide Interrupting;
  }

  lemma PciKeepsLaw(env: Env, r: Registers, u: Owner, o: u32, w: nat, v: u64)
    requires Lawful(env, r, u)
    ensures var (_, r1, u1) := PciWritten(env, r, u, o, w, v); Lawful(env, r1, u1)
  {
    hide CommandWritten;
    if o <= 4 {
      CommandKeepsLaw(env, r, u, CommandWritten(r.command, o, w, Truncated(v, w)));
    }
  }

  lemma MoveKeepsLaw(env: Env, r: Registers, u: Owner, m: Move)
    requires Lawful(env, r, u)
    ensures Lawful(env, Make(env, r, u, m).0, Make(env, r, u, m).1)
  {
    hide RegisterWritten, PciWritten;
    match m
    case WriteRegister(o, w, v) => WriteKeepsLaw(env, r, u, o, w, v);
    case WritePci(o, w, v) => PciKeepsLaw(env, r, u, o, w, v);
    case _ =>
  }

  lemma {:induction false} EveryStateLawful(env: Env, bar: u64, moves: seq<Move>, k: nat)
    requires k <= |moves|
    ensures var (r, u) := Reached(env, bar, moves, k); Lawful(env, r, u)
  {
    hide Make;
    if k > 0 {
      EveryStateLawful(env, bar, moves, k - 1);
      var (r, u) := Reached(env, bar, moves, k - 1);
      MoveKeepsLaw(env, r, u, moves[k - 1]);
    }
  }

  /** Ready means the controller is enabled and the owner's queues are exactly
      those of the current ASQ, ACQ and AQA, and while it is not ready the owner has
      none; CSTS at rest has one of eight values. */
  lemma ReadyMeansQueuesSetUp(env: Env, bar: u64, moves: seq<Move>, k: nat)
    requires k <= |moves|
    ensures var (r, u) := Reached(env, bar, moves, k);
      && (r.csts % 2 == 1 ==> r.cc % 2 == 1)
      && u.queues == (if r.csts % 2 == 1 then
                        Some(Queues(r.asq, r.aqa % 0x1000 + 1, r.acq, r.aqa / 0x1_0000 % 0x1000 + 1))
                      else None)
      && r.csts in {0, 1, 2, 6, 7, 8, 9, 10}
  {
    hide Make;
    EveryStateLawful(env, bar, moves, k);
  }

  /** The last level reported is the interrupt condition, except that it stays
      false after a fatal stop of an enabled controller; it is never true
      without the condition. */
  lemma InterruptLevel(env: Env, bar: u64, moves: seq<Move>, k: nat)
    requires k <= |moves| && env.hasIrq
    ensures var (r, u) := Reached(env, bar, moves, k);
      var wanted := r.pending && r.mask % 2 == 0 && r.command / 0x400 % 2 == 0;
      && u.irq.Some? && (u.irq.value ==> wanted)
      && (u.irq.value != wanted ==> r.csts / 2 % 2 == 1 && r.cc % 2 == 1)
  {
    hide Make;
    EveryStateLawful(env, bar, moves, k);
  }

  lemma ShutdownSpares(env: Env, r: Registers, u: Owner, asked: bool)
    ensures var (r1, _) := ShuttingDown(env, r, u, asked); r1.cc == r.cc && (FatalStatus(r) ==> r1 == r)
  {
  }

  lemma FatalSurvivesConfig(env: Env, r: Registers, u: Owner, v: u64)
    requires FatalStatus(r) && Enabled(r)
    ensures var (r1, _) := ConfigWritten(env, r, u, v);
      Enabled(r1) ==> r1.csts == r.csts && Wanted(r1) == Wanted(r)
  {
    hide Enabling, ShuttingDown, Low32;
    LowBit(v);
    var r1, asked := r.(cc := Low32(v)), v / 0x4000 % 4 != 0;
    var r2 := r1.(pending := false, csts := 0);
    ShutdownSpares(env, r2, IrqUpdated(env, r2, QueuesReset(u)), asked);
    ShutdownSpares(env, r1, u, asked);
  }

  /** A fatal stop lasts while the controller stays enabled: only clearing the
      enable bit or a reset ends it, and the queue registers are frozen meanwhile. */
  lemma FatalLasts(env: Env, r: Registers, u: Owner, m: Move)
    requires FatalStatus(r) && Enabled(r)
    ensures var (r1, _) := Make(env, r, u, m);
      Enabled(r1) ==> FatalStatus(r1) && r1.csts == r.csts && Wanted(r1) == Wanted(r)
  {
    hide Or32, AndNot, CommandWritten, BaseWritten, ConfigWritten, Interrupting;
    if m.WriteRegister? {
      FatalSurvivesConfig(env, r, u, Truncated(m.v, m.w));
    }
  }

  // ----- all eight values occur -----

  const PERMISSIVE := Env(Some({(0x1000, 128), (0x2000, 32)}), true, true, true, {})
  const NO_SETUP := Env(None, false, true, true, {})
  const NO_FLUSH := Env(Some({(0x1000, 128), (0x2000, 32)}), true, false, true, {})

  /** Queue registers, then the configuration writes cc[0], cc[1], .... */
  function Script(cc: seq<u32>): seq<Move> {
    [WriteRegister(0x24, 32, 0x10001), WriteRegister(0x28, 64, 0x1000), WriteRegister(0x30, 64, 0x2000)]
    + seq(|cc|, i requires 0 <= i < |cc| => WriteRegister(0x14, 32, cc[i]))
  }

  const AFTER_SCRIPT := Owner(Some(false), None, 0)

  lemma ScriptPrelude(env: Env, bar: u64, cc: seq<u32>)
    requires env.hasIrq
    ensures Reached(env, bar, Script(cc), 3)
         == (Powered(bar).(aqa := 0x10001, asq := 0x1000, acq := 0x2000), AFTER_SCRIPT)
  {
    var m := Script(cc);
    assert m[0] == WriteRegister(0x24, 32, 0x10001);
    assert m[1] == WriteRegister(0x28, 64, 0x1000) && m[2] == WriteRegister(0x30, 64, 0x2000);
    assert Reached(env, bar, m, 0) == (Powered(bar), AFTER_SCRIPT);
    assert Reached(env, bar, m, 1) == (Powered(bar).(aqa := 0x10001), AFTER_SCRIPT);
    assert Reached(env, bar, m, 2) == (Powered(bar).(aqa := 0x10001, asq := 0x1000), AFTER_SCRIPT);
  }

  lemma ScriptStep(env: Env, bar: u64, cc: seq<u32>, i: nat)
    requires i < |cc|
    ensures var (r, u) := Reached(env, bar, Script(cc), 3 + i);
      Reached(env, bar, Script(cc), 4 + i) == ConfigWritten(env, r, u, cc[i])
  {
    hide ConfigWritten;
    assert Script(cc)[3 + i] == WriteRegister(0x14, 32, cc[i]);
  }

  function AtScript(bar: u64): Registers {
    Powered(bar).(aqa := 0x10001, asq := 0x1000, acq := 0x2000)
  }

  lemma OneWrite(env: Env, bar: u64, c: u32)
    requires env.hasIrq
    ensures Reached(env, bar, Script([c]), 4) == ConfigWritten(env, AtScript(bar), AFTER_SCRIPT, c)
  {
    hide Reached, Script, ConfigWritten;
    ScriptPrelude(env, bar, [c]);
    ScriptStep(env, bar, [c], 0);
  }

  lemma TwoWrites(env: Env, bar: u64, c: u32, d: u32)
    requires env.hasIrq
    ensures var (r, u) := ConfigWritten(env, AtScript(bar), AFTER_SCRIPT, c);
      Reached(env, bar, Script([c, d]), 5) == ConfigWritten(env, r, u, d)
  {
    hide Reached, Script, ConfigWritten;
    ScriptPrelude(env, bar, [c, d]);
    ScriptStep(env, bar, [c, d], 0);
    ScriptStep(env, bar, [c, d], 1);
  }

  /** Enabling from the script's registers: set up, or fatal when the owner cannot. */
  lemma FirstEnable(env: Env, bar: u64)
    requires env in {PERMISSIVE, NO_FLUSH, NO_SETUP}
    ensures ConfigWritten(env, AtScript(bar), AFTER_SCRIPT, 0x460001).0
         == AtScript(bar).(cc := 0x460001, csts := if env.canSetUp then 1 else 2)
  {
    var r := AtScript(bar).(cc := 0x460001);
    assert Acceptable(env, r, 0x460001) <==> env.canSetUp;
    EnablingFrom(env, r, AFTER_SCRIPT);
    assert 0x460001 / 0x4000 % 4 == 0 && 0x460001 % 2 == 1 && Low32(0x460001) == 0x460001;
    hide Enabling, ShuttingDown, Acceptable, Interrupting, Low32;
    NothingAsked(env, Enabling(env, r, AFTER_SCRIPT, 0x460001).1, Enabling(env, r, AFTER_SCRIPT, 0x460001).2);
  }

  lemma EnablingFrom(env: Env, r: Registers, u: Owner)
    requires env.failing == {} && r.csts == 0 && (Acceptable(env, r, 0x460001) <==> env.canSetUp)
    ensures var (done, s, v) := Enabling(env, r, u, 0x460001);
      done == env.canSetUp && s == r.(csts := if env.canSetUp then 1 else 2)
  {
    hide Acceptable, Interrupting, Wanted;
  }

  lemma NothingAsked(env: Env, r: Registers, u: Owner)
    ensures ShuttingDown(env, r, u, false) == (r, u)
  {
  }

  /** Asking for a shutdown while disabled. */
  lemma FirstShutdown(env: Env, bar: u64)
    requires env in {PERMISSIVE, NO_FLUSH, NO_SETUP}
    ensures ConfigWritten(env, AtScript(bar), AFTER_SCRIPT, 0x4000).0
         == AtScript(bar).(cc := 0x4000, csts := if env.canFlush then 8 else 6)
  {
    var r := AtScript(bar).(cc := 0x4000);
    assert 0x4000 / 0x4000 % 4 == 1 && 0x4000 % 2 == 0 && Low32(0x4000) == 0x4000;
    hide ShuttingDown, Enabling, Interrupting, Low32;
    ShuttingDownFrom(env, r, IrqUpdated(env, r, QueuesReset(AFTER_SCRIPT)));
  }

  lemma ShuttingDownFrom(env: Env, r: Registers, u: Owner)
    requires env.failing == {} && r.csts == 0
    ensures ShuttingDown(env, r, u, true).0 == r.(csts := if env.canFlush then 8 else 6)
  {
    ShutdownStatus(0);
    assert Shutdown(0) == 0;
    hide Shutdown, WithShutdown, WithFatal;
  }

  lemma ShuttingDownFromReady(env: Env, r: Registers, u: Owner)
    requires r.csts == 1 && env.failing == {}
    ensures ShuttingDown(env, r, u, true).0.csts == if env.canFlush then 9 else 7
  {
    ShutdownStatus(1);
    hide Shutdown, WithShutdown, WithFatal;
  }

  lemma ShutdownAfterEnable(r: Registers, u: Owner)
    requires r.csts == 1 && r.cc == 0x460001
    ensures ConfigWritten(PERMISSIVE, r, u, 0x464001).0.csts == 9
    ensures ConfigWritten(NO_FLUSH, r, u, 0x464001).0.csts == 7
  {
    hide Enabling, Interrupting, ShuttingDown;
    var r1 := r.(cc := 0x464001);
    assert Low32(0x464001) == 0x464001 && 0x464001 / 0x4000 % 4 == 1 && 0x464001 % 2 == 1;
    ShuttingDownFromReady(PERMISSIVE, r1, u);
    ShuttingDownFromReady(NO_FLUSH, r1, u);
  }

  lemma WritesAfterShutdown(r: Registers, u: Owner)
    requires r.csts == 8 && r.cc == 0x4000
    ensures ConfigWritten(PERMISSIVE, r, u, 0).0.csts == 0
    ensures ConfigWritten(NO_SETUP, r, u, 0x460001).0.csts == 10
  {
    assert !Acceptable(NO_SETUP, r.(cc := 0x460001), 0x460001);
    hide Acceptable, Interrupting;
  }

  /** Each of the eight values of CSTS at rest is reached by some run. */
  lemma AllEightOccur(bar: u64)
    ensures Reached(PERMISSIVE, bar, Script([0x460001]), 4).0.csts == 1
    ensures Reached(PERMISSIVE, bar, Script([0x460001, 0x464001]), 5).0.csts == 9
    ensures Reached(PERMISSIVE, bar, Script([0x4000]), 4).0.csts == 8
    ensures Reached(PERMISSIVE, bar, Script([0x4000, 0]), 5).0.csts == 0
    ensures Reached(NO_SETUP, bar, Script([0x460001]), 4).0.csts == 2
    ensures Reached(NO_SETUP, bar, Script([0x4000, 0x460001]), 5).0.csts == 10
    ensures Reached(NO_FLUSH, bar, Script([0x4000]), 4).0.csts == 6
    ensures Reached(NO_FLUSH, bar, Script([0x460001, 0x464001]), 5).0.csts == 7
  {
    hide Reached, Script, ConfigWritten;
    FirstEnable(PERMISSIVE, bar);
    FirstEnable(NO_SETUP, bar);
    FirstEnable(NO_FLUSH, bar);
    FirstShutdown(PERMISSIVE, bar);
    FirstShutdown(NO_SETUP, bar);
    FirstShutdown(NO_FLUSH, bar);
    OneWrite(PERMISSIVE, bar, 0x460001);
    OneWrite(PERMISSIVE, bar, 0x4000);
    OneWrite(NO_SETUP, bar, 0x460001);
    OneWrite(NO_FLUSH, bar, 0x4000);
    TwoWrites(PERMISSIVE, bar, 0x460001, 0x464001);
    TwoWrites(PERMISSIVE, bar, 0x4000, 0);
    TwoWrites(NO_SETUP, bar, 0x4000, 0x460001);
    TwoWrites(NO_FLUSH, bar, 0x460001, 0x464001);
    ShutdownAfterEnable(AtScript(bar).(cc := 0x460001, csts := 1),
                        ConfigWritten(PERMISSIVE, AtScript(bar), AFTER_SCRIPT, 0x460001).1);
    ShutdownAfterEnable(AtScript(bar).(cc := 0x460001, csts := 1),
                        ConfigWritten(NO_FLUSH, AtScript(bar), AFTER_SCRIPT, 0x460001).1);
    WritesAfterShutdown(AtScript(bar).(cc := 0x4000, csts := 8),
                        ConfigWritten(PERMISSIVE, AtScript(bar), AFTER_SCRIPT, 0x4000).1);
    WritesAfterShutdown(AtScript(bar).(cc := 0x4000, csts := 8),
                        ConfigWritten(NO_SETUP, AtScript(bar), AFTER_SCRIPT, 0x4000).1);
  }
}
