/** The NVMe controller's PCI and register state (native-s209/model.c), sections
    3.1.5 to 3.1.10 of NVM Express 1.3. */
module Control {
  import opened Words

  datatype Registers = Registers(
    bar: u64, asq: u64, acq: u64, cc: u32, csts: u32, aqa: u32, mask: u32, command: u16,
    probeLow: bool, probeHigh: bool, pending: bool)

  /** Which callbacks exist, the ranges `contains` accepts, and the numbers of
      the setup and flush calls that fail. */
  datatype Env = Env(ranges: Option<set<(u64, u32)>>, canSetUp: bool, canFlush: bool, hasIrq: bool, failing: set<nat>)

  datatype Queues = Queues(asq: u64, sqDepth: u16, acq: u64, cqDepth: u16)

  /** What the owner has been told: the last interrupt level, and the queues of
      the last successful setup with no queue reset since. */
  datatype Owner = Owner(irq: Option<bool>, queues: Option<Queues>, calls: nat)

  datatype Access = Handled | NotHandled | Invalid

  predicate WidthOk(w: nat) {
    w == 8 || w == 16 || w == 32 || w == 64
  }

  function Truncated(v: u64, w: nat): u64 {
    if w == 8 then v % 0x100
    else if w == 16 then v % 0x1_0000
    else if w == 32 then v % 0x1_0000_0000
    else v
  }

  predicate FitsIn(o: u32, w: nat, size: nat) {
    WidthOk(w) && o <= size && w / 8 <= size - o
  }

  function Low32(v: u64): u32 {
    v % 0x1_0000_0000
  }

  /** Bit k. */
  predicate Bit(v: nat, k: nat) {
    if k == 0 then v % 2 == 1 else Bit(v / 2, k - 1)
  }

  /** Bitwise or, and and-not, bit by bit. */
  function Or(a: nat, b: nat): (r: nat)
    ensures r <= a + b
  {
    if a == 0 then b else (if a % 2 + b % 2 > 0 then 1 else 0) + 2 * Or(a / 2, b / 2)
  }

  function AndNot(a: nat, b: nat): (r: nat)
    ensures r <= a
  {
    if a == 0 then 0 else (if b % 2 == 1 then 0 else a % 2) + 2 * AndNot(a / 2, b / 2)
  }

  lemma {:induction false} OrBound(a: nat, b: nat, n: nat)
    requires a < Pow2(n) && b < Pow2(n)
    ensures Or(a, b) < Pow2(n)
  {
    if n > 0 {
      OrBound(a / 2, b / 2, n - 1);
    }
  }

  function Or32(a: u32, b: u32): (r: u32)
    ensures r == Or(a, b)
  {
    WordPowers();
    OrBound(a, b, 32);
    Or(a, b)
  }

  /** Enabled-queue completions are pending, the interrupt is unmasked and INTx is not disabled. */
  predicate Interrupting(r: Registers) {
    r.pending && r.mask % 2 == 0 && r.command / 0x400 % 2 == 0
  }

  predicate Enabled(r: Registers) {
    r.cc % 2 == 1
  }

  predicate Ready(r: Registers) {
    r.csts % 2 == 1
  }

  predicate FatalStatus(r: Registers) {
    r.csts / 2 % 2 == 1
  }

  /** CSTS with the fatal bit set, and with the shutdown field replaced. */
  function WithFatal(csts: u32): u32 {
    if csts / 2 % 2 == 1 then csts else csts + 2
  }

  function Shutdown(csts: u32): u32 {
    csts / 4 % 4
  }

  function WithShutdown(csts: u32, s: u32): u32
    requires s < 4
  {
    csts - 4 * Shutdown(csts) + 4 * s
  }

  function IrqUpdated(env: Env, r: Registers, u: Owner): Owner {
    if env.hasIrq then u.(irq := Some(Interrupting(r))) else u
  }

  function IrqDropped(env: Env, u: Owner): Owner {
    if env.hasIrq then u.(irq := Some(false)) else u
  }

  function QueuesReset(u: Owner): Owner {
    u.(queues := None)
  }

  function AfterReset(env: Env, r: Registers, u: Owner): (Registers, Owner) {
    var r1 := r.(cc := 0, csts := 0, aqa := 0, mask := 0, asq := 0, acq := 0, pending := false);
    (r1, IrqUpdated(env, r1, QueuesReset(u)))
  }

  function Powered(bar: u64): Registers {
    Registers(bar, 0, 0, 0, 0, 0, 0, 0, false, false, false)
  }

  function AfterPending(env: Env, r: Registers, u: Owner, pending: bool): (Registers, Owner) {
    var r1 := r.(pending := pending);
    (r1, IrqUpdated(env, r1, u))
  }

  // ----- register writes -----

  function SqDepth(aqa: u32): u16 {
    aqa % 0x1000 + 1
  }

  function CqDepth(aqa: u32): u16 {
    aqa / 0x1_0000 % 0x1000 + 1
  }

  function Wanted(r: Registers): Queues {
    Queues(r.asq, SqDepth(r.aqa), r.acq, CqDepth(r.aqa))
  }

  predicate QueueValid(env: Env, base: u64, depth: u16, stride: u32)
    requires stride <= 64
  {
    var bytes: u32 := depth as int * stride as int;
    && 2 <= depth <= 256 && base != 0 && base % 4096 == 0 && base <= U64_MAX - bytes
    && env.ranges.Some? && (base, bytes) in env.ranges.value
  }

  /** The configuration and both admin queues are acceptable. */
  predicate Acceptable(env: Env, r: Registers, v: u64) {
    && v / 0x80 % 16 == 0 && v / 0x10 % 8 == 0 && v / 0x1_0000 % 16 == 6 && v / 0x10_0000 % 16 == 4
    && QueueValid(env, r.asq, SqDepth(r.aqa), 64) && QueueValid(env, r.acq, CqDepth(r.aqa), 16)
    && env.canSetUp
  }

  function Failed(env: Env, r: Registers, u: Owner): (Registers, Owner) {
    (r.(csts := WithFatal(r.csts)), IrqDropped(env, u))
  }

  /** The enabling write: ready when the queues were set up, fatal otherwise. */
  function Enabling(env: Env, r: Registers, u: Owner, v: u64): (bool, Registers, Owner) {
    if !Acceptable(env, r, v) then
      var (r1, u1) := Failed(env, r, u);
      (false, r1, u1)
    else if u.calls in env.failing then
      var (r1, u1) := Failed(env, r, u.(calls := u.calls + 1));
      (false, r1, u1)
    else (true, r.(csts := 1), u.(calls := u.calls + 1, queues := Some(Wanted(r))))
  }

  /** The shutdown part of a configuration write that asks for one when CC.SHN is set. */
  function ShuttingDown(env: Env, r: Registers, u: Owner, asked: bool): (Registers, Owner) {
    if !asked || FatalStatus(r) || Shutdown(r.csts) == 2 then (r, u)
    else
      var r1 := r.(csts := WithShutdown(r.csts, 1));
      if !env.canFlush then Failed(env, r1, u)
      else
        var u1 := u.(calls := u.calls + 1);
        if u.calls in env.failing then Failed(env, r1, u1)
        else (r1.(csts := WithShutdown(r1.csts, 2)), u1)
  }

  function ConfigWritten(env: Env, r: Registers, u: Owner, v: u64): (Registers, Owner) {
    var r1, asked := r.(cc := Low32(v)), v / 0x4000 % 4 != 0;
    if v % 2 == 0 then
      var r2 := r1.(pending := false, csts := 0);
      ShuttingDown(env, r2, IrqUpdated(env, r2, QueuesReset(u)), asked)
    else if !Enabled(r) then
      var (done, r2, u2) := Enabling(env, r1, u, v);
      if !done then (r2, u2) else ShuttingDown(env, r2, u2, asked)
    else ShuttingDown(env, r1, u, asked)
  }

  /** Writing all or half of a 64-bit queue base. */
  function BaseWritten(base: u64, o: u32, w: nat, v: u64): u64 {
    if w == 64 then v
    else if o / 4 % 2 == 1 then base % 0x1_0000_0000 + 0x1_0000_0000 * Low32(v)
    else base - base % 0x1_0000_0000 + Low32(v)
  }

  function RegisterWritten(env: Env, r: Registers, u: Owner, o: u32, w: nat, value: u64): (Access, Registers, Owner) {
    if !FitsIn(o, w, 0x4000) || (w != 32 && w != 64) || o % 4 != 0 then (Invalid, r, u)
    else if o >= 0x1000 then (NotHandled, r, u)
    else if w == 64 && o != 0x28 && o != 0x30 && value >= 0x1_0000_0000 then (Invalid, r, u)
    else if w == 64 && (o == 0x2c || o == 0x34) then (Invalid, r, u)
    else
      var v := Truncated(value, w);
      if o == 0xc then
        var r1 := r.(mask := Or32(r.mask, Low32(v)));
        (Handled, r1, IrqUpdated(env, r1, u))
      else if o == 0x10 then
        var r1 := r.(mask := AndNot(r.mask, Low32(v)));
        (Handled, r1, IrqUpdated(env, r1, u))
      else if o == 0x14 then
        var (r1, u1) := ConfigWritten(env, r, u, v);
        (Handled, r1, u1)
      else if o == 0x24 && !Enabled(r) then (Handled, r.(aqa := Low32(v)), u)
      else if (o == 0x28 || o == 0x2c) && !Enabled(r) then (Handled, r.(asq := BaseWritten(r.asq, o, w, v)), u)
      else if (o == 0x30 || o == 0x34) && !Enabled(r) then (Handled, r.(acq := BaseWritten(r.acq, o, w, v)), u)
      else (Handled, r, u)
  }

  // ----- PCI writes -----

  function ByteOf(v: u64, i: nat): u8 {
    Shr8(v, i) % 0x100
  }

  /** The command register after a write at offset o that starts at or before
      it: only I/O space, memory space, bus master and INTx disable stick. */
  function CommandWritten(command: u16, o: u32, w: nat, v: u64): u16
    requires o <= 4
  {
    var low := if 4 - o < w / 8 then ByteOf(v, 4 - o) else command % 0x100;
    var high := if 5 - o < w / 8 then ByteOf(v, 5 - o) else command / 0x100;
    low % 8 + 0x100 * (4 * (high / 4 % 2))
  }

  function PciWritten(env: Env, r: Registers, u: Owner, o: u32, w: nat, value: u64): (Access, Registers, Owner) {
    if !FitsIn(o, w, 4096) then (Invalid, r, u)
    else
      var v := Truncated(value, w);
      if o <= 4 && 4 - o < w / 8 then
        var r1 := r.(command := CommandWritten(r.command, o, w, v));
        (Handled, r1, IrqUpdated(env, r1, u))
      else if w == 32 && o == 0x10 then (Handled, r.(probeLow := v == 0xffff_ffff), u)
      else if w == 32 && o == 0x14 then (Handled, r.(probeHigh := v == 0xffff_ffff), u)
      else (Handled, r, u)
  }

  // ----- reads -----

  /** Bytes, least significant first, as one value. */
  function Assembled(bytes: seq<u8>): nat {
    if bytes == [] then 0 else bytes[0] as int + 0x100 * Assembled(bytes[1..])
  }

  lemma {:induction false} AssembledConcat(a: seq<u8>, b: seq<u8>)
    ensures Assembled(a + b) == Assembled(a) + Scale(|a|) * Assembled(b)
  {
    if a == [] {
      assert a + b == b;
    } else {
      assert (a + b)[1..] == a[1..] + b;
      AssembledConcat(a[1..], b);
      assert 0x100 * (Scale(|a| - 1) * Assembled(b)) == Scale(|a|) * Assembled(b);
    }
  }

  lemma AssembledSnoc(b: seq<u8>, i: nat)
    requires i < |b|
    ensures Assembled(b[..i + 1]) == Assembled(b[..i]) + Scale(i) * b[i] as int
  {
    assert b[..i + 1] == b[..i] + [b[i]];
    assert [b[i]][1..] == [];
    assert Assembled([b[i]]) == b[i] as int;
    AssembledConcat(b[..i], [b[i]]);
  }

  function PciByte(r: Registers, o: nat): u8 {
    if o < 4 then ByteOf(0x00101234, o)
    else if o < 6 then ByteOf(r.command, o - 4)
    else if o < 8 then ByteOf(if r.pending then 8 else 0, o - 6)
    else if o < 12 then ByteOf(0x01080201, o - 8)
    else if 0x10 <= o < 0x14 then ByteOf(if r.probeLow then 0xffffc004 else WithBit2(Low32(r.bar)), o - 0x10)
    else if 0x14 <= o < 0x18 then ByteOf(if r.probeHigh then 0xffff_ffff else r.bar / 0x1_0000_0000, o - 0x14)
    else if 0x2c <= o < 0x30 then ByteOf(0x00101234, o - 0x2c)
    else if o == 0x3d then 1 else 0
  }

  /** The 64-bit memory BAR type bit. */
  function WithBit2(v: u32): u32 {
    if v / 4 % 2 == 1 then v else v + 4
  }

  const CAPABILITIES: u64 := 255 + 0x1_0000 + 20 * 0x100_0000 + 0x20_0000_0000

  function RegisterByte(r: Registers, o: nat): u8 {
    if o < 8 then ByteOf(CAPABILITIES, o)
    else if o < 12 then ByteOf(0x10300, o - 8)
    else if o < 16 then ByteOf(r.mask, o - 12)
    else if o < 20 then ByteOf(r.mask, o - 16)
    else if o < 24 then ByteOf(r.cc, o - 20)
    else if 0x1c <= o < 0x20 then ByteOf(r.csts, o - 0x1c)
    else if 0x24 <= o < 0x28 then ByteOf(r.aqa, o - 0x24)
    else if 0x28 <= o < 0x30 then ByteOf(r.asq, o - 0x28)
    else if 0x30 <= o < 0x38 then ByteOf(r.acq, o - 0x30)
    else 0
  }

  function PciBytes(r: Registers, o: nat, n: nat): (b: seq<u8>)
    ensures |b| == n
  {
    seq<u8>(n, i requires 0 <= i < n => PciByte(r, o + i))
  }

  function RegisterBytes(r: Registers, o: nat, n: nat): (b: seq<u8>)
    ensures |b| == n
  {
    seq<u8>(n, i requires 0 <= i < n => RegisterByte(r, o + i))
  }

  /** An unsupported width gives no value; an access that does not fit reads as all ones. */
  function PciRead(r: Registers, o: u32, w: nat): (Access, Option<nat>) {
    if !WidthOk(w) then (Invalid, None)
    else if !FitsIn(o, w, 4096) then (Invalid, Some(Truncated(U64_MAX, w)))
    else (Handled, Some(Assembled(PciBytes(r, o, w / 8))))
  }

  function RegisterRead(r: Registers, o: u32, w: nat): (Access, nat) {
    if !FitsIn(o, w, 0x4000) then (Invalid, 0)
    else (Handled, Assembled(RegisterBytes(r, o, w / 8)))
  }
}
