/** The target-local read projection of the controller (read_mirror.h) and the
    wrapper that publishes it after every write (native-s224/module.py). */
module ReadMirror {
  import opened Words
  import opened Control
  import opened Controller

  datatype Shown = Shown(ccCsts: u64, aqaMask: u64, asq: u64, acq: u64, flags: u64, enabled: bool)

  const ECAM: u64 := 0x700000000
  const BAR: u64 := 0x700100000

  /** What the five published words make visible; bit 63 of the flags enables it. */
  function Publish(ccCsts: u64, aqaMask: u64, asq: u64, acq: u64, flags: u64): Shown {
    Shown(ccCsts, aqaMask, asq, acq, flags, flags >= 0x8000_0000_0000_0000)
  }

  function FlagBit(flags: u64, unit: u64): bool
    requires unit > 0
  {
    flags / unit % 2 == 1
  }

  function ShownPciByte(m: Shown, o: nat): u8 {
    if o < 4 then ByteOf(0x00101234, o)
    else if o < 6 then ByteOf(m.flags % 0x1_0000, o - 4)
    else if o < 8 then ByteOf(if FlagBit(m.flags, 0x1_0000) then 8 else 0, o - 6)
    else if o < 12 then ByteOf(0x01080201, o - 8)
    else if 0x10 <= o < 0x14 then ByteOf(if FlagBit(m.flags, 0x2_0000) then 0xffffc004 else 0x100004, o - 0x10)
    else if 0x14 <= o < 0x18 then ByteOf(if FlagBit(m.flags, 0x4_0000) then U32_MAX else 7, o - 0x14)
    else if 0x2c <= o < 0x30 then ByteOf(0x00101234, o - 0x2c)
    else if o == 0x3d then 1 else 0
  }

  function ShownRegisterByte(m: Shown, o: nat, mask: u32): u8 {
    if o < 8 then ByteOf(CAPABILITIES, o)
    else if o < 12 then ByteOf(0x10300, o - 8)
    else if o < 16 then ByteOf(mask, o - 12)
    else if o < 20 then ByteOf(mask, o - 16)
    else if o < 24 then ByteOf(m.ccCsts % 0x1_0000_0000, o - 20)
    else if 0x1c <= o < 0x20 then ByteOf(m.ccCsts / 0x1_0000_0000, o - 0x1c)
    else if 0x24 <= o < 0x28 then ByteOf(m.aqaMask % 0x1_0000_0000, o - 0x24)
    else if 0x28 <= o < 0x30 then ByteOf(m.asq, o - 0x28)
    else if 0x30 <= o < 0x38 then ByteOf(m.acq, o - 0x30)
    else 0
  }

  function ShownPciBytes(m: Shown, o: nat, n: nat): (b: seq<u8>)
    ensures |b| == n
  {
    seq<u8>(n, i requires 0 <= i < n => ShownPciByte(m, o + i))
  }

  function ShownRegisterBytes(m: Shown, o: nat, n: nat, mask: u32): (b: seq<u8>)
    ensures |b| == n
  {
    seq<u8>(n, i requires 0 <= i < n => ShownRegisterByte(m, o + i, mask))
  }

  function Bytes(widthLog2: nat): nat
    requires widthLog2 <= 3
  {
    if widthLog2 == 0 then 1 else if widthLog2 == 1 then 2 else if widthLog2 == 2 then 4 else 8
  }

  predicate InPci(address: u64) {
    ECAM <= address < ECAM + 0x100000
  }

  predicate InRegisters(address: u64) {
    BAR <= address < BAR + 0x4000
  }

  /** A read served locally, or none when the owner must serve it.  While the
      fast path is armed the mask is the target's own, and a fault it has seen
      overrides a 32-bit read of CSTS. */
  function Read(m: Shown, address: u64, widthLog2: nat, armed: bool, faulted: bool, fpMask: u32): Option<nat> {
    if !m.enabled || widthLog2 > 3 then None
    else
      var n := Bytes(widthLog2);
      if InPci(address) then
        var off := address - ECAM;
        if off >= 4096 || n > 4096 - off then Some(Truncated(U64_MAX, 8 * n))
        else Some(Assembled(ShownPciBytes(m, off, n)))
      else if InRegisters(address) then
        var off := address - BAR;
        if n > 0x4000 - off then None
        else if armed && faulted && off == 0x1c && widthLog2 == 2 then Some(3)
        else Some(Assembled(ShownRegisterBytes(m, off, n, if armed then fpMask else m.aqaMask / 0x1_0000_0000)))
      else None
  }

  /** The words published for a controller state: two registers to a word, and the flags. */
  function Projection(r: Registers): Shown {
    Publish(r.cc as int + 0x1_0000_0000 * r.csts as int, r.aqa as int + 0x1_0000_0000 * r.mask as int, r.asq, r.acq,
            Flags(r))
  }

  function Flags(r: Registers): u64 {
    r.command as int + (if r.pending then 0x1_0000 else 0) + (if r.probeLow then 0x2_0000 else 0)
    + (if r.probeHigh then 0x4_0000 else 0) + 0x8000_0000_0000_0000
  }

  lemma FlagsUnpack(r: Registers)
    ensures var f := Flags(r);
      && f % 0x1_0000 == r.command && FlagBit(f, 0x1_0000) == r.pending
      && FlagBit(f, 0x2_0000) == r.probeLow && FlagBit(f, 0x4_0000) == r.probeHigh
      && f >= 0x8000_0000_0000_0000
  {
  }

  lemma PciBytesAgree(r: Registers, o: nat, n: nat)
    requires r.bar == BAR
    ensures ShownPciBytes(Projection(r), o, n) == PciBytes(r, o, n)
  {
    FlagsUnpack(r);
    assert WithBit2(Low32(r.bar)) == 0x100004 && r.bar / 0x1_0000_0000 == 7;
    hide ByteOf, Flags, FlagBit;
    var a, b := ShownPciBytes(Projection(r), o, n), PciBytes(r, o, n);
    forall i | 0 <= i < n ensures a[i] == b[i] {
      assert a[i] == ShownPciByte(Projection(r), o + i);
    }
  }

  lemma RegisterBytesAgree(r: Registers, o: nat, n: nat, mask: u32)
    ensures ShownRegisterBytes(Projection(r), o, n, mask) == RegisterBytes(r.(mask := mask), o, n)
  {
    hide ByteOf, Flags;
    var a, b := ShownRegisterBytes(Projection(r), o, n, mask), RegisterBytes(r.(mask := mask), o, n);
    forall i | 0 <= i < n ensures a[i] == b[i] {
      assert a[i] == ShownRegisterByte(Projection(r), o + i, mask);
    }
  }

  /** Every read the projection serves is the controller's own, at every address
      and width, and it serves every read of the two windows except register reads
      that do not fit.  While the fast path is armed the mask read is its own, and
      once it has seen a fault a dword read of CSTS shows a ready controller that
      has failed. */
  predicate Agrees(m: Shown, r: Registers, address: u64, widthLog2: nat, armed: bool, faulted: bool, fpMask: u32)
    requires widthLog2 <= 3
  {
    var got, w := Read(m, address, widthLog2, armed, faulted, fpMask), 8 * Bytes(widthLog2);
    if InPci(address) then got.Some? && got == PciRead(r, address - ECAM, w).1
    else if InRegisters(address) then
      var (access, v) := RegisterRead(r.(mask := if armed then fpMask else r.mask), address - BAR, w);
      if armed && faulted && address == 0x70010001c && w == 32 then got == Some(3)
      else if access == Handled then got == Some(v)
      else got == None
    else got == None
  }

  /** Right after publishing a controller at the expected BAR, all reads agree,
      whatever the fast path has armed, masked and seen. */
  lemma ProjectionRefines(r: Registers, address: u64, widthLog2: nat, armed: bool, faulted: bool, fpMask: u32)
    requires r.bar == BAR && widthLog2 <= 3
    ensures Agrees(Projection(r), r, address, widthLog2, armed, faulted, fpMask)
  {
    FlagsUnpack(r);
    var n := Bytes(widthLog2);
    if InPci(address) {
      PciBytesAgree(r, address - ECAM, n);
    } else if InRegisters(address) {
      RegisterBytesAgree(r, address - BAR, n, if armed then fpMask else r.mask);
    }
    hide Assembled, ShownPciBytes, ShownRegisterBytes, PciBytes, RegisterBytes, Flags;
  }

  /** Where a 64-bit read is made of its halves: where it fits, and where
      neither it nor its halves fit, which then read as all ones. */
  predicate Halvable(address: u64) {
    if InPci(address) then
      address + 8 <= ECAM + 4096 || (ECAM + 4092 < address && InPci(address + 4))
    else InRegisters(address) && address + 8 <= BAR + 0x4000
  }

  /** A 64-bit read is its two 32-bit halves exactly there. */
  lemma TwoHalves(m: Shown, address: u64, armed: bool, faulted: bool, fpMask: u32)
    requires m.enabled && !(armed && faulted) && (InPci(address) || InRegisters(address))
    ensures var low, high := Read(m, address, 2, armed, faulted, fpMask),
      Read(m, address + 4, 2, armed, faulted, fpMask);
      Halvable(address)
      <==> low.Some? && high.Some?
           && Read(m, address, 3, armed, faulted, fpMask) == Some(low.value + 0x1_0000_0000 * high.value)
  {
    hide ShownPciByte, ShownRegisterByte, Assembled;
    assert Scale(4) == 0x1_0000_0000;
    var mask := if armed then fpMask else m.aqaMask / 0x1_0000_0000;
    if InPci(address) {
      var off := address - ECAM;
      if off + 8 <= 4096 {
        var a, b := ShownPciBytes(m, off, 4), ShownPciBytes(m, off + 4, 4);
        assert ShownPciBytes(m, off, 8) == a + b;
        AssembledConcat(a, b);
      } else if off <= 4092 {
        NothingThere(m, off);
      } else if !InPci(address + 4) {
        NotAllOnes(m, address + 4 - BAR, mask);
      }
    } else if address + 8 <= BAR + 0x4000 {
      var off := address - BAR;
      var a, b := ShownRegisterBytes(m, off, 4, mask), ShownRegisterBytes(m, off + 4, 4, mask);
      assert ShownRegisterBytes(m, off, 8, mask) == a + b;
      AssembledConcat(a, b);
    }
  }

  lemma FourAssembled(b: seq<u8>)
    requires |b| == 4
    ensures Assembled(b) == b[0] as int + 0x100 * b[1] as int + 0x1_0000 * b[2] as int + 0x100_0000 * b[3] as int
  {
    var c, d, e := b[1..], b[2..], b[3..];
    assert e[1..] == [] && d[1..] == e && c[1..] == d;
    assert Assembled(e) == b[3] as int;
    assert Assembled(d) == b[2] as int + 0x100 * b[3] as int;
  }

  /** The end of the configuration space reads as zeros. */
  lemma NothingThere(m: Shown, off: nat)
    requires 4088 < off <= 4092
    ensures Assembled(ShownPciBytes(m, off, 4)) == 0
  {
    var b := ShownPciBytes(m, off, 4);
    forall i | 0 <= i < 4 ensures b[i] == 0 {
      assert b[i] == ShownPciByte(m, off + i);
    }
    FourAssembled(b);
  }

  lemma CapabilityBytes()
    ensures ByteOf(CAPABILITIES, 1) == 0 && ByteOf(CAPABILITIES, 2) == 1 && ByteOf(CAPABILITIES, 3) == 20
    ensures ByteOf(CAPABILITIES, 4) == 32
  {
    assert Shr8(CAPABILITIES, 1) == CAPABILITIES / 0x100;
    assert Shr8(CAPABILITIES, 2) == Shr8(CAPABILITIES / 0x100, 1) == CAPABILITIES / 0x100 / 0x100;
    assert Shr8(CAPABILITIES, 3) == Shr8(CAPABILITIES / 0x100 / 0x100, 1) == CAPABILITIES / 0x100 / 0x100 / 0x100;
    assert Shr8(CAPABILITIES, 4) == Shr8(CAPABILITIES / 0x100 / 0x100 / 0x100, 1);
  }

  /** The capabilities at the start of the registers are not all ones. */
  lemma NotAllOnes(m: Shown, off: nat, mask: u32)
    requires off < 4
    ensures Assembled(ShownRegisterBytes(m, off, 4, mask)) < 0xffff_ffff
  {
    var b := ShownRegisterBytes(m, off, 4, mask);
    FourAssembled(b);
    CapabilityBytes();
    hide Assembled, ByteOf;
    assert b[1] == ByteOf(CAPABILITIES, off + 1);
  }

  // ----- the mirror and the publishing wrapper as the program runs them -----

  class Mirror {
    var ccCsts: u64
    var aqaMask: u64
    var asq: u64
    var acq: u64
    var flags: u64
    var enabled: bool
    var pciReads: nat
    var registerReads: nat
    var publications: nat

    ghost function Abs(): Shown
      reads this
    {
      Shown(ccCsts, aqaMask, asq, acq, flags, enabled)
    }

    constructor ()
      ensures !enabled && pciReads == registerReads == publications == 0
    {
      ccCsts, aqaMask, asq, acq, flags, enabled := 0, 0, 0, 0, 0, false;
      pciReads, registerReads, publications := 0, 0, 0;
    }

    /** Disabled while its words change. */
    method PublishWords(ccCsts: u64, aqaMask: u64, asq: u64, acq: u64, flags: u64)
      modifies this
      ensures Abs() == Publish(ccCsts, aqaMask, asq, acq, flags) && publications == old(publications) + 1
      ensures pciReads == old(pciReads) && registerReads == old(registerReads)
    {
      enabled := false;
      this.ccCsts, this.aqaMask := ccCsts, aqaMask;
      this.asq, this.acq, this.flags := asq, acq, flags;
      publications := publications + 1;
      enabled := flags >= 0x8000_0000_0000_0000;
    }

    /** Serves a read and counts it, or leaves everything alone. */
    method ReadLocal(address: u64, widthLog2: nat, armed: bool, faulted: bool, fpMask: u32) returns (v: Option<nat>)
      modifies this`pciReads, this`registerReads
      ensures v == Read(Abs(), address, widthLog2, armed, faulted, fpMask)
      ensures pciReads == old(pciReads) + (if v.Some? && InPci(address) then 1 else 0)
      ensures registerReads == old(registerReads) + (if v.Some? && InRegisters(address) then 1 else 0)
    {
      hide ShownPciByte, ShownRegisterByte;
      if !enabled || widthLog2 > 3 {
        return None;
      }
      var n, value, scale, i := Bytes(widthLog2), 0, 1, 0;
      var m := Shown(ccCsts, aqaMask, asq, acq, flags, enabled);
      if InPci(address) {
        var off := address - ECAM;
        if off >= 4096 || n > 4096 - off {
          value := Truncated(U64_MAX, 8 * n);
        } else {
          ghost var b := ShownPciBytes(m, off, n);
          while i < n
            modifies {}
            invariant 0 <= i <= n && value == Assembled(b[..i]) && scale == Scale(i)
          {
            AssembledSnoc(b, i);
            value := value + scale * ShownPciByte(m, off + i) as int;
            scale, i := 0x100 * scale, i + 1;
          }
          assert b[..i] == b;
        }
        pciReads := pciReads + 1;
      } else if InRegisters(address) {
        var off := address - BAR;
        if n > 0x4000 - off {
          return None;
        }
        if armed && faulted && off == 0x1c && widthLog2 == 2 {
          value := 3;
        } else {
          var mask := if armed then fpMask else aqaMask / 0x1_0000_0000;
          ghost var b := ShownRegisterBytes(m, off, n, mask);
          while i < n
            modifies {}
            invariant 0 <= i <= n && value == Assembled(b[..i]) && scale == Scale(i)
          {
            AssembledSnoc(b, i);
            value := value + scale * ShownRegisterByte(m, off + i, mask) as int;
            scale, i := 0x100 * scale, i + 1;
          }
          assert b[..i] == b;
        }
        registerReads := registerReads + 1;
      } else {
        return None;
      }
      v := Some(value);
    }
  }

  class Overlay {
    const control: NvmeControl
    const mirror: Mirror

    constructor (control: NvmeControl, mirror: Mirror)
      ensures this.control == control && this.mirror == mirror
    {
      this.control, this.mirror := control, mirror;
    }

    /** Publishes the controller; `accepted` is whether the target confirmed it. */
    method PublishControl(accepted: bool)
      modifies mirror
      ensures mirror.Abs() == if accepted then Projection(control.Abs()) else Publish(0, 0, 0, 0, 0)
    {
      var c := control;
      var flags := c.command as int + (if c.pending then 0x1_0000 else 0) + (if c.probeLow then 0x2_0000 else 0)
                   + (if c.probeHigh then 0x4_0000 else 0) + 0x8000_0000_0000_0000;
      mirror.PublishWords(c.cc as int + 0x1_0000_0000 * c.csts as int, c.aqa as int + 0x1_0000_0000 * c.mask as int,
                          c.asq, c.acq, flags);
      if !accepted {
        mirror.PublishWords(0, 0, 0, 0, 0);
      }
    }

    /** After a write through the overlay every local read agrees with the
        controller, or no read is served locally any more. */
    method Write(pci: bool, o: u32, w: nat, value: u64, accepted: bool)
      requires control.bar == BAR
      modifies control, mirror
      ensures control.bar == BAR
      ensures control.Abs() ==
        if pci then PciWritten(control.env, old(control.Abs()), old(control.owner), o, w, value).1
        else RegisterWritten(control.env, old(control.Abs()), old(control.owner), o, w, value).1
      ensures accepted ==> forall address: u64, widthLog2: nat, armed, faulted, fpMask: u32 :: widthLog2 <= 3 ==>
        Agrees(mirror.Abs(), control.Abs(), address, widthLog2, armed, faulted, fpMask)
      ensures !accepted ==> forall address: u64, widthLog2: nat, armed, faulted, fpMask: u32 ::
        Read(mirror.Abs(), address, widthLog2, armed, faulted, fpMask) == None
    {
      hide RegisterWritten, PciWritten, Agrees, Projection;
      BarStays(control.env, control.Abs(), control.owner, o, w, value);
      var a;
      if pci {
        a := control.WritePci(o, w, value);
      } else {
        a := control.WriteRegister(o, w, value);
      }
      PublishControl(accepted);
      if accepted {
        forall address: u64, widthLog2: nat, armed, faulted, fpMask: u32 | widthLog2 <= 3
          ensures Agrees(mirror.Abs(), control.Abs(), address, widthLog2, armed, faulted, fpMask)
        {
          ProjectionRefines(control.Abs(), address, widthLog2, armed, faulted, fpMask);
        }
      }
    }
  }

  lemma ConfigKeepsBar(env: Env, r: Registers, u: Owner, v: u64)
    ensures ConfigWritten(env, r, u, v).0.bar == r.bar
  {
    hide Acceptable, Interrupting, WithFatal, WithShutdown, Shutdown;
  }

  /** No write moves the BAR: sizing only toggles what it reads as. */
  lemma BarStays(env: Env, r: Registers, u: Owner, o: u32, w: nat, value: u64)
    ensures PciWritten(env, r, u, o, w, value).1.bar == r.bar
    ensures RegisterWritten(env, r, u, o, w, value).1.bar == r.bar
  {
    hide CommandWritten, Or32, AndNot, BaseWritten, ConfigWritten, Interrupting, Truncated;
    ConfigKeepsBar(env, r, u, Truncated(value, w));
  }
}
