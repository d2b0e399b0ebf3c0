/** What a guest sees of its own register writes: interrupt masking bit by bit,
    and queue registers that read back what was written. */
module ControlRegisters {
  import opened Words
  import opened Control
  import W = Wheel

  // ----- masking (sections 3.1.3 and 3.1.4 of NVM Express 1.3) -----

  lemma {:induction false} OrBits(a: nat, b: nat, k: nat)
    ensures Bit(Or(a, b), k) <==> Bit(a, k) || Bit(b, k)
  {
    if k > 0 {
      OrBits(a / 2, b / 2, k - 1);
    }
    OrStep(a, b);
  }

  lemma {:induction false} OrStep(a: nat, b: nat)
    ensures Or(a, b) / 2 == Or(a / 2, b / 2) && (Or(a, b) % 2 == 1 <==> a % 2 == 1 || b % 2 == 1)
  {
  }

  lemma {:induction false} AndNotBits(a: nat, b: nat, k: nat)
    ensures Bit(AndNot(a, b), k) <==> Bit(a, k) && !Bit(b, k)
  {
    if k > 0 {
      AndNotBits(a / 2, b / 2, k - 1);
    }
    AndNotStep(a, b);
  }

  lemma {:induction false} AndNotStep(a: nat, b: nat)
    ensures AndNot(a, b) / 2 == AndNot(a / 2, b / 2) && (AndNot(a, b) % 2 == 1 <==> a % 2 == 1 && b % 2 == 0)
  {
  }

  /** Writing INTMS masks exactly the bits written and INTMC unmasks exactly
      those, whatever else is masked; no other register changes, and the owner is
      told the resulting level at once.  A write of 64 bits with a zero upper half
      is the same write. */
  lemma MaskingIsBitwise(env: Env, r: Registers, u: Owner, w: nat, v: u32, k: nat)
    requires w == 32 || w == 64
    ensures var (a, s, t) := RegisterWritten(env, r, u, 0xc, w, v);
      && a == Handled && (Bit(s.mask, k) <==> Bit(r.mask, k) || Bit(v, k)) && s == r.(mask := s.mask)
      && (env.hasIrq ==> t.irq == Some(Interrupting(s)))
    ensures var (a, s, t) := RegisterWritten(env, r, u, 0x10, w, v);
      && a == Handled && (Bit(s.mask, k) <==> Bit(r.mask, k) && !Bit(v, k)) && s == r.(mask := s.mask)
      && (env.hasIrq ==> t.irq == Some(Interrupting(s)))
  {
    OrBits(r.mask, v, k);
    AndNotBits(r.mask, v, k);
    MaskWrites(env, r, u, w, v);
    hide RegisterWritten, Bit, Or, AndNot;
  }

  lemma MaskWrites(env: Env, r: Registers, u: Owner, w: nat, v: u32)
    requires w == 32 || w == 64
    ensures var s := r.(mask := Or32(r.mask, v));
      RegisterWritten(env, r, u, 0xc, w, v) == (Handled, s, IrqUpdated(env, s, u))
    ensures var s := r.(mask := AndNot(r.mask, v));
      RegisterWritten(env, r, u, 0x10, w, v) == (Handled, s, IrqUpdated(env, s, u))
  {
    assert Truncated(v, w) == v && Low32(v) == v;
    hide ConfigWritten, Or32, AndNot, Interrupting, Truncated, Low32;
  }

  // ----- values in bytes -----

  lemma {:induction false} BytesAssemble(v: nat, n: nat)
    requires v < Scale(n)
    ensures Assembled(ToLe(v, n)) == v
  {
    if n > 0 {
      BytesAssemble(v / 0x100, n - 1);
      assert ToLe(v, n)[1..] == ToLe(v / 0x100, n - 1);
    }
  }

  lemma ScaleOf8()
    ensures Scale(4) == 0x1_0000_0000 && Scale(8) == 0x1_0000_0000_0000_0000
  {
    assert Scale(6) == 0x1_0000 * Scale(4);
    assert Scale(8) == 0x1_0000 * Scale(6);
  }

  lemma FieldBytes(r: Registers, o: nat, n: nat, v: u64)
    requires n <= 8 && v < Scale(n)
    requires forall i :: 0 <= i < n ==> RegisterBytes(r, o, n)[i] == ByteOf(v, i)
    ensures Assembled(RegisterBytes(r, o, n)) == v
  {
    forall i | 0 <= i < n ensures ToLe(v, n)[i] == ByteOf(v, i) {
      ToLeAt(v, n, i);
    }
    assert RegisterBytes(r, o, n) == ToLe(v, n);
    BytesAssemble(v, n);
  }

  /** Each register reads as its field. */
  lemma RegistersReadAsFields(r: Registers)
    ensures RegisterRead(r, 0x28, 64) == (Handled, r.asq) && RegisterRead(r, 0x30, 64) == (Handled, r.acq)
    ensures RegisterRead(r, 0x14, 32) == (Handled, r.cc) && RegisterRead(r, 0x1c, 32) == (Handled, r.csts)
    ensures RegisterRead(r, 0x24, 32) == (Handled, r.aqa)
    ensures RegisterRead(r, 0xc, 32) == RegisterRead(r, 0x10, 32) == (Handled, r.mask)
  {
    ScaleOf8();
    FieldReads(r, 0x28, 8, r.asq);
    FieldReads(r, 0x30, 8, r.acq);
    FieldReads(r, 0x14, 4, r.cc);
    FieldReads(r, 0x1c, 4, r.csts);
    FieldReads(r, 0x24, 4, r.aqa);
    FieldReads(r, 0xc, 4, r.mask);
    FieldReads(r, 0x10, 4, r.mask);
    hide RegisterBytes, Assembled;
  }

  /** The register fields by offset. */
  predicate IsField(r: Registers, o: nat, n: nat, v: u64) {
    (o == 0x28 && n == 8 && v == r.asq) || (o == 0x30 && n == 8 && v == r.acq) || (o == 0x14 && n == 4 && v == r.cc)
    || (o == 0x1c && n == 4 && v == r.csts) || (o == 0x24 && n == 4 && v == r.aqa)
    || ((o == 0xc || o == 0x10) && n == 4 && v == r.mask)
  }

  lemma FieldReads(r: Registers, o: nat, n: nat, v: u64)
    requires IsField(r, o, n, v)
    ensures Assembled(RegisterBytes(r, o, n)) == v
  {
    ScaleOf8();
    hide ByteOf, Assembled, Scale;
    var b := RegisterBytes(r, o, n);
    forall i | 0 <= i < n ensures b[i] == ByteOf(v, i) {
      assert b[i] == RegisterByte(r, o + i);
    }
    FieldBytes(r, o, n, v);
  }

  /** While the controller is disabled the queue bases read back what was
      written, in one 64-bit write or in two 32-bit halves in either order; while
      it is enabled those writes change nothing. */
  lemma QueueBasesReadBack(env: Env, r: Registers, u: Owner, v: u64, o: u32)
    requires o == 0x28 || o == 0x30
    ensures var (a, s, t) := RegisterWritten(env, r, u, o, 64, v);
      var lowFirst := RegisterWritten(env, RegisterWritten(env, r, u, o, 32, Low32(v)).1, u, o + 4, 32,
        v / 0x1_0000_0000);
      var highFirst := RegisterWritten(env, RegisterWritten(env, r, u, o + 4, 32, v / 0x1_0000_0000).1, u, o, 32,
        Low32(v));
      && a == Handled && t == u
      && (Enabled(r) ==> s == r)
      && (!Enabled(r) ==> RegisterRead(s, o, 64) == (Handled, v) && lowFirst.1 == s && highFirst.1 == s)
  {
    var lo, hi := Low32(v), v / 0x1_0000_0000;
    var base := if o == 0x28 then r.asq else r.acq;
    Halves(base, v, o);
    QueueBaseWrite(env, r, u, o, o, 64, v);
    QueueBaseWrite(env, r, u, o, o, 32, lo);
    QueueBaseWrite(env, r, u, o, o + 4, 32, hi);
    QueueBaseWrite(env, WithBase(r, o, BaseWritten(base, o, 32, lo)), u, o, o + 4, 32, hi);
    QueueBaseWrite(env, WithBase(r, o, BaseWritten(base, o + 4, 32, hi)), u, o, o, 32, lo);
    RegistersReadAsFields(WithBase(r, o, v));
    hide RegisterWritten, RegisterRead, BaseWritten, Low32;
  }

  function WithBase(r: Registers, o: u32, base: u64): Registers {
    if o == 0x28 then r.(asq := base) else r.(acq := base)
  }

  /** A write to the base at `o`, at that offset or to its upper half. */
  lemma QueueBaseWrite(env: Env, r: Registers, u: Owner, o: u32, at: u32, w: nat, v: u64)
    requires (o == 0x28 || o == 0x30) && (at == o || at == o + 4) && (w == 32 || (w == 64 && at == o))
    requires w == 32 ==> v < 0x1_0000_0000
    ensures RegisterWritten(env, r, u, at, w, v)
         == (Handled, if Enabled(r) then r
                      else WithBase(r, o, BaseWritten(if o == 0x28 then r.asq else r.acq, at, w, v)), u)
  {
    assert Truncated(v, w) == v;
    hide ConfigWritten, Or32, AndNot, Truncated, BaseWritten;
  }

  lemma Halves(base: u64, v: u64, o: u32)
    requires o == 0x28 || o == 0x30
    ensures var lo, hi := Low32(v), v / 0x1_0000_0000;
      && BaseWritten(BaseWritten(base, o, 32, lo), o + 4, 32, hi) == v
      && BaseWritten(BaseWritten(base, o + 4, 32, hi), o, 32, lo) == v && BaseWritten(base, o, 64, v) == v
  {
    var lo, hi := Low32(v), v / 0x1_0000_0000;
    Split(base - base % 0x1_0000_0000 + lo, base / 0x1_0000_0000, lo);
    Split(base % 0x1_0000_0000 + 0x1_0000_0000 * hi, hi, base % 0x1_0000_0000);
    assert o / 4 % 2 == 0 && (o + 4) / 4 % 2 == 1 && Low32(hi) == hi && Low32(lo) == lo;
  }

  lemma Split(x: int, hi: int, lo: int)
    requires 0 <= lo < 0x1_0000_0000 && x == 0x1_0000_0000 * hi + lo
    ensures x % 0x1_0000_0000 == lo
  {
  }

  // ----- the PCI command register -----

  lemma BitAbove(v: nat, k: nat)
    ensures Bit(v, k + 2) <==> Bit(v / 4, k)
    ensures Bit(v, k + 3) <==> Bit(v / 8, k)
  {
    assert Bit(v, k + 3) == Bit(v / 2, k + 2) == Bit(v / 2 / 2, k + 1) == Bit(v / 2 / 2 / 2, k);
    assert Bit(v, k + 2) == Bit(v / 2, k + 1) == Bit(v / 2 / 2, k);
  }

  lemma BitAboveByte(v: nat, k: nat)
    ensures Bit(v, k + 8) <==> Bit(v / 0x100, k)
  {
    BitAbove(v, k + 5);
    BitAbove(v / 8, k + 2);
    BitAbove(v / 8 / 8, k);
    assert v / 8 / 8 / 4 == v / 0x100;
  }

  lemma {:induction false} BitOfByte(v: nat, i: nat, k: nat)
    requires k < 8
    ensures Bit(Shr8(v, i) % 0x100, k) <==> Bit(v, 8 * i + k)
  {
    if i == 0 {
      BitLow(v, 8, k);
    } else {
      BitOfByte(v / 0x100, i - 1, k);
      BitAboveByte(v, 8 * (i - 1) + k);
    }
  }

  lemma {:induction false} BitLow(v: nat, n: nat, k: nat)
    requires k < n
    ensures Pow2(8) == 0x100 && (Bit(v % Pow2(n), k) <==> Bit(v, k))
  {
    if k == 0 {
      assert Pow2(n) == 2 * Pow2(n - 1);
      LowOf(v, Pow2(n - 1));
    } else {
      BitLow(v / 2, n - 1, k - 1);
      LowOf(v, Pow2(n - 1));
    }
  }

  lemma LowOf(v: nat, t: nat)
    requires t > 0
    ensures v % (2 * t) % 2 == v % 2 && v % (2 * t) / 2 == v / 2 % t && v / 2 / t == v / (2 * t)
  {
    var q, m := v / (2 * t), v % (2 * t);
    assert v == 2 * t * q + m && v / 2 == t * q + m / 2;
    W.Lap(v / 2, t, q, m / 2);
  }

  lemma TruncatedBits(value: u64, w: nat, n: nat)
    requires WidthOk(w) && n < w
    ensures Bit(Truncated(value, w), n) <==> Bit(value, n)
  {
    WordPowers();
    BitLow(value, w, n);
  }

  lemma {:induction false} PowerBits(n: nat, k: nat)
    ensures !Bit(0, k) && (Bit(Pow2(n), k) <==> k == n)
  {
    if k > 0 {
      PowerBits(if n == 0 then 0 else n - 1, k - 1);
    }
  }

  /** The bits that stick, in their places. */
  lemma StickyBits(low: u8, high: u8, k: nat)
    ensures Bit(low % 8 + 0x100 * (4 * (high / 4 % 2)), k) <==> (k < 3 && Bit(low, k)) || (k == 10 && Bit(high, 2))
  {
    BitAbove(high, 0);
    hide Bit, Pow2;
    PlacedBits(low, high / 4 % 2, k);
    SmallPowers();
    if k < 3 {
      BitLow(low, 3, k);
    }
  }

  lemma PlacedBits(low: u8, bit: nat, k: nat)
    requires bit < 2
    ensures Bit(low % 8 + 0x400 * bit, k) <==> (k < 3 && Bit(low % 8, k)) || (k == 10 && bit == 1)
  {
    var c := low % 8 + 0x400 * bit;
    SmallPowers();
    BitAbove(c, if k < 3 then 0 else k - 3);
    hide Bit, Pow2;
    if k < 3 {
      BitLow(c, 3, k);
    } else {
      assert c / 8 == 0x80 * bit;
      PowerBits(7, k - 3);
    }
  }

  /** Only the I/O, memory, bus-master and INTx-disable bits stick: from the
      bytes that a write starting at or before the register covers, and from the
      old value where it does not reach.  Every other write, also one to the
      second byte alone, leaves the register. */
  lemma CommandBits(env: Env, r: Registers, u: Owner, o: u32, w: nat, value: u64, k: nat)
    requires k < 16
    ensures var s := PciWritten(env, r, u, o, w, value).1;
      if FitsIn(o, w, 4096) && o <= 4 && 4 - o < w / 8 then
        Bit(s.command, k)
        <==> k in {0, 1, 2, 10} && (if 32 + k < 8 * o + w then Bit(value, 32 + k - 8 * o) else Bit(r.command, k))
      else s.command == r.command
  {
    if FitsIn(o, w, 4096) && o <= 4 && 4 - o < w / 8 {
      var v := Truncated(value, w);
      var low := ByteOf(v, 4 - o);
      var high: u8 := if 5 - o < w / 8 then ByteOf(v, 5 - o) else r.command / 0x100;
      hide Bit, Truncated, ByteOf, Interrupting;
      StickyBits(low, high, k);
      if k < 3 {
        BitOfByte(v, 4 - o, k);
        TruncatedBits(value, w, 32 + k - 8 * o);
      } else if k == 10 && 5 - o < w / 8 {
        BitOfByte(v, 5 - o, 2);
        TruncatedBits(value, w, 42 - 8 * o);
      } else if k == 10 {
        BitAboveByte(r.command, 2);
      }
    }
  }
}
