/** Placing the boot image past the fixed BootArgs and ADT copies
    (handoff_layout.h), the firmware's own guard on the same ranges
    (NwoasHandoffRanges.h), and the pair of copies between them. */
module Handoff {
  import opened Words
  import opened Memory
  import W = Wheel

  const BOOTARGS_COPY: u64 := 0x840000000
  const ADT_COPY: u64 := 0x840004000
  const IMAGE_ALIGN: u64 := 0x200000

  datatype Layout = Layout(image: u64, handoffEnd: u64)

  /** The loader's guard, in 64-bit arithmetic. */
  function Place(ramBase: u64, ramSize: u64, adtSize: u64, prefixBase: u64, prefixEnd: u64,
                 heap: u64, imageSize: u64): Option<Layout>
  {
    if adtSize == 0 || imageSize == 0 || ramSize > U64_MAX - ramBase || adtSize > U64_MAX - ADT_COPY then None
    else
      var end: u64 := ADT_COPY as int + adtSize as int;
      if end > U64_MAX - 0x3fff then None
      else
        var rounded: u64 := end as int + 0x3fff - (end as int + 0x3fff) % 0x4000;
        var ramEnd: u64 := ramBase as int + ramSize as int;
        if BOOTARGS_COPY < ramBase || rounded > ramEnd || prefixEnd < prefixBase
           || (prefixBase < rounded && prefixEnd > BOOTARGS_COPY) || heap < ramBase || heap > ramEnd then None
        else
          var base := if heap > rounded then heap else rounded;
          if base > U64_MAX - (IMAGE_ALIGN - 1) then None
          else
            var aligned: u64 := base as int + 0x1fffff - (base as int + 0x1fffff) % 0x200000;
            if aligned > ramEnd || imageSize > ramEnd - aligned then None
            else Some(Layout(aligned, rounded))
  }

  /** The least multiple of `unit` that is at least x. */
  function Up(x: int, unit: int): int
    requires unit > 0
  {
    (x + unit - 1) / unit * unit
  }

  /** The page-aligned end of both copies. */
  function HandoffEnd(adtSize: int): int {
    Up(ADT_COPY + adtSize, 0x4000)
  }

  /** `base` is an image position over unbounded integers: aligned, past the
      heap and the copies, and inside RAM with the whole image. */
  predicate Fits(base: int, ramEnd: int, adtSize: int, heap: int, imageSize: int) {
    base % IMAGE_ALIGN == 0 && heap <= base && HandoffEnd(adtSize) <= base && base + imageSize <= ramEnd
  }

  /** What a placement needs apart from the position: something to place, RAM
      that ends within the address space and holds both copies and the heap, and
      a prefix that is off the copies. */
  predicate Admissible(ramBase: int, ramEnd: int, adtSize: int, prefixBase: int, prefixEnd: int,
                       heap: int, imageSize: int)
  {
    && adtSize > 0 && imageSize > 0 && ramEnd <= U64_MAX
    && ramBase <= BOOTARGS_COPY && HandoffEnd(adtSize) <= ramEnd
    && prefixBase <= prefixEnd && (prefixEnd <= BOOTARGS_COPY || HandoffEnd(adtSize) <= prefixBase)
    && ramBase <= heap <= ramEnd
  }

  lemma UpIsLeast(x: int, unit: int)
    requires unit > 0
    ensures Up(x, unit) % unit == 0 && x <= Up(x, unit) < x + unit
    ensures forall y :: y % unit == 0 && x <= y ==> Up(x, unit) <= y
  {
    var q := (x + unit - 1) / unit;
    assert x + unit - 1 == q * unit + (x + unit - 1) % unit;
    W.Lap(q * unit, unit, q, 0);
    forall y | y % unit == 0 && x <= y ensures Up(x, unit) <= y {
      var p := y / unit;
      assert y == p * unit;
      if p < q {
        W.Laps(p, q, unit);
      }
    }
  }

  lemma RoundedIsUp(x: int)
    ensures x + 0x3fff - (x + 0x3fff) % 0x4000 == Up(x, 0x4000)
    ensures x + 0x1fffff - (x + 0x1fffff) % 0x200000 == Up(x, 0x200000)
  {
  }

  /** The 64-bit guard accepts exactly when a position exists over unbounded
      integers, and then gives the least one and the exact end of the copies. */
  lemma PlaceIsExact(ramBase: u64, ramSize: u64, adtSize: u64, prefixBase: u64, prefixEnd: u64,
                     heap: u64, imageSize: u64)
    ensures var ramEnd := ramBase as int + ramSize as int;
      var r := Place(ramBase, ramSize, adtSize, prefixBase, prefixEnd, heap, imageSize);
      && (r.Some? <==> Admissible(ramBase, ramEnd, adtSize, prefixBase, prefixEnd, heap, imageSize)
                       && exists base :: Fits(base, ramEnd, adtSize, heap, imageSize))
      && (r.Some? ==>
            && r.value.handoffEnd == HandoffEnd(adtSize)
            && Fits(r.value.image, ramEnd, adtSize, heap, imageSize)
            && forall base :: Fits(base, ramEnd, adtSize, heap, imageSize) ==> r.value.image <= base)
  {
    hide Up, Admissible;
    var ramEnd := ramBase as int + ramSize as int;
    var end := ADT_COPY as int + adtSize as int;
    UpIsLeast(end, 0x4000);
    RoundedIsUp(end);
    var rounded := HandoffEnd(adtSize);
    var low := if heap > rounded then heap as int else rounded;
    UpIsLeast(low, 0x200000);
    RoundedIsUp(low);
    var best := Up(low, 0x200000);
    forall base | Fits(base, ramEnd, adtSize, heap, imageSize)
      ensures best <= base && best + imageSize <= ramEnd && Fits(best, ramEnd, adtSize, heap, imageSize)
    {
      assert low <= base && base % 0x200000 == 0;
    }
    AcceptsExactly(ramBase, ramSize, adtSize, prefixBase, prefixEnd, heap, imageSize, rounded, best);
    var r := Place(ramBase, ramSize, adtSize, prefixBase, prefixEnd, heap, imageSize);
    hide Place;
    if r.Some? {
      assert best % 0x200000 == 0;
      assert Fits(best, ramEnd, adtSize, heap, imageSize);
    }
    assert r.Some? ==> exists base :: Fits(base, ramEnd, adtSize, heap, imageSize);
    assert r.Some? ==> r.value.handoffEnd == HandoffEnd(adtSize);
    assert r.Some? ==> forall base :: Fits(base, ramEnd, adtSize, heap, imageSize) ==> r.value.image <= base;
    if Admissible(ramBase, ramEnd, adtSize, prefixBase, prefixEnd, heap, imageSize) {
      assert (exists base :: Fits(base, ramEnd, adtSize, heap, imageSize)) ==> r.Some?;
    }
  }

  lemma AcceptsExactly(ramBase: u64, ramSize: u64, adtSize: u64, prefixBase: u64, prefixEnd: u64,
                       heap: u64, imageSize: u64, rounded: int, best: int)
    requires rounded == HandoffEnd(adtSize) && ADT_COPY as int + adtSize as int <= rounded
    requires rounded == ADT_COPY as int + adtSize as int + 0x3fff - (ADT_COPY as int + adtSize as int + 0x3fff) % 0x4000
    requires var low := if heap > rounded then heap as int else rounded;
      low <= best && best == low + 0x1fffff - (low + 0x1fffff) % 0x200000
    ensures var ramEnd := ramBase as int + ramSize as int;
      var r := Place(ramBase, ramSize, adtSize, prefixBase, prefixEnd, heap, imageSize);
      && (r.Some? <==> Admissible(ramBase, ramEnd, adtSize, prefixBase, prefixEnd, heap, imageSize)
                       && best + imageSize as int <= ramEnd)
      && (r.Some? ==> r.value == Layout(best, rounded))
  {
    hide HandoffEnd;
  }

  // ----- the firmware's guard -----

  /** The size to reserve for both copies, when the firmware accepts them. */
  function Reserve(ramBase: u64, ramSize: u64, fdBase: u64, fdSize: u64, baBase: u64, adtBase: u64, adtSize: u64)
    : Option<u64>
  {
    if ramSize == 0 || ramSize > U64_MAX - ramBase || fdSize == 0 || fdSize > U64_MAX - fdBase
       || baBase % 0x4000 != 0 || baBase > U64_MAX - 0x4000 || adtBase != baBase + 0x4000
       || adtSize == 0 || adtSize > 0x100000 || adtSize > U64_MAX - adtBase then None
    else
      var end: u64 := adtBase as int + adtSize as int;
      if end > U64_MAX - 0x3fff then None
      else
        var rounded: u64 := end as int + 0x3fff - (end as int + 0x3fff) % 0x4000;
        var ramEnd: u64 := ramBase as int + ramSize as int;
        var fdEnd: u64 := fdBase as int + fdSize as int;
        if baBase < ramBase || rounded > ramEnd || (baBase < fdEnd && rounded > fdBase) then None
        else
          var size: u64 := rounded - baBase;
          if size <= U32_MAX then Some(size) else None
  }

  /** Over unbounded integers: both copies lie in RAM, page by page and back to
      back, and off the firmware image. */
  predicate Reservable(ramBase: int, ramEnd: int, fdBase: int, fdEnd: int, baBase: int, adtBase: int, adtSize: int) {
    var end := Up(adtBase + adtSize, 0x4000);
    && ramBase < ramEnd <= U64_MAX && fdBase < fdEnd <= U64_MAX
    && baBase % 0x4000 == 0 && adtBase == baBase + 0x4000 && 0 < adtSize <= 0x100000
    && ramBase <= baBase && end <= ramEnd && (fdEnd <= baBase || end <= fdBase)
  }

  lemma ReserveIsExact(ramBase: u64, ramSize: u64, fdBase: u64, fdSize: u64, baBase: u64, adtBase: u64, adtSize: u64)
    ensures var r := Reserve(ramBase, ramSize, fdBase, fdSize, baBase, adtBase, adtSize);
      && (r.Some? <==> Reservable(ramBase, ramBase as int + ramSize as int, fdBase, fdBase as int + fdSize as int,
                                  baBase, adtBase, adtSize))
      && (r.Some? ==> baBase + r.value as int == Up(adtBase as int + adtSize as int, 0x4000))
  {
    hide Up;
    UpIsLeast(adtBase as int + adtSize as int, 0x4000);
    RoundedIsUp(adtBase as int + adtSize as int);
  }

  /** Every position the loader chooses for an ADT of at most 1 MiB is accepted
      by the firmware as its own place, and both agree on the extent of the copies. */
  lemma GuardsAgree(ramBase: u64, ramSize: u64, adtSize: u64, prefixBase: u64, prefixEnd: u64,
                    heap: u64, imageSize: u64)
    ensures var p := Place(ramBase, ramSize, adtSize, prefixBase, prefixEnd, heap, imageSize);
      p.Some? ==>
        var r := Reserve(ramBase, ramSize, p.value.image, imageSize, BOOTARGS_COPY, ADT_COPY, adtSize);
        && (r.Some? <==> adtSize <= 0x100000)
        && (r.Some? ==> r.value == p.value.handoffEnd - BOOTARGS_COPY)
  {
    var p := Place(ramBase, ramSize, adtSize, prefixBase, prefixEnd, heap, imageSize);
    if p.Some? {
      PlaceIsExact(ramBase, ramSize, adtSize, prefixBase, prefixEnd, heap, imageSize);
      ReserveIsExact(ramBase, ramSize, p.value.image, imageSize, BOOTARGS_COPY, ADT_COPY, adtSize);
      hide Place, Reserve, Up;
      UpIsLeast(ADT_COPY as int + adtSize as int, 0x4000);
    }
  }

  /** Where the ADT lies in RAM, from the loader's virtual addresses. */
  function AdtSource(virtBase: u64, devtree: u64, ramBase: u64, ramSize: u64, adtSize: u64): Option<u64> {
    if adtSize == 0 || ramSize > U64_MAX - ramBase || devtree < virtBase then None
    else
      var delta := devtree - virtBase;
      if delta > ramSize || adtSize > ramSize - delta then None else Some(ramBase + delta)
  }

  lemma AdtSourceIsExact(virtBase: u64, devtree: u64, ramBase: u64, ramSize: u64, adtSize: u64)
    ensures var r := AdtSource(virtBase, devtree, ramBase, ramSize, adtSize);
      var at := ramBase as int + devtree as int - virtBase as int;
      && (r.Some? <==> adtSize > 0 && ramBase as int + ramSize as int <= U64_MAX
                       && ramBase <= at && at + adtSize as int <= ramBase as int + ramSize as int)
      && (r.Some? ==> r.value == at)
  {
  }

  // ----- the copies -----

  /** An overlap-safe copy. */
  function Copied(m: Ram, to: int, from: int, n: nat): Ram {
    Store(m, to, Load(m, from, n))
  }

  /** Where an ADT lies and how long it is, as read from the fields of BootArgs. */
  type Reading = seq<u8> -> (int, nat)

  /** The former order: BootArgs first, then the ADT.  The fields that say where
      the ADT lies, `len` bytes at offset `lo` of BootArgs, are read through the
      original pointer, and only after the first copy. */
  function FormerOrder(m: Ram, baTo: int, baFrom: int, baSize: nat, adtTo: int, lo: nat, len: nat, read: Reading): Ram {
    var m1 := Copied(m, baTo, baFrom, baSize);
    var (from, size) := read(Load(m1, baFrom + lo, len));
    Copied(m1, adtTo, from, size)
  }

  predicate HandedOver(m: Ram, after: Ram, baTo: int, baFrom: int, baSize: nat, adtTo: int, adtFrom: int,
      adtSize: nat)
  {
    Load(after, baTo, baSize) == Load(m, baFrom, baSize) && Load(after, adtTo, adtSize) == Load(m, adtFrom, adtSize)
  }

  /** BootArgs already lie in place; or the copy of BootArgs touches neither the
      fields still to be read nor the ADT; or there is no ADT and nothing lies
      behind the place for it. */
  predicate FormerOrderSafe(baTo: int, baFrom: int, baSize: nat, adtTo: int, lo: nat, len: nat, adtFrom: int,
      adtSize: nat)
  {
    || baTo == baFrom
    || (Apart(baFrom + lo, len, baTo, baSize) && (Apart(adtFrom, adtSize, baTo, baSize) || adtSize == 0))
    || (adtSize == 0 && baTo < adtTo)
  }

  /** Which overlap breaks the former order: it is right for every content of RAM
      and every function of the fields' bytes that places the ADT there, exactly
      when it is safe.  One particular function may be spared: HarmlessOverlap. */
  lemma FormerOrderFailsExactly(baTo: int, baFrom: int, baSize: nat, adtTo: int, lo: nat, len: nat,
                                adtFrom: int, adtSize: nat)
    requires Apart(baTo, baSize, adtTo, adtSize) && 0 < len && lo + len <= baSize
    ensures (forall m: Ram, read: Reading :: read(Load(m, baFrom + lo, len)) == (adtFrom, adtSize) ==>
               HandedOver(m, FormerOrder(m, baTo, baFrom, baSize, adtTo, lo, len, read),
                          baTo, baFrom, baSize, adtTo, adtFrom, adtSize))
       <==> FormerOrderSafe(baTo, baFrom, baSize, adtTo, lo, len, adtFrom, adtSize)
  {
    if FormerOrderSafe(baTo, baFrom, baSize, adtTo, lo, len, adtFrom, adtSize) {
      forall m: Ram, read: Reading | read(Load(m, baFrom + lo, len)) == (adtFrom, adtSize)
        ensures HandedOver(m, FormerOrder(m, baTo, baFrom, baSize, adtTo, lo, len, read),
                           baTo, baFrom, baSize, adtTo, adtFrom, adtSize)
      {
        FormerOrderWorks(m, baTo, baFrom, baSize, adtTo, lo, len, read, adtFrom, adtSize);
      }
    } else {
      var m, read := FormerOrderBreaks(baTo, baFrom, baSize, adtTo, lo, len, adtFrom, adtSize);
      assert !HandedOver(m, FormerOrder(m, baTo, baFrom, baSize, adtTo, lo, len, read),
                         baTo, baFrom, baSize, adtTo, adtFrom, adtSize);
    }
  }

  lemma FormerOrderWorks(m: Ram, baTo: int, baFrom: int, baSize: nat, adtTo: int, lo: nat, len: nat,
                         read: Reading, adtFrom: int, adtSize: nat)
    requires Apart(baTo, baSize, adtTo, adtSize) && 0 < len && lo + len <= baSize
    requires FormerOrderSafe(baTo, baFrom, baSize, adtTo, lo, len, adtFrom, adtSize)
    requires read(Load(m, baFrom + lo, len)) == (adtFrom, adtSize)
    ensures HandedOver(m, FormerOrder(m, baTo, baFrom, baSize, adtTo, lo, len, read),
                       baTo, baFrom, baSize, adtTo, adtFrom, adtSize)
  {
    hide Copied;
    var m1 := Copied(m, baTo, baFrom, baSize);
    var (from, size) := read(Load(m1, baFrom + lo, len));
    CopyArrives(m, baTo, baFrom, baSize);
    if baTo == baFrom {
      NothingCopied(m, baTo, baFrom, baSize, baFrom + lo, len);
      NothingCopied(m, baTo, baFrom, baSize, adtFrom, adtSize);
    } else if Apart(baFrom + lo, len, baTo, baSize) && (Apart(adtFrom, adtSize, baTo, baSize) || adtSize == 0) {
      CopyApart(m, baTo, baFrom, baSize, baFrom + lo, len);
      if adtSize == 0 {
        NothingCopied(m, baTo, baFrom, baSize, adtFrom, adtSize);
      } else {
        CopyApart(m, baTo, baFrom, baSize, adtFrom, adtSize);
      }
    } else {
      CopyApart(m1, adtTo, from, size, baTo, baSize);
      return;
    }
    CopyArrives(m1, adtTo, adtFrom, adtSize);
    CopyApart(m1, adtTo, adtFrom, adtSize, baTo, baSize);
  }

  lemma CopyArrives(m: Ram, to: int, from: int, n: nat)
    ensures Load(Copied(m, to, from, n), to, n) == Load(m, from, n)
  {
    LoadStored(m, to, Load(m, from, n));
  }

  lemma CopyApart(m: Ram, to: int, from: int, n: nat, a: int, k: nat)
    requires Apart(to, n, a, k)
    ensures Load(Copied(m, to, from, n), a, k) == Load(m, a, k)
  {
    LoadApart(m, to, Load(m, from, n), a, k);
  }

  lemma NothingCopied(m: Ram, to: int, from: int, n: nat, a: int, k: nat)
    requires n == 0 || k == 0 || to == from
    ensures Load(Copied(m, to, from, n), a, k) == Load(m, a, k)
  {
    var m1 := Copied(m, to, from, n);
    hide Copied;
    forall x | a <= x < a + k ensures At(m1, x) == At(m, x) {
      CopiedAt(m, to, from, n, x);
    }
    SameBytes(m1, m, a, k);
  }

  lemma SameBytes(m1: Ram, m: Ram, a: int, k: nat)
    requires forall x :: a <= x < a + k ==> At(m1, x) == At(m, x)
    ensures Load(m1, a, k) == Load(m, a, k)
  {
  }

  /** Each byte after a copy. */
  lemma CopiedAt(m: Ram, to: int, from: int, n: nat, x: int)
    ensures At(Copied(m, to, from, n), x) == if to <= x < to + n then At(m, from + (x - to)) else At(m, x)
  {
  }

  lemma FormerOrderBreaks(baTo: int, baFrom: int, baSize: nat, adtTo: int, lo: nat, len: nat, adtFrom: int,
      adtSize: nat)
    returns (m: Ram, read: Reading)
    requires Apart(baTo, baSize, adtTo, adtSize) && 0 < len && lo + len <= baSize
    requires !FormerOrderSafe(baTo, baFrom, baSize, adtTo, lo, len, adtFrom, adtSize)
    ensures read(Load(m, baFrom + lo, len)) == (adtFrom, adtSize)
    ensures !HandedOver(m, FormerOrder(m, baTo, baFrom, baSize, adtTo, lo, len, read),
                        baTo, baFrom, baSize, adtTo, adtFrom, adtSize)
  {
    if Apart(baFrom + lo, len, baTo, baSize) {
      m := AdtOverwritten(baTo, baFrom, baSize, adtTo, adtFrom, adtSize);
      read := _ => (adtFrom, adtSize);
    } else {
      m, read := FieldsOverwritten(baTo, baFrom, baSize, adtTo, lo, len, adtFrom, adtSize);
    }
  }

  /** The ADT source is read after BootArgs were stored into it. */
  lemma AdtOverwritten(baTo: int, baFrom: int, baSize: nat, adtTo: int, adtFrom: int, adtSize: nat) returns (m: Ram)
    requires Apart(baTo, baSize, adtTo, adtSize)
    requires !Apart(adtFrom, adtSize, baTo, baSize) && baSize > 0 && adtSize > 0 && baTo != baFrom
    ensures !HandedOver(m, Copied(Copied(m, baTo, baFrom, baSize), adtTo, adtFrom, adtSize),
                        baTo, baFrom, baSize, adtTo, adtFrom, adtSize)
  {
    hide Copied;
    var x := if adtFrom >= baTo then adtFrom else baTo;
    m := map[baFrom + (x - baTo) := 1];
    var m1 := Copied(m, baTo, baFrom, baSize);
    CopiedAt(m, baTo, baFrom, baSize, x);
    CopyArrives(m1, adtTo, adtFrom, adtSize);
    assert Load(m1, adtFrom, adtSize)[x - adtFrom] == 1 && Load(m, adtFrom, adtSize)[x - adtFrom] == 0;
  }

  /** The fields are read after BootArgs were stored into them. */
  lemma FieldsOverwritten(baTo: int, baFrom: int, baSize: nat, adtTo: int, lo: nat, len: nat, adtFrom: int,
      adtSize: nat)
    returns (m: Ram, read: Reading)
    requires Apart(baTo, baSize, adtTo, adtSize) && 0 < len && lo + len <= baSize
    requires baTo != baFrom && !Apart(baFrom + lo, len, baTo, baSize) && (adtSize > 0 || adtTo <= baTo)
    ensures read(Load(m, baFrom + lo, len)) == (adtFrom, adtSize)
    ensures !HandedOver(m, FormerOrder(m, baTo, baFrom, baSize, adtTo, lo, len, read),
                        baTo, baFrom, baSize, adtTo, adtFrom, adtSize)
  {
    hide Copied;
    // A byte of the fields that is stored to, and where what is stored comes from.
    var x := if baFrom + lo >= baTo then baFrom + lo else baTo;
    var y := baFrom + (x - baTo);
    m := map[y := 1];
    var m1 := Copied(m, baTo, baFrom, baSize);
    CopiedAt(m, baTo, baFrom, baSize, x);
    var before, now := Load(m, baFrom + lo, len), Load(m1, baFrom + lo, len);
    assert before[x - baFrom - lo] == 0 && now[x - baFrom - lo] == 1;
    // The k-th byte stored by the second copy is then the wrong one.
    var k := if adtSize > 0 then 0 else baTo - adtTo;
    var wanted := if adtSize > 0 then At(m, adtFrom) else At(m, baFrom);
    var other := if x > y then x + 1 else y + 1;
    CopiedAt(m, baTo, baFrom, baSize, other);
    var from := (if wanted == 0 then x else other) - k;
    read := w => if w == before then (adtFrom, adtSize) else (from, k + 1);
    var m2 := Copied(m1, adtTo, from, k + 1);
    assert FormerOrder(m, baTo, baFrom, baSize, adtTo, lo, len, read) == m2;
    CopiedAt(m1, adtTo, from, k + 1, adtTo + k);
    assert At(m2, adtTo + k) != wanted;
    if adtSize > 0 {
      assert Load(m2, adtTo, adtSize)[0] != Load(m, adtFrom, adtSize)[0];
    } else {
      assert Load(m2, baTo, baSize)[0] != Load(m, baFrom, baSize)[0];
    }
  }

  /** The address and size of the ADT from four adjacent fields: its virtual
      address, the virtual and the physical base, and the size. */
  function AdtFields(w: seq<u8>): (int, nat) {
    if |w| != 28 then (0, 0)
    else ((Le64(w, 0) as int - Le64(w, 8) as int + Le64(w, 16) as int) % 0x1_0000_0000_0000_0000, Le32(w, 24))
  }

  /** An overlap of BootArgs with their own destination, eight bytes further on:
      a one-byte ADT lies off everything, and its byte does not arrive. */
  lemma SelfOverlapBreaks()
    ensures var m: Ram := map[0 := 200, 24 := 1, 200 := 7];
      var after := FormerOrder(m, 8, 0, 28, 1000, 0, 28, AdtFields);
      && AdtFields(Load(m, 0, 28)) == (200, 1) && Apart(200, 1, 8, 28)
      && At(m, 200) == 7 && At(after, 1000) == 0
  {
    hide Copied, Le64, Le32;
    var m: Ram := map[0 := 200, 24 := 1, 200 := 7];
    var m1 := Copied(m, 8, 0, 28);
    var v, w := Load(m, 0, 28), Load(m1, 0, 28);
    forall i | 0 <= i < 28 ensures w[i] == if i == 0 || i == 8 then 200 else 0 {
      CopiedAt(m, 8, 0, 28, i);
    }
    FieldValues(v, 200, 0, 0, 1);
    FieldValues(w, 200, 200, 0, 0);
    CopiedAt(m, 8, 0, 28, 1000);
    CopiedAt(m1, 1000, 0, 0, 1000);
    assert AdtFields(w) == (0, 0);
  }

  lemma FieldValues(w: seq<u8>, a: u8, b: u8, c: u8, d: u8)
    requires |w| == 28 && w[0] == a && w[8] == b && w[16] == c && w[24] == d
    requires forall i :: 0 <= i < 28 && i % 8 != 0 ==> w[i] == 0
    ensures Le64(w, 0) == a && Le64(w, 8) == b && Le64(w, 16) == c && Le32(w, 24) == d
  {
  }

  /** With the arithmetic of four adjacent fields, the overwriting of the highest
      byte of a one-byte ADT's size does no harm, although that overlap is not safe:
      the second copy only gets longer. */
  lemma HarmlessOverlap(m: Ram)
    requires AdtFields(Load(m, 0, 28)) == (200, 1)
    ensures !FormerOrderSafe(27, 0, 28, 1000, 0, 28, 200, 1)
    ensures HandedOver(m, FormerOrder(m, 27, 0, 28, 1000, 0, 28, AdtFields), 27, 0, 28, 1000, 200, 1)
  {
    OnlySizeGrows(m);
    hide AdtFields, Copied;
    var m1 := Copied(m, 27, 0, 28);
    var (from, size) := AdtFields(Load(m1, 0, 28));
    CopyArrives(m, 27, 0, 28);
    CopyApart(m1, 1000, from, size, 27, 28);
    CopiedAt(m, 27, 0, 28, 200);
    CopiedAt(m1, 1000, from, size, 1000);
    assert Load(Copied(m1, 1000, from, size), 1000, 1) == Load(m, 200, 1);
  }

  lemma OnlySizeGrows(m: Ram)
    requires AdtFields(Load(m, 0, 28)) == (200, 1)
    ensures var (from, size) := AdtFields(Load(Copied(m, 27, 0, 28), 0, 28)); from == 200 && size >= 1
  {
    var v, w := Load(m, 0, 28), Load(Copied(m, 27, 0, 28), 0, 28);
    hide Copied, Le64, Le32;
    forall i | 0 <= i < 27 ensures w[i] == v[i] {
      CopiedAt(m, 27, 0, 28, i);
    }
    SameFields(v, w);
    SmallSize(v, w);
  }

  lemma SameFields(v: seq<u8>, w: seq<u8>)
    requires |v| == |w| == 28 && forall i :: 0 <= i < 27 ==> w[i] == v[i]
    ensures Le64(w, 0) == Le64(v, 0) && Le64(w, 8) == Le64(v, 8) && Le64(w, 16) == Le64(v, 16)
  {
  }

  lemma SmallSize(v: seq<u8>, w: seq<u8>)
    requires |v| == |w| == 28 && w[24] == v[24] && w[25] == v[25] && w[26] == v[26] && Le32(v, 24) == 1
    ensures Le32(w, 24) >= 1
  {
  }

  // ----- the new order -----

  /** What the copies need from BootArgs. */
  datatype BootFields = BootFields(virtBase: u64, devtree: u64, physBase: u64, memSize: u64, adtSize: u32)

  /** Save BootArgs, copy the ADT, then copy the saved BootArgs. */
  function NewOrder(m: Ram, baTo: int, baFrom: int, baSize: nat, stack: int, adtTo: int, adtFrom: int,
      adtSize: nat): Ram
  {
    Copied(Copied(Copied(m, stack, baFrom, baSize), adtTo, adtFrom, adtSize), baTo, stack, baSize)
  }

  /** The saved copy spoils neither the ADT source nor is it spoilt by the ADT;
      or it does so with the very bytes that belong there. */
  predicate SavedCopySafe(baFrom: int, baSize: nat, stack: int, adtTo: int, adtFrom: int, adtSize: nat) {
    || baSize == 0
    || ((Apart(stack, baSize, adtFrom, adtSize) || stack == baFrom)
        && (Apart(stack, baSize, adtTo, adtSize) || baFrom - stack == adtFrom - adtTo))
  }

  /** Where the saved copy may lie: with the destinations the guards leave, the
      new order is right for every content of RAM, wherever the two sources lie,
      exactly when the saved copy is safe. */
  lemma NewOrderWorksExactly(baTo: int, baFrom: int, baSize: nat, stack: int, adtTo: int, adtFrom: int, adtSize: nat)
    requires baSize <= 0x4000 && adtTo == baTo + 0x4000 && adtSize > 0
    ensures (forall m: Ram :: HandedOver(m, NewOrder(m, baTo, baFrom, baSize, stack, adtTo, adtFrom, adtSize),
                                         baTo, baFrom, baSize, adtTo, adtFrom, adtSize))
       <==> SavedCopySafe(baFrom, baSize, stack, adtTo, adtFrom, adtSize)
  {
    if SavedCopySafe(baFrom, baSize, stack, adtTo, adtFrom, adtSize) {
      forall m: Ram
        ensures HandedOver(m, NewOrder(m, baTo, baFrom, baSize, stack, adtTo, adtFrom, adtSize),
                           baTo, baFrom, baSize, adtTo, adtFrom, adtSize)
      {
        NewOrderWorks(m, baTo, baFrom, baSize, stack, adtTo, adtFrom, adtSize);
      }
    } else {
      var m := NewOrderBreaks(baTo, baFrom, baSize, stack, adtTo, adtFrom, adtSize);
      assert !HandedOver(m, NewOrder(m, baTo, baFrom, baSize, stack, adtTo, adtFrom, adtSize),
                         baTo, baFrom, baSize, adtTo, adtFrom, adtSize);
    }
  }

  /** What the new order leaves at the two destinations, byte by byte. */
  lemma NewOrderAt(m: Ram, baTo: int, baFrom: int, baSize: nat, stack: int, adtTo: int, adtFrom: int, adtSize: nat,
      i: nat)
    requires baSize <= 0x4000 && adtTo == baTo + 0x4000
    ensures var after, m1 := NewOrder(m, baTo, baFrom, baSize, stack, adtTo, adtFrom, adtSize),
      Copied(m, stack, baFrom, baSize);
      && (i < adtSize ==> At(after, adtTo + i) == At(m1, adtFrom + i))
      && (i < baSize ==> At(after, baTo + i)
                         == if adtTo <= stack + i < adtTo + adtSize then At(m1, adtFrom + (stack + i - adtTo))
                            else At(m, baFrom + i))
  {
    hide Copied;
    var m1 := Copied(m, stack, baFrom, baSize);
    var m2 := Copied(m1, adtTo, adtFrom, adtSize);
    CopiedAt(m, stack, baFrom, baSize, stack + i);
    CopiedAt(m1, adtTo, adtFrom, adtSize, adtTo + i);
    CopiedAt(m1, adtTo, adtFrom, adtSize, stack + i);
    CopiedAt(m2, baTo, stack, baSize, adtTo + i);
    CopiedAt(m2, baTo, stack, baSize, baTo + i);
  }

  lemma NewOrderWorks(m: Ram, baTo: int, baFrom: int, baSize: nat, stack: int, adtTo: int, adtFrom: int, adtSize: nat)
    requires baSize <= 0x4000 && adtTo == baTo + 0x4000
    requires SavedCopySafe(baFrom, baSize, stack, adtTo, adtFrom, adtSize)
    ensures HandedOver(m, NewOrder(m, baTo, baFrom, baSize, stack, adtTo, adtFrom, adtSize),
                       baTo, baFrom, baSize, adtTo, adtFrom, adtSize)
  {
    hide Copied, NewOrder;
    var after, m1 := NewOrder(m, baTo, baFrom, baSize, stack, adtTo, adtFrom, adtSize),
      Copied(m, stack, baFrom, baSize);
    var adt, ba := Load(after, adtTo, adtSize), Load(after, baTo, baSize);
    assert Load(m1, adtFrom, adtSize) == Load(m, adtFrom, adtSize) by {
      if baSize == 0 || stack == baFrom {
        NothingCopied(m, stack, baFrom, baSize, adtFrom, adtSize);
      } else {
        CopyApart(m, stack, baFrom, baSize, adtFrom, adtSize);
      }
    }
    forall i | 0 <= i < adtSize ensures adt[i] == Load(m, adtFrom, adtSize)[i] {
      NewOrderAt(m, baTo, baFrom, baSize, stack, adtTo, adtFrom, adtSize, i);
      assert At(m1, adtFrom + i) == Load(m1, adtFrom, adtSize)[i];
    }
    forall i | 0 <= i < baSize ensures ba[i] == Load(m, baFrom, baSize)[i] {
      NewOrderAt(m, baTo, baFrom, baSize, stack, adtTo, adtFrom, adtSize, i);
      var j := stack + i - adtTo;
      if 0 <= j < adtSize {
        assert At(m1, adtFrom + j) == Load(m1, adtFrom, adtSize)[j] == Load(m, adtFrom, adtSize)[j];
      }
    }
  }

  lemma NewOrderBreaks(baTo: int, baFrom: int, baSize: nat, stack: int, adtTo: int, adtFrom: int, adtSize: nat)
    returns (m: Ram)
    requires baSize <= 0x4000 && adtTo == baTo + 0x4000 && adtSize > 0
    requires !SavedCopySafe(baFrom, baSize, stack, adtTo, adtFrom, adtSize)
    ensures !HandedOver(m, NewOrder(m, baTo, baFrom, baSize, stack, adtTo, adtFrom, adtSize),
                        baTo, baFrom, baSize, adtTo, adtFrom, adtSize)
  {
    hide Copied, NewOrder;
    if !Apart(stack, baSize, adtFrom, adtSize) && stack != baFrom {
      var x := if adtFrom >= stack then adtFrom else stack;
      m := map[baFrom + (x - stack) := 1];
      CopiedAt(m, stack, baFrom, baSize, x);
      NewOrderAt(m, baTo, baFrom, baSize, stack, adtTo, adtFrom, adtSize, x - adtFrom);
      var after := NewOrder(m, baTo, baFrom, baSize, stack, adtTo, adtFrom, adtSize);
      assert Load(after, adtTo, adtSize)[x - adtFrom] == 1 && Load(m, adtFrom, adtSize)[x - adtFrom] == 0;
    } else {
      var z := if adtTo >= stack then adtTo else stack;
      m := map[baFrom + (z - stack) := 1];
      CopiedAt(m, stack, baFrom, baSize, adtFrom + (z - adtTo));
      NewOrderAt(m, baTo, baFrom, baSize, stack, adtTo, adtFrom, adtSize, z - stack);
      var after := NewOrder(m, baTo, baFrom, baSize, stack, adtTo, adtFrom, adtSize);
      assert Load(after, baTo, baSize)[z - stack] == 0 && Load(m, baFrom, baSize)[z - stack] == 1;
    }
  }

  class Machine {
    var ram: Ram

    method CopyMem(to: int, from: int, n: nat)
      modifies this
      ensures ram == Copied(old(ram), to, from, n)
    {
      ram := Store(ram, to, Load(ram, from, n));
    }

    /** Saves BootArgs, reads the fields from the saved copy, checks both guards,
        then copies the ADT and last BootArgs.  `stack` is where the saved copy
        lies.  Wherever the two sources lie, overlapping the destinations or each
        other, both destinations end up with the bytes the sources had. */
    method HandOver(baFrom: int, baSize: nat, stack: int, baTo: u64, adtTo: u64, fdBase: u64, fdSize: u64,
                    fields: seq<u8> -> BootFields)
      returns (done: bool)
      modifies this
      ensures var f := fields(Load(old(ram), baFrom, baSize));
        var source := AdtSource(f.virtBase, f.devtree, f.physBase, f.memSize, f.adtSize);
        && done == (baSize <= 0x4000
             && Reserve(f.physBase, f.memSize, fdBase, fdSize, baTo, adtTo, f.adtSize).Some? && source.Some?)
        && ram == (if done then NewOrder(old(ram), baTo, baFrom, baSize, stack, adtTo, source.value, f.adtSize)
                   else Copied(old(ram), stack, baFrom, baSize))
        && (done && SavedCopySafe(baFrom, baSize, stack, adtTo, source.value, f.adtSize) ==>
              HandedOver(old(ram), ram, baTo, baFrom, baSize, adtTo, source.value, f.adtSize))
    {
      hide Reserve, AdtSource, Copied, HandedOver, SavedCopySafe;
      ghost var m0 := ram;
      CopyMem(stack, baFrom, baSize);
      CopyArrives(m0, stack, baFrom, baSize);
      var f := fields(Load(ram, stack, baSize));
      var reserve := Reserve(f.physBase, f.memSize, fdBase, fdSize, baTo, adtTo, f.adtSize);
      var source := AdtSource(f.virtBase, f.devtree, f.physBase, f.memSize, f.adtSize);
      if baSize > 0x4000 || reserve.None? || source.None? {
        return false;
      }
      CopyMem(adtTo, source.value, f.adtSize);
      CopyMem(baTo, stack, baSize);
      ReserveIsBackToBack(f.physBase, f.memSize, fdBase, fdSize, baTo, adtTo, f.adtSize);
      if SavedCopySafe(baFrom, baSize, stack, adtTo, source.value, f.adtSize) {
        NewOrderWorks(m0, baTo, baFrom, baSize, stack, adtTo, source.value, f.adtSize);
      }
      done := true;
    }
  }

  lemma ReserveIsBackToBack(ramBase: u64, ramSize: u64, fdBase: u64, fdSize: u64, baBase: u64, adtBase: u64,
      adtSize: u64)
    ensures Reserve(ramBase, ramSize, fdBase, fdSize, baBase, adtBase, adtSize).Some? ==> adtBase == baBase + 0x4000
  {
  }
}
