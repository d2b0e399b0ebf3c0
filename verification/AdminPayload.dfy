/** Identify and Get Log Page responses (admin_payload.c). */
module AdminPayload {
  import opened Words

  datatype Policy = Policy(primaryLbas: u64, linkLbas: u64, mdts: u8,
                           paired: bool, primaryReadonly: bool, volatileCache: bool)

  const LBA_LIMIT := 0x100_0000_0000  // 2^40

  predicate PolicyValid(p: Policy) {
    && p.primaryLbas != 0 && p.primaryLbas < LBA_LIMIT && p.mdts <= 8
    && (p.paired ==> p.linkLbas != 0 && p.linkLbas < LBA_LIMIT)
  }

  /** code: -1 invalid call, 0 not an Identify/Get Log Page command, 1 answered. */
  datatype Response = Response(code: int, status: u16, bytes: nat, page: seq<u8>)

  /** Command dword 10 + i. */
  function Dw(cmd: seq<u8>, i: nat): u32
    requires |cmd| == 64 && i < 6
  {
    Le32(cmd, 40 + 4 * i)
  }

  function Text(s: string, n: nat): (b: seq<u8>)
    ensures |b| == n
  {
    seq<u8>(n, i requires 0 <= i < n => if i < |s| then s[i] as int % 0x100 else 0x20)
  }

  function NamespacePage(lbas: u64, readonly: bool): (s: seq<u8>)
    ensures |s| == 4096
  {
    var size := ToLe(lbas, 8);
    Splice(Splice(Splice(Splice(Splice(Zeros(4096),
      0, size), 8, size), 16, size), 130, [12]), 99, [if readonly then 1 else 0])
  }

  function IdentityText(): (s: seq<u8>)
    ensures |s| == 4096
  {
    Splice(Splice(Splice(Splice(Splice(Zeros(4096),
      0, ToLe(0x1234, 2)), 2, ToLe(0x1234, 2)),
      4, Text("NWOAS-RO-00000000001", 20)),
      24, Text("NWOAS ANS2 READ ONLY BRIDGE", 40)), 64, Text("S92", 8))
  }

  function ControllerPage(p: Policy): (s: seq<u8>)
    ensures |s| == 4096
  {
    Splice(Splice(Splice(Splice(Splice(Splice(Splice(IdentityText(),
      77, [p.mdts]), 78, ToLe(1, 2)), 80, ToLe(0x10300, 4)),
      512, [0x66]), 513, [0x44]), 516, ToLe(if p.paired then 2 else 1, 4)),
      525, [if p.volatileCache then 1 else 0])
  }

  /** The active namespace IDs above nsid, in increasing order. */
  function ActiveAbove(p: Policy, nsid: u32): (ids: seq<u32>)
    ensures |ids| <= 2
  {
    (if nsid < 1 then [1] else []) + (if p.paired && nsid < 2 then [2] else [])
  }

  function ListPage(ids: seq<u32>): (s: seq<u8>)
    requires |ids| <= 2
    ensures |s| == 4096
  {
    var first := if |ids| > 0 then Splice(Zeros(4096), 0, ToLe(ids[0], 4)) else Zeros(4096);
    if |ids| > 1 then Splice(first, 4, ToLe(ids[1], 4)) else first
  }

  function Identify(cmd: seq<u8>, p: Policy, out: seq<u8>): (r: Response)
    requires |cmd| == 64 && |out| >= 4096
    ensures r.code == 1 && |r.page| == |out| && r.bytes <= 4096 && r.status in {0, 2, 0xb}
    ensures r.status != 0 ==> r.bytes == 0 && r.page == out
  {
    var nsid := Le32(cmd, 4);
    var cns := Dw(cmd, 0) % 0x100;
    if Dw(cmd, 0) / 0x100 != 0 || Dw(cmd, 1) != 0 || Dw(cmd, 2) != 0 || Dw(cmd, 3) != 0
       || Dw(cmd, 4) != 0 || Dw(cmd, 5) != 0 then Response(1, 2, 0, out)
    else if cns == 0 then
      if nsid != 1 && !(p.paired && nsid == 2) then Response(1, 0xb, 0, out)
      else
        var lbas := if nsid == 1 then p.primaryLbas else p.linkLbas;
        Response(1, 0, 4096, Splice(out, 0, NamespacePage(lbas, nsid == 1 && p.primaryReadonly)))
    else if cns == 1 then
      if nsid != 0 && nsid != U32_MAX then Response(1, 0xb, 0, out)
      else Response(1, 0, 4096, Splice(out, 0, ControllerPage(p)))
    else if cns == 2 then Response(1, 0, 4096, Splice(out, 0, ListPage(ActiveAbove(p, nsid))))
    else Response(1, 2, 0, out)
  }

  /** Log pages 1 (error), 2 (health) and 3 (firmware slot), `bytes` long. */
  function LogContents(lid: u8, bytes: nat): (s: seq<u8>)
    requires 4 <= bytes
    ensures |s| == bytes
  {
    if lid == 2 then Splice(Splice(Zeros(bytes), 1, ToLe(300, 2)), 3, [100])
    else if lid == 3 && bytes >= 16 then Splice(Splice(Zeros(bytes), 0, [1]), 8, Text("S93", 8))
    else Zeros(bytes)
  }

  function LogBytes(cmd: seq<u8>): nat
    requires |cmd| == 64
  {
    var numd := Dw(cmd, 0) / 0x1_0000 + 0x1_0000 * (Dw(cmd, 1) % 0x1_0000);
    (numd + 1) * 4
  }

  function LogPage(cmd: seq<u8>, out: seq<u8>): (r: Response)
    requires |cmd| == 64 && |out| >= 4096
    ensures r.code == 1 && |r.page| == |out| && r.bytes <= 4096 && r.status in {0, 2, 0xb}
    ensures r.status != 0 ==> r.bytes == 0 && r.page == out
  {
    var lid := Dw(cmd, 0) % 0x100;
    var bytes := LogBytes(cmd);
    if (lid != 1 && lid != 2 && lid != 3) || bytes > 4096 || Dw(cmd, 2) != 0 || Dw(cmd, 3) != 0
    then Response(1, 2, 0, out)
    else Response(1, 0, bytes, Splice(out, 0, LogContents(lid, bytes)))
  }

  function Respond(cmd: seq<u8>, p: Policy, out: seq<u8>): (r: Response)
    ensures |r.page| == |out| && r.bytes <= 4096 && r.status in {0, 2, 0xb}
    ensures r.code != 1 || r.status != 0 ==> r.bytes == 0 && r.page == out
  {
    if |cmd| != 64 || |out| < 4096 || !PolicyValid(p) then Response(-1, 2, 0, out)
    else if cmd[0] != 6 && cmd[0] != 2 then Response(0, 2, 0, out)
    else if cmd[1] != 0 || Le64(cmd, 16) != 0 then Response(1, 2, 0, out)
    else if cmd[0] == 6 then Identify(cmd, p, out)
    else LogPage(cmd, out)
  }

  // ----- the same responses, stored into the caller's buffer -----

  method Zero(out: array<u8>, n: nat)
    requires n <= out.Length
    modifies out
    ensures out[..] == Splice(old(out[..]), 0, Zeros(n))
  {
    var i := 0;
    while i < n
      invariant i <= n
      invariant forall k :: 0 <= k < out.Length ==> out[k] == if k < i then 0 else old(out[k])
    {
      out[i] := 0;
      i := i + 1;
    }
  }

  method Put(out: array<u8>, o: nat, value: u64, n: nat)
    requires o + n <= out.Length
    modifies out
    ensures out[..] == Splice(old(out[..]), o, ToLe(value, n))
  {
    var i := 0;
    while i < n
      invariant i <= n
      invariant forall k :: 0 <= k < out.Length ==>
        out[k] == if o <= k < o + i then ToLe(value, n)[k - o] else old(out[k])
    {
      ToLeAt(value, n, i);
      out[o + i] := Shr8(value, i) % 0x100;
      i := i + 1;
    }
  }

  method PutText(out: array<u8>, o: nat, s: string, n: nat)
    requires o + n <= out.Length
    modifies out
    ensures out[..] == Splice(old(out[..]), o, Text(s, n))
  {
    var ended := false;
    var i := 0;
    while i < n
      invariant i <= n
      invariant ended ==> |s| < i
      invariant !ended ==> i <= |s|
      invariant forall k :: 0 <= k < out.Length ==>
        out[k] == if o <= k < o + i then Text(s, n)[k - o] else old(out[k])
    {
      if !ended && i == |s| {
        ended := true;
      }
      out[o + i] := if ended then 0x20 else s[i] as int % 0x100;
      i := i + 1;
    }
  }

  method FillNamespace(out: array<u8>, lbas: u64, readonly: bool)
    requires out.Length >= 4096
    modifies out
    ensures out[..] == Splice(old(out[..]), 0, NamespacePage(lbas, readonly))
  {
    ghost var o, page, size := out[..], Zeros(4096), ToLe(lbas, 8);
    var bit := if readonly then 1 else 0;
    Zero(out, 4096);
    Put(out, 0, lbas, 8);
    SpliceInside(o, page, 0, size);
    page := Splice(page, 0, size);
    Put(out, 8, lbas, 8);
    SpliceInside(o, page, 8, size);
    page := Splice(page, 8, size);
    Put(out, 16, lbas, 8);
    SpliceInside(o, page, 16, size);
    page := Splice(page, 16, size);
    PutByte(out, 130, 12);
    SpliceInside(o, page, 130, [12]);
    page := Splice(page, 130, [12]);
    PutByte(out, 99, bit);
    SpliceInside(o, page, 99, [bit]);
  }

  /** Storing inside a page that was itself stored at the start of a buffer. */
  lemma SpliceInside(o: seq<u8>, page: seq<u8>, k: nat, b: seq<u8>)
    requires |page| <= |o| && k + |b| <= |page|
    ensures Splice(Splice(o, 0, page), k, b) == Splice(o, 0, Splice(page, k, b))
  {
  }

  method PutByte(out: array<u8>, o: nat, v: u8)
    requires o < out.Length
    modifies out
    ensures out[..] == Splice(old(out[..]), o, [v])
  {
    out[o] := v;
  }

  method FillIdentityText(out: array<u8>)
    requires out.Length >= 4096
    modifies out
    ensures out[..] == Splice(old(out[..]), 0, IdentityText())
  {
    ghost var o, page := out[..], Zeros(4096);
    Zero(out, 4096);
    Put(out, 0, 0x1234, 2);
    SpliceInside(o, page, 0, ToLe(0x1234, 2));
    page := Splice(page, 0, ToLe(0x1234, 2));
    Put(out, 2, 0x1234, 2);
    SpliceInside(o, page, 2, ToLe(0x1234, 2));
    page := Splice(page, 2, ToLe(0x1234, 2));
    PutText(out, 4, "NWOAS-RO-00000000001", 20);
    SpliceInside(o, page, 4, Text("NWOAS-RO-00000000001", 20));
    page := Splice(page, 4, Text("NWOAS-RO-00000000001", 20));
    PutText(out, 24, "NWOAS ANS2 READ ONLY BRIDGE", 40);
    SpliceInside(o, page, 24, Text("NWOAS ANS2 READ ONLY BRIDGE", 40));
    page := Splice(page, 24, Text("NWOAS ANS2 READ ONLY BRIDGE", 40));
    PutText(out, 64, "S92", 8);
    SpliceInside(o, page, 64, Text("S92", 8));
  }

  method FillController(out: array<u8>, p: Policy)
    requires out.Length >= 4096
    modifies out
    ensures out[..] == Splice(old(out[..]), 0, ControllerPage(p))
  {
    ghost var o, page := out[..], IdentityText();
    var spaces, cache := if p.paired then 2 else 1, if p.volatileCache then 1 else 0;
    FillIdentityText(out);
    PutByte(out, 77, p.mdts);
    SpliceInside(o, page, 77, [p.mdts]);
    page := Splice(page, 77, [p.mdts]);
    Put(out, 78, 1, 2);
    SpliceInside(o, page, 78, ToLe(1, 2));
    page := Splice(page, 78, ToLe(1, 2));
    Put(out, 80, 0x10300, 4);
    SpliceInside(o, page, 80, ToLe(0x10300, 4));
    page := Splice(page, 80, ToLe(0x10300, 4));
    PutByte(out, 512, 0x66);
    SpliceInside(o, page, 512, [0x66]);
    page := Splice(page, 512, [0x66]);
    PutByte(out, 513, 0x44);
    SpliceInside(o, page, 513, [0x44]);
    page := Splice(page, 513, [0x44]);
    Put(out, 516, spaces, 4);
    SpliceInside(o, page, 516, ToLe(spaces, 4));
    page := Splice(page, 516, ToLe(spaces, 4));
    PutByte(out, 525, cache);
    SpliceInside(o, page, 525, [cache]);
  }

  method FillList(out: array<u8>, p: Policy, nsid: u32)
    requires out.Length >= 4096
    modifies out
    ensures out[..] == Splice(old(out[..]), 0, ListPage(ActiveAbove(p, nsid)))
  {
    Zero(out, 4096);
    var i := 0;
    if nsid < 1 {
      Put(out, 4 * i, 1, 4);
      i := i + 1;
    }
    if p.paired && nsid < 2 {
      Put(out, 4 * i, 2, 4);
      i := i + 1;
    }
  }

  method FillLog(out: array<u8>, lid: u8, bytes: nat)
    requires 4 <= bytes <= 4096 <= out.Length
    modifies out
    ensures out[..] == Splice(old(out[..]), 0, LogContents(lid, bytes))
  {
    ghost var o := out[..];
    Zero(out, bytes);
    if lid == 2 {
      Put(out, 1, 300, 2);
      SpliceInside(o, Zeros(bytes), 1, ToLe(300, 2));
      PutByte(out, 3, 100);
      SpliceInside(o, Splice(Zeros(bytes), 1, ToLe(300, 2)), 3, [100]);
    }
    if lid == 3 && bytes >= 16 {
      PutByte(out, 0, 1);
      SpliceInside(o, Zeros(bytes), 0, [1]);
      PutText(out, 8, "S93", 8);
      SpliceInside(o, Splice(Zeros(bytes), 0, [1]), 8, Text("S93", 8));
    }
  }

  method FillIdentify(cmd: seq<u8>, p: Policy, out: array<u8>) returns (code: int, status: u16, bytes: nat)
    requires |cmd| == 64 && out.Length >= 4096
    modifies out
    ensures Response(code, status, bytes, out[..]) == Identify(cmd, p, old(out[..]))
  {
    var nsid := Le32(cmd, 4);
    if Dw(cmd, 0) / 0x100 != 0 || Dw(cmd, 1) != 0 || Dw(cmd, 2) != 0 || Dw(cmd, 3) != 0
       || Dw(cmd, 4) != 0 || Dw(cmd, 5) != 0 {
      return 1, 2, 0;
    }
    var cns := Dw(cmd, 0) % 0x100;
    if cns == 0 {
      if nsid != 1 && !(p.paired && nsid == 2) {
        return 1, 0xb, 0;
      }
      var lbas := if nsid == 1 then p.primaryLbas else p.linkLbas;
      FillNamespace(out, lbas, nsid == 1 && p.primaryReadonly);
    } else if cns == 1 {
      if nsid != 0 && nsid != U32_MAX {
        return 1, 0xb, 0;
      }
      FillController(out, p);
    } else if cns == 2 {
      FillList(out, p, nsid);
    } else {
      return 1, 2, 0;
    }
    return 1, 0, 4096;
  }

  method Fill(cmd: seq<u8>, p: Policy, out: array<u8>) returns (code: int, status: u16, bytes: nat)
    modifies out
    ensures Response(code, status, bytes, out[..]) == Respond(cmd, p, old(out[..]))
  {
    if |cmd| != 64 || out.Length < 4096 || !PolicyValid(p) {
      return -1, 2, 0;
    }
    if cmd[0] != 6 && cmd[0] != 2 {
      return 0, 2, 0;
    }
    if cmd[1] != 0 || Le64(cmd, 16) != 0 {
      return 1, 2, 0;
    }
    if cmd[0] == 6 {
      code, status, bytes := FillIdentify(cmd, p, out);
      return;
    }
    var lid := Dw(cmd, 0) % 0x100;
    bytes := LogBytes(cmd);
    if (lid != 1 && lid != 2 && lid != 3) || bytes > 4096 || Dw(cmd, 2) != 0 || Dw(cmd, 3) != 0 {
      return 1, 2, 0;
    }
    FillLog(out, lid, bytes);
    code, status := 1, 0;
  }

  // ----- what a host reads back -----

  lemma NamespaceFields(size: seq<u8>, bit: u8)
    requires |size| == 8
    ensures var s := Splice(Splice(Splice(Splice(Splice(Zeros(4096), 0, size), 8, size), 16, size),
      130, [12]), 99, [bit]);
      && s[0..8] == size && s[8..16] == size && s[16..24] == size && s[130] == 12 && s[99] == bit
      && forall i :: 24 <= i < 4096 && i != 99 && i != 130 ==> s[i] == 0
  {
  }

  /** Decoding an Identify Namespace page gives the policy's size three times, a
      4 KiB LBA format and the write-protect bit, and nothing else is set. */
  lemma NamespacePageDecodes(lbas: u64, readonly: bool)
    ensures var s := NamespacePage(lbas, readonly);
      && Le64(s, 0) == Le64(s, 8) == Le64(s, 16) == lbas
      && s[130] == 12 && s[99] == (if readonly then 1 else 0)
      && forall i :: 24 <= i < 4096 && i != 99 && i != 130 ==> s[i] == 0
  {
    var s := NamespacePage(lbas, readonly);
    NamespaceFields(ToLe(lbas, 8), if readonly then 1 else 0);
    RoundTrip64(lbas, s, 0);
    RoundTrip64(lbas, s, 8);
    RoundTrip64(lbas, s, 16);
  }

  lemma FieldSet(s: seq<u8>, o: nat, b: seq<u8>)
    requires o + |b| <= |s|
    ensures Splice(s, o, b)[o..o + |b|] == b
  {
  }

  lemma FieldKept(s: seq<u8>, o: nat, b: seq<u8>, i: nat, n: nat)
    requires o + |b| <= |s| && i + n <= |s| && (i + n <= o || o + |b| <= i)
    ensures Splice(s, o, b)[i..i + n] == s[i..i + n]
  {
  }

  lemma IdentityFields(vendor: seq<u8>, serial: seq<u8>, model: seq<u8>, revision: seq<u8>)
    requires |vendor| == 2 && |serial| == 20 && |model| == 40 && |revision| == 8
    ensures var s := Splice(Splice(Splice(Splice(Splice(Zeros(4096), 0, vendor), 2, vendor), 4, serial),
      24, model), 64, revision);
      && s[0..2] == s[2..4] == vendor && s[4..24] == serial && s[24..64] == model && s[64..72] == revision
      && forall i :: 72 <= i < 4096 ==> s[i] == 0
  {
    var s1 := Splice(Zeros(4096), 0, vendor);
    var s2 := Splice(s1, 2, vendor);
    var s3 := Splice(s2, 4, serial);
    var s4 := Splice(s3, 24, model);
    FieldSet(Zeros(4096), 0, vendor);
    FieldSet(s1, 2, vendor);
    FieldSet(s2, 4, serial);
    FieldSet(s3, 24, model);
    FieldSet(s4, 64, revision);
    var s := Splice(s4, 64, revision);
    FieldKept(s1, 2, vendor, 0, 2);
    FieldKept(s2, 4, serial, 0, 2);
    FieldKept(s2, 4, serial, 2, 2);
    FieldKept(s3, 24, model, 0, 2);
    FieldKept(s3, 24, model, 2, 2);
    FieldKept(s3, 24, model, 4, 20);
    FieldKept(s4, 64, revision, 0, 2);
    FieldKept(s4, 64, revision, 2, 2);
    FieldKept(s4, 64, revision, 4, 20);
    FieldKept(s4, 64, revision, 24, 40);
    assert s[0..2] == vendor && s[2..4] == vendor;
  }

  /** Which bytes of the page are set apart from its first 72. */
  predicate ControllerByte(i: nat) {
    77 <= i < 84 || i == 512 || i == 513 || 516 <= i < 520 || i == 525
  }

  lemma ControllerFields(t: seq<u8>, m: seq<u8>, one: seq<u8>, version: seq<u8>, n: seq<u8>, v: seq<u8>)
    requires |t| == 4096 && |m| == 1 && |one| == 2 && |version| == 4 && |n| == 4 && |v| == 1
    ensures var s := Splice(Splice(Splice(Splice(Splice(Splice(Splice(t, 77, m), 78, one), 80, version),
                       512, [0x66]), 513, [0x44]), 516, n), 525, v);
      && s[77] == m[0] && s[525] == v[0] && s[80..84] == version && s[516..520] == n
      && s[78..80] == one && s[512] == 0x66 && s[513] == 0x44 && s[..72] == t[..72]
      && forall i :: 72 <= i < 4096 && !ControllerByte(i) ==> s[i] == t[i]
  {
    var s2 := Splice(Splice(t, 77, m), 78, one);
    var s3 := Splice(s2, 80, version);
    var s4 := Splice(s3, 512, [0x66]);
    var s5 := Splice(s4, 513, [0x44]);
    var s6 := Splice(s5, 516, n);
    FieldSet(s2, 80, version);
    FieldKept(s3, 512, [0x66], 80, 4);
    FieldKept(s4, 513, [0x44], 80, 4);
    FieldKept(s5, 516, n, 80, 4);
    FieldSet(s5, 516, n);
    FieldKept(s6, 525, v, 80, 4);
    FieldKept(s6, 525, v, 516, 4);
  }

  /** Decoding an Identify Controller page gives back everything put into it: the
      vendor, the three texts, the transfer-size limit, controller 1, version 1.3,
      the entry sizes, the number of namespaces and the volatile-cache bit; all
      else is zero. */
  lemma ControllerPageDecodes(p: Policy)
    ensures var s := ControllerPage(p);
      && Le16(s, 0) == Le16(s, 2) == 0x1234 && s[4..24] == Text("NWOAS-RO-00000000001", 20)
      && s[24..64] == Text("NWOAS ANS2 READ ONLY BRIDGE", 40) && s[64..72] == Text("S92", 8)
      && s[77] == p.mdts && Le16(s, 78) == 1 && Le32(s, 80) == 0x10300 && s[512] == 0x66 && s[513] == 0x44
      && Le32(s, 516) == (if p.paired then 2 else 1) && s[525] == (if p.volatileCache then 1 else 0)
      && forall i :: 72 <= i < 4096 && !ControllerByte(i) ==> s[i] == 0
  {
    hide ToLe, Text, Splice;
    var n := if p.paired then 2 else 1;
    var s, t := ControllerPage(p), IdentityText();
    IdentityFields(ToLe(0x1234, 2), Text("NWOAS-RO-00000000001", 20), Text("NWOAS ANS2 READ ONLY BRIDGE", 40),
      Text("S92", 8));
    ControllerFields(t, [p.mdts], ToLe(1, 2), ToLe(0x10300, 4), ToLe(n, 4), [if p.volatileCache then 1 else 0]);
    hide ControllerPage, IdentityText;
    Inner(t, s, 0, 2, 72);
    Inner(t, s, 2, 4, 72);
    Inner(t, s, 4, 24, 72);
    Inner(t, s, 24, 64, 72);
    Inner(t, s, 64, 72, 72);
    RoundTrip16(0x1234, s, 0);
    RoundTrip16(0x1234, s, 2);
    RoundTrip16(1, s, 78);
    RoundTrip32(0x10300, s, 80);
    RoundTrip32(n, s, 516);
  }

  lemma Inner(t: seq<u8>, s: seq<u8>, i: nat, j: nat, n: nat)
    requires i <= j <= n <= |t| && n <= |s| && s[..n] == t[..n]
    ensures s[i..j] == t[i..j]
  {
    assert s[i..j] == s[..n][i..j] && t[i..j] == t[..n][i..j];
  }

  lemma ListBytes(ids: seq<u32>)
    requires |ids| <= 2
    ensures var s := ListPage(ids);
      && (|ids| > 0 ==> s[0..4] == ToLe(ids[0], 4))
      && (|ids| > 1 ==> s[4..8] == ToLe(ids[1], 4))
      && (forall k :: 4 * |ids| <= k < 4096 ==> s[k] == 0)
  {
    hide ToLe;
    if |ids| > 0 {
      FieldSet(Zeros(4096), 0, ToLe(ids[0], 4));
    }
    if |ids| > 1 {
      var first := Splice(Zeros(4096), 0, ToLe(ids[0], 4));
      FieldSet(first, 4, ToLe(ids[1], 4));
      FieldKept(first, 4, ToLe(ids[1], 4), 0, 4);
    }
  }

  lemma ListEntry(ids: seq<u32>, i: nat)
    requires |ids| <= 2 && i < 1024
    ensures Le32(ListPage(ids), 4 * i) == if i < |ids| then ids[i] else 0
  {
    ListBytes(ids);
    var s := ListPage(ids);
    hide ListPage, ToLe;
    if i < |ids| {
      RoundTrip32(ids[i], s, 4 * i);
    }
  }

  /** The namespace list holds the active identifiers above nsid in increasing
      order, and zeros after them. */
  lemma ListPageDecodes(p: Policy, nsid: u32, i: nat)
    requires i < 1024
    ensures var ids := ActiveAbove(p, nsid);
      Le32(ListPage(ids), 4 * i) == if i < |ids| then ids[i] else 0
    ensures forall n :: n in ActiveAbove(p, nsid) <==> nsid < n && (n == 1 || (p.paired && n == 2))
    ensures |ActiveAbove(p, nsid)| == 2 ==> ActiveAbove(p, nsid) == [1, 2]
  {
    ListEntry(ActiveAbove(p, nsid), i);
    hide ListPage, Le32;
  }

  /** Log pages: the health page gives 300 kelvin and 100 per cent spare, the
      firmware page slot 1 and its revision, and everything else is zero. */
  lemma LogPageDecodes(lid: u8, bytes: nat, i: nat)
    requires 4 <= bytes && i < bytes
    ensures var s := LogContents(lid, bytes);
      && (lid == 2 ==> Le16(s, 1) == 300 && s[3] == 100 && (i == 0 || i > 3 ==> s[i] == 0))
      && (lid == 3 && bytes >= 16 ==>
            s[0] == 1 && s[8..16] == Text("S93", 8) && (1 <= i < 8 || i >= 16 ==> s[i] == 0))
      && (lid != 2 && !(lid == 3 && bytes >= 16) ==> s[i] == 0)
  {
    if lid == 2 {
      var t := Splice(Zeros(bytes), 1, ToLe(300, 2));
      FieldSet(Zeros(bytes), 1, ToLe(300, 2));
      FieldKept(t, 3, [100], 1, 2);
      RoundTrip16(300, LogContents(lid, bytes), 1);
    }
  }
}
