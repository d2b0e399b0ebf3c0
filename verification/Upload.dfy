/** The fixed-artifact receive channel (file-upload-s169/receiver.py): one frame
    of 64 KiB at a time, acknowledged in a block of its own. */
module Upload {
  import opened Words

  const BLOCK := 4096
  const WINDOW := 65536
  const HEADER := 128
  const CAP := 65408
  const ACK_LBA := 176

  const BEGIN := 0
  const DATA := 1
  const END := 2

  function Ascii(s: string): (b: seq<u8>)
    ensures |b| == |s|
  {
    seq<u8>(|s|, i requires 0 <= i < |s| => s[i] as int % 0x100)
  }

  const MAGIC := Ascii("NWOAS-S169-UPLD!")
  const ACK_MAGIC := Ascii("NWOAS-S169-UACK!")

  /** The two checks the program takes from libraries. */
  datatype Hashes = Hashes(sha: seq<u8> -> seq<u8>, crc: seq<u8> -> u32)

  /** What is registered: the session token, the size and the digest. */
  datatype Registered = Registered(token: seq<u8>, size: nat, digest: seq<u8>)

  predicate RegisteredOk(g: Registered) {
    |g.token| == 16 && 1 <= g.size <= U64_MAX && |g.digest| == 32
  }

  /** `hashed` are the bytes fed to the digest, `last` the signature of the last
      accepted frame, `open` whether the partial file is being written. */
  datatype Receiver = Receiver(seqNo: u32, received: nat, hashed: seq<u8>, open: bool, last: Option<seq<u8>>,
                               done: bool, failed: bool, ack: seq<u8>)

  /** The two files; the k-th fallible file operation fails when k is in
      `failing`, and a failing write may leave the first `torn` bytes behind. */
  datatype Files = Files(dest: Option<seq<u8>>, part: Option<seq<u8>>, calls: nat)

  datatype Faults = Faults(failing: set<nat>, torn: nat)

  predicate AllZero(s: seq<u8>) {
    forall i :: 0 <= i < |s| ==> s[i] == 0
  }

  lemma AllZeroIsZeros(s: seq<u8>)
    requires AllZero(s)
    ensures s == Zeros(|s|)
  {
  }

  // ----- frames -----

  datatype Fields = Fields(seqNo: u32, kind: u32, offset: u64, size: u64, n: u32, crc: u32)

  function Parse(b: seq<u8>): Fields
    requires |b| == WINDOW
  {
    Fields(Le32(b, 32), Le32(b, 36), Le64(b, 40), Le64(b, 48), Le32(b, 56), Le32(b, 60))
  }

  /** Magic, token, digest, both checksums, zero padding, size and a sequence number. */
  predicate Genuine(h: Hashes, g: Registered, b: seq<u8>)
    requires RegisteredOk(g)
  {
    && |b| == WINDOW && b[..16] == MAGIC && b[16..32] == g.token
    && var f := Parse(b);
    && b[64..96] == g.digest && AllZero(b[96..124]) && h.crc(b[..124]) == Le32(b, 124)
    && f.n <= CAP && AllZero(b[HEADER + f.n..]) && h.crc(b[HEADER..HEADER + f.n]) == f.crc
    && f.size == g.size && f.seqNo != 0
  }

  function AckHead(g: Registered, seqNo: u32, status: u32, received: nat): (b: seq<u8>)
    requires RegisteredOk(g) && received <= U64_MAX
    ensures |b| == 124
  {
    ACK_MAGIC + g.token + ToLe(seqNo, 4) + ToLe(status, 4) + ToLe(received, 8) + ToLe(g.size, 8) + Zeros(8)
    + g.digest + Zeros(28)
  }

  function AckBlock(h: Hashes, g: Registered, seqNo: u32, status: u32, received: nat): (b: seq<u8>)
    requires RegisteredOk(g) && received <= U64_MAX
    ensures |b| == BLOCK
  {
    var head := AckHead(g, seqNo, status, received);
    head + ToLe(h.crc(head), 4) + Zeros(BLOCK - 128)
  }

  function Status(r: Receiver): u32 {
    if r.failed then 2 else if r.done then 1 else 0
  }

  function Acked(h: Hashes, g: Registered, r: Receiver): Receiver
    requires RegisteredOk(g) && r.received <= U64_MAX
  {
    r.(ack := AckBlock(h, g, r.seqNo, Status(r), r.received))
  }

  function Initial(h: Hashes, g: Registered): Receiver
    requires RegisteredOk(g)
  {
    Acked(h, g, Receiver(0, 0, [], false, None, false, false, []))
  }

  // ----- file operations -----

  function Called(w: Files): Files {
    w.(calls := w.calls + 1)
  }

  predicate Works(t: Faults, w: Files) {
    w.calls !in t.failing
  }

  /** A new file for writing; fails when it is already there. */
  function Open(t: Faults, w: Files): (bool, Files) {
    if !Works(t, w) || w.part.Some? then (false, Called(w)) else (true, Called(w).(part := Some([])))
  }

  function Torn(t: Faults, b: seq<u8>): seq<u8> {
    if |b| <= t.torn then b else b[..t.torn]
  }

  function Append(t: Faults, w: Files, b: seq<u8>): (bool, Files) {
    var old_ := if w.part.Some? then w.part.value else [];
    if !Works(t, w) then (false, Called(w).(part := Some(old_ + Torn(t, b))))
    else (true, Called(w).(part := Some(old_ + b)))
  }

  /** Flush and close, link to the destination without replacing it, drop the partial name. */
  function PublishFile(t: Faults, w: Files): (bool, Files) {
    if !Works(t, w) then (false, Called(w))
    else
      var w1 := Called(w);
      if !Works(t, w1) || w1.dest.Some? then (false, Called(w1))
      else
        var w2 := Called(w1).(dest := w1.part);
        if !Works(t, w2) then (false, Called(w2)) else (true, Called(w2).(part := None))
  }

  // ----- accepting a frame -----

  /** The frame is the next one in order and its kind fits the state. */
  predicate Expected(g: Registered, r: Receiver, f: Fields) {
    && !r.failed && !r.done && f.seqNo == r.seqNo + 1 && f.offset == r.received
    && (if f.kind == BEGIN then r.seqNo == 0 && f.n == 0 && f.offset == 0
        else if f.kind == DATA then
          r.open && r.received <= g.size && f.n != 0
          && f.n as int == (if CAP <= g.size - r.received then CAP else g.size - r.received)
        else f.kind == END && r.open && f.n == 0 && r.received == g.size)
  }

  function GiveUp(h: Hashes, g: Registered, r: Receiver): Receiver
    requires RegisteredOk(g) && r.received <= U64_MAX
  {
    Acked(h, g, r.(failed := true, open := false))
  }

  function Took(h: Hashes, g: Registered, r: Receiver, b: seq<u8>): Receiver
    requires RegisteredOk(g) && r.received <= U64_MAX && r.seqNo < U32_MAX
  {
    Acked(h, g, r.(seqNo := r.seqNo + 1, last := Some(h.sha(b))))
  }

  predicate Sized(g: Registered, r: Receiver) {
    r.received <= g.size
  }

  function Accept(h: Hashes, g: Registered, t: Faults, r: Receiver, w: Files, b: seq<u8>): (o: (bool, Receiver, Files))
    requires RegisteredOk(g) && Sized(g, r)
    ensures Sized(g, o.1)
  {
    if !Genuine(h, g, b) then (false, r, w)
    else
      var f := Parse(b);
      if f.seqNo == r.seqNo then (r.last == Some(h.sha(b)), r, w)
      else if !Expected(g, r, f) then (false, r, w)
      else if f.kind == BEGIN then
        if w.dest.Some? then (false, r, w)
        else
          var (ok, w1) := Open(t, w);
          if ok then (true, Took(h, g, r.(open := true), b), w1) else (false, GiveUp(h, g, r), w1)
      else if f.kind == DATA then
        var payload := b[HEADER..HEADER + f.n];
        var (ok, w1) := Append(t, w, payload);
        if ok then
          (true, Took(h, g, r.(hashed := r.hashed + payload, received := r.received + f.n as int), b), w1)
        else (false, GiveUp(h, g, r), w1)
      else if h.sha(r.hashed) != g.digest then (false, GiveUp(h, g, r), w)
      else
        var (ok, w1) := PublishFile(t, w);
        if ok then (true, Took(h, g, r.(open := false, done := true), b), w1) else (false, GiveUp(h, g, r), w1)
  }

  /** Reads that cover the acknowledgement block see it; all else is untouched. */
  function Overlaid(r: Receiver, lba: nat, n: nat, original: seq<u8>): Option<seq<u8>>
    requires |r.ack| == BLOCK
  {
    if |original| != n * BLOCK || n < 1 then None
    else if !(lba <= ACK_LBA < lba + n) then Some(original)
    else Some(Splice(original, (ACK_LBA - lba) * BLOCK, r.ack))
  }

  // ----- whatever frames arrive -----

  /** While the partial file is open it holds exactly the bytes digested so far. */
  predicate Faithful(g: Registered, r: Receiver, w: Files) {
    && Sized(g, r) && |r.hashed| == r.received
    && (r.open ==> w.part == Some(r.hashed) && !r.done && !r.failed)
    && (r.done ==> r.received == g.size)
    && (r.seqNo == 0 ==> !r.open && !r.done && r.received == 0)
  }

  /** Anything that appears at the destination has the registered size and
      digest, a destination that exists is never replaced, and a rejected frame
      changes nothing unless a file operation or the digest failed. */
  lemma OnlyVerifiedIsPublished(h: Hashes, g: Registered, t: Faults, r: Receiver, w: Files, b: seq<u8>)
    requires RegisteredOk(g) && Faithful(g, r, w)
    ensures var (ok, r1, w1) := Accept(h, g, t, r, w, b);
      && Faithful(g, r1, w1)
      && (w1.dest != w.dest ==>
            w.dest.None? && w1.dest.Some? && |w1.dest.value| == g.size && h.sha(w1.dest.value) == g.digest)
      && (r1.done && !r.done ==> w1.dest == Some(r.hashed))
      && (!ok && !r1.failed ==> r1 == r && w1 == w)
      && (r.done || r.failed ==> r1 == r && w1 == w)
  {
    if Genuine(h, g, b) {
      GenuineShape(h, g, b);
    }
    hide Genuine, AckBlock;
  }

  lemma GenuineShape(h: Hashes, g: Registered, b: seq<u8>)
    requires RegisteredOk(g) && Genuine(h, g, b)
    ensures |b| == WINDOW && Parse(b).n <= CAP && Parse(b).seqNo != 0
  {
  }

  /** The receiver and the files after the first k of any frames, with any file faults. */
  function After(h: Hashes, g: Registered, t: Faults, w: Files, frames: seq<seq<u8>>, k: nat): (o: (Receiver, Files))
    requires RegisteredOk(g) && k <= |frames|
    ensures Sized(g, o.0)
  {
    if k == 0 then (Initial(h, g), w)
    else
      var (r, v) := After(h, g, t, w, frames, k - 1);
      var (_, r1, v1) := Accept(h, g, t, r, v, frames[k - 1]);
      (r1, v1)
  }

  /** Over every run of arbitrary frames and file faults, the destination is
      either what it was or a file of the registered size and digest. */
  lemma {:induction false} EveryRunPublishesVerified(h: Hashes, g: Registered, t: Faults, w: Files,
                                                     frames: seq<seq<u8>>, k: nat)
    requires RegisteredOk(g) && k <= |frames|
    ensures var (r, v) := After(h, g, t, w, frames, k);
      && Faithful(g, r, v)
      && (v.dest == w.dest
        || (w.dest.None? && v.dest.Some? && |v.dest.value| == g.size && h.sha(v.dest.value) == g.digest))
  {
    hide Accept, AckBlock;
    if k > 0 {
      EveryRunPublishesVerified(h, g, t, w, frames, k - 1);
      var (r, v) := After(h, g, t, w, frames, k - 1);
      OnlyVerifiedIsPublished(h, g, t, r, v, frames[k - 1]);
    }
  }

  /** How a closing frame ends that is due and whose digest is right: when
      flushing, linking and dropping the partial name all work, done; otherwise
      failed, with the file at the destination all the same exactly when only
      dropping the partial name went wrong. */
  lemma ClosingFrameEnds(h: Hashes, g: Registered, t: Faults, r: Receiver, w: Files, b: seq<u8>)
    requires RegisteredOk(g) && Faithful(g, r, w) && Genuine(h, g, b) && Expected(g, r, Parse(b))
    requires Parse(b).kind == END
    requires h.sha(r.hashed) == g.digest && w.dest.None?
    ensures var (ok, r1, w1) := Accept(h, g, t, r, w, b);
      var linked := w.calls !in t.failing && w.calls + 1 !in t.failing;
      && w1.dest == (if linked then Some(r.hashed) else None)
      && ok == (linked && w.calls + 2 !in t.failing)
      && (ok ==> w1.part.None? && w1.calls == w.calls + 3 && r1 == Took(h, g, r.(open := false, done := true), b))
      && (!ok ==> w1.part == w.part && r1 == GiveUp(h, g, r))
  {
    hide Genuine, AckBlock;
  }
}
