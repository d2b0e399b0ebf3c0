/** What the receiver does with arbitrary frames: which blocks are frames at all,
    exactly which of them it accepts, and what it acknowledges. */
module UploadFrames {
  import opened Words
  import opened Upload
  import opened UploadRuns
  import opened UploadClient

  // ----- which blocks are frames -----

  lemma TenParts(s: seq<u8>)
    requires |s| == WINDOW
    ensures s[..124] == s[..16] + s[16..32] + s[32..36] + s[36..40] + s[40..48] + s[48..56] + s[56..60] + s[60..64]
                        + s[64..96] + s[96..124]
  {
  }

  lemma FourParts(s: seq<u8>, n: nat)
    requires |s| == WINDOW && n <= CAP
    ensures s == s[..124] + s[124..128] + s[128..128 + n] + s[128 + n..]
  {
  }

  /** A block passes the receiver's checks only when it is, byte for byte, the
      frame a sender builds from its fields and its payload; and each of those
      passes (FrameIsGenuine). */
  lemma GenuineIsBuilt(h: Hashes, g: Registered, b: seq<u8>)
    requires RegisteredOk(g) && Genuine(h, g, b)
    ensures |b| == WINDOW && Parse(b).n <= CAP && b[..16] == Ascii("NWOAS-S169-UPLD!")
    ensures var f := Parse(b);
      f.seqNo != 0 && b == Frame(h, g, f.seqNo, f.kind, f.offset, b[HEADER..HEADER + f.n])
  {
    var f := Parse(b);
    var payload := b[HEADER..HEADER + f.n];
    AllZeroIsZeros(b[96..124]);
    AllZeroIsZeros(b[HEADER + f.n..]);
    BytesOf32(b, 32);
    BytesOf32(b, 36);
    BytesOf64(b, 40);
    BytesOf64(b, 48);
    BytesOf32(b, 56);
    BytesOf32(b, 60);
    BytesOf32(b, 124);
    TenParts(b);
    FourParts(b, f.n);
    hide ToLe, Le32, Le64, AllZero;
    assert b[..124] == FrameHead(h, g, f.seqNo, f.kind, f.offset, payload);
  }

  // ----- which frames are accepted -----

  /** The state of a receiver that has taken k frames of the registered size,
      whatever bytes they carried. */
  predicate Progressed(g: Registered, r: Receiver, k: nat)
    requires RegisteredOk(g)
  {
    && k <= LastSeq(g.size) && r.seqNo == k && r.received == Received(g.size, k)
    && r.done == (k == LastSeq(g.size))
    && (!r.failed ==> r.open == (1 <= k < LastSeq(g.size)))
  }

  /** The only frame that fits after k: its number, kind, offset and length. */
  predicate Fits(g: Registered, k: nat, f: Fields)
    requires RegisteredOk(g)
  {
    && k < LastSeq(g.size) && f.seqNo == k + 1 && f.kind == Kind(g.size, k + 1)
    && f.offset == Received(g.size, k) && f.n == Received(g.size, k + 1) - Received(g.size, k)
  }

  lemma FitsIsExpected(g: Registered, r: Receiver, f: Fields)
    requires RegisteredOk(g) && Progressed(g, r, r.seqNo) && Sized(g, r) && !r.failed
    ensures Expected(g, r, f) <==> Fits(g, r.seqNo, f)
  {
    var k := r.seqNo;
    if 1 <= k <= Chunks(g.size) {
      ReceivedBounds(g.size, k);
    } else if k == Chunks(g.size) + 1 {
      ReceivedBounds(g.size, Chunks(g.size));
    }
  }

  /** The file operations of the frame that fits after k work. */
  predicate Possible(h: Hashes, g: Registered, t: Faults, r: Receiver, w: Files, kind: u32) {
    if kind == BEGIN then w.dest.None? && w.part.None? && w.calls !in t.failing
    else if kind == DATA then w.calls !in t.failing
    else
      && h.sha(r.hashed) == g.digest && w.dest.None?
      && w.calls !in t.failing && w.calls + 1 !in t.failing && w.calls + 2 !in t.failing
  }

  /** A genuine frame with a new number is accepted exactly when it is the one
      that fits and everything it asks for works; then the receiver has taken one
      frame more, with the payload digested.  One that does not fit, or finds
      the destination there when it opens, changes nothing; any other failure is final. */
  lemma AcceptedExactly(h: Hashes, g: Registered, t: Faults, r: Receiver, w: Files, b: seq<u8>)
    requires RegisteredOk(g) && Faithful(g, r, w) && Progressed(g, r, r.seqNo)
    requires Genuine(h, g, b) && Parse(b).seqNo != r.seqNo
    ensures var (ok, r1, w1) := Accept(h, g, t, r, w, b);
      var f := Parse(b);
      var fits := !r.failed && Fits(g, r.seqNo, f);
      && (ok <==> fits && Possible(h, g, t, r, w, f.kind))
      && (ok ==> !r1.failed && Progressed(g, r1, r.seqNo as int + 1) && f.n <= CAP && |b| == WINDOW
                 && r1.hashed == r.hashed + b[HEADER..HEADER + f.n] && r1.last == Some(h.sha(b)))
      && (!ok && !(fits && !(f.kind == BEGIN && w.dest.Some?)) ==> r1 == r && w1 == w)
      && (fits && !ok && !(f.kind == BEGIN && w.dest.Some?) ==>
            r1.failed && r1.seqNo == r.seqNo && Progressed(g, r1, r.seqNo))
  {
    GenuineShape(h, g, b);
    if !r.failed {
      FitsIsExpected(g, r, Parse(b));
    }
    hide Genuine, AckBlock, Parse, Expected;
    if !r.failed && Fits(g, r.seqNo, Parse(b)) {
      FittingFrame(h, g, t, r, w, b);
    }
  }

  lemma FittingFrame(h: Hashes, g: Registered, t: Faults, r: Receiver, w: Files, b: seq<u8>)
    requires RegisteredOk(g) && Faithful(g, r, w) && Progressed(g, r, r.seqNo) && !r.failed
    requires |b| == WINDOW && Parse(b).n <= CAP
    requires Genuine(h, g, b) && Fits(g, r.seqNo, Parse(b)) && Expected(g, r, Parse(b))
    ensures var (ok, r1, w1) := Accept(h, g, t, r, w, b);
      var f := Parse(b);
      && (ok <==> Possible(h, g, t, r, w, f.kind))
      && (ok ==> !r1.failed && Progressed(g, r1, r.seqNo as int + 1)
                 && r1.hashed == r.hashed + b[HEADER..HEADER + f.n] && r1.last == Some(h.sha(b)))
      && (!ok && f.kind == BEGIN && w.dest.Some? ==> r1 == r && w1 == w)
      && (!ok && !(f.kind == BEGIN && w.dest.Some?) ==>
            r1.failed && r1.seqNo == r.seqNo && Progressed(g, r1, r.seqNo))
  {
    hide Genuine, AckBlock, Parse, Chunks;
    var k := r.seqNo;
    assert r.hashed + [] == r.hashed;
    if Parse(b).kind == END {
      assert b[HEADER..HEADER + Parse(b).n] == [];
    }
  }

  lemma InitiallyProgressed(h: Hashes, g: Registered)
    requires RegisteredOk(g)
    ensures Progressed(g, Initial(h, g), 0)
  {
  }

  /** Over every run of arbitrary frames and file faults the receiver has taken
      some number of frames of the registered size, and AcceptedExactly applies. */
  lemma {:induction false} EveryRunProgresses(h: Hashes, g: Registered, t: Faults, w: Files, frames: seq<seq<u8>>,
      k: nat)
    requires RegisteredOk(g) && k <= |frames|
    ensures var (r, v) := After(h, g, t, w, frames, k); Faithful(g, r, v) && Progressed(g, r, r.seqNo)
  {
    hide Accept, AckBlock, Progressed, Faithful, Initial;
    EveryRunPublishesVerified(h, g, t, w, frames, k);
    if k == 0 {
      InitiallyProgressed(h, g);
    } else {
      EveryRunProgresses(h, g, t, w, frames, k - 1);
      var (r, v) := After(h, g, t, w, frames, k - 1);
      FrameProgresses(h, g, t, r, v, frames[k - 1]);
    }
  }

  lemma FrameProgresses(h: Hashes, g: Registered, t: Faults, r: Receiver, w: Files, b: seq<u8>)
    requires RegisteredOk(g) && Faithful(g, r, w) && Progressed(g, r, r.seqNo)
    ensures var (_, r1, w1) := Accept(h, g, t, r, w, b); Progressed(g, r1, r1.seqNo)
  {
    if Genuine(h, g, b) && Parse(b).seqNo != r.seqNo {
      AcceptedExactly(h, g, t, r, w, b);
      hide Accept, Genuine, Parse;
    } else {
      NotNew(h, g, t, r, w, b);
      hide Accept, Genuine, Parse;
    }
  }

  lemma NotNew(h: Hashes, g: Registered, t: Faults, r: Receiver, w: Files, b: seq<u8>)
    requires RegisteredOk(g) && Sized(g, r) && (Genuine(h, g, b) ==> Parse(b).seqNo == r.seqNo)
    ensures var (ok, r1, w1) := Accept(h, g, t, r, w, b);
      r1 == r && w1 == w && (ok <==> Genuine(h, g, b) && r.last == Some(h.sha(b)))
  {
    hide Genuine, Parse, AckBlock;
  }

  // ----- frames that come again -----

  /** An accepted frame sent again is accepted without effect, whatever it was
      and whichever file operations fail. */
  lemma RepeatAccepted(h: Hashes, g: Registered, t: Faults, r: Receiver, w: Files, b: seq<u8>)
    requires RegisteredOk(g) && Sized(g, r)
    ensures var (ok, r1, w1) := Accept(h, g, t, r, w, b);
      ok ==> Accept(h, g, t, r1, w1, b) == (true, r1, w1)
  {
    hide Genuine, AckBlock;
  }

  /** The last of the first k frames that was taken as a new one. */
  function Latest(h: Hashes, g: Registered, t: Faults, w: Files, frames: seq<seq<u8>>, k: nat): Option<seq<u8>>
    requires RegisteredOk(g) && k <= |frames|
  {
    if k == 0 then None
    else if After(h, g, t, w, frames, k).0.seqNo != After(h, g, t, w, frames, k - 1).0.seqNo then Some(frames[k - 1])
    else Latest(h, g, t, w, frames, k - 1)
  }

  lemma {:induction false} LatestIsLast(h: Hashes, g: Registered, t: Faults, w: Files, frames: seq<seq<u8>>, k: nat)
    requires RegisteredOk(g) && k <= |frames|
    ensures var last, r := Latest(h, g, t, w, frames, k), After(h, g, t, w, frames, k).0;
      && r.last == (if last.Some? then Some(h.sha(last.value)) else None)
      && (last.None? <==> r.seqNo == 0)
      && (last.Some? ==> Genuine(h, g, last.value) && Parse(last.value).seqNo == r.seqNo)
  {
    hide AckBlock, Genuine, Accept, Parse;
    if k > 0 {
      LatestIsLast(h, g, t, w, frames, k - 1);
      var (r, v) := After(h, g, t, w, frames, k - 1);
      FrameSigned(h, g, t, r, v, frames[k - 1]);
    }
  }

  lemma FrameSigned(h: Hashes, g: Registered, t: Faults, r: Receiver, w: Files, b: seq<u8>)
    requires RegisteredOk(g) && Sized(g, r)
    ensures var (ok, r1, w1) := Accept(h, g, t, r, w, b);
      if r1.seqNo == r.seqNo then r1.last == r.last
      else ok && r1.last == Some(h.sha(b)) && Genuine(h, g, b) && Parse(b).seqNo == r1.seqNo == r.seqNo + 1
  {
    hide Genuine, AckBlock;
  }

  /** Over every run: a block that is no new frame changes nothing, and it is
      accepted exactly when it is genuine, carries the number of the frame last
      taken, and has that frame's digest. */
  lemma OnlyTheLastRepeats(h: Hashes, g: Registered, t: Faults, w: Files, frames: seq<seq<u8>>, k: nat, b: seq<u8>)
    requires RegisteredOk(g) && k <= |frames|
    requires var r := After(h, g, t, w, frames, k).0; Genuine(h, g, b) ==> Parse(b).seqNo == r.seqNo
    ensures var (r, v) := After(h, g, t, w, frames, k);
      var last := Latest(h, g, t, w, frames, k);
      && (last.Some? ==> Genuine(h, g, last.value) && Parse(last.value).seqNo == r.seqNo)
      && Accept(h, g, t, r, v, b)
         == (last.Some? && Genuine(h, g, b) && h.sha(b) == h.sha(last.value), r, v)
  {
    var (r, v) := After(h, g, t, w, frames, k);
    LatestIsLast(h, g, t, w, frames, k);
    hide Accept, Genuine, Parse, After, Latest;
    NotNew(h, g, t, r, v, b);
  }

  // ----- the acknowledgement -----

  lemma AckFollows(h: Hashes, g: Registered, t: Faults, r: Receiver, w: Files, b: seq<u8>)
    requires RegisteredOk(g) && Sized(g, r) && r == Acked(h, g, r)
    ensures var (_, r1, _) := Accept(h, g, t, r, w, b); r1 == Acked(h, g, r1)
  {
    hide Genuine, AckBlock;
  }

  lemma {:induction false} AckIsCurrent(h: Hashes, g: Registered, t: Faults, w: Files, frames: seq<seq<u8>>, k: nat)
    requires RegisteredOk(g) && k <= |frames|
    ensures var r := After(h, g, t, w, frames, k).0; r == Acked(h, g, r)
  {
    hide Accept, AckBlock;
    if k > 0 {
      AckIsCurrent(h, g, t, w, frames, k - 1);
      var (r, v) := After(h, g, t, w, frames, k - 1);
      AckFollows(h, g, t, r, v, frames[k - 1]);
    }
  }

  /** Over every run of arbitrary frames and file faults the acknowledgement block
      names the session, the number of frames taken, how it stands (2 failed,
      1 done, 0 neither), the bytes received, the size and the digest. */
  lemma AcknowledgedOverRuns(h: Hashes, g: Registered, t: Faults, w: Files, frames: seq<seq<u8>>, k: nat)
    requires RegisteredOk(g) && k <= |frames|
    ensures var r := After(h, g, t, w, frames, k).0;
      && |r.ack| == BLOCK && r.ack[..16] == Ascii("NWOAS-S169-UACK!") && r.ack[16..32] == g.token
      && Le32(r.ack, 32) == r.seqNo && Le32(r.ack, 36) == (if r.failed then 2 else if r.done then 1 else 0)
      && Le64(r.ack, 40) == r.received && Le64(r.ack, 48) == g.size && r.ack[64..96] == g.digest
      && Le32(r.ack, 124) == h.crc(r.ack[..124]) && forall i :: 128 <= i < BLOCK ==> r.ack[i] == 0
  {
    var r := After(h, g, t, w, frames, k).0;
    AckIsCurrent(h, g, t, w, frames, k);
    AckFields(h, g, r.seqNo, Status(r), r.received);
    hide AckBlock, Le32, Le64, After;
  }

  /** A sender accepts any block it reads exactly when, up to the size and in the
      digest, it is byte for byte the acknowledgement it waits for, and the checksum
      is right; what the receiver leaves blank it does not look at. */
  lemma AckMeansBuilt(h: Hashes, g: Registered, b: seq<u8>, seqNo: u32, kind: u32, expected: u64)
    requires RegisteredOk(g) && |b| == BLOCK
    ensures var built := AckBlock(h, g, seqNo, if kind == 2 then 1 else 0, expected);
      AckOk(h, g, b, seqNo, kind, expected)
      <==> b[..56] == built[..56] && b[64..96] == built[64..96] && Le32(b, 124) == h.crc(b[..124])
  {
    var status := if kind == END then 1 else 0;
    var built := AckBlock(h, g, seqNo, status, expected);
    AckFields(h, g, seqNo, status, expected);
    SameParts(b, built);
    WordsAgree(b, built);
    hide AckBlock, Le32, Le64, ToLe;
  }

  lemma SixParts(b: seq<u8>)
    requires |b| == BLOCK
    ensures b[..56] == b[..16] + b[16..32] + b[32..36] + b[36..40] + b[40..48] + b[48..56]
  {
  }

  /** Equal words are equal bytes. */
  lemma WordsAgree(a: seq<u8>, b: seq<u8>)
    requires |a| == |b| == BLOCK
    ensures a[32..36] == b[32..36] <==> Le32(a, 32) == Le32(b, 32)
    ensures a[36..40] == b[36..40] <==> Le32(a, 36) == Le32(b, 36)
    ensures a[40..48] == b[40..48] <==> Le64(a, 40) == Le64(b, 40)
    ensures a[48..56] == b[48..56] <==> Le64(a, 48) == Le64(b, 48)
  {
    BytesOf32(a, 32);
    BytesOf32(b, 32);
    BytesOf32(a, 36);
    BytesOf32(b, 36);
    BytesOf64(a, 40);
    BytesOf64(b, 40);
    BytesOf64(a, 48);
    BytesOf64(b, 48);
    hide Le32, Le64, ToLe;
    if a[32..36] == b[32..36] {
      RoundTrip32(Le32(b, 32), a, 32);
    }
    if a[36..40] == b[36..40] {
      RoundTrip32(Le32(b, 36), a, 36);
    }
    if a[40..48] == b[40..48] {
      RoundTrip64(Le64(b, 40), a, 40);
    }
    if a[48..56] == b[48..56] {
      RoundTrip64(Le64(b, 48), a, 48);
    }
  }

  lemma SameParts(a: seq<u8>, b: seq<u8>)
    requires |a| == |b| == BLOCK
    ensures a[..56] == b[..56] <==>
      && a[..16] == b[..16] && a[16..32] == b[16..32] && a[32..36] == b[32..36] && a[36..40] == b[36..40]
      && a[40..48] == b[40..48] && a[48..56] == b[48..56]
  {
    SixParts(a);
    SixParts(b);
    if a[..56] == b[..56] {
      forall i | 0 <= i < 56 ensures a[i] == b[i] {
        assert a[..56][i] == b[..56][i];
      }
    }
  }

  /** What a reader of n blocks at `lba` gets at byte i: the acknowledgement in
      block 176, everything else as it was; a read of a bad shape gives nothing. */
  lemma OverlaidShows(r: Receiver, lba: nat, n: nat, original: seq<u8>, i: nat)
    requires |r.ack| == 4096
    ensures Overlaid(r, lba, n, original).Some? <==> n >= 1 && |original| == n * 4096
    ensures n >= 1 && |original| == n * 4096 && i < n * 4096 ==>
      var out := Overlaid(r, lba, n, original).value;
      && |out| == |original|
      && out[i] == if 176 * 4096 <= lba * 4096 + i < 177 * 4096 then r.ack[lba * 4096 + i - 176 * 4096] else original[i]
  {
  }
}
