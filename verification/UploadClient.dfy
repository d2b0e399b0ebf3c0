/** The sender (nwput.c) against the receiver: stop and wait, three attempts a
    frame, and a decision by the acknowledgement block. */
module UploadClient {
  import opened Words
  import opened Upload
  import opened UploadRuns
  import R = UploadReceiver

  // ----- reading an acknowledgement -----

  /** The block acknowledges frame seqNo of this artifact. */
  predicate AckOk(h: Hashes, g: Registered, b: seq<u8>, seqNo: u32, kind: u32, expected: u64)
    requires RegisteredOk(g)
  {
    && |b| == BLOCK && b[..16] == ACK_MAGIC && b[16..32] == g.token && h.crc(b[..124]) == Le32(b, 124)
    && Le32(b, 32) == seqNo && Le32(b, 36) == (if kind == END then 1 else 0) && Le64(b, 40) == expected
    && Le64(b, 48) == g.size && b[64..96] == g.digest
  }

  lemma AckParts(a: seq<u8>, b: seq<u8>, c: seq<u8>, d: seq<u8>, e: seq<u8>, f: seq<u8>, y: seq<u8>, k: seq<u8>,
      z: seq<u8>)
    requires |a| == |b| == 16 && |c| == |d| == 4 && |e| == |f| == |y| == 8 && |k| == 32 && |z| == 28
    ensures var s := a + b + c + d + e + f + y + k + z;
      && |s| == 124 && s[..16] == a && s[16..32] == b && s[32..36] == c && s[36..40] == d && s[40..48] == e
      && s[48..56] == f && s[64..96] == k
  {
  }

  /** What a host reads in an acknowledgement block. */
  lemma AckFields(h: Hashes, g: Registered, seqNo: u32, status: u32, received: u64)
    requires RegisteredOk(g)
    ensures var b := AckBlock(h, g, seqNo, status, received);
      && b[..16] == ACK_MAGIC && b[16..32] == g.token && Le32(b, 32) == seqNo && Le32(b, 36) == status
      && Le64(b, 40) == received && Le64(b, 48) == g.size && b[64..96] == g.digest
      && Le32(b, 124) == h.crc(b[..124]) && forall i :: 128 <= i < BLOCK ==> b[i] == 0
  {
    var head := AckHead(g, seqNo, status, received);
    var c, pad := ToLe(h.crc(head), 4), Zeros(BLOCK - 128);
    var b := AckBlock(h, g, seqNo, status, received);
    AckParts(ACK_MAGIC, g.token, ToLe(seqNo, 4), ToLe(status, 4), ToLe(received, 8), ToLe(g.size, 8), Zeros(8),
      g.digest, Zeros(28));
    WholeParts(head, c, [], pad);
    assert b == head + (c + pad) == head + c + [] + pad;
    hide ToLe, AckBlock, AckHead;
    HeadFields(head, c + pad, b);
    RoundTrip32(seqNo, b, 32);
    RoundTrip32(status, b, 36);
    RoundTrip64(received, b, 40);
    RoundTrip64(g.size, b, 48);
    RoundTrip32(h.crc(head), b, 124);
    assert forall i :: 128 <= i < BLOCK ==> b[i] == pad[i - 128];
  }

  /** So it accepts one exactly for the frame, the status and the count it was built from. */
  lemma AckNames(h: Hashes, g: Registered, seqNo: u32, status: u32, received: u64, k: u32, kind: u32, expected: u64)
    requires RegisteredOk(g)
    ensures AckOk(h, g, AckBlock(h, g, seqNo, status, received), k, kind, expected)
       <==> k == seqNo && status == (if kind == END then 1 else 0) && expected == received
  {
    AckFields(h, g, seqNo, status, received);
    hide AckBlock, Le32, Le64;
  }

  function Kind(size: nat, k: nat): u32 {
    if k == 1 then BEGIN else if k == LastSeq(size) then END else DATA
  }

  /** The acknowledgement a sender of frame k waits for stands exactly at stage k. */
  lemma AckedAtStage(h: Hashes, g: Registered, a: seq<u8>, r: Receiver, w: Files, j: nat, k: nat)
    requires Artifact(h, g, a) && Stage(h, g, a, r, w, j) && 1 <= k <= LastSeq(g.size)
    ensures |r.ack| == BLOCK
    ensures Received(g.size, k) <= U64_MAX && (AckOk(h, g, r.ack, k, Kind(g.size, k), Received(g.size, k)) <==> j == k)
  {
    hide AckOk, AckBlock;
    AckNames(h, g, j, Status(r), r.received, k, Kind(g.size, k), Received(g.size, k));
  }

  /** Frame k is accepted and brings the receiver to stage k, also when it is there already. */
  lemma FrameBringsStage(h: Hashes, g: Registered, a: seq<u8>, r: Receiver, w: Files, k: nat)
    requires Artifact(h, g, a) && 1 <= k <= LastSeq(g.size) && Sized(g, r)
    requires Stage(h, g, a, r, w, k - 1) || Stage(h, g, a, r, w, k)
    ensures var (ok, r1, w1) := Accept(h, g, NO_FAULTS, r, w, Sent(h, g, a, k)); ok && Stage(h, g, a, r1, w1, k)
  {
    hide Sent, Accept;
    if Stage(h, g, a, r, w, k - 1) {
      hide Stage;
      StageSeq(h, g, a, r, w, k - 1);
      NextFrameTaken(h, g, NO_FAULTS, a, r, w);
    } else {
      hide Stage;
      StageSeq(h, g, a, r, w, k);
      OtherFramesIgnored(h, g, NO_FAULTS, a, r, w, k);
    }
  }

  // ----- the sender -----

  /** What becomes of one attempt: whether the frame reaches the receiver, whether
      the write is reported done (never when the receiver refuses the frame), and
      whether the acknowledgement can be read. */
  datatype Fate = Fate(arrives: bool, written: bool, read: bool)

  predicate Good(f: Fate) {
    f.arrives && f.written && f.read
  }

  /** Among any three attempts in a row one goes well. */
  ghost predicate Reliable(fate: nat -> Fate) {
    forall n: nat :: Good(fate(n)) || Good(fate(n + 1)) || Good(fate(n + 2))
  }

  class Sender {
    const h: Hashes
    const g: Registered
    const a: seq<u8>
    const channel: R.Channel
    const fate: nat -> Fate
    var attempts: nat

    ghost predicate Valid()
      reads this, channel
    {
      && channel.Valid() && channel.h == h && channel.g == g && channel.t == NO_FAULTS && Artifact(h, g, a)
    }

    ghost predicate At(k: nat)
      requires Valid()
      reads this, channel
    {
      Stage(h, g, a, channel.Abs(), channel.files, k)
    }

    constructor (h: Hashes, g: Registered, a: seq<u8>, channel: R.Channel, fate: nat -> Fate)
      requires Artifact(h, g, a) && channel.Valid() && channel.h == h && channel.g == g && channel.t == NO_FAULTS
      requires channel.Abs() == Initial(h, g) && channel.files == Files(None, None, 0)
      ensures Valid() && At(0) && attempts == 0
      ensures this.h == h && this.g == g && this.a == a && this.channel == channel && this.fate == fate
    {
      this.h, this.g, this.a, this.channel, this.fate, attempts := h, g, a, channel, fate, 0;
      ExactlyOnce(h, g, a, [], 0);
    }

    /** The frame at the receiver, which accepts it, also when it comes again. */
    method Deliver(k: nat) returns (ok: bool)
      requires Valid() && 1 <= k <= LastSeq(g.size) && (At(k - 1) || At(k))
      modifies channel
      ensures Valid() && At(k) && ok
    {
      hide Sent, Accept, Stage;
      FrameBringsStage(h, g, a, channel.Abs(), channel.files, k);
      ok := channel.AcceptFrame(Sent(h, g, a, k));
    }

    /** Up to three attempts at frame k; done when its acknowledgement is read.
        If so the receiver has taken it, and if one attempt goes well it is so. */
    method Send(k: nat) returns (ok: bool)
      requires Valid() && 1 <= k <= LastSeq(g.size) && At(k - 1)
      modifies this`attempts, channel
      ensures Valid() && (At(k - 1) || At(k)) && (ok ==> At(k))
      ensures !ok ==> attempts == old(attempts) + 3
                      && forall i :: old(attempts) <= i < attempts ==> !Good(fate(i))
    {
      hide AckOk, Stage, Overlaid;
      var attempt := 0;
      while attempt < 3
        invariant attempt <= 3 && attempts == old(attempts) + attempt
        invariant Valid() && (At(k - 1) || At(k))
        invariant forall i :: old(attempts) <= i < attempts ==> !Good(fate(i))
      {
        var f := fate(attempts);
        attempt, attempts := attempt + 1, attempts + 1;
        var accepted := true;
        if f.arrives {
          accepted := Deliver(k);
        }
        if !f.written || !accepted {
          continue;
        }
        if !f.read {
          continue;
        }
        var block := channel.Overlay(ACK_LBA, 1, Zeros(BLOCK));
        AckIsShown(channel.Abs(), Zeros(BLOCK));
        ghost var j := if At(k) then k else k - 1;
        AckedAtStage(h, g, a, channel.Abs(), channel.files, j, k);
        if block.None? || !AckOk(h, g, block.value, k, Kind(g.size, k), Received(g.size, k)) {
          continue;
        }
        return true;
      }
      ok := false;
    }

    /** The whole upload.  PASS, whatever was lost, means that the receiver is done
        and the whole artifact is at the destination; and if one attempt in three
        goes well there is a PASS. */
    method Run() returns (pass: bool)
      requires Valid() && At(0)
      modifies this`attempts, channel
      ensures pass ==> channel.done && channel.files.dest == Some(a)
      ensures Reliable(fate) ==> pass
    {
      hide Stage, AckBlock;
      var ok := Send(1);
      if !ok {
        assert !Good(fate(attempts - 3)) && !Good(fate(attempts - 3 + 1)) && !Good(fate(attempts - 3 + 2));
        return false;
      }
      var offset, k := 0, 2;
      while offset < g.size
        invariant Valid() && 2 <= k <= LastSeq(g.size) && offset == Received(g.size, k - 1) && At(k - 1)
        decreases LastSeq(g.size) - k
      {
        ReceivedBounds(g.size, if k <= Chunks(g.size) + 1 then k - 1 else Chunks(g.size));
        var n := if CAP <= g.size - offset then CAP else g.size - offset;
        ok := Send(k);
        if !ok {
          assert !Good(fate(attempts - 3)) && !Good(fate(attempts - 3 + 1)) && !Good(fate(attempts - 3 + 2));
          return false;
        }
        offset, k := offset + n, k + 1;
      }
      if k < LastSeq(g.size) {
        ReceivedBounds(g.size, k - 1);
      }
      pass := Send(k);
      if !pass {
        assert !Good(fate(attempts - 3)) && !Good(fate(attempts - 3 + 1)) && !Good(fate(attempts - 3 + 2));
      } else {
        StageEnd(h, g, a, channel.Abs(), channel.files);
      }
    }
  }

  lemma StageEnd(h: Hashes, g: Registered, a: seq<u8>, r: Receiver, w: Files)
    requires Artifact(h, g, a) && Stage(h, g, a, r, w, LastSeq(g.size))
    ensures r.done && w.dest == Some(a)
  {
  }

  lemma AckIsShown(r: Receiver, original: seq<u8>)
    requires |r.ack| == BLOCK && |original| == BLOCK
    ensures Overlaid(r, ACK_LBA, 1, original) == Some(r.ack)
  {
    assert Splice(original, 0, r.ack) == r.ack;
  }
}
