/** An honest sender's frames arriving in any order, any number of times or not
    at all: the artifact is received exactly once. */
module UploadRuns {
  import opened Words
  import opened Upload

  // ----- an honest sender's frames (nwput.c) -----

  function FrameHead(h: Hashes, g: Registered, seqNo: u32, kind: u32, offset: u64, payload: seq<u8>): (b: seq<u8>)
    requires RegisteredOk(g) && |payload| <= CAP
    ensures |b| == 124
  {
    MAGIC + g.token + ToLe(seqNo, 4) + ToLe(kind, 4) + ToLe(offset, 8) + ToLe(g.size, 8) + ToLe(|payload|, 4)
    + ToLe(h.crc(payload), 4) + g.digest + Zeros(28)
  }

  function Frame(h: Hashes, g: Registered, seqNo: u32, kind: u32, offset: u64, payload: seq<u8>): (b: seq<u8>)
    requires RegisteredOk(g) && |payload| <= CAP
    ensures |b| == WINDOW
  {
    var head := FrameHead(h, g, seqNo, kind, offset, payload);
    head + ToLe(h.crc(head), 4) + payload + Zeros(CAP - |payload|)
  }

  lemma HeadParts(a: seq<u8>, b: seq<u8>, c: seq<u8>, d: seq<u8>, e: seq<u8>, f: seq<u8>, i: seq<u8>, j: seq<u8>,
                  k: seq<u8>, l: seq<u8>)
    requires |a| == |b| == 16 && |c| == |d| == |i| == |j| == 4 && |e| == |f| == 8 && |k| == 32 && |l| == 28
    ensures var s := a + b + c + d + e + f + i + j + k + l;
      && |s| == 124 && s[..16] == a && s[16..32] == b && s[32..36] == c && s[36..40] == d && s[40..48] == e
      && s[48..56] == f && s[56..60] == i && s[60..64] == j && s[64..96] == k && s[96..124] == l
  {
  }

  lemma WholeParts(head: seq<u8>, c: seq<u8>, payload: seq<u8>, pad: seq<u8>)
    requires |head| == 124 && |c| == 4
    ensures var s := head + c + payload + pad;
      && s[..124] == head && s[124..128] == c && s[128..128 + |payload|] == payload && s[128 + |payload|..] == pad
  {
  }

  /** Reading a frame back gives the fields and the payload it was built from. */
  lemma FrameIsGenuine(h: Hashes, g: Registered, seqNo: u32, kind: u32, offset: u64, payload: seq<u8>)
    requires RegisteredOk(g) && |payload| <= CAP && seqNo != 0
    ensures var b := Frame(h, g, seqNo, kind, offset, payload);
      && Genuine(h, g, b)
      && Parse(b) == Fields(seqNo, kind, offset, g.size, |payload|, h.crc(payload))
      && b[HEADER..HEADER + |payload|] == payload
  {
    var head := FrameHead(h, g, seqNo, kind, offset, payload);
    var c, pad := ToLe(h.crc(head), 4), Zeros(CAP - |payload|);
    var b := Frame(h, g, seqNo, kind, offset, payload);
    HeadParts(MAGIC, g.token, ToLe(seqNo, 4), ToLe(kind, 4), ToLe(offset, 8), ToLe(g.size, 8), ToLe(|payload|, 4),
              ToLe(h.crc(payload), 4), g.digest, Zeros(28));
    WholeParts(head, c, payload, pad);
    assert b == head + (c + payload + pad);
    hide ToLe, Frame, FrameHead;
    HeadFields(head, c + payload + pad, b);
    RoundTrip32(seqNo, b, 32);
    RoundTrip32(kind, b, 36);
    RoundTrip64(offset, b, 40);
    RoundTrip64(g.size, b, 48);
    RoundTrip32(|payload|, b, 56);
    RoundTrip32(h.crc(payload), b, 60);
    RoundTrip32(h.crc(head), b, 124);
  }

  lemma HeadFields(head: seq<u8>, rest: seq<u8>, b: seq<u8>)
    requires |head| == 124 && b == head + rest
    ensures b[..16] == head[..16] && b[16..32] == head[16..32] && b[32..36] == head[32..36]
    ensures b[36..40] == head[36..40] && b[40..48] == head[40..48] && b[48..56] == head[48..56]
    ensures b[56..60] == head[56..60] && b[60..64] == head[60..64] && b[64..96] == head[64..96]
    ensures b[96..124] == head[96..124]
  {
  }

  /** The chunks of an artifact, and the sequence number of the closing frame. */
  function Chunks(size: nat): nat {
    (size + CAP - 1) / CAP
  }

  function LastSeq(size: nat): nat {
    Chunks(size) + 2
  }

  predicate Artifact(h: Hashes, g: Registered, a: seq<u8>) {
    RegisteredOk(g) && |a| == g.size && h.sha(a) == g.digest && LastSeq(g.size) <= U32_MAX
  }

  /** How much is received after the first k frames. */
  function Received(size: nat, k: nat): nat {
    if k <= 1 then 0 else if (k - 1) * CAP <= size then (k - 1) * CAP else size
  }

  lemma ReceivedBounds(size: nat, k: nat)
    requires size >= 1 && 1 <= k <= Chunks(size)
    ensures Received(size, k) == (k - 1) * CAP < size
    ensures Received(size, k + 1) - Received(size, k) == if CAP <= size - Received(size, k) then CAP
                                                         else size - Received(size, k)
    ensures Received(size, Chunks(size) + 1) == size && Received(size, Chunks(size) + 2) == size
  {
    var q := Chunks(size);
    assert size + CAP - 1 == q * CAP + (size + CAP - 1) % CAP;
  }

  /** The k-th frame of the sender, k from 1 to LastSeq. */
  function Sent(h: Hashes, g: Registered, a: seq<u8>, k: nat): (b: seq<u8>)
    requires Artifact(h, g, a) && 1 <= k <= LastSeq(g.size)
  {
    if k == 1 then Frame(h, g, k, BEGIN, 0, [])
    else if k == LastSeq(g.size) then Frame(h, g, k, END, g.size, [])
    else
      ReceivedBounds(g.size, k - 1);
      Frame(h, g, k, DATA, Received(g.size, k - 1), a[Received(g.size, k - 1)..Received(g.size, k)])
  }

  /** Everything is as the first k frames, each taken once and in order, leave
      it: the acknowledgement, the digest of the last frame, the files, and how
      many file operations there were. */
  ghost predicate Stage(h: Hashes, g: Registered, a: seq<u8>, r: Receiver, w: Files, k: nat)
    requires Artifact(h, g, a)
  {
    && k <= LastSeq(g.size) && r.seqNo == k && !r.failed
    && r.received == Received(g.size, k) <= |a| && r.hashed == a[..r.received]
    && r.done == (k == LastSeq(g.size)) && r.open == (1 <= k < LastSeq(g.size))
    && w.dest == (if r.done then Some(a) else None)
    && w.part == (if r.open then Some(a[..r.received]) else None)
    && r.ack == AckBlock(h, g, k, Status(r), r.received)
    && r.last == (if k == 0 then None else Some(h.sha(Sent(h, g, a, k))))
    && w.calls == Calls(g.size, k)
  }

  /** File operations for the first k frames; the closing frame takes three. */
  function Calls(size: nat, k: nat): nat {
    if k == LastSeq(size) then k + 2 else k
  }

  const NO_FAULTS := Faults({}, 0)

  /** The file operations of the frame that follows stage k all work. */
  predicate Spared(t: Faults, size: nat, k: nat) {
    forall c: nat :: Calls(size, k) <= c < Calls(size, k + 1) ==> c !in t.failing
  }

  lemma FirstFrameTaken(h: Hashes, g: Registered, t: Faults, a: seq<u8>, r: Receiver, w: Files)
    requires Artifact(h, g, a) && Stage(h, g, a, r, w, 0) && Spared(t, g.size, 0)
    ensures var (ok, r1, w1) := Accept(h, g, t, r, w, Sent(h, g, a, 1)); ok && Stage(h, g, a, r1, w1, 1)
  {
    hide Genuine, Parse, Frame, AckBlock;
    FrameIsGenuine(h, g, 1, BEGIN, 0, []);
    assert a[..0] == [];
  }

  lemma DataFrameTaken(h: Hashes, g: Registered, t: Faults, a: seq<u8>, r: Receiver, w: Files)
    requires Artifact(h, g, a) && 0 < r.seqNo <= Chunks(g.size) && Stage(h, g, a, r, w, r.seqNo)
    requires Spared(t, g.size, r.seqNo)
    ensures var (ok, r1, w1) := Accept(h, g, t, r, w, Sent(h, g, a, r.seqNo + 1));
      ok && Stage(h, g, a, r1, w1, r.seqNo + 1)
  {
    hide Genuine, Parse, Frame, AckBlock, PublishFile;
    ReceivedBounds(g.size, r.seqNo);
    var from, to := Received(g.size, r.seqNo), Received(g.size, r.seqNo + 1);
    FrameIsGenuine(h, g, r.seqNo + 1, DATA, from, a[from..to]);
    assert a[..from] + a[from..to] == a[..to];
  }

  lemma LastFrameTaken(h: Hashes, g: Registered, t: Faults, a: seq<u8>, r: Receiver, w: Files)
    requires Artifact(h, g, a) && r.seqNo == Chunks(g.size) + 1 && Stage(h, g, a, r, w, r.seqNo)
    requires Spared(t, g.size, r.seqNo)
    ensures var (ok, r1, w1) := Accept(h, g, t, r, w, Sent(h, g, a, r.seqNo + 1));
      ok && Stage(h, g, a, r1, w1, r.seqNo + 1)
  {
    hide Genuine, Parse, Frame, AckBlock, Accept;
    ReceivedBounds(g.size, Chunks(g.size));
    FrameIsGenuine(h, g, r.seqNo + 1, END, g.size, []);
    assert a[..|a|] == a;
    ClosingFrameEnds(h, g, t, r, w, Sent(h, g, a, r.seqNo + 1));
  }

  lemma NextFrameTaken(h: Hashes, g: Registered, t: Faults, a: seq<u8>, r: Receiver, w: Files)
    requires Artifact(h, g, a) && r.seqNo < LastSeq(g.size) && Stage(h, g, a, r, w, r.seqNo)
    requires Spared(t, g.size, r.seqNo)
    ensures var (ok, r1, w1) := Accept(h, g, t, r, w, Sent(h, g, a, r.seqNo + 1));
      ok && Stage(h, g, a, r1, w1, r.seqNo + 1)
  {
    hide Stage, Sent, Spared, Accept;
    if r.seqNo == 0 {
      FirstFrameTaken(h, g, t, a, r, w);
    } else if r.seqNo <= Chunks(g.size) {
      DataFrameTaken(h, g, t, a, r, w);
    } else {
      LastFrameTaken(h, g, t, a, r, w);
    }
  }

  /** Any other frame changes nothing, and it is accepted exactly when it is the
      last one taken once more. */
  lemma OtherFramesIgnored(h: Hashes, g: Registered, t: Faults, a: seq<u8>, r: Receiver, w: Files, j: nat)
    requires Artifact(h, g, a) && Stage(h, g, a, r, w, r.seqNo) && 1 <= j <= LastSeq(g.size) && j != r.seqNo + 1
    ensures var (ok, r1, w1) := Accept(h, g, t, r, w, Sent(h, g, a, j));
      r1 == r && w1 == w && (ok <==> j == r.seqNo)
  {
    SentSeq(h, g, a, j);
    hide Genuine, Parse, Frame, AckBlock, Sent;
  }

  lemma SentSeq(h: Hashes, g: Registered, a: seq<u8>, j: nat)
    requires Artifact(h, g, a) && 1 <= j <= LastSeq(g.size)
    ensures |Sent(h, g, a, j)| == WINDOW && Parse(Sent(h, g, a, j)).seqNo == j && Genuine(h, g, Sent(h, g, a, j))
  {
    hide Genuine, Parse, Frame;
    if j == 1 {
      FrameIsGenuine(h, g, 1, BEGIN, 0, []);
    } else if j == LastSeq(g.size) {
      FrameIsGenuine(h, g, j, END, g.size, []);
    } else {
      ReceivedBounds(g.size, j - 1);
      FrameIsGenuine(h, g, j, DATA, Received(g.size, j - 1), a[Received(g.size, j - 1)..Received(g.size, j)]);
    }
  }

  /** The receiver and the files after the frames numbered js[0], js[1], ... arrived. */
  function Arrived(h: Hashes, g: Registered, t: Faults, a: seq<u8>, js: seq<nat>, n: nat): (o: (Receiver, Files))
    requires Artifact(h, g, a) && n <= |js| && forall i :: 0 <= i < |js| ==> 1 <= js[i] <= LastSeq(g.size)
    ensures Sized(g, o.0)
  {
    if n == 0 then (Initial(h, g), Files(None, None, 0))
    else
      var (r, w) := Arrived(h, g, t, a, js, n - 1);
      var (_, r1, w1) := Accept(h, g, t, r, w, Sent(h, g, a, js[n - 1]));
      (r1, w1)
  }

  /** How far in-order progress gets: a frame counts when it is the next one. */
  function Progress(js: seq<nat>, n: nat): nat
    requires n <= |js|
  {
    if n == 0 then 0
    else
      var k := Progress(js, n - 1);
      if js[n - 1] == k + 1 then k + 1 else k
  }

  lemma NothingArrived(h: Hashes, g: Registered, a: seq<u8>)
    requires Artifact(h, g, a)
    ensures Stage(h, g, a, Initial(h, g), Files(None, None, 0), 0)
  {
    hide AckBlock;
    assert a[..0] == [];
  }

  /** Exactly once: under any loss, duplication or reordering the receiver is at
      the stage that in-order progress has reached, with the partial file the
      prefix that stage stands for, and done exactly with the whole artifact. */
  lemma {:induction false} ExactlyOnce(h: Hashes, g: Registered, a: seq<u8>, js: seq<nat>, n: nat)
    requires Artifact(h, g, a) && n <= |js| && forall i :: 0 <= i < |js| ==> 1 <= js[i] <= LastSeq(g.size)
    ensures var (r, w) := Arrived(h, g, NO_FAULTS, a, js, n); Stage(h, g, a, r, w, Progress(js, n))
  {
    hide Accept, Sent, Stage;
    if n == 0 {
      NothingArrived(h, g, a);
    } else {
      ExactlyOnce(h, g, a, js, n - 1);
      var (r, w) := Arrived(h, g, NO_FAULTS, a, js, n - 1);
      StageSeq(h, g, a, r, w, Progress(js, n - 1));
      if js[n - 1] == r.seqNo + 1 {
        NextFrameTaken(h, g, NO_FAULTS, a, r, w);
      } else {
        OtherFramesIgnored(h, g, NO_FAULTS, a, r, w, js[n - 1]);
      }
    }
  }

  /** The partial file at every moment, and completion: the artifact is at the
      destination as soon as every frame has had its turn, and never before. */
  lemma UploadCompletes(h: Hashes, g: Registered, a: seq<u8>, js: seq<nat>, n: nat)
    requires Artifact(h, g, a) && n <= |js| && forall i :: 0 <= i < |js| ==> 1 <= js[i] <= LastSeq(g.size)
    ensures var (r, w) := Arrived(h, g, NO_FAULTS, a, js, n);
      && (w.part.Some? ==> w.part.value == a[..r.received] && r.received == Received(g.size, r.seqNo))
      && (r.done <==> Progress(js, n) == LastSeq(g.size))
      && (r.done ==> w.dest == Some(a)) && (!r.done ==> w.dest == None)
  {
    ExactlyOnce(h, g, a, js, n);
  }

  // ----- when file operations fail -----

  /** All file operations of the first k frames work. */
  predicate AllWork(t: Faults, size: nat, k: nat) {
    forall c: nat :: c < Calls(size, k) ==> c !in t.failing
  }

  /** Flushing and linking, the last but one operation, work, and so does all before. */
  predicate LinkWorks(t: Faults, size: nat) {
    forall c: nat :: c <= LastSeq(size) ==> c !in t.failing
  }

  /** The receiver has given up; the destination holds `dest`. */
  predicate GaveUp(r: Receiver, w: Files, dest: Option<seq<u8>>) {
    r.failed && !r.done && w.dest == dest
  }

  lemma FirstFrameFails(h: Hashes, g: Registered, t: Faults, a: seq<u8>, r: Receiver, w: Files)
    requires Artifact(h, g, a) && Stage(h, g, a, r, w, 0) && 0 in t.failing
    ensures var (_, r1, w1) := Accept(h, g, t, r, w, Sent(h, g, a, 1)); GaveUp(r1, w1, None)
  {
    hide Genuine, Parse, Frame, AckBlock;
    FrameIsGenuine(h, g, 1, BEGIN, 0, []);
  }

  lemma DataFrameFails(h: Hashes, g: Registered, t: Faults, a: seq<u8>, r: Receiver, w: Files)
    requires Artifact(h, g, a) && 0 < r.seqNo <= Chunks(g.size) && Stage(h, g, a, r, w, r.seqNo) && r.seqNo in t.failing
    ensures var (_, r1, w1) := Accept(h, g, t, r, w, Sent(h, g, a, r.seqNo + 1)); GaveUp(r1, w1, None)
  {
    hide Genuine, Parse, Frame, AckBlock, PublishFile;
    ReceivedBounds(g.size, r.seqNo);
    var from, to := Received(g.size, r.seqNo), Received(g.size, r.seqNo + 1);
    FrameIsGenuine(h, g, r.seqNo + 1, DATA, from, a[from..to]);
  }

  lemma LastFrameFails(h: Hashes, g: Registered, t: Faults, a: seq<u8>, r: Receiver, w: Files)
    requires Artifact(h, g, a) && r.seqNo == Chunks(g.size) + 1 && Stage(h, g, a, r, w, r.seqNo)
    requires !Spared(t, g.size, r.seqNo)
    ensures var (_, r1, w1) := Accept(h, g, t, r, w, Sent(h, g, a, r.seqNo + 1));
      GaveUp(r1, w1, if r.seqNo in t.failing || r.seqNo + 1 in t.failing then None else Some(a))
  {
    hide Genuine, Parse, Frame, AckBlock, Accept;
    ReceivedBounds(g.size, Chunks(g.size));
    FrameIsGenuine(h, g, r.seqNo + 1, END, g.size, []);
    assert a[..|a|] == a;
    ClosingFrameEnds(h, g, t, r, w, Sent(h, g, a, r.seqNo + 1));
  }

  lemma FailedIsInert(h: Hashes, g: Registered, t: Faults, r: Receiver, w: Files, b: seq<u8>)
    requires RegisteredOk(g) && Sized(g, r) && r.failed
    ensures var (_, r1, w1) := Accept(h, g, t, r, w, b); r1 == r && w1 == w
  {
    hide Genuine, AckBlock;
  }

  /** The next frame fails when one of its operations does; the artifact is then
      at the destination exactly when that was the last one. */
  lemma NextFrameFails(h: Hashes, g: Registered, t: Faults, a: seq<u8>, r: Receiver, w: Files)
    requires Artifact(h, g, a) && r.seqNo < LastSeq(g.size) && Stage(h, g, a, r, w, r.seqNo)
    requires AllWork(t, g.size, r.seqNo) && !Spared(t, g.size, r.seqNo)
    ensures var (_, r1, w1) := Accept(h, g, t, r, w, Sent(h, g, a, r.seqNo + 1));
      GaveUp(r1, w1, if r.seqNo + 1 == LastSeq(g.size) && LinkWorks(t, g.size) then Some(a) else None)
  {
    hide Stage, Sent, Accept;
    if r.seqNo == 0 {
      FirstFrameFails(h, g, t, a, r, w);
    } else if r.seqNo <= Chunks(g.size) {
      DataFrameFails(h, g, t, a, r, w);
    } else {
      LastFrameFails(h, g, t, a, r, w);
    }
  }

  /** Whatever is lost, repeated or reordered and whichever file operations fail:
      while those of the frames that had their turn work, the receiver is at the
      stage they reach; otherwise it has failed, and the artifact is at the
      destination all the same exactly when every frame had its turn and only
      dropping the partial name went wrong. */
  lemma {:induction false} EveryFaultRun(h: Hashes, g: Registered, t: Faults, a: seq<u8>, js: seq<nat>, n: nat)
    requires Artifact(h, g, a) && n <= |js| && forall i :: 0 <= i < |js| ==> 1 <= js[i] <= LastSeq(g.size)
    ensures var (r, w) := Arrived(h, g, t, a, js, n);
      var k, last := Progress(js, n), LastSeq(g.size);
      && k <= last
      && (if AllWork(t, g.size, k) then Stage(h, g, a, r, w, k)
          else GaveUp(r, w, if k == last && LinkWorks(t, g.size) then Some(a) else None))
  {
    hide Accept, Sent;
    if n == 0 {
      hide AckBlock;
      assert a[..0] == [];
    } else {
      EveryFaultRun(h, g, t, a, js, n - 1);
      FaultStep(h, g, t, a, js, n);
    }
  }

  lemma FaultStep(h: Hashes, g: Registered, t: Faults, a: seq<u8>, js: seq<nat>, n: nat)
    requires Artifact(h, g, a) && 0 < n <= |js| && forall i :: 0 <= i < |js| ==> 1 <= js[i] <= LastSeq(g.size)
    requires var (r, w) := Arrived(h, g, t, a, js, n - 1);
      var k, last := Progress(js, n - 1), LastSeq(g.size);
      && k <= last
      && (if AllWork(t, g.size, k) then Stage(h, g, a, r, w, k)
          else GaveUp(r, w, if k == last && LinkWorks(t, g.size) then Some(a) else None))
    ensures var (r, w) := Arrived(h, g, t, a, js, n);
      var k, last := Progress(js, n), LastSeq(g.size);
      && k <= last
      && (if AllWork(t, g.size, k) then Stage(h, g, a, r, w, k)
          else GaveUp(r, w, if k == last && LinkWorks(t, g.size) then Some(a) else None))
  {
    hide Accept, Sent, Stage;
    var (r, w) := Arrived(h, g, t, a, js, n - 1);
    var k, j := Progress(js, n - 1), js[n - 1];
    if !AllWork(t, g.size, k) {
      FailedIsInert(h, g, t, r, w, Sent(h, g, a, j));
    } else {
      StageSeq(h, g, a, r, w, k);
      if j != k + 1 {
        OtherFramesIgnored(h, g, t, a, r, w, j);
      } else if Spared(t, g.size, k) {
        NextFrameTaken(h, g, t, a, r, w);
      } else {
        NextFrameFails(h, g, t, a, r, w);
      }
    }
  }

  lemma StageSeq(h: Hashes, g: Registered, a: seq<u8>, r: Receiver, w: Files, k: nat)
    requires Artifact(h, g, a) && Stage(h, g, a, r, w, k)
    ensures r.seqNo == k
  {
  }

  /** Every frame once, in order. */
  function InOrder(size: nat): (js: seq<nat>)
    ensures |js| == LastSeq(size) && forall i :: 0 <= i < |js| ==> js[i] == i + 1
  {
    seq(LastSeq(size), i => i + 1)
  }

  lemma {:induction false} InOrderProgresses(size: nat, n: nat)
    requires n <= LastSeq(size)
    ensures Progress(InOrder(size), n) == n
  {
    if n > 0 {
      InOrderProgresses(size, n - 1);
    }
  }

  /** A run of the honest sender that ends published and yet failed: each frame
      once and in order, with only the last unlink failing. */
  lemma UnlinkFailureHappens(h: Hashes, g: Registered, torn: nat, a: seq<u8>)
    requires Artifact(h, g, a)
    ensures var t := Faults({LastSeq(g.size) + 1}, torn);
      var (r, w) := Arrived(h, g, t, a, InOrder(g.size), LastSeq(g.size));
      GaveUp(r, w, Some(a))
  {
    hide Arrived, Stage;
    var t := Faults({LastSeq(g.size) + 1}, torn);
    InOrderProgresses(g.size, LastSeq(g.size));
    EveryFaultRun(h, g, t, a, InOrder(g.size), LastSeq(g.size));
    assert LastSeq(g.size) + 1 in t.failing && LastSeq(g.size) + 1 < Calls(g.size, LastSeq(g.size));
  }
}
