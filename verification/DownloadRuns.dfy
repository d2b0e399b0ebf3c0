/** Whole downloads: latching, reads and reassembly. */
module DownloadRuns {
  import opened Words
  import opened Upload
  import UploadRuns
  import opened Download

  // ----- reads -----

  lemma SeenInTwoParts(c: Channel, device: seq<u8>, a: nat, m: nat, b: nat)
    requires a <= m <= b <= |device| && c.window.Some? && |c.window.value| == WINDOW
    ensures SeenBetween(c, device, a, b) == SeenBetween(c, device, a, m) + SeenBetween(c, device, m, b)
  {
    hide SeenAt;
  }

  /** A read of n blocks is the concatenation of the reads of its first k and its
      last n - k blocks, for every k, so every partition reads the same bytes. */
  lemma ReadsConcatenate(c: Channel, device: seq<u8>, lba: nat, k: nat, n: nat)
    requires c.window.Some? && |c.window.value| == WINDOW && 1 <= k < n && (lba + n) * BLOCK <= |device|
    ensures var whole, first, second := Read(c, device, lba, n), Read(c, device, lba, k),
      Read(c, device, lba + k, n - k);
      whole.Some? && first.Some? && second.Some? && whole.value == first.value + second.value
  {
    hide Read, SeenBetween;
    ReadIsSlice(c, device, lba, n);
    ReadIsSlice(c, device, lba, k);
    ReadIsSlice(c, device, lba + k, n - k);
    SeenInTwoParts(c, device, lba * BLOCK, (lba + k) * BLOCK, (lba + n) * BLOCK);
  }

  // ----- latching -----

  /** The window always answers the latched request. */
  predicate Consistent(h: Hashes, c: Channel) {
    Hashed(h, c) && (c.artifact.Some? ==> c.window == Some(BuildWindow(h, c.token, c.artifact.value, c.latched)))
  }

  /** A rejected block and a repeated request change nothing; a newly latched one
      has a greater id; the artifact stays, and the window answers the request. */
  lemma HandleLatches(h: Hashes, c: Channel, b: seq<u8>)
    requires Consistent(h, c)
    ensures var (ok, d) := Handle(h, c, b);
      && Consistent(h, d) && d.artifact == c.artifact && d.token == c.token
      && (!ok ==> d == c)
      && (d != c ==> ok && d.latched.Some? && d.latched.value.id > LastId(c))
      && (ok ==> Handle(h, d, b) == (true, d))
  {
    hide BuildWindow;
  }

  function After(h: Hashes, c: Channel, blocks: seq<seq<u8>>, k: nat): (d: Channel)
    requires Hashed(h, c) && k <= |blocks|
    ensures Hashed(h, d)
  {
    if k == 0 then c else Handle(h, After(h, c, blocks, k - 1), blocks[k - 1]).1
  }

  /** Over every run of arbitrary request blocks the latched id never decreases,
      equal ids mean the same request and window, and the artifact is never touched. */
  lemma {:induction false} IdsIncrease(h: Hashes, c: Channel, blocks: seq<seq<u8>>, j: nat, k: nat)
    requires Consistent(h, c) && j <= k <= |blocks|
    ensures var d, e := After(h, c, blocks, j), After(h, c, blocks, k);
      && Consistent(h, d) && Consistent(h, e) && e.artifact == c.artifact && e.token == c.token
      && LastId(d) <= LastId(e) && (LastId(d) == LastId(e) ==> d == e)
    decreases k
  {
    hide Handle, BuildWindow;
    if j < k {
      IdsIncrease(h, c, blocks, j, k - 1);
      HandleLatches(h, After(h, c, blocks, k - 1), blocks[k - 1]);
    } else if k > 0 {
      IdsIncrease(h, c, blocks, k - 1, k - 1);
      HandleLatches(h, After(h, c, blocks, k - 1), blocks[k - 1]);
    }
  }

  // ----- requests and responses on the wire -----

  function RequestHead(token: seq<u8>, id: u32, offset: u64, length: u32): (b: seq<u8>)
    requires |token| == 16
    ensures |b| == 48
  {
    REQ_MAGIC + token + ToLe(id, 4) + ToLe(offset, 8) + ToLe(length, 4)
  }

  function RequestBlock(h: Hashes, token: seq<u8>, id: u32, offset: u64, length: u32): (b: seq<u8>)
    requires |token| == 16
    ensures |b| == BLOCK
  {
    var head := RequestHead(token, id, offset, length);
    head + ToLe(h.crc(head), 4) + Zeros(BLOCK - 52)
  }

  lemma RequestParts(a: seq<u8>, b: seq<u8>, c: seq<u8>, d: seq<u8>, e: seq<u8>, f: seq<u8>, z: seq<u8>)
    requires |a| == |b| == 16 && |c| == |e| == |f| == 4 && |d| == 8
    ensures var s := a + b + c + d + e + f + z;
      && s[..16] == a && s[16..32] == b && s[32..36] == c && s[36..44] == d && s[44..48] == e && s[48..52] == f
      && s[52..] == z && s[..48] == a + b + c + d + e
  {
  }

  lemma RequestParses(h: Hashes, token: seq<u8>, id: u32, offset: u64, length: u32)
    requires |token| == 16 && id >= 1
    ensures ParseRequest(h, token, RequestBlock(h, token, id, offset, length)) == Some((id, offset, length))
  {
    var b, head := RequestBlock(h, token, id, offset, length), RequestHead(token, id, offset, length);
    var z := Zeros(BLOCK - 52);
    RequestParts(REQ_MAGIC, token, ToLe(id, 4), ToLe(offset, 8), ToLe(length, 4), ToLe(h.crc(head), 4), z);
    hide ToLe;
    RoundTrip32(id, b, 32);
    RoundTrip64(offset, b, 36);
    RoundTrip32(length, b, 44);
    RoundTrip32(h.crc(head), b, 48);
  }

  /** What a reader takes from a window: the payload whose length the header gives. */
  function Extract(window: seq<u8>): seq<u8>
    requires |window| == WINDOW
  {
    var n := Le32(window, 56);
    if n <= CAP then window[HEADER..HEADER + n] else []
  }

  /** A response window over an artifact, as a reader takes it apart. */
  predicate Shows(h: Hashes, b: seq<u8>, token: seq<u8>, artifact: seq<u8>, id: nat, status: nat, offset: nat,
      payload: seq<u8>)
  {
    && |b| == 65536 && b[..16] == Ascii("NWOAS-S16x-FILE!") && b[16..32] == token
    && Le32(b, 32) == id && Le32(b, 36) == status && Le64(b, 40) == |artifact| && Le64(b, 48) == offset
    && Le32(b, 56) == |payload| && Le32(b, 60) == h.crc(payload) && b[64..96] == h.sha(artifact)
    && AllZero(b[96..124]) && Le32(b, 124) == h.crc(b[..124])
    && |payload| <= 65408 && b[128..128 + |payload|] == payload && AllZero(b[128 + |payload|..])
  }

  /** What the window shows: before any request status 2 and nothing; for the
      manifest status 3 and no payload; for a data request the bytes from its
      offset on, as many as it asks for with status 0, or those that are left with
      status 1. */
  lemma WindowDecodes(h: Hashes, token: seq<u8>, artifact: seq<u8>, q: Option<Request>)
    requires |token| == 16 && |artifact| <= U64_MAX && |h.sha(artifact)| == 32
    requires q.Some? && q.value.Data? ==> q.value.offset <= |artifact| && q.value.length <= CAP
    ensures var b := BuildWindow(h, token, artifact, q);
      match q
      case None => Shows(h, b, token, artifact, 0, 2, 0, [])
      case Some(Manifest(id)) => Shows(h, b, token, artifact, id, 3, 0xffff_ffff_ffff_ffff, [])
      case Some(Data(id, offset, length)) =>
        if offset as int + length as int <= |artifact| then
          Shows(h, b, token, artifact, id, 0, offset, artifact[offset..offset as int + length as int])
        else Shows(h, b, token, artifact, id, 1, offset, artifact[offset..])
  {
    hide *;
    WindowFields(h, token, artifact, q);
    match q
    case None => NothingServed(artifact, q);
    case Some(Manifest(_)) => NothingServed(artifact, q);
    case Some(Data(id, offset, length)) => ServedPart(artifact, id, offset, length);
  }

  lemma ServedPart(artifact: seq<u8>, id: u32, offset: u64, length: u32)
    requires offset <= |artifact|
    ensures var q, n := Some(Data(id, offset, length)), |artifact|;
      && ResponseId(q) == id && ResponseOffset(q) == offset
      && (if offset as int + length as int <= n then
            ResponseStatus(n, q) == 0 && Payload(artifact, q) == artifact[offset..offset as int + length as int]
          else ResponseStatus(n, q) == 1 && Payload(artifact, q) == artifact[offset..])
  {
  }

  lemma NothingServed(artifact: seq<u8>, q: Option<Request>)
    requires q.None? || q.value.Manifest?
    ensures Payload(artifact, q) == [] && ResponseStatus(|artifact|, q) == (if q.None? then 2 else 3)
    ensures ResponseId(q) == (if q.None? then 0 else q.value.id)
    ensures ResponseOffset(q) == (if q.None? then 0 else 0xffff_ffff_ffff_ffff)
  {
  }

  lemma Showing(h: Hashes, b: seq<u8>, token: seq<u8>, artifact: seq<u8>, id: nat, status: nat, offset: nat,
      payload: seq<u8>)
    requires Shows(h, b, token, artifact, id, status, offset, payload)
    ensures |b| == WINDOW && Extract(b) == payload
  {
  }

  lemma WindowFields(h: Hashes, token: seq<u8>, artifact: seq<u8>, q: Option<Request>)
    requires |token| == 16 && |artifact| <= U64_MAX && |h.sha(artifact)| == 32
    requires q.Some? && q.value.Data? ==> q.value.offset <= |artifact| && q.value.length <= CAP
    ensures Shows(h, BuildWindow(h, token, artifact, q), token, artifact, ResponseId(q),
                  ResponseStatus(|artifact|, q), ResponseOffset(q), Payload(artifact, q))
  {
    var head, payload := ResponseHead(h, token, artifact, q), Payload(artifact, q);
    var c, pad := ToLe(h.crc(head), 4), Zeros(CAP - |payload|);
    var b := BuildWindow(h, token, artifact, q);
    UploadRuns.HeadParts(RESP_MAGIC, token, ToLe(ResponseId(q), 4), ToLe(ResponseStatus(|artifact|, q), 4),
                         ToLe(|artifact|, 8), ToLe(ResponseOffset(q), 8), ToLe(|payload|, 4),
                         ToLe(h.crc(payload), 4), h.sha(artifact), Zeros(28));
    UploadRuns.WholeParts(head, c, payload, pad);
    assert b == head + (c + payload + pad);
    hide ToLe, BuildWindow, ResponseHead, Payload, ResponseStatus, ResponseOffset, ResponseId;
    UploadRuns.HeadFields(head, c + payload + pad, b);
    RoundTrip32(ResponseId(q), b, 32);
    RoundTrip32(ResponseStatus(|artifact|, q), b, 36);
    RoundTrip64(|artifact|, b, 40);
    RoundTrip64(ResponseOffset(q), b, 48);
    RoundTrip32(|payload|, b, 56);
    RoundTrip32(h.crc(payload), b, 60);
    RoundTrip32(h.crc(head), b, 124);
  }

  // ----- reassembly -----

  /** A client that asks for lengths[0], lengths[1], ... from where it is, with
      the next id each time, and appends what each window holds. */
  function Fetched(h: Hashes, c: Channel, id: u32, got: seq<u8>, lengths: seq<u32>): (o: (Channel, seq<u8>))
    requires Hashed(h, c) && c.window.Some? && |c.token| == 16
    decreases |lengths|
  {
    if lengths == [] || |got| > U64_MAX || id == U32_MAX then (c, got)
    else
      var (ok, d) := Handle(h, c, RequestBlock(h, c.token, id, |got|, lengths[0]));
      if !ok || d.window.None? || |d.window.value| != WINDOW || |d.token| != 16 then (d, got)
      else Fetched(h, d, id + 1, got + Extract(d.window.value), lengths[1..])
  }

  function Sum(lengths: seq<u32>): nat {
    if lengths == [] then 0 else lengths[0] as int + Sum(lengths[1..])
  }

  lemma NewRequestLatches(h: Hashes, c: Channel, id: u32, offset: u64, length: u32)
    requires Consistent(h, c) && c.artifact.Some? && offset <= |c.artifact.value| && offset < SENTINEL
    requires LastId(c) < id && 1 <= length <= CAP
    ensures var q, a := Some(Data(id, offset, length)), c.artifact.value;
      Handle(h, c, RequestBlock(h, c.token, id, offset, length))
      == (true, c.(latched := q, window := Some(BuildWindow(h, c.token, a, q))))
  {
    RequestParses(h, c.token, id, offset, length);
    hide BuildWindow, ParseRequest, RequestBlock;
  }

  lemma OneChunk(h: Hashes, c: Channel, id: u32, got: seq<u8>, length: u32)
    requires Consistent(h, c) && c.artifact.Some? && got <= c.artifact.value && |c.artifact.value| < SENTINEL
    requires LastId(c) < id && 1 <= length <= CAP
    ensures var (ok, d) := Handle(h, c, RequestBlock(h, c.token, id, |got|, length));
      var a := c.artifact.value;
      && ok && Consistent(h, d) && d.artifact == c.artifact && d.token == c.token && LastId(d) == id
      && Extract(d.window.value) == a[|got|..|got| + Served(|a|, |got|, length)]
  {
    hide BuildWindow, Handle, RequestBlock, Extract;
    NewRequestLatches(h, c, id, |got|, length);
    var a, n := c.artifact.value, Served(|c.artifact.value|, |got|, length);
    WindowFields(h, c.token, a, Some(Data(id, |got|, length)));
    Showing(h, BuildWindow(h, c.token, a, Some(Data(id, |got|, length))), c.token, a, id,
            ResponseStatus(|a|, Some(Data(id, |got|, length))), |got|, a[|got|..|got| + n]);
  }

  /** Successive requests of any legal lengths give the artifact's prefix of the
      total length asked for, and so the whole artifact once that covers it. */
  lemma {:induction false} Reassembles(h: Hashes, c: Channel, id: u32, got: seq<u8>, lengths: seq<u32>)
    requires Consistent(h, c) && c.artifact.Some? && got <= c.artifact.value && |c.artifact.value| < SENTINEL
    requires LastId(c) < id && id as int + |lengths| <= U32_MAX
    requires forall i :: 0 <= i < |lengths| ==> 1 <= lengths[i] <= CAP
    ensures var a := c.artifact.value;
      Fetched(h, c, id, got, lengths).1 == a[..Min(|a|, |got| + Sum(lengths))]
    decreases |lengths|
  {
    hide Handle, BuildWindow, Extract, RequestBlock;
    var a := c.artifact.value;
    if lengths == [] {
      assert got == a[..|got|];
    } else {
      var n := Served(|a|, |got|, lengths[0]);
      OneChunk(h, c, id, got, lengths[0]);
      var d := Handle(h, c, RequestBlock(h, c.token, id, |got|, lengths[0])).1;
      assert got + a[|got|..|got| + n] == a[..|got| + n];
      Reassembles(h, d, id + 1, a[..|got| + n], lengths[1..]);
    }
  }

  /** From a freshly registered channel, any legal lengths that add up to the
      size or more fetch exactly the artifact. */
  lemma WholeArtifactFetched(h: Hashes, token: seq<u8>, artifact: seq<u8>, lengths: seq<u32>)
    requires |token| == 16 && |artifact| < SENTINEL && |h.sha(artifact)| == 32 && |lengths| < U32_MAX
    requires forall i :: 0 <= i < |lengths| ==> 1 <= lengths[i] <= CAP
    ensures Register(h, Opened(token), artifact).Some?
    ensures Sum(lengths) >= |artifact| ==>
      Fetched(h, Register(h, Opened(token), artifact).value, 1, [], lengths).1 == artifact
  {
    hide BuildWindow, Fetched;
    var c := Register(h, Opened(token), artifact).value;
    Reassembles(h, c, 1, [], lengths);
    assert artifact[..|artifact|] == artifact;
  }
}
