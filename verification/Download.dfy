/** The artifact delivery channel (file-delivery-s168/channel.py): a request port
    and a response window over one immutable artifact. */
module Download {
  import opened Words
  import opened Upload

  const RESP_LBA := 129
  const WINDOW_BLOCKS := 16
  const SENTINEL: u64 := 0xffff_ffff_ffff_ffff

  const STATUS_DATA: u32 := 0
  const STATUS_FINAL: u32 := 1
  const STATUS_NONE: u32 := 2
  const STATUS_MANIFEST: u32 := 3

  const REQ_MAGIC := Ascii("NWOAS-S16x-REQ !")
  const RESP_MAGIC := Ascii("NWOAS-S16x-FILE!")

  datatype Request = Manifest(id: u32) | Data(id: u32, offset: u64, length: u32)

  /** `artifact` is absent until registered; `latched` is the last accepted request. */
  datatype Channel = Channel(token: seq<u8>, artifact: Option<seq<u8>>, latched: Option<Request>,
    window: Option<seq<u8>>)

  predicate ChannelOk(c: Channel) {
    |c.token| == 16 && (c.artifact.Some? ==> |c.artifact.value| <= U64_MAX)
    && (c.window.Some? <==> c.artifact.Some?) && (c.latched.Some? ==> c.artifact.Some?)
    && (c.latched.Some? && c.latched.value.Data? ==>
          c.latched.value.offset <= |c.artifact.value| && 1 <= c.latched.value.length <= CAP)
  }

  // ----- requests -----

  /** Structure only: id, offset and length of a well-formed request block. */
  function ParseRequest(h: Hashes, token: seq<u8>, b: seq<u8>): Option<(u32, u64, u32)> {
    if |b| != BLOCK then None
    else if b[..16] != REQ_MAGIC || b[16..32] != token then None
    else if h.crc(b[..48]) != Le32(b, 48) || !AllZero(b[52..]) || Le32(b, 32) < 1 then None
    else Some((Le32(b, 32), Le64(b, 36), Le32(b, 44)))
  }

  /** The request, once its meaning has been checked against the artifact. */
  function Meaning(size: nat, id: u32, offset: u64, length: u32): Option<Request> {
    if offset == SENTINEL then if length != 0 then None else Some(Manifest(id))
    else if !(1 <= length <= CAP) || offset > size then None
    else Some(Data(id, offset, length))
  }

  // ----- the response window -----

  /** How many bytes a data request is served. */
  function Served(size: nat, offset: nat, length: nat): nat
    requires offset <= size
  {
    if length <= size - offset then length else size - offset
  }

  function Payload(artifact: seq<u8>, q: Option<Request>): seq<u8>
    requires q.Some? && q.value.Data? ==> q.value.offset <= |artifact|
  {
    match q
    case Some(Data(_, offset, length)) => artifact[offset..offset + Served(|artifact|, offset, length)]
    case _ => []
  }

  function ResponseStatus(size: nat, q: Option<Request>): u32
    requires q.Some? && q.value.Data? ==> q.value.offset <= size
  {
    match q
    case None => STATUS_NONE
    case Some(Manifest(_)) => STATUS_MANIFEST
    case Some(Data(_, offset, length)) => if length <= size - offset then STATUS_DATA else STATUS_FINAL
  }

  function ResponseId(q: Option<Request>): u32 {
    if q.Some? then q.value.id else 0
  }

  function ResponseOffset(q: Option<Request>): u64 {
    match q
    case None => 0
    case Some(Manifest(_)) => SENTINEL
    case Some(Data(_, offset, _)) => offset
  }

  function ResponseHead(h: Hashes, token: seq<u8>, artifact: seq<u8>, q: Option<Request>): (b: seq<u8>)
    requires |token| == 16 && |artifact| <= U64_MAX && |h.sha(artifact)| == 32
    requires q.Some? && q.value.Data? ==> q.value.offset <= |artifact| && q.value.length <= CAP
    ensures |b| == 124
  {
    var payload := Payload(artifact, q);
    RESP_MAGIC + token + ToLe(ResponseId(q), 4) + ToLe(ResponseStatus(|artifact|, q), 4) + ToLe(|artifact|, 8)
    + ToLe(ResponseOffset(q), 8) + ToLe(|payload|, 4) + ToLe(h.crc(payload), 4) + h.sha(artifact) + Zeros(28)
  }

  /** A pure function of the latched request, the artifact and the token. */
  function BuildWindow(h: Hashes, token: seq<u8>, artifact: seq<u8>, q: Option<Request>): (b: seq<u8>)
    requires |token| == 16 && |artifact| <= U64_MAX && |h.sha(artifact)| == 32
    requires q.Some? && q.value.Data? ==> q.value.offset <= |artifact| && q.value.length <= CAP
    ensures |b| == WINDOW
  {
    var head, payload := ResponseHead(h, token, artifact, q), Payload(artifact, q);
    head + ToLe(h.crc(head), 4) + payload + Zeros(CAP - |payload|)
  }

  function Opened(token: seq<u8>): Channel {
    Channel(token, None, None, None)
  }

  /** The one artifact is registered once and never changes. */
  function Register(h: Hashes, c: Channel, artifact: seq<u8>): Option<Channel>
    requires ChannelOk(c) && |artifact| <= U64_MAX && |h.sha(artifact)| == 32
  {
    if c.artifact.Some? then None
    else Some(Channel(c.token, Some(artifact), None, Some(BuildWindow(h, c.token, artifact, None))))
  }

  predicate Hashed(h: Hashes, c: Channel) {
    ChannelOk(c) && (c.artifact.Some? ==> |h.sha(c.artifact.value)| == 32)
  }

  function LastId(c: Channel): u32 {
    if c.latched.Some? then c.latched.value.id else 0
  }

  function Handle(h: Hashes, c: Channel, b: seq<u8>): (o: (bool, Channel))
    requires Hashed(h, c)
    ensures Hashed(h, o.1)
  {
    if c.artifact.None? then (false, c)
    else
      var p := ParseRequest(h, c.token, b);
      if p.None? then (false, c)
      else
        var q := Meaning(|c.artifact.value|, p.value.0, p.value.1, p.value.2);
        if q.None? then (false, c)
        else if c.latched == q then (true, c)
        else if q.value.id <= LastId(c) then (false, c)
        else (true, c.(latched := q, window := Some(BuildWindow(h, c.token, c.artifact.value, q))))
  }

  // ----- reads -----

  function Max(a: int, b: int): int {
    if a > b then a else b
  }

  function Min(a: int, b: int): int {
    if a < b then a else b
  }

  /** A read of n blocks at lba over the underlying image: only the part inside
      the response window is replaced. */
  function Overlay(c: Channel, lba: nat, n: nat, original: seq<u8>): Option<seq<u8>>
    requires c.window.Some? ==> |c.window.value| == WINDOW
  {
    if c.window.None? || n < 1 || |original| != n * BLOCK then None
    else
      var lo, hi := Max(lba, RESP_LBA), Min(lba + n, RESP_LBA + WINDOW_BLOCKS);
      if lo >= hi then Some(original)
      else
        Some(Splice(original, (lo - lba) * BLOCK, c.window.value[(lo - RESP_LBA) * BLOCK..(hi - RESP_LBA) * BLOCK]))
  }

  /** The byte a reader of the whole device sees at position x: blocks 129 to 144
      show the response. */
  function SeenAt(c: Channel, device: seq<u8>, x: nat): u8
    requires x < |device| && c.window.Some? && |c.window.value| == WINDOW
  {
    if 129 * 4096 <= x < 145 * 4096 then c.window.value[x - 129 * 4096] else device[x]
  }

  /** A read of n blocks of the device. */
  function Read(c: Channel, device: seq<u8>, lba: nat, n: nat): Option<seq<u8>>
    requires (c.window.Some? ==> |c.window.value| == WINDOW) && (lba + n) * BLOCK <= |device|
  {
    Overlay(c, lba, n, device[lba * BLOCK..(lba + n) * BLOCK])
  }

  /** What such a reader sees from position a up to b. */
  function SeenBetween(c: Channel, device: seq<u8>, a: nat, b: nat): (s: seq<u8>)
    requires a <= b <= |device| && c.window.Some? && |c.window.value| == WINDOW
    ensures |s| == b - a
  {
    seq<u8>(b - a, i requires 0 <= i < b - a => SeenAt(c, device, a + i))
  }

  lemma ReadSees(c: Channel, device: seq<u8>, lba: nat, n: nat)
    requires c.window.Some? && |c.window.value| == WINDOW && n >= 1 && (lba + n) * BLOCK <= |device|
    ensures var got := Read(c, device, lba, n);
      && got.Some? && |got.value| == n * BLOCK
      && forall i :: 0 <= i < n * BLOCK ==> got.value[i] == SeenAt(c, device, lba * BLOCK + i)
  {
  }

  /** Every read is a slice of one view of the device. */
  lemma ReadIsSlice(c: Channel, device: seq<u8>, lba: nat, n: nat)
    requires c.window.Some? && |c.window.value| == WINDOW && n >= 1 && (lba + n) * BLOCK <= |device|
    ensures Read(c, device, lba, n) == Some(SeenBetween(c, device, lba * BLOCK, (lba + n) * BLOCK))
  {
    ReadSees(c, device, lba, n);
    hide Read, SeenAt;
    var got, want := Read(c, device, lba, n).value, SeenBetween(c, device, lba * BLOCK, (lba + n) * BLOCK);
    forall i | 0 <= i < |want| ensures got[i] == want[i] {
      assert want[i] == SeenAt(c, device, lba * BLOCK + i);
    }
    assert got == want;
  }
}
