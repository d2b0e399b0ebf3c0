/** The delivery channel from wire to wire: which blocks are requests, which of
    them are accepted, and what the window shows then. */
module DownloadWire {
  import opened Words
  import opened Upload
  import opened Download
  import opened DownloadRuns

  lemma SevenParts(b: seq<u8>)
    requires |b| == BLOCK
    ensures b[..48] == b[..16] + b[16..32] + b[32..36] + b[36..44] + b[44..48]
    ensures b == b[..48] + b[48..52] + b[52..]
  {
  }

  /** A block passes the structural checks only when it is, byte for byte, the
      request built from its id, offset and length; and each of those passes
      (RequestParses). */
  lemma RequestIsBuilt(h: Hashes, token: seq<u8>, b: seq<u8>)
    requires |token| == 16
    ensures var p := ParseRequest(h, token, b);
      p.Some? ==> p.value.0 >= 1 && b == RequestBlock(h, token, p.value.0, p.value.1, p.value.2)
  {
    if ParseRequest(h, token, b).Some? {
      SevenParts(b);
      BytesOf32(b, 32);
      BytesOf64(b, 36);
      BytesOf32(b, 44);
      BytesOf32(b, 48);
      AllZeroIsZeros(b[52..]);
      hide ToLe, Le32, Le64;
      assert b[..48] == RequestHead(token, Le32(b, 32), Le64(b, 36), Le32(b, 44));
    }
  }

  /** The channel before anything is registered refuses every block, and once
      something is registered every block that is no request. */
  lemma OtherBlocksRefused(h: Hashes, c: Channel, b: seq<u8>)
    requires Hashed(h, c)
    requires c.artifact.None? || forall id: u32, offset: u64, length: u32 ::
      id >= 1 ==> b != RequestBlock(h, c.token, id, offset, length)
    ensures Handle(h, c, b) == (false, c)
  {
    hide RequestBlock;
    if c.artifact.Some? {
      RequestIsBuilt(h, c.token, b);
    }
  }

  /** A request is legal when it asks for the manifest with length 0, or for at
      most 65408 bytes from an offset inside the artifact or at its end. */
  predicate Legal(size: nat, offset: u64, length: u32) {
    if offset == 0xffff_ffff_ffff_ffff then length == 0 else 1 <= length <= 65408 && offset <= size
  }

  /** The request last accepted, field by field. */
  predicate Latched(c: Channel, id: u32, offset: u64, length: u32) {
    match c.latched
    case None => false
    case Some(Manifest(i)) => i == id && offset == 0xffff_ffff_ffff_ffff && length == 0
    case Some(Data(i, o, l)) => i == id && o == offset && l == length && offset != 0xffff_ffff_ffff_ffff
  }

  /** The window shows the manifest, the bytes asked for, or those that are left. */
  predicate Answers(h: Hashes, b: seq<u8>, token: seq<u8>, a: seq<u8>, id: u32, offset: u64, length: u32) {
    if offset == 0xffff_ffff_ffff_ffff then Shows(h, b, token, a, id, 3, offset, [])
    else if offset as int + length as int <= |a| then
      Shows(h, b, token, a, id, 0, offset, a[offset..offset as int + length as int])
    else offset <= |a| && Shows(h, b, token, a, id, 1, offset, a[offset..])
  }

  /** A request block is accepted exactly when it is legal and has a greater id
      than the last accepted one, or repeats it; refused or repeated it changes
      nothing, and new it is latched and the window shows its answer. */
  lemma RequestAnswered(h: Hashes, c: Channel, id: u32, offset: u64, length: u32)
    requires Consistent(h, c) && c.artifact.Some? && |c.artifact.value| < 0xffff_ffff_ffff_ffff && id >= 1
    ensures var (ok, d) := Handle(h, c, RequestBlock(h, c.token, id, offset, length));
      var a, last := c.artifact.value, if c.latched.None? then 0 else c.latched.value.id;
      && (ok <==> Legal(|a|, offset, length) && (id > last || Latched(c, id, offset, length)))
      && (!ok || id <= last ==> d == c)
      && (ok && id > last ==>
            && d.token == c.token && d.artifact == c.artifact && Latched(d, id, offset, length) && d.window.Some?
            && Answers(h, d.window.value, c.token, a, id, offset, length))
  {
    var a := c.artifact.value;
    RequestHandled(h, c, id, offset, length);
    assert Hashed(h, c) && |c.token| == 16 && |h.sha(a)| == 32;
    hide BuildWindow, Handle, RequestBlock, Answers, Latched, Consistent, Hashed, ChannelOk, Legal, Asked;
    if Legal(|a|, offset, length) {
      LegalFits(|a|, offset, length);
      LatchedIs(c, id, offset, length);
      WindowAnswers(h, c.token, a, id, offset, length);
      LatchedIs(c.(latched := Some(Asked(id, offset, length))), id, offset, length);
    }
  }

  lemma LegalFits(size: nat, offset: u64, length: u32)
    requires Legal(size, offset, length)
    ensures offset == 0xffff_ffff_ffff_ffff ==> length == 0
    ensures offset != 0xffff_ffff_ffff_ffff ==> offset <= size && 1 <= length <= CAP
  {
  }

  function Asked(id: u32, offset: u64, length: u32): (q: Request)
    ensures q.id == id && (q.Data? ==> q.offset == offset && q.length == length && offset < 0xffff_ffff_ffff_ffff)
  {
    if offset == 0xffff_ffff_ffff_ffff then Manifest(id) else Data(id, offset, length)
  }

  lemma LatchedIs(c: Channel, id: u32, offset: u64, length: u32)
    requires offset == 0xffff_ffff_ffff_ffff ==> length == 0
    ensures Latched(c, id, offset, length) <==> c.latched == Some(Asked(id, offset, length))
  {
  }

  lemma WindowAnswers(h: Hashes, token: seq<u8>, a: seq<u8>, id: u32, offset: u64, length: u32)
    requires |token| == 16 && |a| < 0xffff_ffff_ffff_ffff && |h.sha(a)| == 32
    requires offset != 0xffff_ffff_ffff_ffff ==> offset <= |a| && 1 <= length <= CAP
    ensures Answers(h, BuildWindow(h, token, a, Some(Asked(id, offset, length))), token, a, id, offset, length)
  {
    WindowDecodes(h, token, a, Some(Asked(id, offset, length)));
    hide BuildWindow, Shows;
  }

  lemma RequestHandled(h: Hashes, c: Channel, id: u32, offset: u64, length: u32)
    requires Hashed(h, c) && c.artifact.Some? && id >= 1
    ensures var q, a := Some(Asked(id, offset, length)), c.artifact.value;
      Legal(|a|, offset, length) ==> q.value.Data? ==> q.value.offset <= |a| && q.value.length <= CAP
    ensures var q, a := Some(Asked(id, offset, length)), c.artifact.value;
      Handle(h, c, RequestBlock(h, c.token, id, offset, length))
      == if !Legal(|a|, offset, length) then (false, c)
         else if c.latched == q then (true, c)
         else if id <= LastId(c) then (false, c)
         else (true, c.(latched := q, window := Some(BuildWindow(h, c.token, a, q))))
  {
    RequestParses(h, c.token, id, offset, length);
    hide BuildWindow, ParseRequest, RequestBlock;
  }

  /** Registering: once, and the window then shows that nothing was asked for. */
  lemma RegisteredShows(h: Hashes, token: seq<u8>, artifact: seq<u8>, other: seq<u8>)
    requires |token| == 16 && |artifact| <= U64_MAX && |h.sha(artifact)| == 32
    requires |other| <= U64_MAX && |h.sha(other)| == 32
    ensures var c := Register(h, Opened(token), artifact);
      && c.Some? && c.value.token == token && c.value.artifact == Some(artifact) && c.value.latched == None
      && Consistent(h, c.value) && Shows(h, c.value.window.value, token, artifact, 0, 2, 0, [])
      && Register(h, c.value, other) == None
  {
    hide BuildWindow, Shows;
    WindowDecodes(h, token, artifact, None);
  }
}
