/** The delivery channel as the program updates it, proved against the functions of Download. */
module DownloadChannel {
  import opened Words
  import opened Upload
  import D = Download

  class HostArtifactChannel {
    const h: Hashes
    const token: seq<u8>
    var artifact: Option<seq<u8>>
    var latched: Option<D.Request>
    var window: Option<seq<u8>>

    ghost function Abs(): D.Channel
      reads this
    {
      D.Channel(token, artifact, latched, window)
    }

    ghost predicate Valid()
      reads this
    {
      D.Hashed(h, Abs()) && (window.Some? ==> |window.value| == WINDOW)
    }

    constructor (h: Hashes, token: seq<u8>)
      requires |token| == 16
      ensures Valid() && this.h == h && Abs() == D.Opened(token)
    {
      this.h, this.token := h, token;
      artifact, latched, window := None, None, None;
    }

    method Register(a: seq<u8>) returns (done: bool)
      requires Valid() && |a| <= U64_MAX && |h.sha(a)| == 32
      modifies this
      ensures Valid() && done == D.Register(h, old(Abs()), a).Some?
      ensures Abs() == if done then D.Register(h, old(Abs()), a).value else old(Abs())
    {
      hide D.BuildWindow;
      if artifact.Some? {
        return false;
      }
      artifact, latched := Some(a), None;
      window := Some(D.BuildWindow(h, token, a, None));
      done := true;
    }

    method HandleRequest(b: seq<u8>) returns (ok: bool)
      requires Valid()
      modifies this
      ensures Valid() && (ok, Abs()) == D.Handle(h, old(Abs()), b)
    {
      hide D.BuildWindow, D.ParseRequest;
      if artifact.None? {
        return false;
      }
      var p := D.ParseRequest(h, token, b);
      if p.None? {
        return false;
      }
      var (id, offset, length) := p.value;
      var q;
      if offset == D.SENTINEL {
        if length != 0 {
          return false;
        }
        q := D.Manifest(id);
      } else {
        if !(1 <= length <= CAP) || offset > |artifact.value| {
          return false;
        }
        q := D.Data(id, offset, length);
      }
      if latched == Some(q) {
        return true;
      }
      if id <= (if latched.Some? then latched.value.id else 0) {
        return false;
      }
      latched := Some(q);
      window := Some(D.BuildWindow(h, token, artifact.value, latched));
      ok := true;
    }

    method Read(lba: nat, n: nat, original: seq<u8>) returns (out: Option<seq<u8>>)
      requires Valid()
      ensures out == D.Overlay(Abs(), lba, n, original)
    {
      if window.None? || n < 1 || |original| != n * BLOCK {
        return None;
      }
      var lo, hi := D.Max(lba, D.RESP_LBA), D.Min(lba + n, D.RESP_LBA + D.WINDOW_BLOCKS);
      var bytes := original;
      if lo < hi {
        var src, dst, size := (lo - D.RESP_LBA) * BLOCK, (lo - lba) * BLOCK, (hi - lo) * BLOCK;
        assert src + size == (hi - D.RESP_LBA) * BLOCK;
        bytes := bytes[..dst] + window.value[src..src + size] + bytes[dst + size..];
      }
      out := Some(bytes);
    }
  }
}
