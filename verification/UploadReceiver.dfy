/** The receiver as the program updates it, proved against the functions of Upload. */
module UploadReceiver {
  import opened Words
  import opened Upload

  class Channel {
    const h: Hashes
    const g: Registered
    const t: Faults
    var files: Files
    var seqNo: u32
    var received: nat
    var hashed: seq<u8>
    var open: bool
    var last: Option<seq<u8>>
    var done: bool
    var failed: bool
    var ack: seq<u8>

    ghost predicate Valid()
      reads this
    {
      RegisteredOk(g) && received <= g.size && |ack| == BLOCK
    }

    ghost function Abs(): Receiver
      reads this
    {
      Receiver(seqNo, received, hashed, open, last, done, failed, ack)
    }

    constructor (h: Hashes, g: Registered, t: Faults, files: Files)
      requires RegisteredOk(g)
      ensures Valid() && this.h == h && this.g == g && this.t == t && this.files == files
      ensures Abs() == Initial(h, g)
    {
      this.h, this.g, this.t, this.files := h, g, t, files;
      seqNo, received, hashed, open, last, done, failed := 0, 0, [], false, None, false, false;
      ack := AckBlock(h, g, 0, 0, 0);
    }

    method Acknowledge()
      requires Valid()
      modifies this`ack
      ensures Valid() && Abs() == Acked(h, g, old(Abs()))
    {
      ack := AckBlock(h, g, seqNo, if failed then 2 else if done then 1 else 0, received);
    }

    method Abandon()
      requires Valid()
      modifies this`failed, this`open, this`ack
      ensures Valid() && Abs() == GiveUp(h, g, old(Abs()))
    {
      failed, open := true, false;
      Acknowledge();
    }

    method AcceptFrame(b: seq<u8>) returns (ok: bool)
      requires Valid()
      modifies this
      ensures Valid() && (ok, Abs(), files) == Accept(h, g, t, old(Abs()), old(files), b)
    {
      hide Genuine, AckBlock, PublishFile, Append, Open, Parse;
      if !Genuine(h, g, b) {
        return false;
      }
      GenuineShape(h, g, b);
      var f, signature := Parse(b), h.sha(b);
      if f.seqNo == seqNo {
        return last == Some(signature);
      }
      if failed || done || f.seqNo != seqNo + 1 || f.offset != received {
        return false;
      }
      if f.kind == BEGIN {
        if seqNo != 0 || f.n != 0 || f.offset != 0 {
          return false;
        }
      } else if f.kind == DATA {
        if !open || f.n != (if CAP <= g.size - received then CAP else g.size - received) || f.n == 0 {
          return false;
        }
      } else if f.kind == END {
        if !open || f.n != 0 || received != g.size {
          return false;
        }
      } else {
        return false;
      }
      if f.kind == BEGIN {
        if files.dest.Some? {
          return false;
        }
        var (worked, after) := Open(t, files);
        ok, files := worked, after;
        if !ok {
          Abandon();
          return;
        }
        open := true;
      } else if f.kind == DATA {
        var payload := b[HEADER..HEADER + f.n];
        var (worked, after) := Append(t, files, payload);
        ok, files := worked, after;
        if !ok {
          Abandon();
          return;
        }
        hashed, received := hashed + payload, received + f.n;
      } else {
        if h.sha(hashed) != g.digest {
          Abandon();
          return false;
        }
        var (worked, after) := PublishFile(t, files);
        ok, files := worked, after;
        if !ok {
          Abandon();
          return;
        }
        open, done := false, true;
      }
      seqNo, last := f.seqNo, Some(signature);
      Acknowledge();
      ok := true;
    }

    method Overlay(lba: nat, n: nat, original: seq<u8>) returns (out: Option<seq<u8>>)
      requires Valid()
      ensures out == Overlaid(Abs(), lba, n, original)
    {
      if |original| != n * BLOCK || n < 1 {
        return None;
      }
      if !(lba <= ACK_LBA < lba + n) {
        return Some(original);
      }
      var at := (ACK_LBA - lba) * BLOCK;
      out := Some(original[..at] + ack + original[at + BLOCK..]);
    }
  }
}
