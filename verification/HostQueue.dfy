/** The host's side of the completion queue: the loop of nvme_exec_command
    (upstream-nvme.c) that waits for the next entry, with the depth left open. */
module HostQueue {
  import opened Words
  import opened Memory
  import opened PhaseTag
  import W = Wheel

  /** Which of the successive views of RAM first shows a new entry. */
  function FirstNew(c: Consumer, base: int, views: seq<Ram>): nat {
    if views == [] || SeesNew(c, views[0], base) then 0 else 1 + FirstNew(c, base, views[1..])
  }

  lemma {:induction false} FirstNewIsFirst(c: Consumer, base: int, views: seq<Ram>, k: nat)
    requires k <= |views| && forall i :: 0 <= i < k ==> !SeesNew(c, views[i], base)
    ensures FirstNew(c, base, views) == k + FirstNew(c, base, views[k..])
    decreases k
  {
    if k == 0 {
      assert views[0..] == views;
    } else {
      assert forall i :: 0 <= i < k - 1 ==> views[1..][i] == views[i + 1];
      FirstNewIsFirst(c, base, views[1..], k - 1);
      assert views[1..][k - 1..] == views[k..];
    }
  }

  lemma FirstFound(c: Consumer, base: int, views: seq<Ram>, k: nat)
    requires k < |views| && SeesNew(c, views[k], base) && forall i :: 0 <= i < k ==> !SeesNew(c, views[i], base)
    ensures FirstNew(c, base, views) == k
  {
    FirstNewIsFirst(c, base, views, k);
    assert views[k..][0] == views[k];
  }

  lemma NoneLeft(c: Consumer, base: int, views: seq<Ram>)
    ensures views == [] ==> FirstNew(c, base, views) == 0
  {
  }

  /** What the driver writes to the device once it has taken an entry. */
  datatype Write = Invalidate(tag: u16) | Doorbell(head: int)

  class Queue {
    const base: int
    const depth: nat
    var head: int
    var phase: int
    var written: seq<Write>
    ghost var received: seq<seq<u8>>

    ghost function Abs(): Consumer
      reads this
    {
      Consumer(head, phase, received)
    }

    constructor (base: int, depth: nat)
      ensures this.base == base && this.depth == depth && Abs() == FRESH && written == []
    {
      this.base, this.depth := base, depth;
      head, phase, written, received := 0, 1, [], [];
    }

    /** Looks at one view of RAM after another until the entry at the head
        carries the queue's own phase, or runs out of time.  An entry is taken
        whatever it says: its tag is invalidated, the head moves on and is rung.
        The command is done when the entry names its tag and reports no error. */
    method Await(views: seq<Ram>, tag: u16) returns (done: bool, result: Option<u64>)
      modifies this
      ensures var k := FirstNew(old(Abs()), base, views);
        if k < |views| then
          var e := Load(views[k], base + 16 * old(head), 16);
          && Abs() == Taken(old(Abs()), views[k], base, depth)
          && written == old(written) + [Invalidate(Le16(e, 12)), Doorbell(head)]
          && result == (if Le16(e, 12) == tag then Some(Le64(e, 0)) else None)
          && done == (Le16(e, 12) == tag && Le16(e, 14) / 2 == 0)
        else Abs() == old(Abs()) && written == old(written) && !done && result == None
    {
      hide Le16, Le32, Le64, FirstNew;
      ghost var c := Abs();
      done, result := false, None;
      var i := 0;
      while i < |views|
        invariant 0 <= i <= |views| && Abs() == c && written == old(written)
        invariant !done && result == None
        invariant forall j :: 0 <= j < i ==> !SeesNew(c, views[j], base)
      {
        var e := Load(views[i], base + 16 * head, 16);
        if e[14] as int % 2 == phase {
          FirstFound(c, base, views, i);
          var found := Le16(e, 12) == tag;
          if found {
            result := Some(Le64(e, 0));
          }
          written := written + [Invalidate(Le16(e, 12))];
          received := received + [e];
          head := head + 1;
          if head == depth {
            head, phase := 0, 1 - phase;
          }
          written := written + [Doorbell(head)];
          done := found && Le16(e, 14) / 2 == 0;
          return;
        }
        i := i + 1;
      }
      FirstNewIsFirst(c, base, views, |views|);
      NoneLeft(c, base, views[|views|..]);
    }
  }

  /** A sound view of what is published for a consumer that follows it and has
      acknowledged nothing it has not taken. */
  ghost predicate Visible(c: Consumer, m: Ram, base: int, d: int, published: seq<seq<u8>>) {
    Following(c, d, published)
    && exists acked: int :: acked <= |c.received| && View(m, base, d, published, acked)
  }

  /** Waiting on sound views of what is published, at any moments while it grows,
      yields the next published entry, from the first view that has it. */
  lemma {:induction false} AwaitsNext(c: Consumer, base: int, d: int, views: seq<Ram>, seen: seq<seq<seq<u8>>>,
      all: seq<seq<u8>>)
    requires |seen| == |views|
    requires forall i :: 0 <= i < |views| ==> Visible(c, views[i], base, d, seen[i]) && seen[i] <= all
    ensures var k := FirstNew(c, base, views);
      && (k < |views| ==>
            |c.received| < |seen[k]| && Taken(c, views[k], base, d).received == all[..|c.received| + 1])
      && forall i :: 0 <= i < k && i < |views| ==> |seen[i]| == |c.received|
    decreases |views|
  {
    if views != [] {
      assert Visible(c, views[0], base, d, seen[0]);
      var acked: int :| acked <= |c.received| && View(views[0], base, d, seen[0], acked);
      NewExactlyWhenPublished(c, views[0], base, d, seen[0], acked);
      if !SeesNew(c, views[0], base) {
        AwaitsNext(c, base, d, views[1..], seen[1..], all);
      } else {
        assert Looked(c, views[0], base, d).received <= seen[0];
      }
    }
  }
}
