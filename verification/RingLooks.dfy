/** A look takes time: the host copies an entry in pieces while the engine goes
    on.  Reading the tag first and the rest later is safe, at any distance;
    reading the body first is not. */
module RingLooks {
  import opened Words
  import opened Memory
  import opened Host
  import opened AdminPayload
  import AdminLaws
  import opened AdminRing
  import opened RingTrace
  import opened PhaseTag
  import opened RingRuns
  import opened RingLaws
  import opened RingStores
  import opened HostRuns
  import T = RingTorn

  /** RAM with the first i effects of the next turn visible. */
  function RamBy(env: Env, s: Sys, i: nat): Ram
    requires Sound(s.ring) && i <= |NextEffects(env, s)|
  {
    Replay(s.world.ram, NextEffects(env, s)[..i])
  }

  function HeadEntry(s: Sys, m: Ram): seq<u8> {
    Load(m, s.ring.cq.base + 16 * s.consumer.head, 16)
  }

  lemma VisibleGrows(env: Env, s: Sys, i: nat, j: nat)
    requires Sound(s.ring) && i <= j
    ensures s.published <= VisibleBy(env, s, i) <= VisibleBy(env, s, j)
  {
    hide TakeTurn, NextEffects;
  }

  lemma TornLater(env: Env, s: Sys, i: nat, j: nat)
    requires Sound(s.ring) && i <= j <= |NextEffects(env, s)| && !TornBy(env, s, j)
    ensures !TornBy(env, s, i)
  {
    hide NextEffects, TornStatus;
  }

  /** Within one turn: the tag after i effects, the entry after j. */
  lemma TagThenBody(env: Env, s: Sys, i: nat, j: nat)
    requires Lawful(s) && i <= j && Observable(env, s, j) && !TornBy(env, s, j)
    ensures SeesNew(s.consumer, RamBy(env, s, i), s.ring.cq.base) ==>
      && |s.consumer.received| < |VisibleBy(env, s, i)|
      && HeadEntry(s, RamBy(env, s, j)) == VisibleBy(env, s, i)[|s.consumer.received|]
  {
    hide NextEffects, VisibleBy, TornBy, Replay, InOrder, Viewed, AdminLaws.Coherent, SeesNew, SpansOffQueue;
    TornLater(env, s, i, j);
    VisibleGrows(env, s, i, j);
    NextStoreIsSafe(env, s, i);
    NextStoreIsSafe(env, s, j);
  }

  lemma PublishedByTheTurn(env: Env, s: Sys, i: nat)
    requires Sound(s.ring) && Serving(s.ring) && Runnable(s.ring, 1)
    ensures VisibleBy(env, s, i) <= Make(env, s, Turn([])).published
  {
    hide TakeTurn, SpansOffQueue;
  }

  /** In a run: the tag is read at point k, after i effects of the turn that
      follows, and the entry at any later point j, after n effects of the turn that
      follows there.  A new tag then still stands before the whole entry published
      next, as long as the host keeps its side and no refused store has moved part of
      a status word. */
  lemma TagThenBodyInRuns(env: Env, p: Policy, w: World, moves: seq<Move>, k: nat, i: nat, j: nat, n: nat)
    requires k < j <= |moves| && (i > 0 ==> moves[k] == Turn([])) && forall l :: k <= l < j ==> Waiting(moves[l])
    requires Observable(env, Reached(env, Boot(p, w), moves, k), i)
    requires Observable(env, Reached(env, Boot(p, w), moves, j), n)
      && !TornBy(env, Reached(env, Boot(p, w), moves, j), n)
    requires !TornBy(env, Reached(env, Boot(p, w), moves, k), i)
    ensures var s, t := Reached(env, Boot(p, w), moves, k), Reached(env, Boot(p, w), moves, j);
      SeesNew(s.consumer, RamBy(env, s, i), s.ring.cq.base) ==>
        && |s.consumer.received| < |VisibleBy(env, s, i)|
        && HeadEntry(s, RamBy(env, t, n)) == VisibleBy(env, s, i)[|s.consumer.received|]
  {
    hide Make, NextEffects, VisibleBy, TornBy, Replay, Lawful, SeesNew, SpansOffQueue, Reached;
    var s, t := Reached(env, Boot(p, w), moves, k), Reached(env, Boot(p, w), moves, j);
    EveryStateLawful(env, p, w, moves, k);
    EveryStateLawful(env, p, w, moves, j);
    NextStoreIsSafe(env, s, i);
    NextStoreIsSafe(env, t, n);
    RunIsLater(env, Boot(p, w), moves, k, j);
    VisibleIsPublished(env, p, w, moves, k, i, j);
    VisibleGrows(env, t, 0, n);
  }

  lemma VisibleIsPublished(env: Env, p: Policy, w: World, moves: seq<Move>, k: nat, i: nat, j: nat)
    requires k < j <= |moves| && (i > 0 ==> moves[k] == Turn([])) && forall l :: k <= l < j ==> Waiting(moves[l])
    requires Observable(env, Reached(env, Boot(p, w), moves, k), i)
    ensures VisibleBy(env, Reached(env, Boot(p, w), moves, k), i) <= Reached(env, Boot(p, w), moves, j).published
  {
    hide Make, Reached, VisibleBy, SpansOffQueue, NextEffects;
    var s := Reached(env, Boot(p, w), moves, k);
    OneMoreMove(env, Boot(p, w), moves, k);
    RunIsLater(env, Boot(p, w), moves, k + 1, j);
    RunIsLater(env, Boot(p, w), moves, k, j);
    if i == 0 || !Serving(s.ring) || !Runnable(s.ring, 1) {
      NothingVisible(env, s, i);
    } else {
      PublishedByTheTurn(env, s, i);
    }
  }

  lemma NothingVisible(env: Env, s: Sys, i: nat)
    requires Sound(s.ring) && (i == 0 || !Serving(s.ring) || !Runnable(s.ring, 1))
    ensures VisibleBy(env, s, i) == s.published
  {
    if Serving(s.ring) && Runnable(s.ring, 1) {
      hide TakeTurn, NextEffects;
      CompletionStoredInOrder(env, s);
    }
  }

  // ----- the body first -----

  /** Calm effects leave a slot alone that the spans are off. */
  lemma {:induction false} CalmLeavesSlot(m: Ram, es: seq<Effect>, spans: seq<Span>, slot: int)
    requires Calm(es, spans) && forall i :: 0 <= i < |spans| ==> Apart(spans[i].address, spans[i].bytes, slot, 16)
    ensures Load(Replay(m, es), slot, 16) == Load(m, slot, 16)
    decreases |es|
  {
    if es != [] {
      var e := es[|es| - 1];
      CalmLeavesSlot(m, es[..|es| - 1], spans, slot);
      if e.Stored? {
        var j :| 0 <= j < |spans| && Within(e.to, |e.bytes|, spans[j]);
        if e.bytes != [] {
          LoadApart(Replay(m, es[..|es| - 1]), e.to, e.bytes, slot, 16);
        }
      }
    }
  }

  /** In a turn that completes with c, the body of the slot is what lay there
      before until the body store, three effects before the end, and c's from then on. */
  lemma BodyBy(env: Env, s: Sys, i: nat)
    requires Sound(s.ring) && Serving(s.ring) && Runnable(s.ring, 1) && SpansOffQueue(env, s.ring, s.world)
    requires i <= |NextEffects(env, s)|
    ensures var t, es := TakeTurn(env, s.ring, s.world), NextEffects(env, s);
      t.Served? && t.answer.Some? ==>
        && |t.answer.value| == 16 && |es| >= 4
        && Load(RamBy(env, s, i), CqSlot(s.ring), 14)
           == if i + 3 < |es| then Load(s.world.ram, CqSlot(s.ring), 14) else t.answer.value[..14]
  {
    hide TakeTurn, HeadSpans, Shaped, Replay, Grew;
    var t, m, slot := TakeTurn(env, s.ring, s.world), s.world.ram, CqSlot(s.ring);
    var spans := HeadSpans(env, s.ring, s.world);
    var quiet, rest := EffectsAre(env, s);
    if t.Served? && t.answer.Some? {
      var c := t.answer.value;
      ShapedEnd(t, quiet, rest, spans, slot);
      hide Calm;
      var pre := quiet[..|quiet| - 2];
      assert quiet == pre + BodyStore(slot, c);
      if i <= |pre| {
        assert (quiet + rest)[..i] == pre[..i];
        CalmPrefix(pre, spans, i);
        CalmLeavesSlot(m, pre[..i], spans, slot);
        assert Load(RamBy(env, s, i), slot, 14) == Load(RamBy(env, s, i), slot, 16)[..14];
        assert Load(m, slot, 14) == Load(m, slot, 16)[..14];
      } else {
        EndOfBody(m, pre, slot, c, i - |pre|);
        assert (quiet + rest)[..i] == pre + (BodyStore(slot, c) + StatusStore(slot, c))[..i - |pre|];
      }
    }
  }

  lemma CalmPrefix(es: seq<Effect>, spans: seq<Span>, i: nat)
    requires Calm(es, spans) && i <= |es|
    ensures Calm(es[..i], spans)
  {
  }

  lemma ShapedEnd(t: Turn, quiet: seq<Effect>, rest: seq<Effect>, spans: seq<Span>, slot: int)
    requires Shaped(t, quiet, rest, spans, slot) && t.Served? && t.answer.Some?
    ensures var c := t.answer.value;
      && |c| == 16 && rest == StatusStore(slot, c) && |quiet| >= 2 && quiet[|quiet| - 2..] == BodyStore(slot, c)
      && Calm(quiet[..|quiet| - 2], spans)
  {
  }

  /** The last four effects of a turn that completes, or the first n > 0 of them. */
  lemma EndOfBody(m: Ram, pre: seq<Effect>, slot: int, c: seq<u8>, n: nat)
    requires |c| == 16 && 0 < n <= 4
    ensures Load(Replay(m, pre + (BodyStore(slot, c) + StatusStore(slot, c))[..n]), slot, 14) == c[..14]
  {
    var all := BodyStore(slot, c) + StatusStore(slot, c);
    var m0 := Replay(m, pre);
    ReplayConcat(m, pre, all[..n]);
    assert all == [Stored(slot, c[..14], true), Fenced, Stored(slot + 14, c[14..], true), Level(true)];
    StepReplay(m0, all, n);
    StepReplay(m0, all, n - 1);
    if n > 1 {
      StepReplay(m0, all, n - 2);
      if n > 2 {
        StepReplay(m0, all, n - 3);
      }
    }
    hide Replay;
    var m1 := Store(m0, slot, c[..14]);
    LoadStored(m0, slot, c[..14]);
    LoadApart(m1, slot + 14, c[14..], slot, 14);
  }

  lemma StepReplay(m: Ram, es: seq<Effect>, n: nat)
    requires n <= |es|
    ensures Replay(m, es[..n]) == if n == 0 then m else Applied(Replay(m, es[..n - 1]), es[n - 1])
  {
    if n > 0 {
      assert es[..n][..n - 1] == es[..n - 1];
    }
  }

  /** The body first, the tag later: a host that keeps its side and has taken
      everything, reading the body after i effects and the tag after all, is led to
      the completion just published, with the right body exactly when the body
      store was visible to it by then, or left the bytes that lay there before. */
  lemma BodyThenTag(env: Env, s: Sys, i: nat)
    requires Lawful(s) && Observable(env, s, |NextEffects(env, s)|) && i <= |NextEffects(env, s)|
    requires Serving(s.ring) && Runnable(s.ring, 1) && |s.consumer.received| == |s.published|
    ensures var t, es := TakeTurn(env, s.ring, s.world), NextEffects(env, s);
      t.Served? && t.answer.Some? ==>
        && |t.answer.value| == 16 && |es| >= 4
        && SeesNew(s.consumer, RamBy(env, s, |es|), s.ring.cq.base)
        && HeadEntry(s, RamBy(env, s, |es|)) == t.answer.value
        && (HeadEntry(s, RamBy(env, s, i))[..14] == t.answer.value[..14]
            <==> i + 3 >= |es| || HeadEntry(s, s.world.ram)[..14] == t.answer.value[..14])
  {
    hide TakeTurn, NextEffects, HeadSpans, SpansOffQueue, Replay, View, InOrder, TornStatus, AdminLaws.Coherent;
    var t, n := TakeTurn(env, s.ring, s.world), |NextEffects(env, s)|;
    if t.Served? && t.answer.Some? {
      ServedIsUntorn(env, s);
      NextStoreIsSafe(env, s, n);
      BodyBy(env, s, i);
      assert CqSlot(s.ring) == s.ring.cq.base + 16 * s.consumer.head;
      assert HeadEntry(s, RamBy(env, s, i))[..14] == Load(RamBy(env, s, i), CqSlot(s.ring), 14);
      assert HeadEntry(s, s.world.ram)[..14] == Load(s.world.ram, CqSlot(s.ring), 14);
    }
  }

  lemma ServedIsUntorn(env: Env, s: Sys)
    requires Sound(s.ring) && Serving(s.ring) && Runnable(s.ring, 1)
    ensures TakeTurn(env, s.ring, s.world).Served? ==> !TornBy(env, s, |NextEffects(env, s)|)
  {
    hide TakeTurn, HeadSpans, Shaped, Grew, NextEffects, TornStatus;
    var quiet, rest := EffectsAre(env, s);
    var spans := HeadSpans(env, s.ring, s.world);
    if TakeTurn(env, s.ring, s.world).Served? && TornBy(env, s, |NextEffects(env, s)|) {
      var n :| 0 <= n < |NextEffects(env, s)| && TornStatus(NextEffects(env, s)[n], CqSlot(s.ring));
      TornStops(TakeTurn(env, s.ring, s.world), quiet, rest, spans, CqSlot(s.ring), n);
    }
  }

  /** Such a run, from init: the body is read when nothing is stored yet, the tag
      when all is; the byte that names the submission-queue head is stale. */
  lemma StaleBodyIsTaken()
    ensures var env, s := T.Setting(false), Reached(T.Setting(false), Boot(T.POLICY, T.WORLD), T.MOVES, 2);
      && |NextEffects(env, s)| == 5 && Observable(env, s, 5)
      && SeesNew(s.consumer, RamBy(env, s, 5), s.ring.cq.base)
      && VisibleBy(env, s, 5) == [HeadEntry(s, RamBy(env, s, 5))]
      && HeadEntry(s, RamBy(env, s, 0))[8] == 0 && HeadEntry(s, RamBy(env, s, 5))[8] == 1
  {
    var env, s := T.Setting(false), T.BEFORE;
    T.SubmittedReady();
    T.TheSpans(false);
    TheObservable();
    TheEntry();
    StaleByte(env, s);
    hide Reached, Observable, NextEffects, Lawful, HeadEntry, VisibleBy, T.Entry;
    T.ReachesBefore(false);
    EveryStateLawful(env, T.POLICY, T.WORLD, T.MOVES, 2);
    FirstLook(env, s, T.Entry());
  }

  lemma TheObservable()
    ensures var env, s := T.Setting(false), T.BEFORE;
      && Sound(s.ring) && |NextEffects(env, s)| == 5 && Observable(env, s, 5)
      && Serving(s.ring) && Runnable(s.ring, 1) && s.consumer.received == s.published == []
      && TakeTurn(env, s.ring, s.world).Served? && TakeTurn(env, s.ring, s.world).answer == Some(T.Entry())
  {
    T.SubmittedReady();
    T.TheTurn(false);
    T.TheSpans(false);
    TheEffects();
    hide TakeTurn, HeadSpans, SpansOffQueue, NextEffects, Completion, Zeros, T.Stores;
  }

  /** A first look, when the whole of the turn is visible. */
  lemma FirstLook(env: Env, s: Sys, c: seq<u8>)
    requires Lawful(s) && |NextEffects(env, s)| == 5 && Observable(env, s, 5)
    requires Serving(s.ring) && Runnable(s.ring, 1) && s.consumer.received == s.published == []
    requires TakeTurn(env, s.ring, s.world).Served? && TakeTurn(env, s.ring, s.world).answer == Some(c)
    ensures SeesNew(s.consumer, RamBy(env, s, 5), s.ring.cq.base) && HeadEntry(s, RamBy(env, s, 5)) == c
    ensures VisibleBy(env, s, 5) == [HeadEntry(s, RamBy(env, s, 5))]
  {
    hide TakeTurn, NextEffects, Observable, Replay, SeesNew, InOrder, Viewed, AdminLaws.Coherent;
    BodyThenTag(env, s, 0);
  }

  lemma TheEffects()
    requires Ready(T.SUBMITTED)
    requires T.Ends(false, TakeTurn(T.Setting(false), T.SUBMITTED, T.BEFORE.world), T.SUBMITTED, T.BEFORE.world,
      T.Stores(false))
    ensures NextEffects(T.Setting(false), T.BEFORE) == T.Stores(false)
    ensures |T.Stores(false)| == 5
  {
    hide TakeTurn, Completion, Zeros;
  }

  lemma TheEntry()
    ensures T.Entry()[8] == 1
  {
    CompletionFields(0, 1, 0, 2, 1);
  }

  lemma StaleByte(env: Env, s: Sys)
    requires Sound(s.ring) && s == T.BEFORE
    ensures RamBy(env, s, 0) == s.world.ram && HeadEntry(s, s.world.ram)[8] == 0
  {
    hide NextEffects;
    assert NextEffects(env, s)[..0] == [];
  }
}
