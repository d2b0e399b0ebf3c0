/** Two runs in which a host that keeps its side takes a wrong entry: in one the
    last store of a completion reports failure after it has moved the phase tag,
    in the other the host reads the body of the entry before its tag. */
module RingTorn {
  import opened Words
  import opened Memory
  import opened Host
  import opened AdminPayload
  import opened AdminState
  import opened AdminRing
  import opened RingTrace
  import opened PhaseTag
  import opened RingRuns
  import opened RingLaws

  /** Two queues of two entries; the third fallible callback may fail, and then moves one byte. */
  function Setting(fails: bool): Env {
    Env({(0x1000, 128), (0x1000, 64), (0x2000, 32), (0x2000, 16)}, None, false, false,
        if fails then {2} else {}, map[2 := 1])
  }

  const ENV := Setting(true)

  const POLICY := Policy(1, 0, 0, false, false, false)

  /** The host has cleared the tags, and left a 9 behind the tag of the first slot. */
  const WORLD := World(map[0x200f := 9], false, 0, [], false)

  const MOVES := [Configure(0x1000, 2, 0x2000, 2), Doorbell(1), Turn([4])]

  const ORIGIN := Configured(Started(POLICY), 0x1000, 2, 0x2000, 2)

  const SUBMITTED := ORIGIN.(sq := Sq(0x1000, 2, 0, 1))

  const BEFORE := Sys(SUBMITTED, AfterLevel(WORLD.(irq := false), false), [], None, [], 0, FRESH, true, false,
                      ORIGIN, [])

  lemma ReachesBefore(fails: bool)
    ensures Reached(Setting(fails), Boot(POLICY, WORLD), MOVES, 2) == BEFORE
  {
    var s := Boot(POLICY, WORLD);
    assert TagsClear(WORLD.ram, 0x2000, 2);
    var s1 := Make(Setting(fails), s, MOVES[0]);
    hide Zeros;
    assert Reached(Setting(fails), s, MOVES, 1) == s1;
    assert Make(Setting(fails), s1, MOVES[1]) == BEFORE;
  }

  /** The command of zeros deletes queue 0, which is refused. */
  lemma ZeroCommand(fails: bool, cmd: seq<u8>, page: seq<u8>, w: World)
    requires |cmd| == 64 && |page| == 4096 && forall i :: 0 <= i < 64 ==> cmd[i] == 0
    ensures Execute(Setting(fails), Initial(), POLICY, cmd, page, w) == Executed(1, Initial(), page, w, INVALID_FIELD)
  {
  }

  function Entry(): (c: seq<u8>)
    ensures |c| == 16
  {
    Completion(0, 1, 0, 2, 1)
  }

  /** The effects of the turn. */
  function Stores(fails: bool): seq<Effect> {
    [Loaded(0x1000, 64, true), Stored(0x2000, Entry()[..14], true), Fenced]
    + (if fails then [Stored(0x200e, Entry()[14..][..1], false), Level(false), Faulted]
       else [Stored(0x200e, Entry()[14..], true), Level(true)])
  }

  /** How the turn, or what is left of it, ends. */
  predicate Ends(fails: bool, t: Turn, r: Ring, w: World, es: seq<Effect>) {
    && t.ring.completion == Entry() && w.log <= t.world.log && t.world.log[|w.log|..] == es
    && (if fails then t.Stopped? && t.ring.cq == r.cq else t.Served? && t.answer == Some(Entry()))
  }

  /** The status word is stored, or refused after its first byte. */
  lemma TheStore(fails: bool, w: World, c: seq<u8>)
    requires |c| == 16 && w.tick == 1
    ensures var (done, w1) := StoreEntry(Setting(fails), w, 0x2000, c);
      && done == !fails
      && w1.log == w.log + [Stored(0x2000, c[..14], true), Fenced,
                            Stored(0x200e, if fails then c[14..][..1] else c[14..], !fails)]
  {
    var w1 := Logged(AfterWrite(Setting(fails), w, 0x2000, c[..14]), Fenced);
    assert w1.log == w.log + [Stored(0x2000, c[..14], true), Fenced];
  }

  lemma ThePublish(fails: bool, r: Ring, w: World)
    requires Ready(r) && CqSlot(r) == 0x2000 && r.sq.head == 1 && Le16(r.command, 2) == 0 && r.cq.phase == 1
    requires w.tick == 1
    ensures Ends(fails, Publish(Setting(fails), r, w, 2, 0), r, w, Stores(fails)[1..])
  {
    hide Completion, StoreEntry;
    TheStore(fails, w, Entry());
  }

  lemma TheServe(fails: bool, r: Ring, w: World)
    requires Ready(r) && CqSlot(r) == 0x2000 && r.sq.head == 0 && r.sq.depth == 2 && r.cq.phase == 1 && w.tick == 1
    requires r.admin == Initial() && r.policy == POLICY && forall i :: 0 <= i < 64 ==> r.command[i] == 0
    ensures Ends(fails, Serve(Setting(fails), r, w), r, w, Stores(fails)[1..])
  {
    ZeroCommand(fails, r.command, r.payload, w);
    assert Le16(r.command, 2) == 0;
    hide Execute, Publish, Completion, Initial, Entry, Stores;
    var r1 := r.(sq := r.sq.(head := 1));
    RefusedIsPublished(Setting(fails), r, w, r1);
    hide Serve;
    ThePublish(fails, r1, w);
  }

  /** A refused command without data or changes goes straight to its completion. */
  lemma RefusedIsPublished(env: Env, r: Ring, w: World, r1: Ring)
    requires Ready(r) && r.sq.head == 0 && r.sq.depth == 2 && r1 == r.(sq := r.sq.(head := 1))
    requires Execute(env, r.admin, r.policy, r.command, r.payload, w) ==
      Executed(1, r.admin, r.payload, w, INVALID_FIELD)
    ensures Ready(r1) && Serve(env, r, w) == Publish(env, r1, w, 2, 0)
  {
    hide Execute, Publish;
  }

  lemma TheRead(fails: bool, r: Ring, w: World)
    requires Ready(r) && SqSlot(r) == 0x1000 && w.tick == 0 && forall x :: 0x1000 <= x < 0x1040 ==> At(w.ram, x) == 0
    requires CqSlot(r) == 0x2000 && r.sq.head == 0 && r.sq.depth == 2 && r.cq.phase == 1
    requires r.admin == Initial() && r.policy == POLICY
    ensures Ends(fails, TakeTurn(Setting(fails), r, w), r, w, Stores(fails))
  {
    hide Serve, Completion, Initial, Entry;
    var env := Setting(fails);
    var w1 := AfterRead(env, w, 0x1000, 64);
    var r1 := r.(command := Load(w.ram, 0x1000, 64));
    TheServe(fails, r1, w1);
    var log := Serve(env, r1, w1).world.log;
    assert TakeTurn(env, r, w) == Serve(env, r1, w1);
    assert log[|w.log|..] == [log[|w.log|]] + log[|w1.log|..];
  }

  lemma SubmittedReady()
    ensures Ready(SUBMITTED) && SqSlot(SUBMITTED) == 0x1000 && CqSlot(SUBMITTED) == 0x2000
  {
    hide Zeros;
  }

  lemma TheTurn(fails: bool)
    ensures Ready(SUBMITTED)
    ensures Ends(fails, TakeTurn(Setting(fails), SUBMITTED, BEFORE.world), SUBMITTED, BEFORE.world, Stores(fails))
  {
    SubmittedReady();
    hide TakeTurn, Completion, Initial, Zeros, Ready, Ends, Stores;
    TheRead(fails, SUBMITTED, BEFORE.world);
  }

  lemma FourEffects(m: Ram, a: Effect, b: Effect, c: Effect, d: Effect)
    ensures Replay(m, [a, b, c, d]) == Applied(Applied(Applied(Applied(m, a), b), c), d)
  {
    hide Applied;
    assert [a, b, c, d] == [a] + [b] + [c] + [d];
    ReplayConcat(m, [a] + [b] + [c], [d]);
    ReplayConcat(m, [a] + [b], [c]);
    ReplayConcat(m, [a], [b]);
    ReplayOne(m, a);
    ReplayOne(Applied(m, a), b);
    ReplayOne(Applied(Applied(m, a), b), c);
    ReplayOne(Applied(Applied(Applied(m, a), b), c), d);
  }

  lemma TheStatusWord()
    ensures Entry()[14] as int % 2 == 1 && Entry()[15] == 0
  {
    TagByte(0, 1, 0, 2, 1);
    ToLeAt(5, 2, 1);
    hide ToLe;
    var last := Entry()[14..];
    assert last == ToLe(5, 2);
    assert Entry()[15] == last[1];
  }

  /** RAM when the refused store is visible: the tag is new, the byte behind it is not. */
  lemma TheRam()
    ensures var m := Replay(BEFORE.world.ram, Stores(true)[..4]);
      At(m, 0x200e) as int % 2 == 1 && At(m, 0x200f) == 9
  {
    TheStatusWord();
    hide Completion, Replay;
    var m, c := BEFORE.world.ram, Entry();
    var e := Stored(0x200e, c[14..][..1], false);
    assert Stores(true)[..4] == [Loaded(0x1000, 64, true), Stored(0x2000, c[..14], true), Fenced, e];
    FourEffects(m, Loaded(0x1000, 64, true), Stored(0x2000, c[..14], true), Fenced, e);
    hide Entry;
    assert Store(m, 0x2000, c[..14]) == Applied(m, Stored(0x2000, c[..14], true));
  }

  lemma TheSpans(fails: bool)
    requires Sound(SUBMITTED)
    ensures SpansOffQueue(Setting(fails), SUBMITTED, BEFORE.world)
  {
    var cmd := HeadCommand(SUBMITTED, BEFORE.world);
    assert forall i :: 0 <= i < 64 ==> cmd[i] == 0;
    hide HeadCommand, Initial, Zeros;
    SubmittedReady();
    ZeroCommand(fails, cmd, SUBMITTED.payload, AfterRead(Setting(fails), BEFORE.world, 0x1000, 64));
    hide Execute;
    assert HeadResult(Setting(fails), SUBMITTED, BEFORE.world).result == INVALID_FIELD;
  }

  /** The look after the refused store. */
  lemma TheLook(es: seq<Effect>)
    requires es == Stores(true)
    ensures var c := LookAll(FRESH, BEFORE.world.ram, es, [4], 0x2000, 2);
      |c.received| == 1 && |c.received[0]| == 16 && c.received[0][15] == 9
  {
    TheRam();
    assert |es| == 6;
    hide Replay, Stores;
    assert [4][..0] == [];
    assert LookAll(FRESH, BEFORE.world.ram, es, [], 0x2000, 2) == FRESH;
  }

  lemma TheView()
    requires Sound(BEFORE.ring)
    ensures Observable(ENV, BEFORE, 4) && Misled(ENV, BEFORE, 4)
  {
    SubmittedReady();
    TheSpans(true);
    TheTurn(true);
    hide TakeTurn, HeadSpans, SpansOffQueue, Completion, Initial, Zeros, TornStatus;
    var es := NextEffects(ENV, BEFORE);
    assert es == Stores(true);
    TheTornStore();
    assert TornStatus(es[3], CqSlot(BEFORE.ring));
  }

  lemma TheTornStore()
    ensures TornStatus(Stores(true)[3], 0x200e - 14)
  {
  }

  lemma TheEnd()
    requires Ready(BEFORE.ring)
    ensures var u := AfterTurn(ENV, BEFORE, [4]);
      && u.ring.fatal && u.honest && u.torn && u.published == [] && |u.consumer.received| == 1
      && u.ring.completion == Entry() && |u.consumer.received[0]| == 16 && u.consumer.received[0][15] == 9
  {
    SubmittedReady();
    TheSpans(true);
    TheTurn(true);
    TheLook(Stores(true));
    TheTornStore();
    hide TakeTurn, HeadSpans, SpansOffQueue, Completion, Initial, Zeros, TornStatus, LookAll;
    assert !Untorn(Stores(true), CqSlot(BEFORE.ring));
  }

  /** The host keeps its side, the engine stops, and nothing is ever published;
      yet the consumer, looking once after the refused store, takes an entry
      whose last byte is not that of the completion. */
  lemma TornEntryIsTaken()
    ensures var s, u := Reached(ENV, Boot(POLICY, WORLD), MOVES, 2), Reached(ENV, Boot(POLICY, WORLD), MOVES, 3);
      && Observable(ENV, s, 4) && Misled(ENV, s, 4) && !SeesExactlyPublished(ENV, s, 4)
      && u.ring.fatal && u.honest && u.torn && u.published == [] && |u.consumer.received| == 1
      && |u.consumer.received[0]| == |u.ring.completion| == 16
      && u.consumer.received[0][15] == 9 && u.ring.completion[15] == 0
  {
    ReachesBefore(true);
    SubmittedReady();
    TheView();
    TheLastMove();
    TheEnd();
    TheStatusWord();
    hide Reached, AfterTurn, Observable, Misled, SeesExactlyPublished, Entry, Ready;
    PhaseTagSafety(ENV, POLICY, WORLD, MOVES, 2, 4);
  }

  lemma TheLastMove()
    requires Ready(BEFORE.ring)
    ensures Reached(ENV, Boot(POLICY, WORLD), MOVES, 3) == AfterTurn(ENV, BEFORE, [4])
  {
    hide AfterTurn;
    ReachesBefore(true);
    assert Reached(ENV, Boot(POLICY, WORLD), MOVES, 3) == Make(ENV, BEFORE, Turn([4]));
  }
}
