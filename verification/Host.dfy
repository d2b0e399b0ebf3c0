/** What the caller of the ring engine supplies: guest RAM, a cache backend and
    callbacks.  `ranges` holds the (address, length) pairs that `contains`
    accepts and `queueRanges`, when the callback exists, those accepted for I/O
    queues.  The k-th fallible callback fails when k is in `failing`; a memory
    write that reports failure may already have moved the first bytes. */
module Host {
  import opened Words
  import opened Memory

  datatype Env = Env(
    ranges: set<(int, int)>,
    queueRanges: Option<set<(int, int)>>,
    setCache: bool,
    getCache: bool,
    failing: set<nat>,
    moved: map<nat, nat>)
  {
    predicate Contains(a: int, n: int) {
      (a, n) in ranges
    }

    predicate Ok(tick: nat) {
      tick !in failing
    }
  }

  datatype Effect =
    | Loaded(address: int, count: nat, done: bool)
    | Stored(to: int, bytes: seq<u8>, done: bool)
    | Fenced
    | Reconciled(changed: u8, done: bool)
    | CacheSet(on: bool, done: bool)
    | Level(pending: bool)
    | Faulted

  datatype World = World(ram: Ram, cache: bool, tick: nat, log: seq<Effect>, irq: bool)

  function Logged(w: World, e: Effect): World {
    w.(log := w.log + [e])
  }

  function AfterRead(env: Env, w: World, a: int, n: nat): World {
    Logged(w, Loaded(a, n, env.Ok(w.tick))).(tick := w.tick + 1)
  }

  function Transferred(env: Env, w: World, b: seq<u8>): seq<u8> {
    if env.Ok(w.tick) then b
    else if w.tick !in env.moved then []
    else if |b| <= env.moved[w.tick] then b
    else b[..env.moved[w.tick]]
  }

  function AfterWrite(env: Env, w: World, a: int, b: seq<u8>): World {
    var t := Transferred(env, w, b);
    Logged(w, Stored(a, t, env.Ok(w.tick))).(tick := w.tick + 1, ram := Store(w.ram, a, t))
  }

  function AfterReconcile(env: Env, w: World, changed: u8): World {
    Logged(w, Reconciled(changed, env.Ok(w.tick))).(tick := w.tick + 1)
  }

  function AfterSetCache(env: Env, w: World, on: bool): World {
    var done := env.Ok(w.tick);
    Logged(w, CacheSet(on, done)).(tick := w.tick + 1, cache := if done then on else w.cache)
  }

  function AfterLevel(w: World, pending: bool): World {
    Logged(w, Level(pending)).(irq := pending)
  }

  function AfterFault(w: World): World {
    Logged(w, Faulted)
  }

  /** A callback that reported failure and for which the engine must stop. */
  predicate Refused(e: Effect) {
    (e.Loaded? || e.Stored? || e.Reconciled?) && !e.done
  }

  /** RAM validity is closed under non-empty sub-ranges. */
  ghost predicate SubRangeClosed(env: Env) {
    forall a, n, b, m :: env.Contains(a, n) && a <= b && 0 < m && b + m <= a + n ==> env.Contains(b, m)
  }

  class Callbacks {
    const env: Env
    var w: World

    constructor (env: Env, w: World)
      ensures this.env == env && this.w == w
    {
      this.env := env;
      this.w := w;
    }

    method Read(a: int, buffer: array<u8>) returns (ok: bool)
      modifies this, buffer
      ensures ok == env.Ok(old(w.tick)) && w == AfterRead(env, old(w), a, buffer.Length)
      ensures buffer[..] == if ok then Load(old(w.ram), a, buffer.Length) else old(buffer[..])
    {
      ok := env.Ok(w.tick);
      w := AfterRead(env, w, a, buffer.Length);
      if ok {
        forall i | 0 <= i < buffer.Length {
          buffer[i] := At(w.ram, a + i);
        }
      }
    }

    method Write(a: int, b: seq<u8>) returns (ok: bool)
      modifies this
      ensures ok == env.Ok(old(w.tick)) && w == AfterWrite(env, old(w), a, b)
    {
      ok := env.Ok(w.tick);
      w := AfterWrite(env, w, a, b);
    }

    method Barrier()
      modifies this
      ensures w == Logged(old(w), Fenced)
    {
      w := Logged(w, Fenced);
    }

    method Reconcile(changed: u8) returns (ok: bool)
      modifies this
      ensures ok == env.Ok(old(w.tick)) && w == AfterReconcile(env, old(w), changed)
    {
      ok := env.Ok(w.tick);
      w := AfterReconcile(env, w, changed);
    }

    method SetCache(on: bool) returns (ok: bool)
      modifies this
      ensures ok == env.Ok(old(w.tick)) && w == AfterSetCache(env, old(w), on)
    {
      ok := env.Ok(w.tick);
      w := AfterSetCache(env, w, on);
    }

    method Pending(level: bool)
      modifies this
      ensures w == AfterLevel(old(w), level)
    {
      w := AfterLevel(w, level);
    }

    method Fault()
      modifies this
      ensures w == AfterFault(old(w))
    {
      w := AfterFault(w);
    }
  }
}
