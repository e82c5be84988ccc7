/**
 * The endpoint's cache of outbound connections (src/iroh/endpoint.rs): double-checked locking with
 * one connect lock per (endpoint, protocol) key and a conditional eviction.
 *
 * Each task runs `get_or_connect` (546-689) or `open_addr_cached` (397-460) in small steps, one per
 * lock operation or await; connections may close, and inbound handlers may act, between any two.
 */
module ConnectionCache {
  import opened Wrappers

  datatype Key = Key(endpointId: string, protocol: string)

  type Conn = nat
  type LockId = nat
  type TaskId = nat

  datatype Call = GetOrConnect | OpenAddrCached

  datatype Pc =
    | Read                           // about to look the key up
    | Probe(conn: Conn)              // about to ask whether the cached connection is closed
    | OpenCached(conn: Conn)         // open_bi on the cached connection under way
    | Evict                          // about to evict_if_closed
    | WantLock                       // about to get or create the key's lock
    | WaitLock(lock: LockId)
    | Dial                           // connect under way
    | OpenFresh(conn: Conn)          // open_bi on the fresh connection under way
    | Insert(conn: Conn)             // about to cache the fresh connection
    | Leave(result: Option<Conn>)    // about to return, dropping the guard
    | Finished(result: Option<Conn>)

  /** `guard`: the connect lock held; `None` on the fast path, `Some` from the re-check on. */
  datatype Task = Task(key: Key, call: Call, guard: Option<LockId>, pc: Pc)

  datatype State = State(
    cache: map<Key, Conn>,
    locks: map<Key, LockId>,          // the lock table; entries are never removed
    holder: map<LockId, TaskId>,
    tasks: map<TaskId, Task>,
    handlers: set<(Key, Conn)>,       // inbound connections being accepted on
    closed: set<Conn>,
    dialled: map<Conn, Key>,          // history: which key each outbound connection was made for
    nextConn: nat,
    nextLock: nat)

  const Init := State(map[], map[], map[], map[], {}, {}, map[], 0, 0)

  /**
   * `reliable`: open_bi fails only on closed connections. `inbound`: the keys on which peers may
   * connect to us.
   */
  datatype Config = Config(reliable: bool, inbound: iset<Key>)

  datatype Event =
    | Begin(task: TaskId, key: Key, call: Call)
    | Advance(task: TaskId, ok: bool)     // `ok`: the outcome of connect or open_bi, if one is awaited
    | Cancel(task: TaskId)                // the caller drops the task
    | Close(conn: Conn)                   // remote restart, idle timeout, ...
    | Accept(key: Key)                    // a peer connects to us, and its connection is cached
    | AcceptEnds(key: Key, conn: Conn)    // its accept loop ends, and removes the key's entry

  /** open_bi on `conn` may end with `ok`. */
  predicate OpenBiAnswers(cfg: Config, s: State, conn: Conn, ok: bool) {
    if ok then conn !in s.closed else !cfg.reliable || conn in s.closed
  }

  ghost predicate Enabled(cfg: Config, s: State, e: Event) {
    match e
    case Begin(t, _, _) => t !in s.tasks
    case Advance(t, ok) =>
      && t in s.tasks
      && var pc := s.tasks[t].pc;
      && (pc.OpenCached? || pc.OpenFresh? ==> OpenBiAnswers(cfg, s, pc.conn, ok))
      && (pc.WaitLock? ==> pc.lock !in s.holder)
      && !pc.Finished?
    case Cancel(t) => t in s.tasks && !s.tasks[t].pc.Finished? && !s.tasks[t].pc.Insert?
    case Close(c) => c < s.nextConn
    case Accept(k) => k in cfg.inbound
    case AcceptEnds(k, c) => (k, c) in s.handlers && c in s.closed
  }

  /** What follows when the cache had nothing usable: dial if past the lock, else get the lock. */
  function AfterMiss(task: Task): Pc {
    if task.guard.Some? then Dial else WantLock
  }

  function NextPc(s: State, task: Task, ok: bool): Pc {
    match task.pc
    case Read => if task.key in s.cache then Probe(s.cache[task.key]) else AfterMiss(task)
    case Probe(c) =>
      if c in s.closed then Evict else if task.call.GetOrConnect? then Leave(Some(c)) else OpenCached(c)
    case OpenCached(c) => if ok then Leave(Some(c)) else Evict
    case Evict => AfterMiss(task)
    case WantLock => WaitLock(if task.key in s.locks then s.locks[task.key] else s.nextLock)
    case WaitLock(_) => Read
    case Dial =>
      if !ok then Leave(None) else if task.call.GetOrConnect? then Insert(s.nextConn) else OpenFresh(s.nextConn)
    case OpenFresh(c) => if ok then Insert(c) else Leave(None)
    case Insert(c) => Leave(Some(c))
    case Leave(result) => Finished(result)
    case Finished(result) => Finished(result)
  }

  function EvictIfClosed(s: State, key: Key): map<Key, Conn> {
    if key in s.cache && s.cache[key] in s.closed then s.cache - {key} else s.cache
  }

  /** One step of task `t`. */
  function TaskStep(s: State, t: TaskId, ok: bool): State
    requires t in s.tasks
  {
    var task := s.tasks[t];
    var newLock := task.pc.WantLock? && task.key !in s.locks;
    var newConn := task.pc.Dial? && ok;
    var guard := if task.pc.WaitLock? then Some(task.pc.lock) else if task.pc.Leave? then None else task.guard;
    State(
      if task.pc.Evict? then EvictIfClosed(s, task.key)
      else if task.pc.Insert? then s.cache[task.key := task.pc.conn] else s.cache,
      if newLock then s.locks[task.key := s.nextLock] else s.locks,
      if task.pc.WaitLock? then s.holder[task.pc.lock := t]
      else if task.pc.Leave? && task.guard.Some? then s.holder - {task.guard.value} else s.holder,
      s.tasks[t := Task(task.key, task.call, guard, NextPc(s, task, ok))],
      s.handlers,
      if task.pc.OpenFresh? && !ok then s.closed + {task.pc.conn} else s.closed,  // its last handle is dropped
      if newConn then s.dialled[s.nextConn := task.key] else s.dialled,
      if newConn then s.nextConn + 1 else s.nextConn,
      if newLock then s.nextLock + 1 else s.nextLock)
  }

  function Step(s: State, e: Event): State
    requires e.Advance? || e.Cancel? ==> e.task in s.tasks
  {
    match e
    case Begin(t, k, call) => s.(tasks := s.tasks[t := Task(k, call, None, Read)])
    case Advance(t, ok) => TaskStep(s, t, ok)
    case Cancel(t) =>
      var task := s.tasks[t];
      s.(tasks := s.tasks[t := Task(task.key, task.call, None, Finished(None))],
         holder := if task.guard.Some? then s.holder - {task.guard.value} else s.holder,
         closed := if task.pc.OpenFresh? then s.closed + {task.pc.conn} else s.closed)
    case Close(c) => s.(closed := s.closed + {c})
    case Accept(k) =>
      s.(cache := s.cache[k := s.nextConn], handlers := s.handlers + {(k, s.nextConn)}, nextConn := s.nextConn + 1)
    case AcceptEnds(k, c) => s.(cache := s.cache - {k}, handlers := s.handlers - {(k, c)})
  }

  ghost predicate Feasible(cfg: Config, s: State, es: seq<Event>)
    decreases |es|
  {
    es == [] || (Enabled(cfg, s, es[0]) && Feasible(cfg, Step(s, es[0]), es[1..]))
  }

  ghost function After(cfg: Config, s: State, es: seq<Event>): State
    requires Feasible(cfg, s, es)
    decreases |es|
  {
    if es == [] then s else After(cfg, Step(s, es[0]), es[1..])
  }

  // ---- mutual exclusion ----

  /** The lock a task holds or waits for. */
  function LockOf(task: Task): Option<LockId> {
    if task.pc.WaitLock? then Some(task.pc.lock) else task.guard
  }

  ghost predicate LockTableOk(s: State) {
    && (forall k :: k in s.locks ==> s.locks[k] < s.nextLock)
    && (forall k, k' :: k in s.locks && k' in s.locks && s.locks[k] == s.locks[k'] ==> k == k')
  }

  /** The lock a task uses is the one of its key, and if it is past the lock, it is the holder. */
  ghost predicate TaskLockOk(s: State, t: TaskId)
    requires t in s.tasks
  {
    var task := s.tasks[t];
    && (LockOf(task).Some? ==> task.key in s.locks && s.locks[task.key] == LockOf(task).value)
    && (task.guard.Some? ==> task.guard.value in s.holder && s.holder[task.guard.value] == t)
    && (task.pc.WantLock? || task.pc.WaitLock? || task.pc.Finished? ==> task.guard.None?)
    && (task.pc.Dial? || task.pc.OpenFresh? || task.pc.Insert? ==> task.guard.Some?)
  }

  ghost predicate LockInv(s: State) {
    LockTableOk(s) && forall t :: t in s.tasks ==> TaskLockOk(s, t)
  }

  lemma AdvanceKeepsTable(s: State, t: TaskId, ok: bool)
    requires LockTableOk(s) && t in s.tasks
    ensures LockTableOk(TaskStep(s, t, ok))
  {
  }

  lemma AdvanceKeepsOwnLock(cfg: Config, s: State, t: TaskId, ok: bool)
    requires LockInv(s) && Enabled(cfg, s, Advance(t, ok))
    ensures LockTableOk(TaskStep(s, t, ok)) && t in TaskStep(s, t, ok).tasks && TaskLockOk(TaskStep(s, t, ok), t)
  {
    assert TaskLockOk(s, t);
    AdvanceKeepsTable(s, t, ok);
    match s.tasks[t].pc
    case WantLock => assert TaskLockOk(TaskStep(s, t, ok), t);
    case WaitLock(_) => assert TaskLockOk(TaskStep(s, t, ok), t);
    case Leave(_) => assert TaskLockOk(TaskStep(s, t, ok), t);
    case _ =>
  }

  lemma AdvanceKeepsOtherLock(cfg: Config, s: State, t: TaskId, ok: bool, other: TaskId)
    requires LockInv(s) && Enabled(cfg, s, Advance(t, ok)) && other in s.tasks && other != t
    ensures other in TaskStep(s, t, ok).tasks && TaskStep(s, t, ok).tasks[other] == s.tasks[other]
    ensures TaskLockOk(TaskStep(s, t, ok), other)
  {
    assert TaskLockOk(s, t) && TaskLockOk(s, other);
  }

  lemma StepKeepsLockInv(cfg: Config, s: State, e: Event)
    requires LockInv(s) && Enabled(cfg, s, e)
    ensures LockInv(Step(s, e))
  {
    var s' := Step(s, e);
    if e.Advance? {
      AdvanceKeepsOwnLock(cfg, s, e.task, e.ok);
      forall t | t in s'.tasks && t != e.task
        ensures TaskLockOk(s', t)
      {
        AdvanceKeepsOtherLock(cfg, s, e.task, e.ok, t);
      }
    } else {
      forall t | t in s'.tasks
        ensures TaskLockOk(s', t)
      {
        assert t in s.tasks ==> TaskLockOk(s, t);
        if e.Cancel? {
          assert TaskLockOk(s, e.task);
        }
      }
    }
  }

  lemma {:induction false} RunKeepsLockInv(cfg: Config, s: State, es: seq<Event>)
    requires LockInv(s) && Feasible(cfg, s, es)
    ensures LockInv(After(cfg, s, es))
    decreases |es|
  {
    if es != [] {
      StepKeepsLockInv(cfg, s, es[0]);
      RunKeepsLockInv(cfg, Step(s, es[0]), es[1..]);
    }
  }

  /** Between acquiring the lock and returning; includes dialling and caching the new connection. */
  ghost predicate InCriticalSection(s: State, t: TaskId, k: Key) {
    t in s.tasks && s.tasks[t].key == k && s.tasks[t].guard.Some?
  }

  lemma Exclusive(s: State, t: TaskId, t': TaskId, k: Key)
    requires LockInv(s) && InCriticalSection(s, t, k) && InCriticalSection(s, t', k)
    ensures t == t'
  {
    assert TaskLockOk(s, t) && TaskLockOk(s, t');
  }

  /** At most one task per key is ever past the lock, hence dialling, whatever else happens. */
  lemma {:induction false} OneDialerPerKey(cfg: Config, es: seq<Event>, t: TaskId, t': TaskId, k: Key)
    requires Feasible(cfg, Init, es)
    requires InCriticalSection(After(cfg, Init, es), t, k) && InCriticalSection(After(cfg, Init, es), t', k)
    ensures t == t'
  {
    RunKeepsLockInv(cfg, Init, es);
    Exclusive(After(cfg, Init, es), t, t', k);
  }

  /** In particular two tasks never dial, open a first stream for, or cache a connection for the same key at once. */
  lemma OneDialAtATime(cfg: Config, es: seq<Event>, t: TaskId, t': TaskId)
    requires Feasible(cfg, Init, es)
    requires var s := After(cfg, Init, es); t in s.tasks && t' in s.tasks && s.tasks[t].key == s.tasks[t'].key
    requires var s := After(cfg, Init, es); IsConnecting(s.tasks[t].pc) && IsConnecting(s.tasks[t'].pc)
    ensures t == t'
  {
    var s := After(cfg, Init, es);
    RunKeepsLockInv(cfg, Init, es);
    assert TaskLockOk(s, t) && TaskLockOk(s, t');
    Exclusive(s, t, t', s.tasks[t].key);
  }

  predicate IsConnecting(pc: Pc) {
    pc.Dial? || pc.OpenFresh? || pc.Insert?
  }

  // ---- one open connection per key ----

  /** The task has dialled `c` for `k` and not cached it yet. */
  ghost predicate Carries(s: State, t: TaskId, k: Key, c: Conn) {
    && t in s.tasks && s.tasks[t].key == k
    && (s.tasks[t].pc.OpenFresh? || s.tasks[t].pc.Insert?) && s.tasks[t].pc.conn == c
  }

  ghost predicate OpenDialled(s: State, k: Key, c: Conn) {
    c in s.dialled && s.dialled[c] == k && c !in s.closed
  }

  /** What a task past the lock knows about the cache entry of its key. */
  ghost predicate KnowsEntry(s: State, t: TaskId)
    requires t in s.tasks
  {
    var task := s.tasks[t];
    task.guard.Some? && task.key in s.cache ==>
      && (task.pc.Probe? || task.pc.OpenCached? ==> s.cache[task.key] == task.pc.conn)
      && (task.pc.Evict? || task.pc.Dial? || task.pc.OpenFresh? || task.pc.Insert? ==> s.cache[task.key] in s.closed)
  }

  ghost predicate CacheInv(s: State, k: Key) {
    && (forall c :: c in s.dialled ==> c < s.nextConn)
    && (forall t :: t in s.tasks && s.tasks[t].key == k ==> KnowsEntry(s, t))
    && (forall c :: OpenDialled(s, k, c) ==> (k in s.cache && s.cache[k] == c) || exists t :: Carries(s, t, k, c))
  }

  /** Nobody touches the cache entry of `k` but tasks caching a new connection or evicting a closed one. */
  lemma EntryAfterStep(cfg: Config, s: State, e: Event, k: Key)
    requires k !in cfg.inbound && (forall h :: h in s.handlers ==> h.0 in cfg.inbound) && Enabled(cfg, s, e)
    ensures var s' := Step(s, e);
            || (e.Advance? && s.tasks[e.task].key == k && s.tasks[e.task].pc.Insert?)
            || (k in s'.cache ==> k in s.cache && s'.cache[k] == s.cache[k])
    ensures var s' := Step(s, e);
            k in s.cache && s.cache[k] !in s.closed ==>
              || (e.Advance? && s.tasks[e.task].key == k && s.tasks[e.task].pc.Insert?)
              || (k in s'.cache && s'.cache[k] == s.cache[k])
    ensures s.closed <= Step(s, e).closed
  {
  }

  /** A step of the task itself. */
  lemma OwnStepKeepsKnowledge(cfg: Config, s: State, t: TaskId, ok: bool)
    requires cfg.reliable && LockInv(s) && Enabled(cfg, s, Advance(t, ok)) && KnowsEntry(s, t)
    ensures t in TaskStep(s, t, ok).tasks && KnowsEntry(TaskStep(s, t, ok), t)
  {
  }

  /** A task outside the section that owns `k` cannot disturb what a task past the lock knows. */
  lemma StepKeepsKnowledge(cfg: Config, s: State, e: Event, k: Key, t: TaskId)
    requires cfg.reliable && k !in cfg.inbound && (forall h :: h in s.handlers ==> h.0 in cfg.inbound)
    requires LockInv(s) && CacheInv(s, k) && Enabled(cfg, s, e)
    requires t in Step(s, e).tasks && Step(s, e).tasks[t].key == k
    ensures KnowsEntry(Step(s, e), t)
  {
    if e.Advance? && e.task == t {
      OwnStepKeepsKnowledge(cfg, s, t, e.ok);
    } else if t in s.tasks && s.tasks[t] == Step(s, e).tasks[t] && s.tasks[t].guard.Some? {
      EntryAfterStep(cfg, s, e, k);
      assert KnowsEntry(s, t);
      if e.Advance? && s.tasks[e.task].key == k && s.tasks[e.task].pc.Insert? {
        assert TaskLockOk(s, e.task);
        Exclusive(s, t, e.task, k);
      }
    }
  }

  lemma CarrierAfterStep(cfg: Config, s: State, e: Event, k: Key, c: Conn, t: TaskId)
    requires Enabled(cfg, s, e) && Carries(s, t, k, c) && c !in Step(s, e).closed
    ensures Carries(Step(s, e), t, k, c) || (k in Step(s, e).cache && Step(s, e).cache[k] == c)
  {
  }

  lemma NewlyDialled(cfg: Config, s: State, e: Event, k: Key, c: Conn)
    requires Enabled(cfg, s, e) && OpenDialled(Step(s, e), k, c) && !OpenDialled(s, k, c)
    requires forall c :: c in s.dialled ==> c < s.nextConn
    ensures e.Advance? && Carries(Step(s, e), e.task, k, c)
  {
  }

  lemma StepKeepsOwnership(cfg: Config, s: State, e: Event, k: Key, c: Conn)
    requires cfg.reliable && k !in cfg.inbound && (forall h :: h in s.handlers ==> h.0 in cfg.inbound)
    requires LockInv(s) && CacheInv(s, k) && Enabled(cfg, s, e)
    requires OpenDialled(Step(s, e), k, c)
    ensures (k in Step(s, e).cache && Step(s, e).cache[k] == c) || exists t :: Carries(Step(s, e), t, k, c)
  {
    if !OpenDialled(s, k, c) {
      NewlyDialled(cfg, s, e, k, c);
    } else if t :| Carries(s, t, k, c) {
      CarrierAfterStep(cfg, s, e, k, c, t);
    } else {
      EntryAfterStep(cfg, s, e, k);
      if e.Advance? && s.tasks[e.task].key == k {
        assert TaskLockOk(s, e.task) && KnowsEntry(s, e.task);
      }
    }
  }

  ghost predicate Inv(cfg: Config, s: State, k: Key) {
    && LockInv(s) && CacheInv(s, k)
    && (forall h :: h in s.handlers ==> h.0 in cfg.inbound)
  }

  lemma StepKeepsInv(cfg: Config, s: State, e: Event, k: Key)
    requires cfg.reliable && k !in cfg.inbound && Inv(cfg, s, k) && Enabled(cfg, s, e)
    ensures Inv(cfg, Step(s, e), k)
  {
    StepKeepsLockInv(cfg, s, e);
    var s' := Step(s, e);
    forall t | t in s'.tasks && s'.tasks[t].key == k
      ensures KnowsEntry(s', t)
    {
      StepKeepsKnowledge(cfg, s, e, k, t);
    }
    forall c | OpenDialled(s', k, c)
      ensures (k in s'.cache && s'.cache[k] == c) || exists t :: Carries(s', t, k, c)
    {
      StepKeepsOwnership(cfg, s, e, k, c);
    }
  }

  lemma {:induction false} RunKeepsInv(cfg: Config, s: State, es: seq<Event>, k: Key)
    requires cfg.reliable && k !in cfg.inbound && Inv(cfg, s, k) && Feasible(cfg, s, es)
    ensures Inv(cfg, After(cfg, s, es), k)
    decreases |es|
  {
    if es != [] {
      StepKeepsInv(cfg, s, es[0], k);
      RunKeepsInv(cfg, Step(s, es[0]), es[1..], k);
    }
  }

  lemma CarriedMeansNoOpenEntry(s: State, k: Key)
    requires LockInv(s) && CacheInv(s, k)
    ensures forall t, c :: Carries(s, t, k, c) && k in s.cache ==> s.cache[k] in s.closed
  {
    forall t, c | Carries(s, t, k, c) && k in s.cache
      ensures s.cache[k] in s.closed
    {
      assert TaskLockOk(s, t) && KnowsEntry(s, t);
    }
  }

  /**
   * If nobody connects to us on the key and open_bi fails only on closed connections, at most one
   * connection dialled for the key is open, in any reachable state.
   */
  lemma {:induction false} OneOpenConnectionPerKey(cfg: Config, es: seq<Event>, k: Key, c: Conn, c': Conn)
    requires cfg.reliable && k !in cfg.inbound && Feasible(cfg, Init, es)
    requires OpenDialled(After(cfg, Init, es), k, c) && OpenDialled(After(cfg, Init, es), k, c')
    ensures c == c'
  {
    RunKeepsInv(cfg, Init, es, k);
    var s := After(cfg, Init, es);
    CarriedMeansNoOpenEntry(s, k);
    if t, t' :| Carries(s, t, k, c) && Carries(s, t', k, c') {
      assert TaskLockOk(s, t) && TaskLockOk(s, t');
      Exclusive(s, t, t', k);
    }
  }

  /**
   * Under the same conditions a cached open connection stays cached: no step but its own closing
   * evicts or replaces it, in particular no eviction decided on an older look at the cache.
   */
  lemma {:induction false} OpenEntriesStay(cfg: Config, es: seq<Event>, e: Event, k: Key)
    requires cfg.reliable && k !in cfg.inbound && Feasible(cfg, Init, es) && Enabled(cfg, After(cfg, Init, es), e)
    requires var s := After(cfg, Init, es); k in s.cache && s.cache[k] !in s.closed
    ensures var s := After(cfg, Init, es); k in Step(s, e).cache && Step(s, e).cache[k] == s.cache[k]
  {
    RunKeepsInv(cfg, Init, es, k);
    var s := After(cfg, Init, es);
    if e.Advance? && s.tasks[e.task].key == k {
      assert TaskLockOk(s, e.task) && KnowsEntry(s, e.task);
    }
  }

  /** Whatever the configuration, an eviction removes the entry of its key if that is closed, and nothing else. */
  lemma EvictionSparesOpen(s: State, t: TaskId, ok: bool, k: Key)
    requires t in s.tasks && s.tasks[t].pc.Evict? && k in s.cache
    ensures var cache := TaskStep(s, t, ok).cache;
      && (k in cache <==> k != s.tasks[t].key || s.cache[k] !in s.closed)
      && (k in cache ==> cache[k] == s.cache[k])
  {
  }

  // ---- both conditions are needed ----

  lemma {:induction false} AfterConcat(cfg: Config, s: State, es: seq<Event>, fs: seq<Event>)
    requires Feasible(cfg, s, es) && Feasible(cfg, After(cfg, s, es), fs)
    ensures Feasible(cfg, s, es + fs) && After(cfg, s, es + fs) == After(cfg, After(cfg, s, es), fs)
    decreases |es|
  {
    if es == [] {
      assert es + fs == fs;
    } else {
      AfterConcat(cfg, Step(s, es[0]), es[1..], fs);
      assert (es + fs)[0] == es[0] && (es + fs)[1..] == es[1..] + fs;
    }
  }

  ghost function Snoc(cfg: Config, s: State, es: seq<Event>, e: Event): (longer: seq<Event>)
    requires Feasible(cfg, s, es) && Enabled(cfg, After(cfg, s, es), e)
    ensures Feasible(cfg, s, longer) && After(cfg, s, longer) == Step(After(cfg, s, es), e)
  {
    assert [e][1..] == [];
    AfterConcat(cfg, s, es, [e]);
    es + [e]
  }

  /** Task `t`, alone on `k`, past the lookup that found nothing usable and before taking the lock. */
  ghost predicate AboutToLock(s: State, t: TaskId, k: Key) {
    && t in s.tasks && s.tasks[t] == Task(k, GetOrConnect, None, WantLock) && k !in s.cache
    && LockFree(s, k)
  }

  ghost predicate LockFree(s: State, k: Key) {
    if k in s.locks then s.locks[k] !in s.holder else s.nextLock !in s.holder
  }

  /** From there the task dials, and caches what it gets. */
  lemma DialsAndCaches(cfg: Config, s0: State, before: seq<Event>, t: TaskId, k: Key) returns (es: seq<Event>)
    requires Feasible(cfg, s0, before) && AboutToLock(After(cfg, s0, before), t, k)
    ensures Feasible(cfg, s0, es)
    ensures var s, s' := After(cfg, s0, before), After(cfg, s0, es);
            && s'.cache == s.cache[k := s.nextConn] && s'.dialled == s.dialled[s.nextConn := k]
            && s'.nextConn == s.nextConn + 1 && s'.closed == s.closed && s'.handlers == s.handlers
            && s'.tasks.Keys == s.tasks.Keys && LockFree(s', k)
  {
    es := LocksAndMisses(cfg, s0, before, t, k);
    es := DialsFresh(cfg, s0, es, t, k);
  }

  /** Past the lock, with nothing cached and the connect call next. */
  ghost predicate AboutToDial(s: State, t: TaskId, k: Key) {
    && t in s.tasks && k in s.locks && s.tasks[t] == Task(k, GetOrConnect, Some(s.locks[k]), Dial) && k !in s.cache
    && s.locks[k] in s.holder
  }

  lemma LocksAndMisses(cfg: Config, s0: State, before: seq<Event>, t: TaskId, k: Key) returns (es: seq<Event>)
    requires Feasible(cfg, s0, before) && AboutToLock(After(cfg, s0, before), t, k)
    ensures Feasible(cfg, s0, es) && AboutToDial(After(cfg, s0, es), t, k)
    ensures var s, s' := After(cfg, s0, before), After(cfg, s0, es);
            && s'.cache == s.cache && s'.dialled == s.dialled && s'.nextConn == s.nextConn
            && s'.closed == s.closed && s'.handlers == s.handlers && s'.tasks.Keys == s.tasks.Keys
  {
    var next := Advance(t, true);
    es := Snoc(cfg, s0, before, next);
    assert After(cfg, s0, es).tasks[t].pc.WaitLock?;
    es := Snoc(cfg, s0, es, next);
    assert After(cfg, s0, es).tasks[t].pc == Read;
    es := Snoc(cfg, s0, es, next);
  }

  lemma DialsFresh(cfg: Config, s0: State, before: seq<Event>, t: TaskId, k: Key) returns (es: seq<Event>)
    requires Feasible(cfg, s0, before) && AboutToDial(After(cfg, s0, before), t, k)
    ensures Feasible(cfg, s0, es)
    ensures var s, s' := After(cfg, s0, before), After(cfg, s0, es);
            && s'.cache == s.cache[k := s.nextConn] && s'.dialled == s.dialled[s.nextConn := k]
            && s'.nextConn == s.nextConn + 1 && s'.closed == s.closed && s'.handlers == s.handlers
            && s'.tasks.Keys == s.tasks.Keys && LockFree(s', k)
  {
    var next := Advance(t, true);
    es := Snoc(cfg, s0, before, next);
    assert After(cfg, s0, es).tasks[t].pc == Insert(After(cfg, s0, before).nextConn);
    es := Snoc(cfg, s0, es, next);
    assert After(cfg, s0, es).tasks[t].pc.Leave?;
    es := Snoc(cfg, s0, es, next);
  }

  lemma InboundCloses(cfg: Config, k: Key) returns (es: seq<Event>)
    requires k in cfg.inbound
    ensures Feasible(cfg, Init, es)
    ensures After(cfg, Init, es) == Init.(cache := map[k := 0], handlers := {(k, 0)}, closed := {0}, nextConn := 1)
  {
    es := Snoc(cfg, Init, [], Accept(k));
    es := Snoc(cfg, Init, es, Close(0));
  }

  /** A peer's connection is cached and closes; a task finds it closed, and evicts it. */
  lemma FindsClosedInbound(cfg: Config, k: Key) returns (es: seq<Event>)
    requires k in cfg.inbound
    ensures Feasible(cfg, Init, es) && AboutToLock(After(cfg, Init, es), 0, k)
    ensures var s := After(cfg, Init, es);
            && s.handlers == {(k, 0)} && s.closed == {0} && s.nextConn == 1 && s.tasks.Keys == {0}
            && s.cache == map[] && s.dialled == map[]
  {
    var before := InboundCloses(cfg, k);
    var s := After(cfg, Init, before).(tasks := map[0 := Task(k, GetOrConnect, None, Read)]);
    es := Snoc(cfg, Init, before, Begin(0, k, GetOrConnect));
    assert After(cfg, Init, es) == s;
    es := Snoc(cfg, Init, es, Advance(0, true));
    assert After(cfg, Init, es) == s.(tasks := map[0 := Task(k, GetOrConnect, None, Probe(0))]);
    es := Snoc(cfg, Init, es, Advance(0, true));
    assert After(cfg, Init, es) == s.(tasks := map[0 := Task(k, GetOrConnect, None, Evict)]);
    es := Snoc(cfg, Init, es, Advance(0, true));
    assert After(cfg, Init, es) == s.(cache := map[], tasks := map[0 := Task(k, GetOrConnect, None, WantLock)]);
  }

  /** Two connections dialled for the key are open. */
  ghost predicate TwoOpen(s: State, k: Key) {
    exists c, c' :: c != c' && OpenDialled(s, k, c) && OpenDialled(s, k, c')
  }

  /**
   * An inbound handler breaks the bound: when the peer's own connection closes, the handler removes
   * the key's entry whichever connection it now holds, here an open one dialled meanwhile, and the
   * next call dials a second one.
   */
  lemma InboundHandlerCanDropOpenEntry(cfg: Config, k: Key) returns (es: seq<Event>)
    requires cfg.reliable && k in cfg.inbound
    ensures Feasible(cfg, Init, es)
    ensures TwoOpen(After(cfg, Init, es), k)
  {
    es := FindsClosedInbound(cfg, k);
    es := DialsAndCaches(cfg, Init, es, 0, k);
    assert OpenDialled(After(cfg, Init, es), k, 1);
    es := Snoc(cfg, Init, es, AcceptEnds(k, 0));
    assert k !in After(cfg, Init, es).cache;
    es := Snoc(cfg, Init, es, Begin(1, k, GetOrConnect));
    es := Snoc(cfg, Init, es, Advance(1, true));
    assert AboutToLock(After(cfg, Init, es), 1, k);
    es := DialsAndCaches(cfg, Init, es, 1, k);
    assert OpenDialled(After(cfg, Init, es), k, 1) && OpenDialled(After(cfg, Init, es), k, 2);
  }

  /**
   * So does an open_bi that fails on an open connection: the eviction rightly spares the entry, but
   * the task then dials and replaces it, leaving two open connections.
   */
  lemma FailingOpenBiCanDialTwice(cfg: Config, k: Key) returns (es: seq<Event>)
    requires !cfg.reliable
    ensures Feasible(cfg, Init, es)
    ensures TwoOpen(After(cfg, Init, es), k)
  {
    es := CachesFirst(cfg, k);
    es := Snoc(cfg, Init, es, Begin(1, k, OpenAddrCached));
    es := MissesOpenConnection(cfg, es, k);
    es := LocksAfterMiss(cfg, es, k);
    es := MissesOpenConnection(cfg, es, k);
    es := Snoc(cfg, Init, es, Advance(1, true));
    assert OpenDialled(After(cfg, Init, es), k, 0) && OpenDialled(After(cfg, Init, es), k, 1);
  }

  /** In no reachable state are two connections dialled for the key open. */
  ghost predicate OneOpenOnly(cfg: Config, k: Key) {
    forall es :: Feasible(cfg, Init, es) ==> !TwoOpen(After(cfg, Init, es), k)
  }

  /** The bound holds over all runs exactly when open_bi is reliable and no peer connects to us on the key. */
  lemma OneOpenConnectionIff(cfg: Config, k: Key)
    ensures OneOpenOnly(cfg, k) <==> cfg.reliable && k !in cfg.inbound
  {
    if !cfg.reliable {
      var es := FailingOpenBiCanDialTwice(cfg, k);
    } else if k in cfg.inbound {
      var es := InboundHandlerCanDropOpenEntry(cfg, k);
    } else {
      forall es | Feasible(cfg, Init, es)
        ensures !TwoOpen(After(cfg, Init, es), k)
      {
        if c, c' :| c != c' && OpenDialled(After(cfg, Init, es), k, c) && OpenDialled(After(cfg, Init, es), k, c') {
          OneOpenConnectionPerKey(cfg, es, k, c, c');
        }
      }
    }
  }

  /** On an empty cache, task 0 dials the first connection, and caches it. */
  lemma CachesFirst(cfg: Config, k: Key) returns (es: seq<Event>)
    ensures Feasible(cfg, Init, es)
    ensures var s := After(cfg, Init, es);
            && s.cache == map[k := 0] && s.dialled == map[0 := k] && s.nextConn == 1 && s.closed == {}
            && s.tasks.Keys == {0} && LockFree(s, k)
  {
    es := Snoc(cfg, Init, [], Begin(0, k, GetOrConnect));
    es := Snoc(cfg, Init, es, Advance(0, true));
    assert AboutToLock(After(cfg, Init, es), 0, k);
    es := DialsAndCaches(cfg, Init, es, 0, k);
  }

  /** Task 1 gets the free lock of its key, and is about to look again. */
  lemma LocksAfterMiss(cfg: Config, before: seq<Event>, k: Key) returns (es: seq<Event>)
    requires Feasible(cfg, Init, before)
    requires var s := After(cfg, Init, before);
             1 in s.tasks && s.tasks[1] == Task(k, OpenAddrCached, None, WantLock) && LockFree(s, k)
    ensures Feasible(cfg, Init, es)
    ensures var s, s' := After(cfg, Init, before), After(cfg, Init, es);
            && s'.cache == s.cache && s'.closed == s.closed && s'.dialled == s.dialled && s'.nextConn == s.nextConn
            && 1 in s'.tasks && s'.tasks[1].key == k && s'.tasks[1].call.OpenAddrCached? && s'.tasks[1].pc == Read
            && s'.tasks[1].guard.Some?
  {
    es := Snoc(cfg, Init, before, Advance(1, true));
    assert After(cfg, Init, es).tasks[1].pc.WaitLock?;
    es := Snoc(cfg, Init, es, Advance(1, true));
  }

  /** The state with task 1 at `pc`, and nothing else changed. */
  ghost function At(s: State, pc: Pc): State
    requires 1 in s.tasks
  {
    s.(tasks := s.tasks[1 := s.tasks[1].(pc := pc)])
  }

  /** Task 1 is about to look up a key that has the open connection 0 cached, to open a stream on it. */
  ghost predicate LooksUpOpen(s: State, k: Key) {
    && 1 in s.tasks && s.tasks[1].key == k && s.tasks[1].call.OpenAddrCached? && s.tasks[1].pc == Read
    && k in s.cache && s.cache[k] == 0 && 0 !in s.closed
  }

  lemma LookupSteps(cfg: Config, s: State, k: Key)
    requires !cfg.reliable && LooksUpOpen(s, k)
    ensures Enabled(cfg, s, Advance(1, true)) && Step(s, Advance(1, true)) == At(s, Probe(0))
    ensures Enabled(cfg, At(s, Probe(0)), Advance(1, true))
    ensures Step(At(s, Probe(0)), Advance(1, true)) == At(s, OpenCached(0))
  {
  }

  lemma FailureSteps(cfg: Config, s: State, k: Key)
    requires !cfg.reliable && LooksUpOpen(s, k)
    ensures Enabled(cfg, At(s, OpenCached(0)), Advance(1, false))
    ensures Step(At(s, OpenCached(0)), Advance(1, false)) == At(s, Evict)
    ensures Enabled(cfg, At(s, Evict), Advance(1, true))
    ensures Step(At(s, Evict), Advance(1, true)) == At(s, AfterMiss(s.tasks[1]))
  {
  }

  /** A lookup that finds the open connection 0 and fails to open a stream on it. */
  lemma MissesOpenConnection(cfg: Config, before: seq<Event>, k: Key) returns (es: seq<Event>)
    requires !cfg.reliable && Feasible(cfg, Init, before) && LooksUpOpen(After(cfg, Init, before), k)
    ensures Feasible(cfg, Init, es)
    ensures var s := After(cfg, Init, before); After(cfg, Init, es) == At(s, AfterMiss(s.tasks[1]))
  {
    var s := After(cfg, Init, before);
    LookupSteps(cfg, s, k);
    FailureSteps(cfg, s, k);
    es := Snoc(cfg, Init, before, Advance(1, true));
    es := Snoc(cfg, Init, es, Advance(1, true));
    es := Snoc(cfg, Init, es, Advance(1, false));
    es := Snoc(cfg, Init, es, Advance(1, true));
  }
}
