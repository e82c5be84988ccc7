/**
 * What callers of the connection cache get back (src/iroh/endpoint.rs:397-460, 546-689): a connection
 * of their own peer that was usable when last looked at, or nothing if they gave up; and that every
 * caller gets an answer.
 */
module ConnectionResults {
  import opened Wrappers
  import opened ConnectionCache

  ghost predicate Leads(cfg: Config, s: State, e: Event, s': State) {
    Enabled(cfg, s, e) && s' == Step(s, e)
  }

  /** A run with all its states. */
  ghost predicate IsRun(cfg: Config, run: seq<State>, es: seq<Event>) {
    && |run| == |es| + 1 && run[0] == Init
    && forall i :: 0 <= i < |es| ==> Leads(cfg, run[i], es[i], run[i + 1])
  }

  /** The states that events pass through. */
  ghost function States(cfg: Config, s: State, es: seq<Event>): (run: seq<State>)
    requires Feasible(cfg, s, es)
    ensures |run| == |es| + 1 && run[0] == s && run[|es|] == After(cfg, s, es)
    ensures forall i :: 0 <= i < |es| ==> Leads(cfg, run[i], es[i], run[i + 1])
    decreases |es|
  {
    if es == [] then [s] else [s] + States(cfg, Step(s, es[0]), es[1..])
  }

  lemma FeasibleIsRun(cfg: Config, es: seq<Event>)
    requires Feasible(cfg, Init, es)
    ensures IsRun(cfg, States(cfg, Init, es), es)
  {
  }

  // ---- whose connection it is ----

  /** The step makes the connection, dialling the peer of the key or being dialled by it. */
  ghost predicate Makes(s: State, e: Event, k: Key, c: Conn) {
    && c == s.nextConn
    && match e
       case Accept(key) => key == k
       case Advance(t, ok) => ok && t in s.tasks && s.tasks[t].pc.Dial? && s.tasks[t].key == k
       case _ => false
  }

  ghost predicate MadeFor(run: seq<State>, es: seq<Event>, i: nat, k: Key, c: Conn)
    requires i <= |es| < |run|
  {
    exists j :: 0 <= j < i && Makes(run[j], es[j], k, c)
  }

  /** The connection a task has in hand. */
  function InHand(pc: Pc): Option<Conn> {
    match pc
    case Probe(c) => Some(c)
    case OpenCached(c) => Some(c)
    case OpenFresh(c) => Some(c)
    case Insert(c) => Some(c)
    case Leave(result) => result
    case Finished(result) => result
    case _ => None
  }

  /** Cache entries and connections in hand belong to their keys, and are not yet to be made. */
  ghost predicate OwnInv(s: State, made: iset<(Key, Conn)>) {
    && (forall k :: k in s.cache ==> (k, s.cache[k]) in made)
    && (forall t :: t in s.tasks && InHand(s.tasks[t].pc).Some? ==>
          (s.tasks[t].key, InHand(s.tasks[t].pc).value) in made)
    && (forall k, c: Conn :: (k, c) in made ==> c < s.nextConn)
    && (forall c :: c in s.closed ==> c < s.nextConn)
  }

  /** The step adds what it makes. */
  ghost predicate Adds(s: State, e: Event, made: iset<(Key, Conn)>, made': iset<(Key, Conn)>) {
    forall k, c: Conn :: (k, c) in made' <==> (k, c) in made || Makes(s, e, k, c)
  }

  lemma StepKeepsOwn(cfg: Config, s: State, e: Event, made: iset<(Key, Conn)>, made': iset<(Key, Conn)>)
    requires OwnInv(s, made) && Enabled(cfg, s, e)
    requires Adds(s, e, made, made')
    ensures OwnInv(Step(s, e), made')
  {
    forall t | t in Step(s, e).tasks && InHand(Step(s, e).tasks[t].pc).Some?
      ensures (Step(s, e).tasks[t].key, InHand(Step(s, e).tasks[t].pc).value) in made'
    {
      HandStepsKeepOwn(cfg, s, e, made, made', t);
    }
    CacheStepsKeepOwn(cfg, s, e, made, made');
  }

  lemma HandStepsKeepOwn(
      cfg: Config, s: State, e: Event, made: iset<(Key, Conn)>, made': iset<(Key, Conn)>, t: TaskId)
    requires OwnInv(s, made) && Enabled(cfg, s, e) && Adds(s, e, made, made')
    requires t in Step(s, e).tasks && InHand(Step(s, e).tasks[t].pc).Some?
    ensures (Step(s, e).tasks[t].key, InHand(Step(s, e).tasks[t].pc).value) in made'
  {
    if e.Advance? && e.task == t {
      AdvanceTakesInHand(s, t, e.ok);
      var k, c := s.tasks[t].key, InHand(Step(s, e).tasks[t].pc).value;
      assert (k, c) in made || Makes(s, e, k, c);
    } else {
      assert t in s.tasks && s.tasks[t] == Step(s, e).tasks[t];
    }
  }

  lemma CacheStepsKeepOwn(cfg: Config, s: State, e: Event, made: iset<(Key, Conn)>, made': iset<(Key, Conn)>)
    requires OwnInv(s, made) && Enabled(cfg, s, e) && Adds(s, e, made, made')
    ensures forall k :: k in Step(s, e).cache ==> (k, Step(s, e).cache[k]) in made'
    ensures forall k, c: Conn :: (k, c) in made' ==> c < Step(s, e).nextConn
    ensures forall c :: c in Step(s, e).closed ==> c < Step(s, e).nextConn
  {
    if e.Accept? {
      assert Makes(s, e, e.key, s.nextConn);
    } else if e.Advance? {
      assert InHand(s.tasks[e.task].pc).Some? ==> (s.tasks[e.task].key, InHand(s.tasks[e.task].pc).value) in made;
    } else if e.Cancel? {
      assert InHand(s.tasks[e.task].pc).Some? ==> (s.tasks[e.task].key, InHand(s.tasks[e.task].pc).value) in made;
    }
  }

  /** What a task takes in hand is what it had, what it finds cached for its key, or what it dials. */
  lemma AdvanceTakesInHand(s: State, t: TaskId, ok: bool)
    requires t in s.tasks
    ensures var task, task' := s.tasks[t], TaskStep(s, t, ok).tasks[t];
      && task'.key == task.key && task'.call == task.call
      && (InHand(task'.pc).Some? ==>
            || InHand(task'.pc) == InHand(task.pc)
            || (task.pc.Read? && task.key in s.cache && InHand(task'.pc) == Some(s.cache[task.key]))
            || (task.pc.Dial? && ok && InHand(task'.pc) == Some(s.nextConn)))
  {
  }

  ghost function Made(run: seq<State>, es: seq<Event>, i: nat): iset<(Key, Conn)>
    requires i <= |es| < |run|
  {
    iset p: (Key, Conn) | MadeFor(run, es, i, p.0, p.1)
  }

  lemma MadeStep(run: seq<State>, es: seq<Event>, i: nat)
    requires 0 < i <= |es| < |run|
    ensures Adds(run[i - 1], es[i - 1], Made(run, es, i - 1), Made(run, es, i))
  {
    forall k, c: Conn
      ensures MadeFor(run, es, i, k, c) <==> MadeFor(run, es, i - 1, k, c) || Makes(run[i - 1], es[i - 1], k, c)
    {
    }
  }

  lemma {:induction false} RunKeepsOwn(cfg: Config, run: seq<State>, es: seq<Event>, i: nat)
    requires IsRun(cfg, run, es) && i <= |es|
    ensures OwnInv(run[i], Made(run, es, i))
  {
    if i == 0 {
      OwnAtStart(Made(run, es, 0));
    } else {
      RunKeepsOwn(cfg, run, es, i - 1);
      MadeStep(run, es, i);
      assert Leads(cfg, run[i - 1], es[i - 1], run[i - 1 + 1]);
      LeadsKeepsOwn(cfg, run[i - 1], es[i - 1], run[i], Made(run, es, i - 1), Made(run, es, i));
    }
  }

  lemma OwnAtStart(made: iset<(Key, Conn)>)
    requires made == iset{}
    ensures OwnInv(Init, made)
  {
  }

  lemma LeadsKeepsOwn(
      cfg: Config, s: State, e: Event, s': State, made: iset<(Key, Conn)>, made': iset<(Key, Conn)>)
    requires OwnInv(s, made) && Leads(cfg, s, e, s') && Adds(s, e, made, made')
    ensures OwnInv(s', made')
  {
    StepKeepsOwn(cfg, s, e, made, made');
  }

  lemma {:induction false} ConnectionsGrow(cfg: Config, run: seq<State>, es: seq<Event>, i: nat, j: nat)
    requires IsRun(cfg, run, es) && i <= j <= |es|
    ensures run[i].nextConn <= run[j].nextConn
    decreases j
  {
    if i < j {
      ConnectionsGrow(cfg, run, es, i, j - 1);
      assert Leads(cfg, run[j - 1], es[j - 1], run[j - 1 + 1]);
    }
  }

  /** A connection is made once, and for one key. */
  lemma MadeOnce(cfg: Config, run: seq<State>, es: seq<Event>, i: nat, j: nat, k: Key, k': Key, c: Conn)
    requires IsRun(cfg, run, es) && i < |es| && j < |es|
    requires Makes(run[i], es[i], k, c) && Makes(run[j], es[j], k', c)
    ensures i == j && k == k'
  {
    assert Leads(cfg, run[i], es[i], run[i + 1]) && Leads(cfg, run[j], es[j], run[j + 1]);
    if i < j {
      ConnectionsGrow(cfg, run, es, i + 1, j);
    } else if j < i {
      ConnectionsGrow(cfg, run, es, j + 1, i);
    }
  }

  /** The connection a task returns was made to or by the peer of its own key, and for no other key. */
  lemma ReturnsOwnConnection(cfg: Config, run: seq<State>, es: seq<Event>, i: nat, t: TaskId, c: Conn, k: Key)
    requires IsRun(cfg, run, es) && i <= |es|
    requires t in run[i].tasks && run[i].tasks[t].pc == Finished(Some(c))
    ensures MadeFor(run, es, i, k, c) <==> k == run[i].tasks[t].key
  {
    RunKeepsOwn(cfg, run, es, i);
    var own := run[i].tasks[t].key;
    assert (own, c) in Made(run, es, i);
    if MadeFor(run, es, i, k, c) {
      var j :| 0 <= j < i && Makes(run[j], es[j], k, c);
      var m :| 0 <= m < i && Makes(run[m], es[m], own, c);
      MadeOnce(cfg, run, es, j, m, k, own, c);
    }
  }

  // ---- that it was usable ----

  /** The task is done but for caching the connection and leaving. */
  predicate IsAnswer(pc: Pc, c: Conn) {
    pc == Insert(c) || pc == Leave(Some(c)) || pc == Finished(Some(c))
  }

  /**
   * The look that decides for the connection: `get_or_connect` finds it not closed or has just dialled
   * it, `open_addr_cached` has opened a stream on it.
   */
  ghost predicate DecidesFor(s: State, e: Event, t: TaskId, c: Conn) {
    && e.Advance? && e.task == t && t in s.tasks
    && var task := s.tasks[t];
    match task.call
    case GetOrConnect => task.pc == Probe(c) || (task.pc.Dial? && e.ok && c == s.nextConn)
    case OpenAddrCached => e.ok && (task.pc == OpenCached(c) || task.pc == OpenFresh(c))
  }

  /** The task only caches the connection or leaves. */
  ghost predicate LooksNoMore(s: State, e: Event, t: TaskId) {
    e.Advance? && e.task == t ==> t in s.tasks && (s.tasks[t].pc.Insert? || s.tasks[t].pc.Leave?)
  }

  ghost predicate LastLook(run: seq<State>, es: seq<Event>, j: nat, i: nat, t: TaskId, c: Conn)
    requires j < i <= |es| < |run|
  {
    && DecidesFor(run[j], es[j], t, c) && c !in run[j + 1].closed
    && forall m :: j < m < i ==> LooksNoMore(run[m], es[m], t)
  }

  ghost predicate DecidedUsable(run: seq<State>, es: seq<Event>, i: nat, t: TaskId, c: Conn)
    requires i <= |es| < |run|
  {
    exists j :: 0 <= j < i && LastLook(run, es, j, i, t, c)
  }

  /** Tasks that dial on do so for their call: only `open_addr_cached` opens streams. */
  ghost predicate StreamsOnlyForAddr(s: State) {
    forall t :: t in s.tasks && (s.tasks[t].pc.OpenCached? || s.tasks[t].pc.OpenFresh?) ==>
                  s.tasks[t].call.OpenAddrCached?
  }

  lemma {:induction false} RunKeepsStreams(cfg: Config, run: seq<State>, es: seq<Event>, i: nat)
    requires IsRun(cfg, run, es) && i <= |es|
    ensures StreamsOnlyForAddr(run[i])
  {
    if i > 0 {
      RunKeepsStreams(cfg, run, es, i - 1);
      assert Leads(cfg, run[i - 1], es[i - 1], run[i - 1 + 1]);
      StepKeepsStreams(cfg, run[i - 1], es[i - 1]);
    }
  }

  lemma StepKeepsStreams(cfg: Config, s: State, e: Event)
    requires StreamsOnlyForAddr(s) && Enabled(cfg, s, e)
    ensures StreamsOnlyForAddr(Step(s, e))
  {
  }

  /** How a task comes to its answer. */
  lemma AnswerStep(cfg: Config, s: State, e: Event, t: TaskId, c: Conn, made: iset<(Key, Conn)>)
    requires Enabled(cfg, s, e) && OwnInv(s, made) && StreamsOnlyForAddr(s)
    requires t in Step(s, e).tasks && IsAnswer(Step(s, e).tasks[t].pc, c)
    ensures t in s.tasks && Step(s, e).tasks[t].key == s.tasks[t].key
    ensures IsAnswer(s.tasks[t].pc, c)
            || (DecidesFor(s, e, t, c) && c !in Step(s, e).closed && !IsAnswer(s.tasks[t].pc, c))
    ensures IsAnswer(s.tasks[t].pc, c) ==> LooksNoMore(s, e, t)
  {
    if !(e.Advance? && e.task == t) {
      assert t in s.tasks && Step(s, e).tasks[t] == s.tasks[t];
    }
  }

  lemma {:induction false} AnswerWasDecided(cfg: Config, run: seq<State>, es: seq<Event>, i: nat, t: TaskId, c: Conn)
    requires IsRun(cfg, run, es) && i <= |es|
    requires t in run[i].tasks && IsAnswer(run[i].tasks[t].pc, c)
    ensures DecidedUsable(run, es, i, t, c)
  {
    if i > 0 {
      var s, e := run[i - 1], es[i - 1];
      RunKeepsOwn(cfg, run, es, i - 1);
      RunKeepsStreams(cfg, run, es, i - 1);
      assert Leads(cfg, s, e, run[i - 1 + 1]);
      AnswerStep(cfg, s, e, t, c, Made(run, es, i - 1));
      if IsAnswer(s.tasks[t].pc, c) {
        AnswerWasDecided(cfg, run, es, i - 1, t, c);
        DecidedLonger(run, es, i, t, c);
      } else {
        assert LastLook(run, es, i - 1, i, t, c);
      }
    }
  }

  lemma DecidedLonger(run: seq<State>, es: seq<Event>, i: nat, t: TaskId, c: Conn)
    requires 0 < i <= |es| < |run| && DecidedUsable(run, es, i - 1, t, c)
    requires LooksNoMore(run[i - 1], es[i - 1], t)
    ensures DecidedUsable(run, es, i, t, c)
  {
    var j :| 0 <= j < i - 1 && LastLook(run, es, j, i - 1, t, c);
    assert LastLook(run, es, j, i, t, c);
  }

  /** The connection a task returns was not closed when the task last looked at it. */
  lemma ReturnsUsable(cfg: Config, run: seq<State>, es: seq<Event>, i: nat, t: TaskId, c: Conn)
    requires IsRun(cfg, run, es) && i <= |es|
    requires t in run[i].tasks && run[i].tasks[t].pc == Finished(Some(c))
    ensures DecidedUsable(run, es, i, t, c)
  {
    AnswerWasDecided(cfg, run, es, i, t, c);
  }

  // ---- that it is the cached one ----

  /** The task finds the connection cached for its key. */
  ghost predicate Finds(s: State, e: Event, t: TaskId, c: Conn) {
    && e.Advance? && e.task == t && t in s.tasks && s.tasks[t].pc.Read?
    && s.tasks[t].key in s.cache && s.cache[s.tasks[t].key] == c
  }

  ghost predicate Dials(s: State, e: Event, t: TaskId, c: Conn) {
    e == Advance(t, true) && t in s.tasks && s.tasks[t].pc.Dial? && c == s.nextConn
  }

  /** The task caches it. */
  ghost predicate Caches(s: State, e: Event, s': State, t: TaskId, c: Conn) {
    && e.Advance? && e.task == t && t in s.tasks && s.tasks[t].pc == Insert(c)
    && s.tasks[t].key in s'.cache && s'.cache[s.tasks[t].key] == c
  }

  ghost predicate Found(run: seq<State>, es: seq<Event>, i: nat, t: TaskId, c: Conn)
    requires i <= |es| < |run|
  {
    exists j :: 0 <= j < i && Finds(run[j], es[j], t, c)
  }

  ghost predicate Dialled(run: seq<State>, es: seq<Event>, i: nat, t: TaskId, c: Conn)
    requires i <= |es| < |run|
  {
    exists j :: 0 <= j < i && Dials(run[j], es[j], t, c)
  }

  ghost predicate Cached(run: seq<State>, es: seq<Event>, i: nat, t: TaskId, c: Conn)
    requires i <= |es| < |run|
  {
    exists j :: 0 <= j < i && Caches(run[j], es[j], run[j + 1], t, c)
  }

  /** Where what a task has in hand comes from. */
  ghost predicate Traced(run: seq<State>, es: seq<Event>, i: nat, t: TaskId)
    requires i <= |es| < |run| && t in run[i].tasks
  {
    match run[i].tasks[t].pc
    case Probe(c) => Found(run, es, i, t, c)
    case OpenCached(c) => Found(run, es, i, t, c)
    case OpenFresh(c) => Dialled(run, es, i, t, c)
    case Insert(c) => Dialled(run, es, i, t, c)
    case Leave(Some(c)) => Found(run, es, i, t, c) || (Dialled(run, es, i, t, c) && Cached(run, es, i, t, c))
    case Finished(Some(c)) => Found(run, es, i, t, c) || (Dialled(run, es, i, t, c) && Cached(run, es, i, t, c))
    case _ => true
  }

  lemma TraceStep(run: seq<State>, es: seq<Event>, i: nat, t: TaskId, c: Conn)
    requires 0 < i <= |es| < |run|
    ensures Found(run, es, i, t, c) <==> Found(run, es, i - 1, t, c) || Finds(run[i - 1], es[i - 1], t, c)
    ensures Dialled(run, es, i, t, c) <==> Dialled(run, es, i - 1, t, c) || Dials(run[i - 1], es[i - 1], t, c)
    ensures Cached(run, es, i, t, c) <==> Cached(run, es, i - 1, t, c) || Caches(run[i - 1], es[i - 1], run[i], t, c)
  {
    assert Caches(run[i - 1], es[i - 1], run[i - 1 + 1], t, c) ==> Cached(run, es, i, t, c);
  }

  lemma {:induction false} EverythingIsTraced(cfg: Config, run: seq<State>, es: seq<Event>, i: nat, t: TaskId)
    requires IsRun(cfg, run, es) && i <= |es| && t in run[i].tasks
    ensures Traced(run, es, i, t)
  {
    if i > 0 {
      var s, e := run[i - 1], es[i - 1];
      assert Leads(cfg, s, e, run[i - 1 + 1]);
      if t in s.tasks {
        EverythingIsTraced(cfg, run, es, i - 1, t);
        if InHand(run[i].tasks[t].pc).Some? {
          var c := InHand(run[i].tasks[t].pc).value;
          TraceStep(run, es, i, t, c);
          HandStep(cfg, s, e, t, c);
        }
      }
    }
  }

  /** How a connection comes into a task's hand, and how it stays there. */
  lemma HandStep(cfg: Config, s: State, e: Event, t: TaskId, c: Conn)
    requires Enabled(cfg, s, e) && t in s.tasks && InHand(Step(s, e).tasks[t].pc) == Some(c)
    ensures var pc, pc' := s.tasks[t].pc, Step(s, e).tasks[t].pc;
      match pc'
      case Probe(_) => pc == pc' || Finds(s, e, t, c)
      case OpenCached(_) => pc == pc' || pc == Probe(c)
      case OpenFresh(_) => pc == pc' || Dials(s, e, t, c)
      case Insert(_) => pc == pc' || pc == OpenFresh(c) || Dials(s, e, t, c)
      case Leave(_) => pc == pc' || pc == Probe(c) || pc == OpenCached(c)
                       || (pc == Insert(c) && Caches(s, e, Step(s, e), t, c))
      case _ => pc == pc' || pc == Leave(Some(c))
  {
  }

  /**
   * The connection a task returns is one it found cached for its key, or one that it dialled itself
   * and cached for its key.
   */
  lemma ReturnsCached(cfg: Config, run: seq<State>, es: seq<Event>, i: nat, t: TaskId, c: Conn)
    requires IsRun(cfg, run, es) && i <= |es|
    requires t in run[i].tasks && run[i].tasks[t].pc == Finished(Some(c))
    ensures Found(run, es, i, t, c) || (Dialled(run, es, i, t, c) && Cached(run, es, i, t, c))
  {
    EverythingIsTraced(cfg, run, es, i, t);
  }

  // ---- who gets nothing ----

  /** The task is cancelled, or a connection attempt or the first stream on a fresh connection fails. */
  ghost predicate GivesUp(s: State, e: Event, t: TaskId) {
    e == Cancel(t) || (e == Advance(t, false) && t in s.tasks && (s.tasks[t].pc.Dial? || s.tasks[t].pc.OpenFresh?))
  }

  ghost predicate GaveUp(run: seq<State>, es: seq<Event>, i: nat, t: TaskId)
    requires i <= |es| < |run|
  {
    exists j :: 0 <= j < i && GivesUp(run[j], es[j], t)
  }

  predicate IsNothing(pc: Pc) {
    pc == Leave(None) || pc == Finished(None)
  }

  lemma NothingStep(cfg: Config, s: State, e: Event, t: TaskId)
    requires Enabled(cfg, s, e) && t in s.tasks
    ensures t in Step(s, e).tasks
    ensures IsNothing(Step(s, e).tasks[t].pc) <==> IsNothing(s.tasks[t].pc) || GivesUp(s, e, t)
  {
  }

  lemma {:induction false} NothingIffGaveUp(cfg: Config, run: seq<State>, es: seq<Event>, i: nat, t: TaskId)
    requires IsRun(cfg, run, es) && i <= |es|
    ensures GaveUp(run, es, i, t) <==> t in run[i].tasks && IsNothing(run[i].tasks[t].pc)
  {
    if i > 0 {
      var s, e := run[i - 1], es[i - 1];
      NothingIffGaveUp(cfg, run, es, i - 1, t);
      assert Leads(cfg, s, e, run[i - 1 + 1]);
      assert GaveUp(run, es, i, t) <==> GaveUp(run, es, i - 1, t) || GivesUp(s, e, t);
      if t in s.tasks {
        NothingStep(cfg, s, e, t);
      }
    }
  }

  /** A finished task has no connection exactly if it was cancelled or an attempt to connect failed. */
  lemma NothingOnlyAfterFailure(cfg: Config, run: seq<State>, es: seq<Event>, i: nat, t: TaskId)
    requires IsRun(cfg, run, es) && i <= |es| && t in run[i].tasks && run[i].tasks[t].pc.Finished?
    ensures run[i].tasks[t].pc.result.None? <==> GaveUp(run, es, i, t)
  {
    NothingIffGaveUp(cfg, run, es, i, t);
  }

  // ---- that there is an answer ----

  /** Every connect lock that is held, is held by a task past it that has not returned. */
  ghost predicate NoOrphans(s: State) {
    forall l :: l in s.holder ==> s.holder[l] in s.tasks && s.tasks[s.holder[l]].guard == Some(l)
  }

  lemma StepKeepsNoOrphans(cfg: Config, s: State, e: Event)
    requires LockInv(s) && NoOrphans(s) && Enabled(cfg, s, e)
    ensures NoOrphans(Step(s, e))
  {
    if e.Advance? || e.Cancel? {
      assert TaskLockOk(s, e.task);
    }
  }

  lemma {:induction false} RunKeepsNoOrphans(cfg: Config, run: seq<State>, es: seq<Event>, i: nat)
    requires IsRun(cfg, run, es) && i <= |es|
    ensures LockInv(run[i]) && NoOrphans(run[i])
  {
    if i > 0 {
      RunKeepsNoOrphans(cfg, run, es, i - 1);
      assert Leads(cfg, run[i - 1], es[i - 1], run[i - 1 + 1]);
      StepKeepsLockInv(cfg, run[i - 1], es[i - 1]);
      StepKeepsNoOrphans(cfg, run[i - 1], es[i - 1]);
    }
  }

  ghost predicate CanAdvance(cfg: Config, s: State, t: TaskId) {
    exists ok :: Enabled(cfg, s, Advance(t, ok))
  }

  lemma AdvancesUnlessWaiting(cfg: Config, s: State, t: TaskId)
    requires t in s.tasks && !s.tasks[t].pc.Finished?
    requires s.tasks[t].pc.WaitLock? ==> s.tasks[t].pc.lock !in s.holder
    ensures CanAdvance(cfg, s, t)
  {
    var pc := s.tasks[t].pc;
    var ok := if pc.OpenCached? || pc.OpenFresh? then pc.conn !in s.closed else true;
    assert Enabled(cfg, s, Advance(t, ok));
  }

  /**
   * Nobody waits in vain: a task that has not returned can take its next step, or waits for the lock
   * of its key, held by a task of the same key that can.
   */
  lemma NobodyIsStuck(cfg: Config, run: seq<State>, es: seq<Event>, i: nat, t: TaskId)
    requires IsRun(cfg, run, es) && i <= |es| && t in run[i].tasks && !run[i].tasks[t].pc.Finished?
    ensures CanAdvance(cfg, run[i], t)
            || exists t' :: InCriticalSection(run[i], t', run[i].tasks[t].key) && CanAdvance(cfg, run[i], t')
  {
    var s := run[i];
    RunKeepsNoOrphans(cfg, run, es, i);
    var pc := s.tasks[t].pc;
    if pc.WaitLock? && pc.lock in s.holder {
      var t' := s.holder[pc.lock];
      assert TaskLockOk(s, t) && TaskLockOk(s, t');
      AdvancesUnlessWaiting(cfg, s, t');
      assert InCriticalSection(s, t', s.tasks[t].key);
    } else {
      AdvancesUnlessWaiting(cfg, s, t);
    }
  }

  /** How many steps a task has still to go at most. */
  function ToGo(task: Task): nat {
    var again := if task.guard.Some? then 0 else 6;
    match task.pc
    case Read => 8 + again
    case Probe(_) => 7 + again
    case OpenCached(_) => 6 + again
    case Evict => 5 + again
    case WantLock => 10
    case WaitLock(_) => 9
    case Dial => 4
    case OpenFresh(_) => 3
    case Insert(_) => 2
    case Leave(_) => 1
    case Finished(_) => 0
  }

  function Left(s: State, t: TaskId): nat {
    if t in s.tasks then ToGo(s.tasks[t]) else 14
  }

  lemma StepIsProgress(cfg: Config, s: State, e: Event, t: TaskId)
    requires Enabled(cfg, s, e)
    ensures Left(Step(s, e), t) + (if e.Advance? && e.task == t then 1 else 0) <= Left(s, t)
  {
  }

  function OwnSteps(es: seq<Event>, t: TaskId): nat {
    if es == [] then 0
    else OwnSteps(es[..|es| - 1], t) + if es[|es| - 1].Advance? && es[|es| - 1].task == t then 1 else 0
  }

  /** A call takes at most 14 steps of its own, whatever others do: there is one retry, under the lock. */
  lemma {:induction false} StepsAreBounded(cfg: Config, run: seq<State>, es: seq<Event>, i: nat, t: TaskId)
    requires IsRun(cfg, run, es) && i <= |es|
    ensures OwnSteps(es[..i], t) + Left(run[i], t) <= 14
  {
    if i > 0 {
      var s, e := run[i - 1], es[i - 1];
      StepsAreBounded(cfg, run, es, i - 1, t);
      assert Leads(cfg, s, e, run[i - 1 + 1]);
      assert es[..i][..i - 1] == es[..i - 1] && es[..i][i - 1] == e;
      StepIsProgress(cfg, s, e, t);
    }
  }
}
