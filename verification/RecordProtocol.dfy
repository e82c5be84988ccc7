/**
 * What the protocol does to the records of the node's remote service (src/kubo/pinning.rs:309-401).
 *
 * Unlike the local pass, the remote pass never adds a record that is in neither listing. What it
 * leaves behind depends on whether the CID still had a record when its request was taken.
 */
module RecordProtocol {
  import opened Kubo
  import opened PublishSystem
  import LocalPass
  import RemotePass
  import Scheduler = CleanupScheduler

  /** The running pass only handles records of CIDs that belong to its name, and removes none of the protected one. */
  ghost predicate PassWithinName(w: World, s: State) {
    s.scheduler.phase.Running? && Touches(w, Records, s.scheduler.phase.request) ==>
      var r := s.scheduler.phase.request;
      && (s.remote.ListTemp? ==> forall c :: c in s.remote.finals ==> Belongs(w, c, r.name))
      && (s.remote.Remove? ==> s.remote.todo != [] && forall p :: p in s.remote.todo ==>
            Belongs(w, p.0, r.name) && LocalPass.OwnName(r, p.1) && p.0 != r.protectedCid)
  }

  /** Only the final record, or none if the CID had none when its request was last taken. */
  ghost predicate Settled(r: Request, bare: bool, records: RemotePins) {
    && RemotePass.StaleSet(r, records) == {} && (r.protectedCid, InFlightName(r.name)) !in records
    && ((r.protectedCid, r.name) in records <==> !bare)
  }

  /** Where a pass stands that nobody disturbs and whose calls all succeed. */
  ghost predicate OnTrack(r: Request, bare: bool, pc: RemotePass.Pc, records: RemotePins) {
    var temp, final := (r.protectedCid, InFlightName(r.name)), (r.protectedCid, r.name);
    var clean, covered := RemotePass.StaleSet(r, records) == {}, RemotePass.Covered(r, records);
    match pc
    case ListFinal => covered <==> !bare
    case ListTemp(finals) => ListsRemote(records, r.name, finals) && (covered <==> !bare)
    case Remove(todo, _) => (forall p :: p in RemotePass.StaleSet(r, records) ==> p in todo) && (covered <==> !bare)
    case MigrateRemove => !bare && clean && temp in records && final !in records
    case MigrateAdd => !bare && clean && temp !in records && final !in records
    case MigrateFailed => false
    case DropTemp => !bare && clean && final in records
    case Done(more) => if more then clean && (covered <==> !bare) else Settled(r, bare, records)
  }

  ghost predicate PassOnTrack(w: World, s: State) {
    Undisturbed(w, s, Records) ==>
      OnTrack(s.scheduler.phase.request, s.scheduler.phase.key in s.bare, s.remote, s.records)
  }

  ghost predicate IdleNamesSettled(w: World, s: State) {
    forall n, k :: Idle(w, s, Records, n, k) ==> Settled(s.scheduler.accepted[k], k in s.bare, s.records)
  }

  ghost predicate Inv(w: World, s: State) {
    && BaseInv(w, s) && OwnedRecords(w, s.records)
    && PassWithinName(w, s) && PassOnTrack(w, s) && IdleNamesSettled(w, s)
  }

  // ---- framing ----

  /** Only records of CIDs that belong to `m` differ. */
  ghost predicate OnlyTouches(w: World, m: Name, a: RemotePins, b: RemotePins) {
    forall c, n :: !Belongs(w, c, m) ==> ((c, n) in a <==> (c, n) in b)
  }

  lemma OtherNamesUnaffected(w: World, m: Name, r: Request, a: RemotePins, b: RemotePins)
    requires WellFormed(w) && OwnedRecords(w, a) && OwnedRecords(w, b) && OnlyTouches(w, m, a, b)
    requires w.guarded(r.name) && r.name != m
    ensures forall c, n :: LocalPass.OwnName(r, n) ==> ((c, n) in a <==> (c, n) in b)
  {
    forall c, n | LocalPass.OwnName(r, n)
      ensures (c, n) in a <==> (c, n) in b
    {
      if Belongs(w, c, r.name) {
        assert !Belongs(w, c, m);
      }
    }
  }

  /** What is said about a request depends on the records under its own names only. */
  lemma SameOwnRecords(r: Request, a: RemotePins, b: RemotePins)
    requires forall c, n :: LocalPass.OwnName(r, n) ==> ((c, n) in a <==> (c, n) in b)
    ensures RemotePass.StaleSet(r, a) == RemotePass.StaleSet(r, b)
    ensures RemotePass.Covered(r, a) <==> RemotePass.Covered(r, b)
    ensures forall bare :: Settled(r, bare, a) <==> Settled(r, bare, b)
    ensures forall bare, pc :: OnTrack(r, bare, pc, a) ==> OnTrack(r, bare, pc, b)
  {
    forall p: (Cid, Name)
      ensures p in RemotePass.StaleSet(r, a) <==> p in RemotePass.StaleSet(r, b)
    {
      assert p == (p.0, p.1);
    }
    forall c
      ensures (c, r.name) in a <==> (c, r.name) in b
    {
    }
  }

  lemma AddKeepsOwned(w: World, n: Name, c: Cid, ok: bool, a: RemotePins, b: RemotePins)
    requires WellFormed(w) && OwnedRecords(w, a) && MayPublish(w, n, c) && RemoteAdd(a, c, n, ok, b)
    ensures OwnedRecords(w, b) && OnlyTouches(w, n, a, b)
  {
    forall m | w.named(m) && (n == m || n == InFlightName(m))
      ensures Belongs(w, c, m)
    {
      if n == InFlightName(m) {
        assert !w.guarded(n) && !w.guarded(m);
      }
    }
  }

  /** A CID of a guarded name without a record under the name's two names is not recorded at all. */
  lemma NotRecorded(w: World, r: Request, records: RemotePins)
    requires OwnedRecords(w, records) && w.guarded(r.name) && w.owner(r.protectedCid) == r.name
    requires !RemotePass.Covered(r, records)
    ensures !Kubo.Recorded(records, r.protectedCid)
  {
  }

  // ---- the invariant ----

  lemma InitialInv(w: World, s: State, capacity: nat)
    requires Initial(s, capacity) && OwnedRecords(w, s.records)
    ensures Inv(w, s)
  {
  }

  /** Records change within one name that is not quiet afterwards; nothing becomes quiet. */
  lemma RecordsOfOneName(w: World, s: State, m: Name, s': State)
    requires WellFormed(w) && Inv(w, s) && BaseInv(w, s') && PassWithinName(w, s')
    requires OwnedRecords(w, s'.records) && OnlyTouches(w, m, s.records, s'.records)
    requires s'.scheduler == s.scheduler && s'.remote == s.remote && s'.bare == s.bare && s.failed <= s'.failed
    requires forall n :: Quiet(w, s', Records, n) ==> Quiet(w, s, Records, n)
    requires s'.records != s.records ==> !Quiet(w, s', Records, m)
    ensures Inv(w, s')
  {
    if Undisturbed(w, s', Records) && s'.records != s.records {
      OtherNamesUnaffected(w, m, s.scheduler.phase.request, s.records, s'.records);
      SameOwnRecords(s.scheduler.phase.request, s.records, s'.records);
    }
    forall n, k | Idle(w, s', Records, n, k)
      ensures Settled(s'.scheduler.accepted[k], k in s'.bare, s'.records)
    {
      assert Idle(w, s, Records, n, k);
      if s'.records != s.records {
        IdleIsOther(w, s, Records, n, k);
        OtherNamesUnaffected(w, m, s.scheduler.accepted[k], s.records, s'.records);
        SameOwnRecords(s.scheduler.accepted[k], s.records, s'.records);
      }
    }
  }

  lemma PublisherStep(w: World, s: State, e: Event, s': State)
    requires WellFormed(w) && Inv(w, s) && Next(w, s, e, s') && IsPublishers(e)
    ensures Inv(w, s')
  {
    var m := PublishedName(s, e);
    PublisherBase(w, s, e, s');
    if e.AddRecord? || e.AddPlain? {
      AddKeepsOwned(w, m, e.cid, if e.AddRecord? then e.ok else true, s.records, s'.records);
    }
    forall n | Quiet(w, s', Records, n)
      ensures Quiet(w, s, Records, n)
    {
      PublisherQuiet(w, s, e, s', Records, n);
    }
    if s'.records != s.records {
      PublisherInMotion(w, s, e, s', Records);
    }
    RecordsOfOneName(w, s, m, s');
  }

  lemma SchedulerStep(w: World, s: State, e: Event, s': State)
    requires WellFormed(w) && Inv(w, s) && SchedulerMoves(e) && Next(w, s, e, s')
    ensures Inv(w, s')
  {
    SchedulerStepBase(w, s, e, s');
    if Undisturbed(w, s', Records) {
      SchedulerStepQuiet(w, s, e, s', Records, s'.scheduler.phase.request.name);
      assert Undisturbed(w, s, Records);
    }
    forall n, k | Idle(w, s', Records, n, k)
      ensures Settled(s'.scheduler.accepted[k], k in s'.bare, s'.records)
    {
      SchedulerStepIdle(w, s, e, s', Records, n, k);
    }
  }

  lemma TakeStep(w: World, s: State, s': State)
    requires WellFormed(w) && Inv(w, s) && Next(w, s, Take, s')
    ensures Inv(w, s')
  {
    TakeBase(w, s, s');
    forall n, k | Idle(w, s', Records, n, k)
      ensures Settled(s'.scheduler.accepted[k], k in s'.bare, s'.records)
    {
      TakeIdle(w, s, s', Records, n, k);
    }
  }

  /** A call of the pass touches records of its own name only, and will go on doing so. */
  lemma CallStaysWithinName(w: World, s: State, ok: bool, s': State)
    requires WellFormed(w) && OwnedRecords(w, s.records) && RequestsFit(w, s) && PassWithinName(w, s)
    requires Next(w, s, RemoteCall(ok), s')
    ensures OwnedRecords(w, s'.records) && OnlyTouches(w, s.scheduler.phase.request.name, s.records, s'.records)
    ensures PassWithinName(w, s')
  {
    var r := s.scheduler.phase.request;
    match s.remote
    case ListTemp(_) =>
      if ok {
        DecidedWithinName(w, s, s');
      }
    case Remove(todo, _) =>
      assert todo[0] in todo;
    case MigrateAdd =>
      AddKeepsOwned(w, r.name, r.protectedCid, ok, s.records, s'.records);
    case _ =>
  }

  lemma DecidedWithinName(w: World, s: State, s': State)
    requires OwnedRecords(w, s.records) && RequestsFit(w, s) && PassWithinName(w, s)
    requires Next(w, s, RemoteCall(true), s') && s.remote.ListTemp?
    ensures PassWithinName(w, s')
  {
    var r := s.scheduler.phase.request;
    var temps :| ListsRemote(s.records, InFlightName(r.name), temps)
                 && s'.remote == RemotePass.Decide(r, s.remote.finals, temps);
    if s'.remote.Remove? {
      RemotePass.DecidedRecords(r, s.remote.finals, temps);
      forall p | p in s'.remote.todo
        ensures Belongs(w, p.0, r.name)
      {
        assert p.0 in s.remote.finals || (p.0, InFlightName(r.name)) in s.records;
      }
    }
  }

  /** A successful call of a pass that nobody disturbs keeps it on track. */
  lemma OnTrackStep(
      w: World, r: Request, bare: bool, pc: RemotePass.Pc, a: RemotePins, pc': RemotePass.Pc, b: RemotePins)
    requires OnTrack(r, bare, pc, a) && OwnedRecords(w, a) && w.guarded(r.name) && w.owner(r.protectedCid) == r.name
    requires pc.Remove? ==> forall p :: p in pc.todo ==> p.0 != r.protectedCid
    requires RemotePass.Step(r, RemotePass.State(pc, a), true, RemotePass.State(pc', b))
    ensures OnTrack(r, bare, pc', b)
  {
    match pc
    case ListTemp(finals) =>
      var temps :| ListsRemote(a, InFlightName(r.name), temps) && pc' == RemotePass.Decide(r, finals, temps);
      RemotePass.DecideIsRight(r, a, finals, temps);
    case Remove(todo, _) =>
      assert todo[0] in todo;
      RemovalOnTrack(r, bare, pc, a, pc', b);
    case MigrateAdd =>
      NotRecorded(w, r, a);
      StaleWith(r, a, b);
    case MigrateRemove => StaleWithout(r, a, b);
    case DropTemp => StaleWithout(r, a, b);
    case _ =>
  }

  lemma RemovalOnTrack(r: Request, bare: bool, pc: RemotePass.Pc, a: RemotePins, pc': RemotePass.Pc, b: RemotePins)
    requires OnTrack(r, bare, pc, a) && pc.Remove? && pc.todo != [] && pc.todo[0].0 != r.protectedCid
    requires RemotePass.Step(r, RemotePass.State(pc, a), true, RemotePass.State(pc', b))
    ensures OnTrack(r, bare, pc', b)
  {
    var todo := pc.todo;
    assert todo[0] == (todo[0].0, todo[0].1);
    forall p | p in RemotePass.StaleSet(r, b)
      ensures p in todo[1..]
    {
      assert p in RemotePass.StaleSet(r, a) && p != todo[0];
    }
    assert |todo| == 1 ==> todo[1..] == [];
  }

  lemma StaleWithout(r: Request, a: RemotePins, b: RemotePins)
    requires b == a - {(r.protectedCid, InFlightName(r.name))}
    ensures RemotePass.StaleSet(r, b) == RemotePass.StaleSet(r, a)
  {
  }

  lemma StaleWith(r: Request, a: RemotePins, b: RemotePins)
    requires b == a + {(r.protectedCid, r.name)}
    ensures RemotePass.StaleSet(r, b) == RemotePass.StaleSet(r, a)
  {
  }

  lemma RemoteCallStep(w: World, s: State, ok: bool, s': State)
    requires WellFormed(w) && Inv(w, s) && Next(w, s, RemoteCall(ok), s')
    ensures Inv(w, s')
  {
    var r := s.scheduler.phase.request;
    CallStaysWithinName(w, s, ok, s');
    CallBase(w, s, RemoteCall(ok), s');
    CallQuiet(w, s, RemoteCall(ok), s');
    if Undisturbed(w, s', Records) {
      assert ok && Undisturbed(w, s, Records);
      OnTrackStep(w, r, s.scheduler.phase.key in s.bare, s.remote, s.records, s'.remote, s'.records);
    }
    forall n, k | Idle(w, s', Records, n, k)
      ensures Settled(s'.scheduler.accepted[k], k in s'.bare, s'.records)
    {
      assert Idle(w, s, Records, n, k);
      IdleIsOther(w, s, Records, n, k);
      OtherNamesUnaffected(w, r.name, s.scheduler.accepted[k], s.records, s'.records);
      SameOwnRecords(s.scheduler.accepted[k], s.records, s'.records);
    }
  }

  lemma LocalCallStep(w: World, s: State, ok: bool, s': State)
    requires WellFormed(w) && Inv(w, s) && Next(w, s, Call(ok), s')
    ensures Inv(w, s')
  {
    CallBase(w, s, Call(ok), s');
    CallQuiet(w, s, Call(ok), s');
    RecordsOfOneName(w, s, s.scheduler.phase.request.name, s');
  }

  lemma FinishStep(w: World, s: State, otherMore: bool, s': State)
    requires WellFormed(w) && Inv(w, s) && Next(w, s, Finish(otherMore), s')
    ensures Inv(w, s')
  {
    FinishBase(w, s, otherMore, s');
    forall n, k | Idle(w, s', Records, n, k)
      ensures Settled(s'.scheduler.accepted[k], k in s'.bare, s'.records)
    {
      FinishSettles(w, s, otherMore, s', n, k);
    }
  }

  lemma FinishSettles(w: World, s: State, otherMore: bool, s': State, n: Name, k: Scheduler.Key)
    requires Inv(w, s) && Next(w, s, Finish(otherMore), s') && Idle(w, s', Records, n, k)
    requires s'.scheduler.accepted == s.scheduler.accepted && s'.bare == s.bare && s'.records == s.records
    ensures Settled(s'.scheduler.accepted[k], k in s'.bare, s'.records)
  {
    FinishIdle(w, s, otherMore, s', Records, n, k);
    if IsRunning(s, k) {
      assert PassOnTrack(w, s);
    } else {
      assert IdleNamesSettled(w, s);
    }
  }

  lemma StepKeepsInv(w: World, s: State, e: Event, s': State)
    requires WellFormed(w) && Inv(w, s) && Next(w, s, e, s')
    ensures Inv(w, s')
  {
    if IsPublishers(e) {
      PublisherStep(w, s, e, s');
    } else if SchedulerMoves(e) {
      SchedulerStep(w, s, e, s');
    } else {
      WorkerStep(w, s, e, s');
    }
  }

  lemma WorkerStep(w: World, s: State, e: Event, s': State)
    requires WellFormed(w) && Inv(w, s) && Next(w, s, e, s') && !IsPublishers(e) && !SchedulerMoves(e)
    ensures Inv(w, s')
  {
    match e
    case Take => TakeStep(w, s, s');
    case Call(ok) => LocalCallStep(w, s, ok, s');
    case RemoteCall(ok) => RemoteCallStep(w, s, ok, s');
    case Finish(otherMore) => FinishStep(w, s, otherMore, s');
  }

  lemma {:induction false} RunKeepsInv(w: World, capacity: nat, run: seq<State>, es: seq<Event>, i: nat)
    requires WellFormed(w) && IsRun(w, capacity, run, es) && i < |run|
    ensures Inv(w, run[i])
  {
    if i == 0 {
      InitialInv(w, run[0], capacity);
    } else {
      RunKeepsInv(w, capacity, run, es, i - 1);
      StepKeepsInv(w, run[i - 1], es[i - 1], run[i]);
    }
  }

  // ---- the end ----

  /** The records under either name of `n`. */
  ghost function RecordsOf(records: RemotePins, n: Name): RemotePins {
    set p | p in records && (p.1 == n || p.1 == InFlightName(n))
  }

  /**
   * When all is at rest, every guarded name whose requests had one key, whose cleanup was not lost
   * since the last of them and whose key is not stranded, has exactly the final record of the last
   * accepted request's CID, or no record at all if that CID had none when the request was last taken.
   */
  lemma EndState(w: World, capacity: nat, run: seq<State>, es: seq<Event>, n: Name, k: Scheduler.Key)
    requires WellFormed(w) && IsRun(w, capacity, run, es)
    requires var s := run[|run| - 1]; AtRest(s) && (Records, n) !in s.lost && k !in s.scheduler.stranded
    requires w.guarded(n) && OnlyKeyUsed(w, run, es, Records, n, k)
    ensures RecordsOf(run[|run| - 1].records, n)
         == if TakenBare(run, es, |es|, k) then {} else {(LastRequest(w, run, es, k).value.protectedCid, n)}
  {
    var s := run[|run| - 1];
    OnlyKeyOfRun(w, capacity, run, es, Records, n, k);
    forall j | 0 <= j < |es|
      ensures BareFollows(run[j], es[j], run[j + 1], k)
    {
      RunKeepsInv(w, capacity, run, es, j);
      BareStep(w, run[j], es[j], run[j + 1], k);
    }
    BareMeansTakenBare(run, es, |es|, k);
    RunKeepsInv(w, capacity, run, es, |run| - 1);
    IdleAtRest(w, s, Records, n, k);
    IdleIsOther(w, s, Records, n, k);
    SettledRecords(s.scheduler.accepted[k], k in s.bare, s.records);
  }

  /** In particular when all goes well, and no more keys are in use than the channel has slots. */
  lemma EndStateWhenAllGoesWell(
      w: World, capacity: nat, run: seq<State>, es: seq<Event>, keys: set<Scheduler.Key>, n: Name, k: Scheduler.Key)
    requires WellFormed(w) && IsRun(w, capacity, run, es) && AtRest(run[|run| - 1])
    requires 1 <= capacity && |keys| <= capacity
    requires forall i :: 0 <= i < |es| ==> Uses(es[i], keys) && (GoesWell(w, run[i], es[i]) || IsRefused(es[i]))
    requires w.guarded(n) && OnlyKeyUsed(w, run, es, Records, n, k)
    ensures RecordsOf(run[|run| - 1].records, n)
         == if TakenBare(run, es, |es|, k) then {} else {(LastRequest(w, run, es, k).value.protectedCid, n)}
  {
    AllCleanedUp(w, capacity, run, es, keys);
    EndState(w, capacity, run, es, n, k);
  }

  lemma SettledRecords(r: Request, bare: bool, records: RemotePins)
    requires Settled(r, bare, records)
    ensures RecordsOf(records, r.name) == if bare then {} else {(r.protectedCid, r.name)}
  {
    forall p | p in RecordsOf(records, r.name)
      ensures p == (r.protectedCid, r.name)
    {
      assert p == (p.0, p.1);
      assert p !in RemotePass.StaleSet(r, records);
    }
  }
}
