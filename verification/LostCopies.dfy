/**
 * The other half of `FreshCopies`: every threat is real. From any state in which a fresh copy is
 * threatened, the worker's own steps, with some of its calls failing and at most one publisher's step,
 * lead to its removal (src/kubo/pinning.rs:206-401).
 */
module LostCopies {
  import opened Wrappers
  import opened Kubo
  import opened PublishSystem
  import opened FreshCopies
  import LocalPass
  import RemotePass
  import PinProtocol
  import RecordProtocol
  import Scheduler = CleanupScheduler

  /** Where the worker starts from: a fresh copy of a guarded name, and nobody inside `schedule`. */
  ghost predicate Ready(w: World, s: State, side: Side, n: Name, c: Cid) {
    WellFormed(w) && Inv(w, s) && IsOwn(w, n, c) && Fresh(s, side, n, c) && s.scheduler.entering.None?
  }

  lemma LosesAfter(w: World, s: State, e: Event, s': State, side: Side, n: Name, c: Cid)
    requires Next(w, s, e, s') && !e.Schedule? && CanLose(w, s', side, n, c)
    ensures CanLose(w, s, side, n, c)
  {
    var steps: nat :| MayLose(w, s', side, n, c, steps);
    assert MayLose(w, s, side, n, c, steps + 1);
  }

  lemma StaysReady(w: World, s: State, e: Event, s': State, side: Side, n: Name, c: Cid)
    requires Ready(w, s, side, n, c) && Next(w, s, e, s') && Fresh(s', side, n, c) && s'.scheduler.entering.None?
    ensures Ready(w, s', side, n, c)
  {
    StepKeepsInv(w, s, e, s');
  }

  // ---- the steps of a batch ----

  function Called(s: State, ok: bool, pc: LocalPass.Pc, pins: LocalPins): State {
    s.(local := pc, pins := pins, failed := if ok then s.failed else s.failed + {Pins})
  }

  function RemoteCalled(s: State, ok: bool, pc: RemotePass.Pc, records: RemotePins): State {
    s.(remote := pc, records := records, failed := if ok then s.failed else s.failed + {Records})
  }

  /** Where a failing call leaves the local pass. */
  function FailedCall(pc: LocalPass.Pc): LocalPass.Pc
    requires pc.Remove? ==> pc.todo != []
  {
    if pc.Remove? then LocalPass.AfterRemoval(pc.todo, pc.removedAny) else LocalPass.Done(false)
  }

  function FailedRemoteCall(pc: RemotePass.Pc): RemotePass.Pc
    requires pc.Remove? ==> pc.todo != []
  {
    if pc.Remove? then RemotePass.AfterRemoval(pc.todo, pc.removedAny)
    else if pc.MigrateRemove? || pc.MigrateAdd? then RemotePass.MigrateFailed
    else RemotePass.Done(false)
  }

  /** The batch's next call fails, without effect. */
  lemma BatchFails(w: World, s: State) returns (e: Event, s': State)
    requires Inv(w, s) && s.scheduler.phase.Running? && !BatchOver(s)
    ensures (e == Call(false) || e == RemoteCall(false)) && Next(w, s, e, s')
    ensures s'.pins == s.pins && s'.records == s.records && s'.scheduler == s.scheduler
    ensures if s.local.Done? then s'.local == s.local && s'.remote == FailedRemoteCall(s.remote)
            else s'.remote == s.remote && s'.local == FailedCall(s.local)
  {
    if s.local.Done? {
      e, s' := RemoteCall(false), RemoteCalled(s, false, FailedRemoteCall(s.remote), s.records);
    } else {
      e, s' := Call(false), Called(s, false, FailedCall(s.local), s.pins);
    }
  }

  function LocalCalls(pc: LocalPass.Pc): nat {
    if pc.Done? then 0 else if pc.Remove? then |pc.todo| else 1
  }

  function RemoteCalls(pc: RemotePass.Pc): nat {
    if RemotePass.Terminal(pc) then 0 else if pc.Remove? then |pc.todo| else 1
  }

  /** How many steps, at most, until the worker turns to the channel, if every call fails. */
  function Busy(s: State): nat {
    match s.scheduler.phase
    case Idle => 0
    case Delaying(_) => 1
    case Running(_, _) => 2 + LocalCalls(s.local) + RemoteCalls(s.remote)
    case Received(_) => 5
  }

  /** The batch is over, and says so. */
  lemma BatchEnds(w: World, s: State, otherMore: bool) returns (s': State)
    requires BatchOver(s) && s.scheduler.entering.None?
    ensures Next(w, s, Finish(otherMore), s') && s'.pins == s.pins && s'.records == s.records
    ensures s'.scheduler == Scheduler.Step(s.scheduler, Scheduler.Finish(BatchMore(w, s, otherMore)))
  {
    s' := AfterFinish(w, s, otherMore);
  }

  // ---- a waiting rival ----

  /** The rival still waits, nothing is lost yet, and the worker is closer to it. */
  ghost predicate Closer(w: World, s: State, s': State, side: Side, n: Name, c: Cid, k: Scheduler.Key) {
    && RivalWaits(w, s', side, n, c, k) && s'.scheduler.entering.None?
    && s'.pins == s.pins && s'.records == s.records
    && (|| Scheduler.Ahead(s'.scheduler, k) < Scheduler.Ahead(s.scheduler, k)
        || (Scheduler.Ahead(s'.scheduler, k) == Scheduler.Ahead(s.scheduler, k) && Busy(s') < Busy(s)))
  }

  /** The worker's next step, its calls failing. */
  lemma WorkerProceeds(w: World, s: State, side: Side, n: Name, c: Cid, k: Scheduler.Key) returns (e: Event, s': State)
    requires WellFormed(w) && Inv(w, s) && RivalWaits(w, s, side, n, c, k) && s.scheduler.entering.None?
    requires s.scheduler.phase != Scheduler.Received(k)
    ensures Next(w, s, e, s') && !e.Schedule? && Closer(w, s, s', side, n, c, k)
  {
    assert Scheduler.Tokens(s.scheduler, k) == 1;
    match s.scheduler.phase
    case Idle => e, s' := ReceiveProceeds(w, s, side, n, c, k);
    case Received(_) => e, s' := TakeProceeds(w, s, side, n, c, k);
    case Delaying(_) => e, s' := ResendProceeds(w, s, side, n, c, k);
    case Running(_, _) =>
      if BatchOver(s) {
        e, s' := FinishProceeds(w, s, side, n, c, k);
      } else {
        e, s' := CallProceeds(w, s, side, n, c, k);
      }
  }

  lemma ReceiveProceeds(w: World, s: State, side: Side, n: Name, c: Cid, k: Scheduler.Key) returns (e: Event, s': State)
    requires RivalWaits(w, s, side, n, c, k) && Scheduler.Tokens(s.scheduler, k) == 1
    requires s.scheduler.phase.Idle? && s.scheduler.entering.None?
    ensures e == Receive && Next(w, s, e, s') && Closer(w, s, s', side, n, c, k)
  {
    Scheduler.TokenInLine(s.scheduler, k);
    e, s' := Receive, s.(scheduler := Scheduler.Step(s.scheduler, Scheduler.Receive));
  }

  lemma TakeProceeds(w: World, s: State, side: Side, n: Name, c: Cid, k: Scheduler.Key) returns (e: Event, s': State)
    requires BaseInv(w, s) && RivalWaits(w, s, side, n, c, k)
    requires s.scheduler.phase.Received? && s.scheduler.phase.key != k && s.scheduler.entering.None?
    ensures e == Take && Next(w, s, e, s') && Closer(w, s, s', side, n, c, k)
  {
    e, s' := Take, AfterTake(w, s);
    TakeSparesWaiting(w, s, side, n, c, k);
    TakeIsShort(w, s);
  }

  lemma TakeSparesWaiting(w: World, s: State, side: Side, n: Name, c: Cid, k: Scheduler.Key)
    requires RivalWaits(w, s, side, n, c, k)
    requires s.scheduler.phase.Received? && s.scheduler.phase.key != k && s.scheduler.entering.None?
    ensures RivalWaits(w, AfterTake(w, s), side, n, c, k)
    ensures Scheduler.Ahead(AfterTake(w, s).scheduler, k) == Scheduler.Ahead(s.scheduler, k)
  {
  }

  lemma TakeIsShort(w: World, s: State)
    requires BaseInv(w, s) && Scheduler.Enabled(s.scheduler, Scheduler.Take)
    ensures Busy(AfterTake(w, s)) < Busy(s)
  {
    TakeBase(w, s, AfterTake(w, s));
  }

  lemma ResendProceeds(w: World, s: State, side: Side, n: Name, c: Cid, k: Scheduler.Key) returns (e: Event, s': State)
    requires RivalWaits(w, s, side, n, c, k) && Scheduler.Tokens(s.scheduler, k) == 1
    requires s.scheduler.phase.Delaying? && s.scheduler.entering.None?
    ensures e == Resend && Next(w, s, e, s') && Closer(w, s, s', side, n, c, k)
  {
    e, s' := Resend, s.(scheduler := Scheduler.Step(s.scheduler, Scheduler.Resend));
    if s.scheduler.phase.key != k {
      Scheduler.TokenInLine(s.scheduler, k);
    }
    Scheduler.FirstAfterSend(s.scheduler.channel, s.scheduler.phase.key, k);
  }

  lemma FinishProceeds(w: World, s: State, side: Side, n: Name, c: Cid, k: Scheduler.Key) returns (e: Event, s': State)
    requires RivalWaits(w, s, side, n, c, k) && BatchOver(s) && s.scheduler.entering.None?
    ensures e == Finish(false) && Next(w, s, e, s') && Closer(w, s, s', side, n, c, k)
  {
    e := Finish(false);
    s' := BatchEnds(w, s, false);
  }

  lemma CallProceeds(w: World, s: State, side: Side, n: Name, c: Cid, k: Scheduler.Key) returns (e: Event, s': State)
    requires Inv(w, s) && RivalWaits(w, s, side, n, c, k) && s.scheduler.phase.Running? && !BatchOver(s)
    requires s.scheduler.entering.None?
    ensures !e.Schedule? && Next(w, s, e, s') && Closer(w, s, s', side, n, c, k)
  {
    e, s' := BatchFails(w, s);
    FailureIsShort(w, s, s');
  }

  lemma FailureIsShort(w: World, s: State, s': State)
    requires Inv(w, s) && s.scheduler.phase.Running? && !BatchOver(s) && s'.scheduler == s.scheduler
    requires if s.local.Done? then s'.local == s.local && s'.remote == FailedRemoteCall(s.remote)
             else s'.remote == s.remote && s'.local == FailedCall(s.local)
    ensures Busy(s') < Busy(s)
  {
  }

  /** A waiting rival is taken in the end, lists the copy, and removes it. */
  lemma {:induction false} LosesToWaiting(w: World, s: State, side: Side, n: Name, c: Cid, k: Scheduler.Key)
    requires Ready(w, s, side, n, c) && RivalWaits(w, s, side, n, c, k)
    ensures CanLose(w, s, side, n, c)
    decreases Scheduler.Ahead(s.scheduler, k), Busy(s)
  {
    if s.scheduler.phase == Scheduler.Received(k) {
      var s' := AfterTake(w, s);
      TakeBase(w, s, s');
      StaysReady(w, s, Take, s', side, n, c);
      LosesToTarget(w, s', side, n, c);
      LosesAfter(w, s, Take, s', side, n, c);
    } else {
      var e, s' := WorkerProceeds(w, s, side, n, c, k);
      StaysReady(w, s, e, s', side, n, c);
      LosesToWaiting(w, s', side, n, c, k);
      LosesAfter(w, s, e, s', side, n, c);
    }
  }

  // ---- a running rival that targets the copy ----

  /** The pin is on the list of removals: the removals before it fail, its own does not. */
  lemma {:induction false} LosesListedPin(w: World, s: State, n: Name, c: Cid)
    requires RivalIsRunning(w, s, Pins, n, c) && s.local.Remove? && c in s.local.todo && c in s.pins
    ensures CanLose(w, s, Pins, n, c)
    decreases LocalCalls(s.local)
  {
    var todo := s.local.todo;
    if todo[0] == c {
      var s' := Called(s, true, LocalPass.AfterRemoval(todo, true), s.pins - {c});
      assert Next(w, s, Call(true), s');
      assert MayLose(w, s', Pins, n, c, 0);
      LosesAfter(w, s, Call(true), s', Pins, n, c);
    } else {
      var s' := Called(s, false, LocalPass.AfterRemoval(todo, s.local.removedAny), s.pins);
      assert Next(w, s, Call(false), s');
      LosesListedPin(w, s', n, c);
      LosesAfter(w, s, Call(false), s', Pins, n, c);
    }
  }

  /** The local pass lists the in-flight pins, among them the fresh one. */
  lemma ListsFreshPin(w: World, s: State, n: Name, c: Cid) returns (s': State)
    requires s.scheduler.phase.Running? && Touches(w, Pins, s.scheduler.phase.request) && s.local.ListTemp?
    requires s.scheduler.phase.request.name == n && s.scheduler.phase.request.protectedCid != c
    requires Fresh(s, Pins, n, c)
    ensures Next(w, s, Call(true), s') && s' == Called(s, true, s'.local, s.pins)
    ensures s'.local.Remove? && c in s'.local.todo
  {
    var r := s.scheduler.phase.request;
    var temps := SomeListing(s.pins, InFlightName(n));
    assert c in s.local.finals + temps;
    assert c in LocalPass.StalePins(s.local.finals + temps, r.protectedCid);
    s' := Called(s, true, LocalPass.Decide(r, s.local.finals, temps), s.pins);
  }

  lemma ListsFinalPins(w: World, s: State) returns (s': State)
    requires s.scheduler.phase.Running? && Touches(w, Pins, s.scheduler.phase.request) && s.local.ListFinal?
    ensures Next(w, s, Call(true), s') && s' == Called(s, true, s'.local, s.pins) && s'.local.ListTemp?
  {
    var finals := SomeListing(s.pins, s.scheduler.phase.request.name);
    s' := Called(s, true, LocalPass.ListTemp(finals), s.pins);
  }

  lemma {:induction false} LosesTargetedPin(w: World, s: State, n: Name, c: Cid)
    requires RivalIsRunning(w, s, Pins, n, c) && Targets(s, Pins, n, c) && Fresh(s, Pins, n, c)
    ensures CanLose(w, s, Pins, n, c)
    decreases if s.local.ListFinal? then 2 else if s.local.ListTemp? then 1 else 0
  {
    if s.local.Remove? {
      LosesListedPin(w, s, n, c);
    } else {
      var s';
      if s.local.ListTemp? {
        s' := ListsFreshPin(w, s, n, c);
      } else {
        s' := ListsFinalPins(w, s);
      }
      LosesTargetedPin(w, s', n, c);
      LosesAfter(w, s, Call(true), s', Pins, n, c);
    }
  }

  /** The same of a record, once the local pass is over. */
  lemma {:induction false} LosesListedRecord(w: World, s: State, n: Name, c: Cid)
    requires RivalIsRunning(w, s, Records, n, c) && s.local.Done?
    requires s.remote.Remove? && (c, n) in s.remote.todo && (c, n) in s.records
    ensures CanLose(w, s, Records, n, c)
    decreases RemoteCalls(s.remote)
  {
    var todo := s.remote.todo;
    if todo[0] == (c, n) {
      var s' := RemoteCalled(s, true, RemotePass.AfterRemoval(todo, true), s.records - {(c, n)});
      assert Next(w, s, RemoteCall(true), s');
      assert MayLose(w, s', Records, n, c, 0);
      LosesAfter(w, s, RemoteCall(true), s', Records, n, c);
    } else {
      var s' := RemoteCalled(s, false, RemotePass.AfterRemoval(todo, s.remote.removedAny), s.records);
      assert Next(w, s, RemoteCall(false), s');
      LosesListedRecord(w, s', n, c);
      LosesAfter(w, s, RemoteCall(false), s', Records, n, c);
    }
  }

  lemma SomeRecordListing(records: RemotePins, name: Name) returns (cids: seq<Cid>)
    ensures ListsRemote(records, name, cids)
  {
    cids := SomeSequence(set p | p in records && p.1 == name :: p.0);
    forall c
      ensures c in cids <==> (c, name) in records
    {
      if c in cids {
        var p :| p in records && p.1 == name && p.0 == c;
        assert p == (c, name);
      }
    }
  }

  /** The remote pass lists the temporary records, and finds something stale. */
  lemma ListsTemporaryRecords(w: World, s: State) returns (s': State)
    requires s.scheduler.phase.Running? && Touches(w, Records, s.scheduler.phase.request) && s.local.Done?
    requires s.remote.ListTemp? && SomeStale(s.scheduler.phase.request, s.remote.finals, s.records)
    ensures Next(w, s, RemoteCall(true), s') && s' == RemoteCalled(s, true, s'.remote, s.records)
    ensures s'.remote.Remove? && s'.remote.todo != [] && !s'.remote.removedAny
    ensures forall x :: x in s.remote.finals && x != s.scheduler.phase.request.protectedCid ==>
              (x, s.scheduler.phase.request.name) in s'.remote.todo
  {
    var r, finals := s.scheduler.phase.request, s.remote.finals;
    var temps := SomeRecordListing(s.records, InFlightName(r.name));
    var x :| x != r.protectedCid && (x in finals || (x, InFlightName(r.name)) in s.records);
    assert x in LocalPass.StalePins(finals, r.protectedCid) || x in LocalPass.StalePins(temps, r.protectedCid);
    RemotePass.DecidedRecords(r, finals, temps);
    s' := RemoteCalled(s, true, RemotePass.Decide(r, finals, temps), s.records);
  }

  lemma ListsFinalRecords(w: World, s: State, c: Cid) returns (s': State)
    requires s.scheduler.phase.Running? && Touches(w, Records, s.scheduler.phase.request) && s.local.Done?
    requires s.remote.ListFinal? && (c, s.scheduler.phase.request.name) in s.records
    ensures Next(w, s, RemoteCall(true), s') && s' == RemoteCalled(s, true, s'.remote, s.records)
    ensures s'.remote.ListTemp? && c in s'.remote.finals
  {
    var finals := SomeRecordListing(s.records, s.scheduler.phase.request.name);
    s' := RemoteCalled(s, true, RemotePass.ListTemp(finals), s.records);
  }

  lemma {:induction false} LosesTargetedRecord(w: World, s: State, n: Name, c: Cid)
    requires Inv(w, s) && RivalIsRunning(w, s, Records, n, c) && Targets(s, Records, n, c) && Fresh(s, Records, n, c)
    requires WellFormed(w)
    ensures CanLose(w, s, Records, n, c)
    decreases LocalCalls(s.local), if s.remote.ListFinal? then 2 else if s.remote.ListTemp? then 1 else 0
  {
    var e, s' := RemoteCall(true), s;
    if !s.local.Done? {
      e, s' := BatchFails(w, s);
    } else if s.remote.Remove? {
      LosesListedRecord(w, s, n, c);
      return;
    } else if s.remote.ListTemp? {
      assert SomeStale(s.scheduler.phase.request, s.remote.finals, s.records);
      s' := ListsTemporaryRecords(w, s);
    } else {
      s' := ListsFinalRecords(w, s, c);
    }
    StepKeepsInv(w, s, e, s');
    LosesTargetedRecord(w, s', n, c);
    LosesAfter(w, s, e, s', Records, n, c);
  }

  lemma LosesToTarget(w: World, s: State, side: Side, n: Name, c: Cid)
    requires Ready(w, s, side, n, c) && RivalIsRunning(w, s, side, n, c) && Targets(s, side, n, c)
    ensures CanLose(w, s, side, n, c)
  {
    match side
    case Pins => LosesTargetedPin(w, s, n, c);
    case Records => LosesTargetedRecord(w, s, n, c);
  }

  // ---- a running rival that will run again ----

  /** A rival runs whose token will find room, and for whose key nobody waits. */
  ghost predicate CanRequeue(w: World, s: State, side: Side, n: Name, c: Cid) {
    RivalIsRunning(w, s, side, n, c) && !Waiting(s, s.scheduler.phase.key) && !ChannelFull(s)
  }

  /** The batch has removed something, or has a pass elsewhere: whatever its calls do, it may ask for more. */
  predicate WillAsk(w: World, s: State)
    requires s.scheduler.phase.Running?
  {
    || HasElsewhere(w, s.scheduler.phase.request)
    || s.local == LocalPass.Done(true) || (s.local.Remove? && s.local.removedAny)
    || s.remote == RemotePass.Done(true) || (s.remote.Remove? && s.remote.removedAny)
  }

  lemma {:induction false} LosesOnceAsking(w: World, s: State, side: Side, n: Name, c: Cid)
    requires Ready(w, s, side, n, c) && CanRequeue(w, s, side, n, c) && WillAsk(w, s)
    ensures CanLose(w, s, side, n, c)
    decreases Busy(s)
  {
    var e, s';
    if BatchOver(s) {
      e := Finish(true);
      s' := BatchEnds(w, s, true);
      StaysReady(w, s, e, s', side, n, c);
      LosesToWaiting(w, s', side, n, c, s.scheduler.phase.key);
    } else {
      e, s' := BatchFails(w, s);
      FailureIsShort(w, s, s');
      StaysReady(w, s, e, s', side, n, c);
      SameQueue(w, s, s', side, n, c);
      LosesOnceAsking(w, s', side, n, c);
    }
    LosesAfter(w, s, e, s', side, n, c);
  }

  lemma SameQueue(w: World, s: State, s': State, side: Side, n: Name, c: Cid)
    requires CanRequeue(w, s, side, n, c) && s'.scheduler == s.scheduler
    ensures CanRequeue(w, s', side, n, c)
  {
    assert Waiting(s', s.scheduler.phase.key) <==> Waiting(s, s.scheduler.phase.key);
  }

  /** One step on the way to asking. */
  lemma Goes(w: World, s: State, e: Event, s': State, side: Side, n: Name, c: Cid)
    requires Ready(w, s, side, n, c) && CanRequeue(w, s, side, n, c) && Next(w, s, e, s')
    requires Fresh(s', side, n, c) && s'.scheduler == s.scheduler
    ensures Ready(w, s', side, n, c) && CanRequeue(w, s', side, n, c)
  {
    StaysReady(w, s, e, s', side, n, c);
    SameQueue(w, s, s', side, n, c);
  }

  /** The local pass removes something else, or the copy. */
  lemma LosesToLocalRemoval(w: World, s: State, side: Side, n: Name, c: Cid)
    requires Ready(w, s, side, n, c) && CanRequeue(w, s, side, n, c) && s.local.Remove?
    ensures CanLose(w, s, side, n, c)
  {
    var todo := s.local.todo;
    if side.Pins? && c in todo {
      LosesListedPin(w, s, n, c);
    } else {
      assert todo[0] in todo;
      var s' := Called(s, true, LocalPass.AfterRemoval(todo, true), s.pins - {todo[0]});
      assert Next(w, s, Call(true), s');
      Goes(w, s, Call(true), s', side, n, c);
      LosesOnceAsking(w, s', side, n, c);
      LosesAfter(w, s, Call(true), s', side, n, c);
    }
  }

  lemma LosesToRemoteRemoval(w: World, s: State, side: Side, n: Name, c: Cid)
    requires Ready(w, s, side, n, c) && CanRequeue(w, s, side, n, c) && s.local.Done? && s.remote.Remove?
    ensures CanLose(w, s, side, n, c)
  {
    var todo := s.remote.todo;
    if side.Records? && (c, n) in todo {
      LosesListedRecord(w, s, n, c);
    } else {
      assert todo[0] in todo && todo[0] == (todo[0].0, todo[0].1);
      var s' := RemoteCalled(s, true, RemotePass.AfterRemoval(todo, true), s.records - {todo[0]});
      assert Next(w, s, RemoteCall(true), s');
      Goes(w, s, RemoteCall(true), s', side, n, c);
      LosesOnceAsking(w, s', side, n, c);
      LosesAfter(w, s, RemoteCall(true), s', side, n, c);
    }
  }

  /** The remote pass comes to removing something stale. */
  lemma LosesToStaleRecords(w: World, s: State, side: Side, n: Name, c: Cid)
    requires Ready(w, s, side, n, c) && CanRequeue(w, s, side, n, c) && s.local.Done? && s.remote.ListTemp?
    requires SomeStale(s.scheduler.phase.request, s.remote.finals, s.records)
    ensures CanLose(w, s, side, n, c)
  {
    var s' := ListsTemporaryRecords(w, s);
    Goes(w, s, RemoteCall(true), s', side, n, c);
    LosesToRemoteRemoval(w, s', side, n, c);
    LosesAfter(w, s, RemoteCall(true), s', side, n, c);
  }

  /** Somebody is not publishing anything. */
  lemma {:induction false} UnusedId(publishing: map<nat, Publication>) returns (id: nat)
    ensures forall j :: j in publishing ==> j < id
    decreases publishing
  {
    id := 0;
    if publishing != map[] {
      var j :| j in publishing;
      var rest := UnusedId(publishing - {j});
      id := if rest > j then rest else j + 1;
      forall i | i in publishing
        ensures i < id
      {
        assert i == j || i in publishing - {j};
      }
    }
  }

  /** A remote pass that has yet to list the final records: the publisher of the CID may record it first. */
  lemma LosesToFreshRecord(w: World, s: State, side: Side, n: Name, c: Cid)
    requires Ready(w, s, side, n, c) && CanRequeue(w, s, side, n, c) && s.local.Done? && s.remote.ListFinal?
    ensures CanLose(w, s, side, n, c)
  {
    var id := UnusedId(s.publishing);
    var recorded := s.(records := s.records + {(c, n)}, publishing := WithRecord(s.publishing, id, n, c));
    assert Next(w, s, AddRecord(id, n, c, true), recorded);
    Goes(w, s, AddRecord(id, n, c, true), recorded, side, n, c);
    var listed := ListsFinalRecords(w, recorded, c);
    Goes(w, recorded, RemoteCall(true), listed, side, n, c);
    assert SomeStale(s.scheduler.phase.request, listed.remote.finals, listed.records);
    LosesToStaleRecords(w, listed, side, n, c);
    LosesAfter(w, recorded, RemoteCall(true), listed, side, n, c);
    LosesAfter(w, s, AddRecord(id, n, c, true), recorded, side, n, c);
  }

  /** A local pass that has yet to list the in-flight pins: the publisher of the CID may pin it first. */
  lemma LosesToFreshPin(w: World, s: State, side: Side, n: Name, c: Cid)
    requires Ready(w, s, side, n, c) && CanRequeue(w, s, side, n, c) && s.local.ListTemp?
    ensures CanLose(w, s, side, n, c)
  {
    var id := UnusedId(s.publishing);
    var pinned := s.(pins := s.pins[c := InFlightName(n)], publishing := s.publishing[id := Publication(n, c, {Pins})]);
    assert Next(w, s, PinFresh(id, n, c, true, true), pinned);
    Goes(w, s, PinFresh(id, n, c, true, true), pinned, side, n, c);
    var listed := ListsFreshPin(w, pinned, n, c);
    Goes(w, pinned, Call(true), listed, side, n, c);
    LosesToLocalRemoval(w, listed, side, n, c);
    LosesAfter(w, pinned, Call(true), listed, side, n, c);
    LosesAfter(w, s, PinFresh(id, n, c, true, true), pinned, side, n, c);
  }

  lemma LosesWithLocalDone(w: World, s: State, side: Side, n: Name, c: Cid)
    requires Ready(w, s, side, n, c) && CanRequeue(w, s, side, n, c) && MayAsk(w, s) && s.local.Done?
    ensures CanLose(w, s, side, n, c)
  {
    if WillAsk(w, s) {
      LosesOnceAsking(w, s, side, n, c);
    } else if s.remote.Remove? {
      LosesToRemoteRemoval(w, s, side, n, c);
    } else if s.remote.ListTemp? {
      LosesToStaleRecords(w, s, side, n, c);
    } else {
      LosesToFreshRecord(w, s, side, n, c);
    }
  }

  lemma LosesToNextRun(w: World, s: State, side: Side, n: Name, c: Cid)
    requires Ready(w, s, side, n, c) && CanRequeue(w, s, side, n, c) && MayAsk(w, s)
    ensures CanLose(w, s, side, n, c)
  {
    match s.local
    case Done(_) => LosesWithLocalDone(w, s, side, n, c);
    case Remove(_, _) => LosesToLocalRemoval(w, s, side, n, c);
    case ListTemp(_) => LosesToFreshPin(w, s, side, n, c);
    case ListFinal =>
      var s' := ListsFinalPins(w, s);
      Goes(w, s, Call(true), s', side, n, c);
      LosesToFreshPin(w, s', side, n, c);
      LosesAfter(w, s, Call(true), s', side, n, c);
    case Finalise =>
      var e, s' := BatchFails(w, s);
      Goes(w, s, e, s', side, n, c);
      LosesWithLocalDone(w, s', side, n, c);
      LosesAfter(w, s, e, s', side, n, c);
  }

  // ---- every threat ----

  /** A publisher who holds the lock lets it go, and the threat remains. */
  lemma ThreatWithoutLock(w: World, s: State, side: Side, n: Name, c: Cid) returns (s': State)
    requires WellFormed(w) && Inv(w, s) && Threatened(w, s, side, n, c) && s.scheduler.entering.Some?
    ensures Next(w, s, Insert, s') && Inv(w, s') && s'.pins == s.pins && s'.records == s.records
    ensures s'.scheduler.entering.None? && Threatened(w, s', side, n, c)
  {
    var r := s.scheduler.entering.value;
    var k := Scheduler.KeyOf(r);
    s' := s.(scheduler := Scheduler.Step(s.scheduler, Scheduler.Insert), lost := s.lost - Touched(w, r));
    StepKeepsInv(w, s, Insert, s');
    if IsRival(w, side, r, n, c) {
      EnteredWaits(w, s, s', side, n, c);
    } else if k' :| RivalWaits(w, s, side, n, c, k') {
      assert RivalWaits(w, s', side, n, c, k');
    } else {
      StillRuns(w, s, s', side, n, c);
    }
  }

  lemma EnteredWaits(w: World, s: State, s': State, side: Side, n: Name, c: Cid)
    requires BaseInv(w, s) && BaseInv(w, s') && Next(w, s, Insert, s')
    requires IsRival(w, side, s.scheduler.entering.value, n, c)
    ensures RivalWaits(w, s', side, n, c, Scheduler.KeyOf(s.scheduler.entering.value))
  {
    var k := Scheduler.KeyOf(s.scheduler.entering.value);
    assert k !in s.scheduler.pending;
  }

  lemma StillRuns(w: World, s: State, s': State, side: Side, n: Name, c: Cid)
    requires Next(w, s, Insert, s') && RivalRuns(w, s, side, n, c)
    ensures RivalRuns(w, s', side, n, c)
  {
    var k, running := Scheduler.KeyOf(s.scheduler.entering.value), s.scheduler.phase.key;
    assert running != k ==> (Waiting(s', running) <==> Waiting(s, running));
  }

  lemma ThreatIsReal(w: World, s: State, side: Side, n: Name, c: Cid)
    requires Ready(w, s, side, n, c) && Threatened(w, s, side, n, c)
    ensures CanLose(w, s, side, n, c)
  {
    if k :| RivalWaits(w, s, side, n, c, k) {
      LosesToWaiting(w, s, side, n, c, k);
    } else if Targets(s, side, n, c) {
      LosesToTarget(w, s, side, n, c);
    } else {
      LosesToNextRun(w, s, side, n, c);
    }
  }

  /**
   * Exactly when a fresh copy can be lost before its publisher schedules: in any state the protocol
   * reaches, some continuation removes a fresh pin, or a fresh record, although nothing is scheduled
   * meanwhile, if and only if a request of that store for the name that protects another CID already
   * waits for its turn, is being entered, or runs and has yet to list, has listed the CID, or can run
   * again.
   */
  lemma FreshCopyCanVanishIff(w: World, s: State, side: Side, n: Name, c: Cid)
    requires WellFormed(w) && Inv(w, s) && IsOwn(w, n, c) && Fresh(s, side, n, c)
    ensures CanLose(w, s, side, n, c) <==> Threatened(w, s, side, n, c)
  {
    if !Threatened(w, s, side, n, c) {
      forall steps: nat
        ensures !MayLose(w, s, side, n, c, steps)
      {
        SafeNeverLost(w, s, side, n, c, steps);
      }
    } else if s.scheduler.entering.None? {
      ThreatIsReal(w, s, side, n, c);
    } else {
      var s' := ThreatWithoutLock(w, s, side, n, c);
      ThreatIsReal(w, s', side, n, c);
      LosesAfter(w, s, Insert, s', side, n, c);
    }
  }
}
