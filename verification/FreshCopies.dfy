/**
 * When a publisher's fresh pin, or its fresh remote record, is safe until its request is handed over
 * (src/ipfs/publish.rs:513-588 beside src/kubo/pinning.rs:206-401).
 *
 * A pass protects the CID of its own request only. Whether another batch can still remove a fresh
 * copy is decided by the present state, exactly; and on the remote side, where a removed record is
 * not made again, that decides the end state.
 */
module FreshCopies {
  import opened Wrappers
  import opened Kubo
  import opened PublishSystem
  import LocalPass
  import RemotePass
  import PinProtocol
  import RecordProtocol
  import Scheduler = CleanupScheduler

  ghost predicate Inv(w: World, s: State) {
    PinProtocol.Inv(w, s) && RecordProtocol.Inv(w, s)
  }

  lemma StepKeepsInv(w: World, s: State, e: Event, s': State)
    requires WellFormed(w) && Inv(w, s) && Next(w, s, e, s')
    ensures Inv(w, s')
  {
    PinProtocol.StepKeepsInv(w, s, e, s');
    RecordProtocol.StepKeepsInv(w, s, e, s');
  }

  lemma RunKeepsInv(w: World, capacity: nat, run: seq<State>, es: seq<Event>, i: nat)
    requires WellFormed(w) && IsRun(w, capacity, run, es) && i < |run|
    ensures Inv(w, run[i])
  {
    PinProtocol.RunKeepsInv(w, capacity, run, es, i);
    RecordProtocol.RunKeepsInv(w, capacity, run, es, i);
  }

  /** The CID is pinned, or has a record under the final name. */
  predicate Present(s: State, side: Side, n: Name, c: Cid) {
    if side.Pins? then c in s.pins else (c, n) in s.records
  }

  /** As a publisher leaves it: pinned under the in-flight name, or recorded under the final one. */
  predicate Fresh(s: State, side: Side, n: Name, c: Cid) {
    if side.Pins? then c in s.pins && s.pins[c] == InFlightName(n) else (c, n) in s.records
  }

  /** A request of this store for the name that protects another CID. */
  predicate IsRival(w: World, side: Side, r: Request, n: Name, c: Cid) {
    Touches(w, side, r) && r.name == n && r.protectedCid != c
  }

  predicate ChannelFull(s: State) {
    |s.scheduler.channel| >= s.scheduler.capacity
  }

  /** A rival waits under the key, and the worker will get to it. */
  predicate RivalWaits(w: World, s: State, side: Side, n: Name, c: Cid, k: Scheduler.Key) {
    && k in s.scheduler.pending && k !in s.scheduler.stranded && IsRival(w, side, s.scheduler.pending[k], n, c)
    && !(s.scheduler.phase == Scheduler.Delaying(k) && ChannelFull(s))
  }

  /** There is something stale to remove for a remote pass that has listed the final records. */
  ghost predicate SomeStale(r: Request, finals: seq<Cid>, records: RemotePins) {
    exists x :: x != r.protectedCid && (x in finals || (x, InFlightName(r.name)) in records)
  }

  /** A pass of the running batch may yet remove something, or has; or a pass elsewhere may ask for more. */
  ghost predicate MayAsk(w: World, s: State)
    requires s.scheduler.phase.Running?
  {
    || HasElsewhere(w, s.scheduler.phase.request)
    || s.local.ListFinal? || s.local.ListTemp? || s.local.Remove? || s.local == LocalPass.Done(true)
    || s.remote.ListFinal? || s.remote.Remove? || s.remote == RemotePass.Done(true)
    || (s.remote.ListTemp? && SomeStale(s.scheduler.phase.request, s.remote.finals, s.records))
  }

  /** The running batch may ask for another one, and get its token into the channel. */
  ghost predicate CanRunAgain(w: World, s: State)
    requires s.scheduler.phase.Running?
  {
    MayAsk(w, s) && !Waiting(s, s.scheduler.phase.key) && !ChannelFull(s)
  }

  /** The pass has yet to list what is fresh, or is going to remove it. */
  ghost predicate Targets(s: State, side: Side, n: Name, c: Cid) {
    match side
    case Pins => s.local.ListFinal? || s.local.ListTemp? || (s.local.Remove? && c in s.local.todo)
    case Records =>
      || s.remote.ListFinal? || (s.remote.ListTemp? && c in s.remote.finals)
      || (s.remote.Remove? && (c, n) in s.remote.todo)
  }

  ghost predicate RivalIsRunning(w: World, s: State, side: Side, n: Name, c: Cid) {
    s.scheduler.phase.Running? && IsRival(w, side, s.scheduler.phase.request, n, c)
  }

  /** A rival runs, and has yet to list, or has listed the CID, or can run again. */
  ghost predicate RivalRuns(w: World, s: State, side: Side, n: Name, c: Cid) {
    RivalIsRunning(w, s, side, n, c) && (Targets(s, side, n, c) || CanRunAgain(w, s))
  }

  /** A batch whose passes have ended without asking for more threatens nothing, whatever is pinned or recorded. */
  lemma SpentRivalIsNoThreat(w: World, s: State, side: Side, n: Name, c: Cid)
    requires RivalIsRunning(w, s, side, n, c) && !HasElsewhere(w, s.scheduler.phase.request)
    requires s.local == LocalPass.Done(false) && (s.remote == RemotePass.Done(false) || s.remote.MigrateFailed?)
    ensures !RivalRuns(w, s, side, n, c)
  {
  }

  ghost predicate Threatened(w: World, s: State, side: Side, n: Name, c: Cid) {
    || (exists k :: RivalWaits(w, s, side, n, c, k))
    || (s.scheduler.entering.Some? && IsRival(w, side, s.scheduler.entering.value, n, c))
    || RivalRuns(w, s, side, n, c)
  }

  /** The event does not schedule a rival. */
  predicate Spares(w: World, side: Side, e: Event, n: Name, c: Cid) {
    e.Schedule? && (e.via.Replace? || e.via.Send? || e.via.Drop?) ==> !IsRival(w, side, e.via.request, n, c)
  }

  /** At most so many events, during which nobody schedules anything, can remove the copy. */
  ghost predicate MayLose(w: World, s: State, side: Side, n: Name, c: Cid, steps: nat)
    decreases steps
  {
    || !Present(s, side, n, c)
    || (steps > 0
        && exists e, s' :: Next(w, s, e, s') && !e.Schedule? && MayLose(w, s', side, n, c, steps - 1))
  }

  ghost predicate CanLose(w: World, s: State, side: Side, n: Name, c: Cid) {
    exists steps: nat :: MayLose(w, s, side, n, c, steps)
  }

  /** The name is guarded, and the CID one of its own. */
  predicate IsOwn(w: World, n: Name, c: Cid) {
    w.guarded(n) && w.owner(c) == n
  }

  // ---- unthreatened copies stay ----

  ghost predicate Safe(w: World, s: State, side: Side, n: Name, c: Cid) {
    Present(s, side, n, c) && !Threatened(w, s, side, n, c)
  }

  /** What the batch, the lock and the channel look like decides all of it but the waiting requests. */
  lemma SafeWithSameRequests(w: World, s: State, s': State, side: Side, n: Name, c: Cid)
    requires s'.scheduler == s.scheduler && Safe(w, s, side, n, c) && Present(s', side, n, c)
    requires RivalIsRunning(w, s, side, n, c) ==>
               (Targets(s', side, n, c) ==> Targets(s, side, n, c)) && (MayAsk(w, s') ==> MayAsk(w, s))
    ensures Safe(w, s', side, n, c)
  {
    forall k
      ensures !RivalWaits(w, s', side, n, c, k)
    {
      assert !RivalWaits(w, s, side, n, c, k);
    }
    if s.scheduler.phase.Running? {
      assert Waiting(s', s.scheduler.phase.key) <==> Waiting(s, s.scheduler.phase.key);
    }
    assert !RivalRuns(w, s, side, n, c);
  }

  lemma SafeFromPublishers(w: World, s: State, e: Event, s': State, side: Side, n: Name, c: Cid)
    requires WellFormed(w) && IsOwn(w, n, c) && Next(w, s, e, s') && IsPublishers(e) && Safe(w, s, side, n, c)
    ensures Safe(w, s', side, n, c)
  {
    assert s'.scheduler == s.scheduler && s'.local == s.local && s'.remote == s.remote;
    if RivalIsRunning(w, s, side, n, c) && s.remote.ListTemp? {
      NoNewTemporaries(w, s, e, s', n);
      if SomeStale(s.scheduler.phase.request, s.remote.finals, s'.records) {
        assert SomeStale(s.scheduler.phase.request, s.remote.finals, s.records);
      }
    }
    SafeWithSameRequests(w, s, s', side, n, c);
  }

  /** Publishers add records under final names only. */
  lemma NoNewTemporaries(w: World, s: State, e: Event, s': State, n: Name)
    requires WellFormed(w) && w.guarded(n) && Next(w, s, e, s') && IsPublishers(e)
    ensures forall x :: (x, InFlightName(n)) in s'.records ==> (x, InFlightName(n)) in s.records
  {
  }

  lemma SafeFromSchedule(w: World, s: State, e: Event, s': State, side: Side, n: Name, c: Cid)
    requires Next(w, s, e, s') && (e.Schedule? || e.Insert?) && Spares(w, side, e, n, c) && Safe(w, s, side, n, c)
    ensures Safe(w, s', side, n, c)
  {
    forall k
      ensures !RivalWaits(w, s', side, n, c, k)
    {
      assert !RivalWaits(w, s, side, n, c, k);
    }
    if s.scheduler.phase.Running? {
      assert Waiting(s, s.scheduler.phase.key) ==> Waiting(s', s.scheduler.phase.key);
    }
    assert !RivalRuns(w, s, side, n, c);
  }

  lemma SafeFromReceive(w: World, s: State, s': State, side: Side, n: Name, c: Cid)
    requires Next(w, s, Receive, s') && Safe(w, s, side, n, c)
    ensures Safe(w, s', side, n, c)
  {
    forall k
      ensures !RivalWaits(w, s', side, n, c, k)
    {
      assert !RivalWaits(w, s, side, n, c, k);
    }
  }

  lemma SafeFromTake(w: World, s: State, s': State, side: Side, n: Name, c: Cid)
    requires BaseInv(w, s) && Next(w, s, Take, s') && Safe(w, s, side, n, c)
    ensures Safe(w, s', side, n, c)
  {
    TakeBase(w, s, s');
    assert !RivalWaits(w, s, side, n, c, s.scheduler.phase.key);
    forall k
      ensures !RivalWaits(w, s', side, n, c, k)
    {
      assert !RivalWaits(w, s, side, n, c, k);
    }
  }

  /** Of the local pass: only a removal of the very pin takes it away, and no new removal is decided on. */
  lemma SafeFromCall(w: World, s: State, ok: bool, s': State, side: Side, n: Name, c: Cid)
    requires PinProtocol.Inv(w, s) && Next(w, s, Call(ok), s') && IsOwn(w, n, c) && Safe(w, s, side, n, c)
    ensures Safe(w, s', side, n, c)
  {
    assert !RivalRuns(w, s, side, n, c);
    if s.local.Remove? {
      assert s.local.todo[0] in s.local.todo;
      assert forall x :: x in s.local.todo[1..] ==> x in s.local.todo;
    }
    SafeWithSameRequests(w, s, s', side, n, c);
  }

  /** Of the remote pass, the same. */
  lemma SafeFromRemoteCall(w: World, s: State, ok: bool, s': State, side: Side, n: Name, c: Cid)
    requires RecordProtocol.Inv(w, s) && Next(w, s, RemoteCall(ok), s') && IsOwn(w, n, c) && Safe(w, s, side, n, c)
    ensures Safe(w, s', side, n, c)
  {
    if s.remote.Remove? {
      SafeFromRemoteRemoval(w, s, ok, s', side, n, c);
    } else {
      assert !RivalRuns(w, s, side, n, c);
      if s.remote.ListTemp? && ok {
        DecisionNeedsStale(w, s, s', n, c);
      }
      SafeWithSameRequests(w, s, s', side, n, c);
    }
  }

  lemma SafeFromRemoteRemoval(w: World, s: State, ok: bool, s': State, side: Side, n: Name, c: Cid)
    requires RecordProtocol.Inv(w, s) && Next(w, s, RemoteCall(ok), s') && s.remote.Remove?
    requires IsOwn(w, n, c) && Safe(w, s, side, n, c)
    ensures Safe(w, s', side, n, c)
  {
    assert !RivalRuns(w, s, side, n, c);
    assert s.remote.todo[0] in s.remote.todo;
    assert s.remote.todo[0] == (s.remote.todo[0].0, s.remote.todo[0].1);
    assert forall p :: p in s.remote.todo[1..] ==> p in s.remote.todo;
    SafeWithSameRequests(w, s, s', side, n, c);
  }

  /** A remote pass goes on to remove only what it had listed as final, or finds under the temporary name. */
  lemma DecisionNeedsStale(w: World, s: State, s': State, n: Name, c: Cid)
    requires Next(w, s, RemoteCall(true), s') && s.remote.ListTemp?
    ensures !s'.remote.ListFinal? && !s'.remote.ListTemp? && s'.remote != RemotePass.Done(true)
    ensures s'.remote.Remove? ==> SomeStale(s.scheduler.phase.request, s.remote.finals, s.records)
    ensures s.scheduler.phase.request.name == n && s'.remote.Remove? && (c, n) in s'.remote.todo ==>
              c in s.remote.finals
  {
    var r := s.scheduler.phase.request;
    var temps :| ListsRemote(s.records, InFlightName(r.name), temps)
                 && s'.remote == RemotePass.Decide(r, s.remote.finals, temps);
    if s'.remote.Remove? {
      RemotePass.DecidedRecords(r, s.remote.finals, temps);
      var p := s'.remote.todo[0];
      assert p in s'.remote.todo;
    }
  }

  lemma SafeFromFinish(w: World, s: State, otherMore: bool, s': State, side: Side, n: Name, c: Cid)
    requires BaseInv(w, s) && Next(w, s, Finish(otherMore), s') && Safe(w, s, side, n, c)
    ensures Safe(w, s', side, n, c)
  {
    assert !RivalRuns(w, s, side, n, c);
    forall k
      ensures !RivalWaits(w, s', side, n, c, k)
    {
      assert !RivalWaits(w, s, side, n, c, k);
      if k == s.scheduler.phase.key {
        FinishedDoesNotWait(w, s, otherMore, s', side, n, c);
      }
    }
  }

  lemma FinishedDoesNotWait(w: World, s: State, otherMore: bool, s': State, side: Side, n: Name, c: Cid)
    requires Next(w, s, Finish(otherMore), s') && !RivalRuns(w, s, side, n, c)
    requires !RivalWaits(w, s, side, n, c, s.scheduler.phase.key)
    ensures !RivalWaits(w, s', side, n, c, s.scheduler.phase.key)
  {
    var k := s.scheduler.phase.key;
    if k !in s.scheduler.pending && k in s'.scheduler.pending {
      assert BatchMore(w, s, otherMore) && !Waiting(s, k);
      assert ChannelFull(s) || !IsRival(w, side, s.scheduler.phase.request, n, c);
    }
  }

  lemma SafeFromResend(w: World, s: State, s': State, side: Side, n: Name, c: Cid)
    requires BaseInv(w, s) && Next(w, s, Resend, s') && Safe(w, s, side, n, c)
    ensures Safe(w, s', side, n, c)
  {
    forall k
      ensures !RivalWaits(w, s', side, n, c, k)
    {
      assert !RivalWaits(w, s, side, n, c, k);
    }
  }

  /** A copy that is not threatened survives every event but the scheduling of a rival, and is not threatened by it. */
  lemma SafeStep(w: World, s: State, e: Event, s': State, side: Side, n: Name, c: Cid)
    requires WellFormed(w) && Inv(w, s) && Next(w, s, e, s') && Spares(w, side, e, n, c)
    requires IsOwn(w, n, c) && Safe(w, s, side, n, c)
    ensures Safe(w, s', side, n, c)
  {
    if IsPublishers(e) {
      SafeFromPublishers(w, s, e, s', side, n, c);
    } else if e.Schedule? || e.Insert? {
      SafeFromSchedule(w, s, e, s', side, n, c);
    } else {
      SafeFromWorker(w, s, e, s', side, n, c);
    }
  }

  lemma SafeFromWorker(w: World, s: State, e: Event, s': State, side: Side, n: Name, c: Cid)
    requires Inv(w, s) && Next(w, s, e, s') && !IsPublishers(e) && !e.Schedule? && !e.Insert?
    requires IsOwn(w, n, c) && Safe(w, s, side, n, c)
    ensures Safe(w, s', side, n, c)
  {
    match e
    case Receive => SafeFromReceive(w, s, s', side, n, c);
    case Take => SafeFromTake(w, s, s', side, n, c);
    case Call(ok) => SafeFromCall(w, s, ok, s', side, n, c);
    case RemoteCall(ok) => SafeFromRemoteCall(w, s, ok, s', side, n, c);
    case Finish(otherMore) => SafeFromFinish(w, s, otherMore, s', side, n, c);
    case Resend => SafeFromResend(w, s, s', side, n, c);
  }

  lemma {:induction false} SafeNeverLost(w: World, s: State, side: Side, n: Name, c: Cid, steps: nat)
    requires WellFormed(w) && Inv(w, s) && IsOwn(w, n, c) && Safe(w, s, side, n, c)
    ensures !MayLose(w, s, side, n, c, steps)
    decreases steps
  {
    if steps > 0 {
      forall e, s' | Next(w, s, e, s') && !e.Schedule?
        ensures !MayLose(w, s', side, n, c, steps - 1)
      {
        StepKeepsInv(w, s, e, s');
        SafeStep(w, s, e, s', side, n, c);
        SafeNeverLost(w, s', side, n, c, steps - 1);
      }
    }
  }

  /** Over runs: a copy that no rival threatens is there in every later state, until a rival is scheduled. */
  lemma {:induction false} FreshCopyStays(
      w: World, capacity: nat, run: seq<State>, es: seq<Event>, i: nat, j: nat, side: Side, n: Name, c: Cid)
    requires WellFormed(w) && IsRun(w, capacity, run, es) && i <= j < |run|
    requires IsOwn(w, n, c) && Safe(w, run[i], side, n, c)
    requires forall m :: i <= m < j ==> Spares(w, side, es[m], n, c)
    ensures Safe(w, run[j], side, n, c)
    decreases j - i
  {
    if i < j {
      FreshCopyStays(w, capacity, run, es, i, j - 1, side, n, c);
      RunKeepsInv(w, capacity, run, es, j - 1);
      SafeStep(w, run[j - 1], es[j - 1], run[j], side, n, c);
    }
  }

  /** No request of the store for the name that protects another CID waits, is being entered or runs. */
  ghost predicate NoRival(w: World, s: State, side: Side, n: Name, c: Cid) {
    && (forall k :: k in s.scheduler.pending ==> !IsRival(w, side, s.scheduler.pending[k], n, c))
    && (s.scheduler.entering.Some? ==> !IsRival(w, side, s.scheduler.entering.value, n, c))
    && !RivalIsRunning(w, s, side, n, c)
  }

  /** So a publisher that pins or records while nothing older is under way for the name need not hurry to schedule. */
  lemma CopyWithoutRivalStays(
      w: World, capacity: nat, run: seq<State>, es: seq<Event>, i: nat, j: nat, side: Side, n: Name, c: Cid)
    requires WellFormed(w) && IsRun(w, capacity, run, es) && i <= j < |run| && IsOwn(w, n, c)
    requires Present(run[i], side, n, c) && NoRival(w, run[i], side, n, c)
    requires forall m :: i <= m < j ==> Spares(w, side, es[m], n, c)
    ensures Present(run[j], side, n, c)
  {
    FreshCopyStays(w, capacity, run, es, i, j, side, n, c);
  }

  lemma AcceptedIsOwn(
      w: World, capacity: nat, run: seq<State>, es: seq<Event>, n: Name, k: Scheduler.Key)
    requires WellFormed(w) && IsRun(w, capacity, run, es)
    requires var s := run[|run| - 1]; AtRest(s) && (Records, n) !in s.lost && k !in s.scheduler.stranded
    requires w.guarded(n) && OnlyKeyUsed(w, run, es, Records, n, k)
    ensures IsOwn(w, n, LastRequest(w, run, es, k).value.protectedCid)
  {
    var s := run[|run| - 1];
    OnlyKeyOfRun(w, capacity, run, es, Records, n, k);
    RecordProtocol.RunKeepsInv(w, capacity, run, es, |run| - 1);
    IdleAtRest(w, s, Records, n, k);
    IdleIsOther(w, s, Records, n, k);
  }

  lemma SafeIsRecorded(w: World, s: State, n: Name, c: Cid)
    requires Safe(w, s, Records, n, c)
    ensures (c, n) in RecordProtocol.RecordsOf(s.records, n)
  {
  }

  /**
   * At rest the name has exactly its final record, if at some moment, since which no rival was
   * scheduled, it was there and not threatened.
   */
  lemma EndStateHasRecord(
      w: World, capacity: nat, run: seq<State>, es: seq<Event>, n: Name, k: Scheduler.Key, i: nat)
    requires WellFormed(w) && IsRun(w, capacity, run, es) && i < |run|
    requires var s := run[|run| - 1]; AtRest(s) && (Records, n) !in s.lost && k !in s.scheduler.stranded
    requires w.guarded(n) && OnlyKeyUsed(w, run, es, Records, n, k)
    requires var c := LastRequest(w, run, es, k).value.protectedCid;
      Safe(w, run[i], Records, n, c) && forall m :: i <= m < |es| ==> Spares(w, Records, es[m], n, c)
    ensures RecordProtocol.RecordsOf(run[|run| - 1].records, n) == {(LastRequest(w, run, es, k).value.protectedCid, n)}
  {
    var c := LastRequest(w, run, es, k).value.protectedCid;
    AcceptedIsOwn(w, capacity, run, es, n, k);
    FreshCopyStays(w, capacity, run, es, i, |run| - 1, Records, n, c);
    SafeIsRecorded(w, run[|run| - 1], n, c);
    RecordProtocol.EndState(w, capacity, run, es, n, k);
  }
}
