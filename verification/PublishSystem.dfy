/**
 * The whole named-pin replacement protocol on one Kubo node and one of its remote pinning services:
 * any number of publishers (src/ipfs/publish.rs:508-595) and direct users of the scheduler
 * (src/kubo/pinning.rs:154-204) beside the cleanup worker (src/kubo/pinning.rs:206-401).
 *
 * A publisher pins a fresh CID under the in-flight name, publishes it, may record it with the service
 * under the requested name, and hands a request to the scheduler. Its steps interleave with the calls
 * of a running batch in any order. Passes on other nodes and services share the channel and the
 * worker; what they answer is arbitrary.
 */
module PublishSystem {
  import opened Wrappers
  import opened Kubo
  import LocalPass
  import RemotePass
  import Scheduler = CleanupScheduler

  /** The two stores in view. */
  datatype Side = Pins | Records

  /**
   * The node and the service in view, the names anything is published under, and which of them are
   * guarded: what is published under a guarded name is published under no other one.
   */
  datatype World = World(node: string, service: string, named: Name -> bool, guarded: Name -> bool, owner: Cid -> Name)

  ghost predicate WellFormed(w: World) {
    && (forall n :: w.guarded(n) ==> w.named(n))
    && (forall n, m :: w.guarded(n) && w.named(m) ==> InFlightName(n) != m && InFlightName(m) != n)
  }

  /** The CID may be published under the name. */
  predicate Belongs(w: World, c: Cid, n: Name) {
    w.guarded(n) || w.guarded(w.owner(c)) ==> w.owner(c) == n
  }

  predicate KeyTouches(w: World, side: Side, k: Scheduler.Key) {
    k.kuboUrl == w.node && if side.Pins? then k.cleanupLocal else k.remoteService == Some(w.service)
  }

  /** The request cleans up this store. */
  predicate Touches(w: World, side: Side, r: Request) {
    KeyTouches(w, side, Scheduler.KeyOf(r))
  }

  /** The request has a pass on another node or service. */
  predicate HasElsewhere(w: World, r: Request) {
    if r.kuboUrl == w.node then r.remoteService.Some? && r.remoteService != Some(w.service)
    else r.cleanupLocal || r.remoteService.Some?
  }

  predicate MayPublish(w: World, n: Name, c: Cid) {
    w.named(n) && Belongs(w, c, n)
  }

  predicate Fits(w: World, r: Request) {
    Touches(w, Pins, r) || Touches(w, Records, r) ==> MayPublish(w, r.name, r.protectedCid)
  }

  /** The keys under which requests of this store for the name are scheduled. */
  predicate IsKeyOf(w: World, side: Side, n: Name, k: Scheduler.Key) {
    KeyTouches(w, side, k) && k.name == n
  }

  /** A publisher on its way: what it has pinned or recorded. */
  datatype Publication = Publication(name: Name, cid: Cid, sides: set<Side>)

  datatype State = State(
    scheduler: Scheduler.State,
    pins: LocalPins,
    records: RemotePins,
    local: LocalPass.Pc,                // where the local pass of the running batch is
    remote: RemotePass.Pc,              // where its remote pass is, which starts when the local one is done
    failed: set<Side>,                  // the passes of that batch in which a call has failed
    publishing: map<nat, Publication>,
    lost: set<(Side, Name)>,            // names whose cleanup was lost since their last accepted request
    bare: set<Scheduler.Key>)           // history: keys whose CID had no record when its request was last taken

  datatype Event =
    | PinFresh(id: nat, name: Name, cid: Cid, ok: bool, applied: bool)
    | PinPlain(name: Name, cid: Cid)                          // a publication without overwrite
    | AddRecord(id: nat, name: Name, cid: Cid, ok: bool)
    | AddPlain(name: Name, cid: Cid)
    | GiveUp(id: nat)                                         // publishing failed, or the publisher is gone
    | Schedule(publisher: Option<nat>, via: Scheduler.Event)  // by a publisher, or directly
    | Insert
    | Receive
    | Take
    | Call(ok: bool)                                          // one call of the local pass
    | RemoteCall(ok: bool)
    | Finish(otherMore: bool)                                 // a pass elsewhere asks for more
    | Resend

  predicate Initial(s: State, capacity: nat) {
    && s.scheduler == Scheduler.Init(capacity) && s.publishing == map[]
    && s.lost == {} && s.failed == {} && s.bare == {}
  }

  /** The batch asks for more when any of its passes does. */
  predicate BatchMore(w: World, s: State, otherMore: bool)
    requires s.scheduler.phase.Running?
  {
    || s.local == LocalPass.Done(true) || s.remote == RemotePass.Done(true)
    || (HasElsewhere(w, s.scheduler.phase.request) && otherMore)
  }

  /** A pass in view has removed something: the batch will ask for more. */
  predicate Asks(s: State) {
    || s.local == LocalPass.Done(true) || (s.local.Remove? && s.local.removedAny)
    || s.remote == RemotePass.Done(true) || (s.remote.Remove? && s.remote.removedAny)
  }

  /** The stores the request cleans up, with its name. */
  function Touched(w: World, r: Request): set<(Side, Name)> {
    (if Touches(w, Pins, r) then {(Pins, r.name)} else {})
    + (if Touches(w, Records, r) then {(Records, r.name)} else {})
  }

  /** What a publisher leaves uncleaned if it hands over a request that does not cover it. */
  function LeftBy(w: World, p: Publication, r: Request): set<(Side, Name)> {
    set d | d in p.sides && !Touches(w, d, r) :: (d, p.name)
  }

  function LostAfterSchedule(w: World, s: State, publisher: Option<nat>, via: Scheduler.Event): set<(Side, Name)>
    requires via.Replace? || via.Send? || via.Drop?
    requires publisher.Some? ==> publisher.value in s.publishing
  {
    var r := via.request;
    (if via.Replace? then s.lost - Touched(w, r) else if via.Drop? then s.lost + Touched(w, r) else s.lost)
    + if publisher.Some? then LeftBy(w, s.publishing[publisher.value], r) else {}
  }

  /** The worker takes the request that waits under its key, and its batch begins. */
  function AfterTake(w: World, s: State): State
    requires Scheduler.Enabled(s.scheduler, Scheduler.Take)
  {
    var k := s.scheduler.phase.key;
    var s' := s.(scheduler := Scheduler.Step(s.scheduler, Scheduler.Take), failed := {});
    if k !in s.scheduler.pending then s'
    else
      var r := s.scheduler.pending[k];
      s'.(local := if Touches(w, Pins, r) then LocalPass.ListFinal else LocalPass.Done(false),
          remote := if Touches(w, Records, r) then RemotePass.ListFinal else RemotePass.Done(false),
          bare := if RemotePass.Covered(r, s.records) then s.bare - {k} else s.bare + {k})
  }

  /** The batch is over. */
  ghost function AfterFinish(w: World, s: State, otherMore: bool): State
    requires s.scheduler.phase.Running?
    requires Scheduler.Enabled(s.scheduler, Scheduler.Finish(BatchMore(w, s, otherMore)))
  {
    var more, r := BatchMore(w, s, otherMore), s.scheduler.phase.request;
    s.(scheduler := Scheduler.Step(s.scheduler, Scheduler.Finish(more)),
       lost := if more || Waiting(s, s.scheduler.phase.key) then s.lost
               else s.lost + set d | d in s.failed :: (d, r.name))
  }

  predicate BatchOver(s: State) {
    s.scheduler.phase.Running? && s.local.Done? && RemotePass.Terminal(s.remote)
  }

  ghost predicate Next(w: World, s: State, e: Event, s': State) {
    match e
    case PinFresh(id, n, c, ok, applied) =>
      && MayPublish(w, n, c) && id !in s.publishing && (ok ==> applied)
      && s' == s.(pins := if applied then s.pins[c := InFlightName(n)] else s.pins,
                  publishing := if ok then s.publishing[id := Publication(n, c, {Pins})] else s.publishing,
                  lost := if ok then s.lost else s.lost + {(Pins, n)})
    case PinPlain(n, c) =>
      MayPublish(w, n, c) && s' == s.(pins := s.pins[c := n], lost := s.lost + {(Pins, n)})
    case AddRecord(id, n, c, ok) =>
      && MayPublish(w, n, c)
      && (id in s.publishing ==> s.publishing[id].name == n && s.publishing[id].cid == c)
      && RemoteAdd(s.records, c, n, ok, s'.records)
      && s' == s.(records := s'.records,
                  publishing := if ok then WithRecord(s.publishing, id, n, c) else s.publishing,
                  lost := if ok then s.lost else s.lost + {(Records, n)})
    case AddPlain(n, c) =>
      MayPublish(w, n, c) && s' == s.(records := s.records + {(c, n)}, lost := s.lost + {(Records, n)})
    case GiveUp(id) =>
      && id in s.publishing
      && s' == s.(publishing := s.publishing - {id},
                  lost := s.lost + set d | d in s.publishing[id].sides :: (d, s.publishing[id].name))
    case Schedule(publisher, via) =>
      && (via.Replace? || via.Send? || via.Drop?)
      && Fits(w, via.request) && (publisher.Some? ==> HandsOver(s, publisher.value, via.request))
      && Scheduler.Enabled(s.scheduler, via)
      && s' == s.(scheduler := Scheduler.Step(s.scheduler, via),
                  publishing := if publisher.Some? then s.publishing - {publisher.value} else s.publishing,
                  lost := LostAfterSchedule(w, s, publisher, via))
    case Insert =>
      && Scheduler.Enabled(s.scheduler, Scheduler.Insert)
      && s' == s.(scheduler := Scheduler.Step(s.scheduler, Scheduler.Insert),
                  lost := s.lost - Touched(w, s.scheduler.entering.value))
    case Receive =>
      && Scheduler.Enabled(s.scheduler, Scheduler.Receive)
      && s' == s.(scheduler := Scheduler.Step(s.scheduler, Scheduler.Receive))
    case Take => Scheduler.Enabled(s.scheduler, Scheduler.Take) && s' == AfterTake(w, s)
    case Call(ok) =>
      && s.scheduler.phase.Running? && Touches(w, Pins, s.scheduler.phase.request)
      && LocalPass.Step(s.scheduler.phase.request, LocalPass.State(s.local, s.pins), ok,
                        LocalPass.State(s'.local, s'.pins))
      && s' == s.(local := s'.local, pins := s'.pins, failed := if ok then s.failed else s.failed + {Pins})
    case RemoteCall(ok) =>
      && s.scheduler.phase.Running? && Touches(w, Records, s.scheduler.phase.request) && s.local.Done?
      && RemotePass.Step(s.scheduler.phase.request, RemotePass.State(s.remote, s.records), ok,
                         RemotePass.State(s'.remote, s'.records))
      && s' == s.(remote := s'.remote, records := s'.records, failed := if ok then s.failed else s.failed + {Records})
    case Finish(otherMore) =>
      && BatchOver(s) && Scheduler.Enabled(s.scheduler, Scheduler.Finish(BatchMore(w, s, otherMore)))
      && s' == AfterFinish(w, s, otherMore)
    case Resend =>
      && Scheduler.Enabled(s.scheduler, Scheduler.Resend)
      && s' == s.(scheduler := Scheduler.Step(s.scheduler, Scheduler.Resend))
  }

  /** The publisher, new or known, has recorded its CID. */
  function WithRecord(publishing: map<nat, Publication>, id: nat, n: Name, c: Cid): map<nat, Publication> {
    publishing[id := Publication(n, c, {Records} + if id in publishing then publishing[id].sides else {})]
  }

  predicate HandsOver(s: State, id: nat, r: Request) {
    id in s.publishing && r.name == s.publishing[id].name && r.protectedCid == s.publishing[id].cid
  }

  /** Events from one state on. */
  ghost predicate IsPath(w: World, run: seq<State>, es: seq<Event>) {
    && |run| == |es| + 1
    && forall i :: 0 <= i < |es| ==> Next(w, run[i], es[i], run[i + 1])
  }

  ghost predicate IsRun(w: World, capacity: nat, run: seq<State>, es: seq<Event>) {
    IsPath(w, run, es) && Initial(run[0], capacity) && OwnedPins(w, run[0].pins) && OwnedRecords(w, run[0].records)
  }

  /** What is pinned under a name, final or in flight, may be published under it. */
  ghost predicate OwnedPins(w: World, pins: LocalPins) {
    forall c, n :: c in pins && w.named(n) && (pins[c] == n || pins[c] == InFlightName(n)) ==> Belongs(w, c, n)
  }

  /** So may what is recorded; and CIDs of guarded names are recorded under no unrelated name. */
  ghost predicate OwnedRecords(w: World, records: RemotePins) {
    forall c, m :: (c, m) in records ==>
      && (forall n :: w.named(n) && (m == n || m == InFlightName(n)) ==> Belongs(w, c, n))
      && (w.guarded(w.owner(c)) ==> m == w.owner(c) || m == InFlightName(w.owner(c)))
  }

  // ---- what is under way for a name ----

  /** A request for the key is pending, or a publisher is entering one. */
  ghost predicate Waiting(s: State, k: Scheduler.Key) {
    k in s.scheduler.pending || Scheduler.IsEntering(s.scheduler, k)
  }

  /** Nothing is under way for the name on this store, except possibly the running batch. */
  ghost predicate Quiet(w: World, s: State, side: Side, n: Name) {
    && (side, n) !in s.lost
    && (forall id :: id in s.publishing && side in s.publishing[id].sides ==> s.publishing[id].name != n)
    && forall k :: IsKeyOf(w, side, n, k) ==> !Waiting(s, k)
  }

  ghost predicate IsRunning(s: State, k: Scheduler.Key) {
    s.scheduler.phase.Running? && s.scheduler.phase.key == k
  }

  /** All requests of this store for the name accepted so far had this key. */
  ghost predicate OnlyKey(w: World, s: State, side: Side, n: Name, k: Scheduler.Key) {
    && IsKeyOf(w, side, n, k) && k in s.scheduler.accepted
    && forall k' :: IsKeyOf(w, side, n, k') && k' in s.scheduler.accepted ==> k' == k
  }

  /** The name is quiet, all its requests had this key, and none of them runs. */
  ghost predicate Idle(w: World, s: State, side: Side, n: Name, k: Scheduler.Key) {
    w.guarded(n) && OnlyKey(w, s, side, n, k) && Quiet(w, s, side, n) && !IsRunning(s, k)
  }

  /** The running batch works on this store for a guarded name, undisturbed, and no call has failed. */
  ghost predicate Undisturbed(w: World, s: State, side: Side) {
    && s.scheduler.phase.Running? && Touches(w, side, s.scheduler.phase.request) && side !in s.failed
    && w.guarded(s.scheduler.phase.request.name) && Quiet(w, s, side, s.scheduler.phase.request.name)
  }

  ghost predicate RequestsFit(w: World, s: State) {
    && (forall k :: k in s.scheduler.accepted ==> Fits(w, s.scheduler.accepted[k]))
    && (forall k :: k in s.scheduler.pending ==> Fits(w, s.scheduler.pending[k]))
    && (s.scheduler.entering.Some? ==> Fits(w, s.scheduler.entering.value))
    && (s.scheduler.phase.Running? ==> Fits(w, s.scheduler.phase.request))
  }

  /** A pass the request does not ask for is over from the start. */
  ghost predicate BatchFits(w: World, s: State) {
    s.scheduler.phase.Running? ==>
      && (!Touches(w, Pins, s.scheduler.phase.request) ==> s.local == LocalPass.Done(false))
      && (!Touches(w, Records, s.scheduler.phase.request) ==> s.remote == RemotePass.Done(false))
  }

  ghost predicate BaseInv(w: World, s: State) {
    Scheduler.Inv(s.scheduler) && RequestsFit(w, s) && BatchFits(w, s)
  }

  // ---- how the steps move what is under way ----

  predicate IsPublishers(e: Event) {
    e.PinFresh? || e.PinPlain? || e.AddRecord? || e.AddPlain? || e.GiveUp?
  }

  /** Which store a publisher's step is about. */
  ghost predicate Concerns(s: State, e: Event, side: Side)
    requires IsPublishers(e) && (e.GiveUp? ==> e.id in s.publishing)
  {
    if e.GiveUp? then side in s.publishing[e.id].sides
    else if e.PinFresh? || e.PinPlain? then side.Pins? else side.Records?
  }

  function PublishedName(s: State, e: Event): Name
    requires IsPublishers(e) && (e.GiveUp? ==> e.id in s.publishing)
  {
    if e.GiveUp? then s.publishing[e.id].name else e.name
  }

  /** A publisher's step leaves its own name in motion on the store it is about. */
  lemma PublisherInMotion(w: World, s: State, e: Event, s': State, side: Side)
    requires Next(w, s, e, s') && IsPublishers(e) && Concerns(s, e, side)
    ensures !Quiet(w, s', side, PublishedName(s, e))
  {
    if e.GiveUp? {
      assert (side, PublishedName(s, e)) in s'.lost;
    } else if (e.PinFresh? || e.AddRecord?) && e.ok {
      assert e.id in s'.publishing && side in s'.publishing[e.id].sides;
    }
  }

  /** And makes no other name quiet. */
  lemma PublisherQuiet(w: World, s: State, e: Event, s': State, side: Side, n: Name)
    requires Next(w, s, e, s') && IsPublishers(e) && Quiet(w, s', side, n)
    ensures Quiet(w, s, side, n)
  {
    if Concerns(s, e, side) && n == PublishedName(s, e) {
      PublisherInMotion(w, s, e, s', side);
    }
    forall id | id in s.publishing && side in s.publishing[id].sides
      ensures s.publishing[id].name != n
    {
      assert id in s'.publishing || (e.GiveUp? && id == e.id);
    }
    forall k | IsKeyOf(w, side, n, k)
      ensures !Waiting(s, k)
    {
      assert !Waiting(s', k);
    }
  }

  predicate SchedulerMoves(e: Event) {
    e.Schedule? || e.Insert? || e.Receive? || e.Resend?
  }

  function SchedulerEvent(e: Event): Scheduler.Event
    requires SchedulerMoves(e)
  {
    match e
    case Schedule(_, via) => via
    case Insert => Scheduler.Insert
    case Receive => Scheduler.Receive
    case Resend => Scheduler.Resend
  }

  lemma SchedulerStepBase(w: World, s: State, e: Event, s': State)
    requires BaseInv(w, s) && SchedulerMoves(e) && Next(w, s, e, s')
    ensures BaseInv(w, s')
    ensures s'.scheduler.phase.Running? ==> s'.scheduler.phase == s.scheduler.phase
    ensures s'.pins == s.pins && s'.records == s.records && s'.local == s.local && s'.remote == s.remote
    ensures s'.failed == s.failed && s'.bare == s.bare
  {
    Scheduler.StepKeepsInv(s.scheduler, SchedulerEvent(e));
    SchedulerStepKeepsRequests(w, s, e, s');
  }

  lemma SchedulerStepKeepsRequests(w: World, s: State, e: Event, s': State)
    requires RequestsFit(w, s) && SchedulerMoves(e) && Next(w, s, e, s')
    ensures RequestsFit(w, s')
    ensures s'.scheduler.phase.Running? ==> s'.scheduler.phase == s.scheduler.phase
  {
    if e.Schedule? {
      assert Fits(w, e.via.request);
    } else if e.Insert? {
      assert Fits(w, s.scheduler.entering.value);
    }
  }

  /** A move that leaves the key without a waiting request does not concern it. */
  lemma SchedulerStepWaiting(w: World, s: State, e: Event, s': State, k: Scheduler.Key)
    requires SchedulerMoves(e) && Next(w, s, e, s') && !Waiting(s', k)
    ensures !Waiting(s, k)
    ensures e.Schedule? && Scheduler.KeyOf(e.via.request) == k ==> e.via.Drop?
    ensures e.Insert? ==> Scheduler.KeyOf(s.scheduler.entering.value) != k
    ensures k in s'.scheduler.accepted <==> k in s.scheduler.accepted
    ensures k in s.scheduler.accepted ==> s'.scheduler.accepted[k] == s.scheduler.accepted[k]
  {
  }

  /** None of the name's keys is concerned by the move. */
  ghost predicate KeysSpared(w: World, s: State, e: Event, side: Side, n: Name)
    requires e.Insert? ==> s.scheduler.entering.Some?
    requires e.Schedule? ==> e.via.Replace? || e.via.Send? || e.via.Drop?
  {
    forall k :: IsKeyOf(w, side, n, k) ==>
      && (e.Schedule? && Scheduler.KeyOf(e.via.request) == k ==> e.via.Drop?)
      && (e.Insert? ==> Scheduler.KeyOf(s.scheduler.entering.value) != k)
  }

  /** A name that is quiet after a move of the scheduler was quiet before, with the same accepted requests. */
  lemma SchedulerStepQuiet(w: World, s: State, e: Event, s': State, side: Side, n: Name)
    requires SchedulerMoves(e) && Next(w, s, e, s') && Quiet(w, s', side, n)
    ensures Quiet(w, s, side, n)
    ensures forall k :: IsKeyOf(w, side, n, k) && k in s'.scheduler.accepted ==>
              k in s.scheduler.accepted && s'.scheduler.accepted[k] == s.scheduler.accepted[k]
    ensures forall k :: IsKeyOf(w, side, n, k) && k in s.scheduler.accepted ==> k in s'.scheduler.accepted
  {
    forall k | IsKeyOf(w, side, n, k)
      ensures !Waiting(s, k)
      ensures e.Schedule? && Scheduler.KeyOf(e.via.request) == k ==> e.via.Drop?
      ensures e.Insert? ==> Scheduler.KeyOf(s.scheduler.entering.value) != k
      ensures k in s'.scheduler.accepted <==> k in s.scheduler.accepted
      ensures k in s.scheduler.accepted ==> s'.scheduler.accepted[k] == s.scheduler.accepted[k]
    {
      SchedulerStepWaiting(w, s, e, s', k);
    }
    assert KeysSpared(w, s, e, side, n);
    SchedulerStepLost(w, s, e, s', side, n);
    SchedulerStepPublishing(w, s, e, s', side, n);
  }

  lemma SchedulerStepLost(w: World, s: State, e: Event, s': State, side: Side, n: Name)
    requires SchedulerMoves(e) && Next(w, s, e, s') && KeysSpared(w, s, e, side, n) && (side, n) !in s'.lost
    ensures (side, n) !in s.lost
  {
    if e.Schedule? && (side, n) in Touched(w, e.via.request) {
      assert IsKeyOf(w, side, n, Scheduler.KeyOf(e.via.request));
    }
    if e.Insert? && (side, n) in Touched(w, s.scheduler.entering.value) {
      assert IsKeyOf(w, side, n, Scheduler.KeyOf(s.scheduler.entering.value));
    }
  }

  lemma SchedulerStepPublishing(w: World, s: State, e: Event, s': State, side: Side, n: Name)
    requires SchedulerMoves(e) && Next(w, s, e, s') && KeysSpared(w, s, e, side, n) && (side, n) !in s'.lost
    requires forall id :: id in s'.publishing && side in s'.publishing[id].sides ==> s'.publishing[id].name != n
    ensures forall id :: id in s.publishing && side in s.publishing[id].sides ==> s.publishing[id].name != n
  {
    forall id | id in s.publishing && side in s.publishing[id].sides
      ensures s.publishing[id].name != n
    {
      if e.Schedule? && e.publisher == Some(id) {
        HandedOver(w, s, e, s', side);
      } else {
        assert id in s'.publishing && s'.publishing[id] == s.publishing[id];
      }
    }
  }

  /** What a publisher has done on a store is cleaned up under a key of its name, or lost. */
  lemma HandedOver(w: World, s: State, e: Event, s': State, side: Side)
    requires e.Schedule? && Next(w, s, e, s') && e.publisher.Some? && side in s.publishing[e.publisher.value].sides
    ensures var n := s.publishing[e.publisher.value].name;
      (side, n) in s'.lost || (IsKeyOf(w, side, n, Scheduler.KeyOf(e.via.request)) && !e.via.Drop?)
  {
    var p := s.publishing[e.publisher.value];
    if Touches(w, side, e.via.request) {
      assert (side, p.name) in Touched(w, e.via.request);
    } else {
      assert (side, p.name) in LeftBy(w, p, e.via.request);
    }
  }

  lemma SchedulerStepIdle(w: World, s: State, e: Event, s': State, side: Side, n: Name, k: Scheduler.Key)
    requires BaseInv(w, s) && SchedulerMoves(e) && Next(w, s, e, s') && Idle(w, s', side, n, k)
    ensures Idle(w, s, side, n, k) && s'.scheduler.accepted[k] == s.scheduler.accepted[k]
  {
    SchedulerStepBase(w, s, e, s');
    SchedulerStepQuiet(w, s, e, s', side, n);
    RunningAfterMove(w, s, e, s', k);
  }

  lemma RunningAfterMove(w: World, s: State, e: Event, s': State, k: Scheduler.Key)
    requires SchedulerMoves(e) && Next(w, s, e, s')
    ensures IsRunning(s, k) <==> IsRunning(s', k)
  {
  }

  /** The worker takes the last accepted request of its key, and the passes begin. */
  lemma TakeBase(w: World, s: State, s': State)
    requires BaseInv(w, s) && Next(w, s, Take, s')
    ensures BaseInv(w, s') && s'.scheduler.accepted == s.scheduler.accepted && s'.scheduler.phase.Running?
    ensures s'.scheduler.phase.key == s.scheduler.phase.key && s.scheduler.phase.key in s.scheduler.accepted
    ensures s.scheduler.phase.key !in s.scheduler.stranded && s.scheduler.phase.key in s.scheduler.pending
    ensures s'.scheduler.phase.request == s.scheduler.pending[s.scheduler.phase.key]
    ensures s'.pins == s.pins && s'.records == s.records && s'.failed == {}
    ensures Touches(w, Pins, s'.scheduler.phase.request) ==> s'.local == LocalPass.ListFinal
    ensures Touches(w, Records, s'.scheduler.phase.request) ==> s'.remote == RemotePass.ListFinal
    ensures RemotePass.Covered(s'.scheduler.phase.request, s'.records) <==> s'.scheduler.phase.key !in s'.bare
    ensures forall k :: k != s.scheduler.phase.key ==> (k in s'.bare <==> k in s.bare)
  {
    var k := s.scheduler.phase.key;
    Scheduler.StepKeepsInv(s.scheduler, Scheduler.Take);
    assert Scheduler.Tokens(s.scheduler, k) >= 1;
    assert Scheduler.Tokens(s.scheduler, k) <= 1;
    assert k in s.scheduler.pending;
  }

  lemma TakeIdle(w: World, s: State, s': State, side: Side, n: Name, k: Scheduler.Key)
    requires BaseInv(w, s) && Next(w, s, Take, s') && Idle(w, s', side, n, k)
    ensures Idle(w, s, side, n, k) && k != s.scheduler.phase.key
  {
    TakeBase(w, s, s');
    TakeWaiting(w, s, s');
    forall k' | IsKeyOf(w, side, n, k')
      ensures !Waiting(s, k')
    {
      assert !Waiting(s', k');
      assert k' == s.scheduler.phase.key ==> k' == k;
    }
  }

  lemma TakeWaiting(w: World, s: State, s': State)
    requires Next(w, s, Take, s')
    ensures forall k :: Waiting(s, k) && k != s.scheduler.phase.key ==> Waiting(s', k)
    ensures s'.publishing == s.publishing && s'.lost == s.lost
  {
  }

  /** A call changes one store, and the place in its pass; as many names are quiet as before. */
  lemma CallQuiet(w: World, s: State, e: Event, s': State)
    requires Next(w, s, e, s') && (e.Call? || e.RemoteCall?)
    ensures s'.scheduler == s.scheduler && s'.bare == s.bare && s.failed <= s'.failed
    ensures forall side, n :: Quiet(w, s', side, n) <==> Quiet(w, s, side, n)
    ensures forall side, n, k :: Idle(w, s', side, n, k) <==> Idle(w, s, side, n, k)
  {
    assert forall k :: Waiting(s', k) <==> Waiting(s, k);
    assert s'.publishing == s.publishing && s'.lost == s.lost;
    forall side, n
      ensures Quiet(w, s', side, n) <==> Quiet(w, s, side, n)
    {
    }
  }

  lemma CallBase(w: World, s: State, e: Event, s': State)
    requires BaseInv(w, s) && Next(w, s, e, s') && (e.Call? || e.RemoteCall?)
    ensures BaseInv(w, s')
  {
    CallQuiet(w, s, e, s');
  }

  lemma PublisherBase(w: World, s: State, e: Event, s': State)
    requires BaseInv(w, s) && Next(w, s, e, s') && IsPublishers(e)
    ensures BaseInv(w, s')
    ensures s'.scheduler == s.scheduler && s'.local == s.local && s'.remote == s.remote
    ensures s'.failed == s.failed && s'.bare == s.bare
  {
  }

  /** The key of the running request is accepted. */
  lemma RunningKeyIsAccepted(w: World, s: State)
    requires BaseInv(w, s) && s.scheduler.phase.Running?
    ensures s.scheduler.phase.key in s.scheduler.accepted
    ensures Scheduler.KeyOf(s.scheduler.phase.request) == s.scheduler.phase.key
  {
  }

  /** The batch of another name is running, or none. */
  lemma IdleIsOther(w: World, s: State, side: Side, n: Name, k: Scheduler.Key)
    requires BaseInv(w, s) && Idle(w, s, side, n, k)
    ensures var r := s.scheduler.accepted[k];
      Fits(w, r) && Touches(w, side, r) && r.name == n && Scheduler.KeyOf(r) == k
    ensures s.scheduler.phase.Running? && Touches(w, side, s.scheduler.phase.request) ==>
              s.scheduler.phase.request.name != n
  {
    assert Scheduler.KeyOf(s.scheduler.accepted[k]) == k;
    var phase := s.scheduler.phase;
    if phase.Running? && Touches(w, side, phase.request) && phase.request.name == n {
      RunningKeyIsAccepted(w, s);
      assert IsKeyOf(w, side, n, s.scheduler.phase.key);
    }
  }

  lemma FinishBase(w: World, s: State, otherMore: bool, s': State)
    requires BaseInv(w, s) && Next(w, s, Finish(otherMore), s')
    ensures BaseInv(w, s') && !s'.scheduler.phase.Running?
    ensures s'.scheduler.accepted == s.scheduler.accepted && s'.bare == s.bare
    ensures s'.pins == s.pins && s'.records == s.records
  {
    Scheduler.StepKeepsInv(s.scheduler, Scheduler.Finish(BatchMore(w, s, otherMore)));
  }

  /** A name that is idle after a batch was quiet before; if it was the batch's own, that was clean and is done. */
  lemma FinishIdle(w: World, s: State, otherMore: bool, s': State, side: Side, n: Name, k: Scheduler.Key)
    requires BaseInv(w, s) && Next(w, s, Finish(otherMore), s') && Idle(w, s', side, n, k)
    ensures if IsRunning(s, k) then Undisturbed(w, s, side) && !BatchMore(w, s, otherMore) else Idle(w, s, side, n, k)
    ensures IsRunning(s, k) ==>
              s.scheduler.accepted[k] == s.scheduler.phase.request && s.scheduler.phase.request.name == n
  {
    FinishBase(w, s, otherMore, s');
    RunningKeyIsAccepted(w, s);
    FinishWaiting(w, s, otherMore, s');
    forall k' | IsKeyOf(w, side, n, k')
      ensures !Waiting(s, k')
    {
      assert !Waiting(s', k');
    }
    if IsRunning(s, k) {
      FinishClean(w, s, otherMore, s', side, n, k);
    }
  }

  lemma FinishWaiting(w: World, s: State, otherMore: bool, s': State)
    requires Next(w, s, Finish(otherMore), s')
    ensures forall k :: Waiting(s, k) ==> Waiting(s', k)
    ensures BatchMore(w, s, otherMore) ==> Waiting(s', s.scheduler.phase.key)
    ensures s'.publishing == s.publishing && s.lost <= s'.lost
  {
  }

  lemma FinishClean(w: World, s: State, otherMore: bool, s': State, side: Side, n: Name, k: Scheduler.Key)
    requires BaseInv(w, s) && Next(w, s, Finish(otherMore), s') && Idle(w, s', side, n, k) && IsRunning(s, k)
    requires forall k' :: IsKeyOf(w, side, n, k') ==> !Waiting(s, k')
    ensures Undisturbed(w, s, side) && !BatchMore(w, s, otherMore)
    ensures s.scheduler.accepted[k] == s.scheduler.phase.request && s.scheduler.phase.request.name == n
  {
    FinishWaiting(w, s, otherMore, s');
    var r := s.scheduler.phase.request;
    assert Scheduler.KeyOf(r) == k && IsKeyOf(w, side, n, k) && !Waiting(s', k) && !Waiting(s, k);
    assert forall d :: d in s.failed ==> (d, r.name) in s'.lost;
  }

  // ---- the end ----

  /** Nobody publishes, and the worker waits on an empty channel. */
  predicate AtRest(s: State) {
    s.publishing == map[] && s.scheduler.phase.Idle? && s.scheduler.channel == [] && s.scheduler.entering.None?
  }

  /** At rest, a name whose requests had one key, and whose cleanup was not lost nor stranded, is idle. */
  lemma IdleAtRest(w: World, s: State, side: Side, n: Name, k: Scheduler.Key)
    requires BaseInv(w, s) && AtRest(s) && (side, n) !in s.lost && k !in s.scheduler.stranded
    requires w.guarded(n) && OnlyKey(w, s, side, n, k)
    ensures Idle(w, s, side, n, k)
  {
    forall k' | IsKeyOf(w, side, n, k')
      ensures !Waiting(s, k')
    {
      assert Scheduler.Tokens(s.scheduler, k') == 0;
    }
  }

  // ---- nothing lost ----

  /** No call fails, nobody gives up or leaves pins uncleaned, and no schedule is refused. */
  ghost predicate GoesWell(w: World, s: State, e: Event) {
    match e
    case PinFresh(_, _, _, ok, _) => ok
    case AddRecord(_, _, _, ok) => ok
    case PinPlain(_, _) => false
    case AddPlain(_, _) => false
    case GiveUp(_) => false
    case Schedule(publisher, via) =>
      && !via.Drop?
      && (publisher.Some? && publisher.value in s.publishing && (via.Replace? || via.Send?) ==>
            forall d :: d in s.publishing[publisher.value].sides ==> Touches(w, d, via.request))
    case Call(ok) => ok
    case RemoteCall(ok) => ok
    case _ => true
  }

  /** When all goes well, no cleanup is lost. */
  lemma {:induction false} NothingLost(w: World, capacity: nat, run: seq<State>, es: seq<Event>, i: nat)
    requires IsRun(w, capacity, run, es) && i < |run|
    requires forall j :: 0 <= j < |es| ==> GoesWell(w, run[j], es[j])
    ensures run[i].lost == {} && run[i].failed == {}
  {
    if i > 0 {
      NothingLost(w, capacity, run, es, i - 1);
      NothingLostStep(w, run[i - 1], es[i - 1], run[i]);
    }
  }

  lemma NothingLostStep(w: World, s: State, e: Event, s': State)
    requires Next(w, s, e, s') && GoesWell(w, s, e) && s.lost == {} && s.failed == {}
    ensures s'.lost == {} && s'.failed == {}
  {
    if e.Schedule? && e.publisher.Some? {
      assert LeftBy(w, s.publishing[e.publisher.value], e.via.request) == {};
    }
  }

  // ---- what the scheduler sees of a run ----

  /** The step of the scheduler that the event is, if it is one. */
  ghost function SchedulerSees(w: World, s: State, e: Event): seq<Scheduler.Event> {
    if SchedulerMoves(e) then [SchedulerEvent(e)]
    else if e.Take? then [Scheduler.Take]
    else if e.Finish? && s.scheduler.phase.Running? then [Scheduler.Finish(BatchMore(w, s, e.otherMore))]
    else []
  }

  ghost function SchedulerEvents(w: World, run: seq<State>, es: seq<Event>, i: nat): seq<Scheduler.Event>
    requires i <= |es| < |run|
  {
    if i == 0 then [] else SchedulerEvents(w, run, es, i - 1) + SchedulerSees(w, run[i - 1], es[i - 1])
  }

  ghost predicate Follows(start: Scheduler.State, seen: seq<Scheduler.Event>, end: Scheduler.State) {
    Scheduler.Feasible(start, seen) && Scheduler.After(start, seen) == end
  }

  lemma FollowsStep(w: World, s: State, e: Event, s': State)
    requires Next(w, s, e, s')
    ensures Follows(s.scheduler, SchedulerSees(w, s, e), s'.scheduler)
  {
    var seen := SchedulerSees(w, s, e);
    if seen != [] {
      Scheduler.AfterSnoc(s.scheduler, [], seen[0]);
      assert [] + [seen[0]] == seen;
    }
  }

  lemma FollowsOn(
      start: Scheduler.State, seen: seq<Scheduler.Event>, mid: Scheduler.State, more: seq<Scheduler.Event>,
      end: Scheduler.State)
    requires Follows(start, seen, mid) && Follows(mid, more, end)
    ensures Follows(start, seen + more, end)
  {
    Scheduler.AfterConcat(start, seen, more);
  }

  lemma {:induction false} FollowsUpTo(w: World, run: seq<State>, es: seq<Event>, i: nat)
    requires i <= |es| < |run|
    requires forall j :: 0 <= j < |es| ==>
               Follows(run[j].scheduler, SchedulerSees(w, run[j], es[j]), run[j + 1].scheduler)
    ensures Follows(run[0].scheduler, SchedulerEvents(w, run, es, i), run[i].scheduler)
  {
    if i > 0 {
      FollowsUpTo(w, run, es, i - 1);
      assert Follows(run[i - 1].scheduler, SchedulerSees(w, run[i - 1], es[i - 1]), run[i - 1 + 1].scheduler);
      FollowsOn(run[0].scheduler, SchedulerEvents(w, run, es, i - 1), run[i - 1].scheduler,
                SchedulerSees(w, run[i - 1], es[i - 1]), run[i].scheduler);
    }
  }

  /** So what holds of every run of the scheduler holds of every run of the system. */
  lemma SchedulerFollows(w: World, capacity: nat, run: seq<State>, es: seq<Event>, i: nat)
    requires IsRun(w, capacity, run, es) && i < |run|
    ensures Follows(Scheduler.Init(capacity), SchedulerEvents(w, run, es, i), run[i].scheduler)
  {
    forall j | 0 <= j < |es|
      ensures Follows(run[j].scheduler, SchedulerSees(w, run[j], es[j]), run[j + 1].scheduler)
    {
      FollowsStep(w, run[j], es[j], run[j + 1]);
    }
    FollowsUpTo(w, run, es, i);
  }

  /** The request last accepted for the key in the course of the run, read off its events. */
  ghost function LastRequest(w: World, run: seq<State>, es: seq<Event>, k: Scheduler.Key): Option<Request>
    requires |es| < |run|
  {
    Scheduler.LastAccepted(SchedulerEvents(w, run, es, |es|), k)
  }

  /** All requests of this store for the name accepted in the course of the run had this key. */
  ghost predicate OnlyKeyUsed(w: World, run: seq<State>, es: seq<Event>, side: Side, n: Name, k: Scheduler.Key)
    requires |es| < |run|
  {
    && IsKeyOf(w, side, n, k) && LastRequest(w, run, es, k).Some?
    && forall k' :: IsKeyOf(w, side, n, k') && LastRequest(w, run, es, k').Some? ==> k' == k
  }

  lemma AcceptedIsLastRequest(w: World, capacity: nat, run: seq<State>, es: seq<Event>)
    requires IsRun(w, capacity, run, es)
    ensures var accepted := run[|run| - 1].scheduler.accepted;
            forall k :: LastRequest(w, run, es, k) == if k in accepted then Some(accepted[k]) else None
  {
    SchedulerFollows(w, capacity, run, es, |es|);
    Scheduler.AcceptedIsLast(capacity, SchedulerEvents(w, run, es, |es|));
  }

  lemma OnlyKeyOfRun(w: World, capacity: nat, run: seq<State>, es: seq<Event>, side: Side, n: Name, k: Scheduler.Key)
    requires IsRun(w, capacity, run, es) && OnlyKeyUsed(w, run, es, side, n, k)
    ensures OnlyKey(w, run[|run| - 1], side, n, k)
    ensures LastRequest(w, run, es, k) == Some(run[|run| - 1].scheduler.accepted[k])
  {
    AcceptedIsLastRequest(w, capacity, run, es);
    var s := run[|run| - 1];
    forall k' | IsKeyOf(w, side, n, k') && k' in s.scheduler.accepted
      ensures k' == k
    {
      assert LastRequest(w, run, es, k').Some?;
    }
  }

  /** When the worker last took a request for the key. */
  ghost function LastTake(run: seq<State>, es: seq<Event>, i: nat, k: Scheduler.Key): (t: Option<nat>)
    requires i <= |es| < |run|
    ensures t.Some? ==> t.value < i && es[t.value] == Take
  {
    if i == 0 then None
    else if es[i - 1] == Take && run[i - 1].scheduler.phase == Scheduler.Received(k) then Some(i - 1)
    else LastTake(run, es, i - 1, k)
  }

  /** The CID had no record when the request of the key was last taken. */
  ghost predicate TakenBare(run: seq<State>, es: seq<Event>, i: nat, k: Scheduler.Key)
    requires i <= |es| < |run|
  {
    var t := LastTake(run, es, i, k);
    && t.Some? && run[t.value + 1].scheduler.phase.Running?
    && !RemotePass.Covered(run[t.value + 1].scheduler.phase.request, run[t.value].records)
  }

  ghost predicate BareFollows(s: State, e: Event, s': State, k: Scheduler.Key) {
    if e == Take && s.scheduler.phase == Scheduler.Received(k)
    then s'.scheduler.phase.Running?
         && (k in s'.bare <==> !RemotePass.Covered(s'.scheduler.phase.request, s.records))
    else k in s'.bare <==> k in s.bare
  }

  lemma BareStep(w: World, s: State, e: Event, s': State, k: Scheduler.Key)
    requires BaseInv(w, s) && Next(w, s, e, s')
    ensures BareFollows(s, e, s', k)
  {
    if e.Take? {
      TakeBase(w, s, s');
    }
  }

  lemma {:induction false} BareMeansTakenBare(run: seq<State>, es: seq<Event>, i: nat, k: Scheduler.Key)
    requires i <= |es| < |run| && run[0].bare == {}
    requires forall j :: 0 <= j < i ==> BareFollows(run[j], es[j], run[j + 1], k)
    ensures k in run[i].bare <==> TakenBare(run, es, i, k)
  {
    if i > 0 {
      BareMeansTakenBare(run, es, i - 1, k);
      assert BareFollows(run[i - 1], es[i - 1], run[i - 1 + 1], k);
    }
  }

  // ---- enough room ----

  /** The event schedules, if anything, one of these keys. */
  predicate Uses(e: Event, keys: set<Scheduler.Key>) {
    e.Schedule? && (e.via.Replace? || e.via.Send? || e.via.Drop?) ==> Scheduler.KeyOf(e.via.request) in keys
  }

  predicate IsRefused(e: Event) {
    e.Schedule? && e.via.Drop?
  }

  ghost predicate HasRoom(s: State, keys: set<Scheduler.Key>) {
    && Scheduler.Inv(s.scheduler) && Scheduler.KeysWithin(s.scheduler, keys)
    && s.scheduler.stranded == {} && |keys| <= s.scheduler.capacity
  }

  lemma RoomStep(w: World, s: State, e: Event, s': State, keys: set<Scheduler.Key>)
    requires HasRoom(s, keys) && Next(w, s, e, s') && Uses(e, keys)
    ensures HasRoom(s', keys) && !IsRefused(e)
  {
    if SchedulerMoves(e) {
      SchedulerRoom(s, SchedulerEvent(e), s', keys);
    } else if e.Take? {
      SchedulerRoom(s, Scheduler.Take, s', keys);
    } else if e.Finish? {
      SchedulerRoom(s, Scheduler.Finish(BatchMore(w, s, e.otherMore)), s', keys);
    } else {
      assert s'.scheduler == s.scheduler;
    }
  }

  lemma SchedulerRoom(s: State, e: Scheduler.Event, s': State, keys: set<Scheduler.Key>)
    requires HasRoom(s, keys) && Scheduler.Enabled(s.scheduler, e) && s'.scheduler == Scheduler.Step(s.scheduler, e)
    requires Scheduler.UsesKeys([e], keys)
    ensures HasRoom(s', keys) && !e.Drop?
  {
    Scheduler.StepStaysWithin(s.scheduler, e, keys);
    Scheduler.StepKeepsInv(s.scheduler, e);
  }

  /** With no more keys in use than the channel has slots nothing is refused and nothing stranded. */
  lemma NothingStranded(
      w: World, capacity: nat, run: seq<State>, es: seq<Event>, keys: set<Scheduler.Key>, i: nat)
    requires IsRun(w, capacity, run, es) && i < |run| && 1 <= capacity && |keys| <= capacity
    requires forall j :: 0 <= j < |es| ==> Uses(es[j], keys)
    ensures HasRoom(run[i], keys) && forall j :: 0 <= j < i ==> !IsRefused(es[j])
  {
    forall j | 0 <= j < |es|
      ensures RoomKept(run[j], es[j], run[j + 1], keys)
    {
      if HasRoom(run[j], keys) {
        RoomStep(w, run[j], es[j], run[j + 1], keys);
      }
    }
    assert HasRoom(run[0], keys);
    RoomStays(run, es, keys, i);
  }

  ghost predicate RoomKept(s: State, e: Event, s': State, keys: set<Scheduler.Key>) {
    HasRoom(s, keys) ==> HasRoom(s', keys) && !IsRefused(e)
  }

  lemma {:induction false} RoomStays(run: seq<State>, es: seq<Event>, keys: set<Scheduler.Key>, i: nat)
    requires i <= |es| < |run| && HasRoom(run[0], keys)
    requires forall j :: 0 <= j < |es| ==> RoomKept(run[j], es[j], run[j + 1], keys)
    ensures HasRoom(run[i], keys) && forall j :: 0 <= j < i ==> !IsRefused(es[j])
  {
    if i > 0 {
      RoomStays(run, es, keys, i - 1);
      assert RoomKept(run[i - 1], es[i - 1], run[i - 1 + 1], keys);
    }
  }

  /**
   * The hypotheses of an end state follow from the events: with enough room, when no call fails and
   * no publisher gives up, nothing is lost and nothing stranded.
   */
  lemma AllCleanedUp(w: World, capacity: nat, run: seq<State>, es: seq<Event>, keys: set<Scheduler.Key>)
    requires IsRun(w, capacity, run, es) && 1 <= capacity && |keys| <= capacity
    requires forall j :: 0 <= j < |es| ==> Uses(es[j], keys) && (GoesWell(w, run[j], es[j]) || IsRefused(es[j]))
    ensures run[|run| - 1].lost == {} && run[|run| - 1].scheduler.stranded == {}
  {
    NothingStranded(w, capacity, run, es, keys, |run| - 1);
    NothingLost(w, capacity, run, es, |run| - 1);
  }
}
