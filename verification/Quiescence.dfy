/**
 * Once publishers stop, the scheduler and its worker come to rest (src/kubo/pinning.rs:206-401): the
 * number of their further steps is bounded by what is pinned, recorded, waiting and running. Only
 * reruns asked for by passes on other nodes or services add to it, each a fixed amount.
 */
module Quiescence {
  import opened Kubo
  import opened PublishSystem
  import LocalPass
  import RemotePass
  import FreshCopies
  import LostCopies
  import Scheduler = CleanupScheduler

  predicate WithoutPublishers(e: Event) {
    !IsPublishers(e) && !e.Schedule?
  }

  /**
   * What a pass has listed so far is there: publishers only add and rename, and there is one worker.
   * So is the temporary record a pass is about to migrate.
   */
  ghost predicate ListedAreThere(w: World, s: State) {
    s.scheduler.phase.Running? ==>
      var r := s.scheduler.phase.request;
      && (s.local.ListTemp? ==> Distinct(s.local.finals) && forall c :: c in s.local.finals ==> c in s.pins)
      && (s.remote.ListTemp? ==>
            Distinct(s.remote.finals) && forall c :: c in s.remote.finals ==> (c, r.name) in s.records)
      && (s.remote.MigrateRemove? ==> (r.protectedCid, InFlightName(r.name)) in s.records)
  }

  lemma CallKeepsListed(w: World, s: State, e: Event, s': State)
    requires ListedAreThere(w, s) && Next(w, s, e, s') && (e.Call? || e.RemoteCall?)
    requires e.Call? ==> s.remote.ListFinal? || RemotePass.Terminal(s.remote)
    requires e.RemoteCall? ==> s.local.Done?
    ensures ListedAreThere(w, s')
  {
    if e.RemoteCall? && s.remote.ListTemp? && e.ok {
      var r := s.scheduler.phase.request;
      var temps :| ListsRemote(s.records, InFlightName(r.name), temps)
                   && s'.remote == RemotePass.Decide(r, s.remote.finals, temps);
    }
  }

  /** The remote pass waits for the local one. */
  ghost predicate RemoteWaits(s: State) {
    s.scheduler.phase.Running? && !s.local.Done? ==> s.remote.ListFinal? || s.remote == RemotePass.Done(false)
  }

  ghost predicate Inv(w: World, s: State) {
    FreshCopies.Inv(w, s) && ListedAreThere(w, s) && RemoteWaits(s)
  }

  lemma StepKeepsInv(w: World, s: State, e: Event, s': State)
    requires WellFormed(w) && Inv(w, s) && Next(w, s, e, s')
    ensures Inv(w, s')
  {
    FreshCopies.StepKeepsInv(w, s, e, s');
    if e.Call? || e.RemoteCall? {
      CallKeepsListed(w, s, e, s');
    } else if e.Take? {
      TakeBase(w, s, s');
      assert BatchFits(w, s');
    } else {
      OthersKeepListed(w, s, e, s');
    }
  }

  lemma OthersKeepListed(w: World, s: State, e: Event, s': State)
    requires ListedAreThere(w, s) && RemoteWaits(s) && Next(w, s, e, s') && !e.Call? && !e.RemoteCall? && !e.Take?
    ensures ListedAreThere(w, s') && RemoteWaits(s')
  {
    assert s'.local == s.local && s'.remote == s.remote;
    assert forall c :: c in s.pins ==> c in s'.pins;
    assert s.records <= s'.records;
    assert s'.scheduler.phase.Running? ==> s'.scheduler.phase == s.scheduler.phase;
  }

  lemma {:induction false} RunKeepsInv(w: World, capacity: nat, run: seq<State>, es: seq<Event>, i: nat)
    requires WellFormed(w) && IsRun(w, capacity, run, es) && i < |run|
    ensures Inv(w, run[i])
  {
    if i == 0 {
      FreshCopies.RunKeepsInv(w, capacity, run, es, 0);
    } else {
      RunKeepsInv(w, capacity, run, es, i - 1);
      StepKeepsInv(w, run[i - 1], es[i - 1], run[i]);
    }
  }

  // ---- the CIDs at stake ----

  /** The CIDs pinned, and those that waiting or running requests may pin. */
  ghost function AtStake(s: State): set<Cid> {
    s.pins.Keys
    + (set k | k in s.scheduler.pending :: s.scheduler.pending[k].protectedCid)
    + (if s.scheduler.entering.Some? then {s.scheduler.entering.value.protectedCid} else {})
    + (if s.scheduler.phase.Running? then {s.scheduler.phase.request.protectedCid} else {})
  }

  lemma StakeOnlyShrinks(w: World, s: State, e: Event, s': State)
    requires Next(w, s, e, s') && WithoutPublishers(e)
    ensures AtStake(s') <= AtStake(s)
  {
    match e
    case Call(_) =>
      assert s'.scheduler == s.scheduler;
      assert s'.pins.Keys <= s.pins.Keys + {s.scheduler.phase.request.protectedCid};
    case Insert => StakeAfterInsert(w, s, s');
    case Take => StakeAfterTake(w, s, s');
    case Finish(otherMore) => StakeAfterFinish(w, s, otherMore, s');
    case _ =>
  }

  lemma StakeAfterInsert(w: World, s: State, s': State)
    requires Next(w, s, Insert, s')
    ensures AtStake(s') <= AtStake(s)
  {
    forall k | k in s'.scheduler.pending
      ensures s'.scheduler.pending[k].protectedCid in AtStake(s)
    {
    }
  }

  lemma StakeAfterTake(w: World, s: State, s': State)
    requires Next(w, s, Take, s')
    ensures AtStake(s') <= AtStake(s)
  {
    var k := s.scheduler.phase.key;
    if k in s.scheduler.pending {
      assert s'.scheduler.phase.request == s.scheduler.pending[k];
    }
    assert s'.scheduler.pending == s.scheduler.pending - {k} || s'.scheduler.pending == s.scheduler.pending;
  }

  lemma StakeAfterFinish(w: World, s: State, otherMore: bool, s': State)
    requires Next(w, s, Finish(otherMore), s')
    ensures AtStake(s') <= AtStake(s)
  {
    forall k | k in s'.scheduler.pending
      ensures s'.scheduler.pending[k].protectedCid in AtStake(s)
    {
    }
  }

  // ---- the measure ----

  /**
   * With at most `m` pins and `m` records listed at once, what a batch that reruns may cost. A pin is
   * worth as much, a record three times as much, and a token two times.
   */
  function Share(m: nat): nat {
    4 * m + 12
  }

  /** Some CID still to be removed is gone already, so that its removal may succeed without effect. */
  ghost predicate PinGone(s: State) {
    s.local.Remove? && exists c :: c in s.local.todo && c !in s.pins
  }

  ghost predicate RecordGone(s: State) {
    s.remote.Remove? && exists p :: p in s.remote.todo && p !in s.records
  }

  /** What the local pass may still cost, apart from the rerun it asks for once it has removed something. */
  ghost function LocalWork(s: State, m: nat): nat {
    match s.local
    case ListFinal => Share(m) + 2 * m + 4
    case ListTemp(_) => Share(m) + 2 * m + 3
    case Remove(todo, removedAny) =>
      |todo| + if removedAny then 0 else Share(m) + 2 + if PinGone(s) then Share(m) else 0
    case Finalise => Share(m) + 1
    case Done(_) => 0
  }

  ghost function RemoteWork(s: State, m: nat): nat {
    match s.remote
    case ListFinal => 2 * m + 4
    case ListTemp(_) => 2 * m + 3
    case Remove(todo, removedAny) => |todo| + if !removedAny && RecordGone(s) then 2 * Share(m) + 1 else 0
    case MigrateRemove => 2
    case MigrateAdd => 3 * Share(m) + 1
    case MigrateFailed => 0
    case DropTemp => 1
    case Done(_) => 0
  }

  ghost function PhaseWork(s: State, m: nat): nat {
    match s.scheduler.phase
    case Idle => 0
    case Delaying(_) => 2 * Share(m) + 1
    case Received(_) => 2 * Share(m) - 1
    case Running(_, _) => LocalWork(s, m) + RemoteWork(s, m) + 1 + if Asks(s) then 2 * Share(m) + 1 else 0
  }

  /** The product, added up. */
  function Times(a: nat, n: nat): nat {
    if n == 0 then 0 else a + Times(a, n - 1)
  }

  ghost function RecordsWork(s: State, m: nat): nat {
    Times(3 * Share(m), |s.records|)
  }

  ghost function StoreWork(s: State, m: nat): nat {
    Times(Share(m), |s.pins|) + RecordsWork(s, m) + Times(2 * Share(m), |s.scheduler.channel|)
    + if s.scheduler.entering.Some? then 1 else 0
  }

  /** A bound on the steps to come. */
  ghost function Work(s: State, m: nat): nat {
    StoreWork(s, m) + PhaseWork(s, m)
  }

  /** A rerun that a pass elsewhere may ask for. */
  ghost function Extra(w: World, s: State, e: Event, m: nat): nat {
    if e == Finish(true) && s.scheduler.phase.Running? && HasElsewhere(w, s.scheduler.phase.request)
    then 2 * Share(m) + 1 else 0
  }

  // ---- every step brings rest closer ----

  lemma SamePassWork(s: State, s': State, m: nat)
    requires s'.local == s.local && s'.remote == s.remote && s'.pins == s.pins && s'.records == s.records
    requires s'.scheduler.phase == s.scheduler.phase
    ensures PhaseWork(s', m) == PhaseWork(s, m)
  {
    assert PinGone(s') <==> PinGone(s);
    assert RecordGone(s') <==> RecordGone(s);
  }

  lemma InsertWork(w: World, s: State, s': State, m: nat)
    requires Next(w, s, Insert, s')
    ensures Work(s', m) < Work(s, m)
  {
    SamePassWork(s, s', m);
  }

  lemma ReceiveWork(w: World, s: State, s': State, m: nat)
    requires Next(w, s, Receive, s')
    ensures Work(s', m) < Work(s, m)
  {
    assert |s.scheduler.channel| == |s'.scheduler.channel| + 1;
  }

  lemma TakeWork(w: World, s: State, s': State, m: nat)
    requires BaseInv(w, s) && Next(w, s, Take, s')
    ensures Work(s', m) < Work(s, m)
  {
    TakeBase(w, s, s');
    BeginWork(s', m);
    assert StoreWork(s', m) == StoreWork(s, m) by {
      assert s'.scheduler.channel == s.scheduler.channel && s'.scheduler.entering == s.scheduler.entering;
    }
  }

  /** A batch that begins has no more before it than its token was worth. */
  lemma BeginWork(s: State, m: nat)
    requires s.scheduler.phase.Running?
    requires s.local.ListFinal? || s.local == LocalPass.Done(false)
    requires s.remote.ListFinal? || s.remote == RemotePass.Done(false)
    ensures PhaseWork(s, m) < 2 * Share(m) - 1
  {
  }

  lemma ResendWork(w: World, s: State, s': State, m: nat)
    requires Next(w, s, Resend, s')
    ensures Work(s', m) < Work(s, m)
  {
    assert |s'.scheduler.channel| == |s.scheduler.channel| || |s'.scheduler.channel| == |s.scheduler.channel| + 1;
  }

  lemma FinishWork(w: World, s: State, otherMore: bool, s': State, m: nat)
    requires Next(w, s, Finish(otherMore), s')
    ensures Work(s', m) < Work(s, m) + Extra(w, s, Finish(otherMore), m)
  {
    assert s'.scheduler.channel == s.scheduler.channel && s'.scheduler.entering == s.scheduler.entering;
  }

  // -- the local pass --

  lemma SameRemoteWork(s: State, s': State, m: nat)
    requires s'.remote == s.remote && s'.records == s.records
    ensures RemoteWork(s', m) == RemoteWork(s, m)
  {
    assert RecordGone(s') <==> RecordGone(s);
  }

  lemma SameLocalWork(s: State, s': State, m: nat)
    requires s'.local == s.local && s'.pins == s.pins
    ensures LocalWork(s', m) == LocalWork(s, m)
  {
    assert PinGone(s') <==> PinGone(s);
  }

  lemma {:induction false} FewListed<T(!new)>(xs: seq<T>, all: set<T>)
    requires Distinct(xs) && forall x :: x in xs ==> x in all
    ensures |xs| <= |all|
    decreases |xs|
  {
    if xs != [] {
      var rest := xs[1..];
      assert forall i :: 0 <= i < |rest| ==> rest[i] == xs[i + 1];
      assert xs[0] in xs && forall x :: x in rest ==> x in xs;
      FewListed(rest, all - {xs[0]});
    }
  }

  lemma {:induction false} FewStale(pins: seq<Cid>, protectedCid: Cid)
    ensures |LocalPass.StalePins(pins, protectedCid)| <= |pins|
  {
    if pins != [] {
      FewStale(pins[1..], protectedCid);
    }
  }

  lemma ListTempWork(w: World, s: State, ok: bool, s': State, m: nat)
    requires Next(w, s, Call(ok), s') && s.local.ListTemp? && ListedAreThere(w, s) && |s.pins.Keys| <= m
    ensures LocalWork(s', m) < LocalWork(s, m) && !s'.local.ListFinal? && !s'.local.ListTemp?
    ensures s'.local != LocalPass.Done(true) && (s'.local.Remove? ==> !s'.local.removedAny)
  {
    if ok {
      var r, finals := s.scheduler.phase.request, s.local.finals;
      var temps :| ListsLocal(s.pins, InFlightName(r.name), temps) && s'.local == LocalPass.Decide(r, finals, temps);
      FewListed(finals, s.pins.Keys);
      FewListed(temps, s.pins.Keys);
      FewStale(finals + temps, r.protectedCid);
      if s'.local.Remove? {
        assert forall c :: c in s'.local.todo ==> c in finals + temps;
        assert !PinGone(s');
      }
    }
  }

  /** The rerun counts once, whoever asks. */
  function AskWork(s: State, m: nat): nat {
    if Asks(s) then 2 * Share(m) + 1 else 0
  }

  /** A local removal that took effect: the pin pays for the rerun. */
  lemma PinRemovalWork(w: World, s: State, ok: bool, s': State, m: nat)
    requires Next(w, s, Call(ok), s') && s.local.Remove? && s'.pins != s.pins
    ensures LocalWork(s', m) + AskWork(s', m) < LocalWork(s, m) + AskWork(s, m) + Share(m)
    ensures |s'.pins| + 1 == |s.pins|
  {
    var c := s.local.todo[0];
    assert s'.pins == s.pins - {c} && c in s.pins;
    RemovedSize(s.pins, c);
  }

  /** One that did not: it failed, or the CID was gone already. */
  lemma VainPinRemovalWork(w: World, s: State, ok: bool, s': State, m: nat)
    requires Next(w, s, Call(ok), s') && s.local.Remove? && s'.pins == s.pins
    ensures LocalWork(s', m) + AskWork(s', m) < LocalWork(s, m) + AskWork(s, m)
  {
    var c, todo := s.local.todo[0], s.local.todo;
    assert c in todo && forall d :: d in todo[1..] ==> d in todo;
    if ok {
      assert c !in s.pins;
      assert PinGone(s);
    } else {
      assert PinGone(s') ==> PinGone(s);
    }
  }

  lemma RemovedSize(pins: LocalPins, c: Cid)
    requires c in pins
    ensures |pins - {c}| + 1 == |pins|
  {
    assert (pins - {c}).Keys == pins.Keys - {c};
    assert |pins| == |pins.Keys| && |pins - {c}| == |(pins - {c}).Keys|;
  }

  lemma AddedSize(pins: LocalPins, c: Cid, n: Name)
    ensures |pins[c := n]| == |pins| || |pins[c := n]| == |pins| + 1
  {
    assert pins[c := n].Keys == pins.Keys + {c};
    assert |pins| == |pins.Keys| && |pins[c := n]| == |pins[c := n].Keys|;
  }

  /** What a call of the local pass costs, with the pin it may remove or add. */
  lemma CallCost(w: World, s: State, ok: bool, s': State, m: nat)
    requires Next(w, s, Call(ok), s') && ListedAreThere(w, s) && |s.pins.Keys| <= m
    ensures LocalWork(s', m) + AskWork(s', m) + Times(Share(m), |s'.pins|)
          < LocalWork(s, m) + AskWork(s, m) + Times(Share(m), |s.pins|)
  {
    match s.local
    case ListFinal =>
    case ListTemp(_) => ListTempWork(w, s, ok, s', m);
    case Remove(_, _) =>
      if s'.pins == s.pins {
        VainPinRemovalWork(w, s, ok, s', m);
      } else {
        PinRemovalWork(w, s, ok, s', m);
      }
    case Finalise => FinaliseCost(w, s, ok, s', m);
  }

  /** The final pin was paid for when the token was. */
  lemma FinaliseCost(w: World, s: State, ok: bool, s': State, m: nat)
    requires Next(w, s, Call(ok), s') && s.local.Finalise?
    ensures LocalWork(s', m) + AskWork(s', m) + Times(Share(m), |s'.pins|)
          < LocalWork(s, m) + AskWork(s, m) + Times(Share(m), |s.pins|)
  {
    AddedSize(s.pins, s.scheduler.phase.request.protectedCid, s.scheduler.phase.request.name);
    assert |s'.pins| == |s.pins| || |s'.pins| == |s.pins| + 1;
  }

  lemma CallWork(w: World, s: State, ok: bool, s': State, m: nat)
    requires Next(w, s, Call(ok), s') && ListedAreThere(w, s) && |s.pins.Keys| <= m
    ensures Work(s', m) < Work(s, m)
  {
    CallCost(w, s, ok, s', m);
    SameRemoteWork(s, s', m);
    assert s'.scheduler == s.scheduler && s'.records == s.records;
  }

  // -- the remote pass --

  lemma RemoteListTempWork(w: World, s: State, ok: bool, s': State, m: nat)
    requires Next(w, s, RemoteCall(ok), s') && s.remote.ListTemp? && ListedAreThere(w, s) && |s.records| <= m
    ensures RemoteWork(s', m) < RemoteWork(s, m) && s'.remote != RemotePass.Done(true)
    ensures s'.remote.Remove? ==> !s'.remote.removedAny
  {
    if ok {
      var r, finals := s.scheduler.phase.request, s.remote.finals;
      var temps :| ListsRemote(s.records, InFlightName(r.name), temps)
                   && s'.remote == RemotePass.Decide(r, finals, temps);
      FewRecordsListed(s.records, r.name, finals);
      FewRecordsListed(s.records, InFlightName(r.name), temps);
      FewDecided(r, finals, temps, m);
      if s'.remote.Remove? {
        RemotePass.DecidedRecords(r, finals, temps);
        NoneGone(s', r, finals, temps);
      }
    }
  }

  lemma FewDecided(r: Request, finals: seq<Cid>, temps: seq<Cid>, m: nat)
    requires |finals| <= m && |temps| <= m
    ensures var pc := RemotePass.Decide(r, finals, temps);
      && (pc.Remove? ==> |pc.todo| <= 2 * m && !pc.removedAny)
      && !pc.ListFinal? && !pc.ListTemp? && !pc.MigrateAdd? && pc != RemotePass.Done(true)
  {
    FewStale(finals, r.protectedCid);
    FewStale(temps, r.protectedCid);
  }

  lemma FewRecordsListed(records: RemotePins, name: Name, cids: seq<Cid>)
    requires Distinct(cids) && forall c :: c in cids ==> (c, name) in records
    ensures |cids| <= |records|
  {
    var listed := seq(|cids|, i requires 0 <= i < |cids| => (cids[i], name));
    forall p | p in listed
      ensures p in records
    {
      var i :| 0 <= i < |cids| && listed[i] == p;
      assert cids[i] in cids;
    }
    FewListed(listed, records);
  }

  lemma NoneGone(s: State, r: Request, finals: seq<Cid>, temps: seq<Cid>)
    requires s.remote.Remove?
    requires forall p: (Cid, Name) :: p in s.remote.todo ==>
               (p.0 in finals && p.1 == r.name) || (p.0 in temps && p.1 == InFlightName(r.name))
    requires forall c :: c in finals ==> (c, r.name) in s.records
    requires forall c :: c in temps ==> (c, InFlightName(r.name)) in s.records
    ensures !RecordGone(s)
  {
    forall p | p in s.remote.todo
      ensures p in s.records
    {
      assert p == (p.0, p.1);
    }
  }

  lemma RecordRemovalWork(w: World, s: State, ok: bool, s': State, m: nat)
    requires Next(w, s, RemoteCall(ok), s') && s.remote.Remove? && s'.records != s.records
    ensures RemoteWork(s', m) + AskWork(s', m) < RemoteWork(s, m) + AskWork(s, m) + 3 * Share(m)
    ensures |s'.records| + 1 == |s.records|
  {
    var p := s.remote.todo[0];
    assert p == (p.0, p.1) && s'.records == s.records - {p} && p in s.records;
  }

  lemma VainRecordRemovalWork(w: World, s: State, ok: bool, s': State, m: nat)
    requires Next(w, s, RemoteCall(ok), s') && s.remote.Remove? && s'.records == s.records
    ensures RemoteWork(s', m) + AskWork(s', m) < RemoteWork(s, m) + AskWork(s, m)
  {
    var p, todo := s.remote.todo[0], s.remote.todo;
    assert p == (p.0, p.1) && p in todo && forall q :: q in todo[1..] ==> q in todo;
    if ok {
      assert p !in s.records;
      assert RecordGone(s);
    } else {
      assert RecordGone(s') ==> RecordGone(s);
    }
  }

  /** A migration gets back the record it drops. */
  lemma MigrationCost(w: World, s: State, ok: bool, s': State, m: nat)
    requires Next(w, s, RemoteCall(ok), s') && ListedAreThere(w, s)
    requires s.remote.MigrateRemove? || s.remote.MigrateAdd? || s.remote.DropTemp?
    ensures RemoteWork(s', m) + AskWork(s', m) + RecordsWork(s', m)
          < RemoteWork(s, m) + AskWork(s, m) + RecordsWork(s, m)
  {
    match s.remote
    case MigrateRemove => MigrateRemoveCost(w, s, ok, s', m);
    case MigrateAdd => MigrateAddCost(w, s, ok, s', m);
    case DropTemp => DropTempCost(w, s, ok, s', m);
  }

  lemma MigrateRemoveCost(w: World, s: State, ok: bool, s': State, m: nat)
    requires Next(w, s, RemoteCall(ok), s') && ListedAreThere(w, s) && s.remote.MigrateRemove?
    ensures !Asks(s') || Asks(s)
    ensures RemoteWork(s', m) + RecordsWork(s', m) < RemoteWork(s, m) + RecordsWork(s, m)
  {
    var r := s.scheduler.phase.request;
    var p := (r.protectedCid, InFlightName(r.name));
    if s'.records != s.records {
      assert s'.records == s.records - {p} && |s'.records| + 1 == |s.records|;
    }
  }

  lemma MigrateAddCost(w: World, s: State, ok: bool, s': State, m: nat)
    requires Next(w, s, RemoteCall(ok), s') && s.remote.MigrateAdd?
    ensures !Asks(s') || Asks(s)
    ensures RemoteWork(s', m) + RecordsWork(s', m) < RemoteWork(s, m) + RecordsWork(s, m)
  {
    var r := s.scheduler.phase.request;
    var q := (r.protectedCid, r.name);
    assert s'.records == s.records || s'.records == s.records + {q};
    assert |s'.records| == |s.records| || |s'.records| == |s.records| + 1;
  }

  lemma DropTempCost(w: World, s: State, ok: bool, s': State, m: nat)
    requires Next(w, s, RemoteCall(ok), s') && s.remote.DropTemp?
    ensures !Asks(s') || Asks(s)
    ensures RemoteWork(s', m) + RecordsWork(s', m) < RemoteWork(s, m) + RecordsWork(s, m)
  {
    if s'.records != s.records {
      assert |s'.records| + 1 == |s.records|;
    }
  }

  lemma RemoteCallCost(w: World, s: State, ok: bool, s': State, m: nat)
    requires Next(w, s, RemoteCall(ok), s') && ListedAreThere(w, s) && |s.records| <= m
    ensures RemoteWork(s', m) + AskWork(s', m) + RecordsWork(s', m)
          < RemoteWork(s, m) + AskWork(s, m) + RecordsWork(s, m)
  {
    match s.remote
    case ListFinal =>
    case ListTemp(_) => RemoteListTempWork(w, s, ok, s', m);
    case Remove(_, _) =>
      if s'.records == s.records {
        VainRecordRemovalWork(w, s, ok, s', m);
      } else {
        RecordRemovalWork(w, s, ok, s', m);
      }
    case _ => MigrationCost(w, s, ok, s', m);
  }

  lemma RemoteCallWork(w: World, s: State, ok: bool, s': State, m: nat)
    requires Next(w, s, RemoteCall(ok), s') && ListedAreThere(w, s) && |s.records| <= m
    ensures Work(s', m) < Work(s, m)
  {
    RemoteCallCost(w, s, ok, s', m);
    SameLocalWork(s, s', m);
    assert s'.scheduler == s.scheduler && s'.pins == s.pins;
  }

  /** Every step of scheduler and worker brings rest closer, but for the reruns passes elsewhere ask for. */
  lemma StepWork(w: World, s: State, e: Event, s': State, m: nat)
    requires Inv(w, s) && Next(w, s, e, s') && WithoutPublishers(e) && |s.pins.Keys| <= m && |s.records| <= m
    ensures Work(s', m) < Work(s, m) + Extra(w, s, e, m)
  {
    match e
    case Call(ok) => CallWork(w, s, ok, s', m);
    case RemoteCall(ok) => RemoteCallWork(w, s, ok, s', m);
    case Finish(otherMore) => FinishWork(w, s, otherMore, s', m);
    case Insert => InsertWork(w, s, s', m);
    case Receive => ReceiveWork(w, s, s', m);
    case Take => TakeWork(w, s, s', m);
    case Resend => ResendWork(w, s, s', m);
  }

  // ---- whole runs ----

  /** The records there are, counting the one a migration has dropped to make it again. */
  function RecordCount(s: State): nat {
    |s.records| + if s.scheduler.phase.Running? && s.remote.MigrateAdd? then 1 else 0
  }

  /** The worker never makes more records than it drops. */
  lemma RecordsOnlyShrink(w: World, s: State, e: Event, s': State)
    requires Inv(w, s) && Next(w, s, e, s') && WithoutPublishers(e)
    ensures RecordCount(s') <= RecordCount(s)
  {
    if e.RemoteCall? {
      RemoteCallCount(w, s, e.ok, s');
    } else if e.Take? {
      TakeBase(w, s, s');
      assert BatchFits(w, s');
    }
  }

  lemma RemoteCallCount(w: World, s: State, ok: bool, s': State)
    requires ListedAreThere(w, s) && Next(w, s, RemoteCall(ok), s')
    ensures RecordCount(s') <= RecordCount(s)
  {
    var r := s.scheduler.phase.request;
    var p, q := (r.protectedCid, InFlightName(r.name)), (r.protectedCid, r.name);
    if s.remote.MigrateAdd? {
      assert s'.records == s.records || s'.records == s.records + {q};
      assert |s.records + {q}| <= |s.records| + 1;
    } else if s.remote.MigrateRemove? && ok {
      assert s'.records == s.records - {p};
      assert |s.records| == |s.records - {p}| + 1;
    } else {
      OthersDoNotAdd(w, s, ok, s');
    }
  }

  lemma OthersDoNotAdd(w: World, s: State, ok: bool, s': State)
    requires Next(w, s, RemoteCall(ok), s') && !s.remote.MigrateAdd? && !(s.remote.MigrateRemove? && ok)
    ensures |s'.records| <= |s.records| && !s'.remote.MigrateAdd?
  {
    var r := s.scheduler.phase.request;
    if s.remote.ListTemp? && ok {
      var temps :| ListsRemote(s.records, InFlightName(r.name), temps)
                   && s'.remote == RemotePass.Decide(r, s.remote.finals, temps);
    }
    assert s'.records <= s.records;
    Smaller(s'.records, s.records);
  }

  lemma Smaller<T>(a: set<T>, b: set<T>)
    requires a <= b
    ensures |a| <= |b|
  {
    assert b == a + (b - a);
  }

  /** At most so many pins and so many records are there at once, from this state on. */
  ghost function Bound(s: State): nat {
    |AtStake(s)| + RecordCount(s)
  }

  /** A path of scheduler and worker alone, from a state the protocol reaches. */
  ghost predicate WorkerAlone(w: World, run: seq<State>, es: seq<Event>) {
    && WellFormed(w) && IsPath(w, run, es) && Inv(w, run[0])
    && forall i :: 0 <= i < |es| ==> WithoutPublishers(es[i])
  }

  lemma {:induction false} BoundHolds(w: World, run: seq<State>, es: seq<Event>, i: nat)
    requires WorkerAlone(w, run, es) && i < |run|
    ensures Inv(w, run[i]) && AtStake(run[i]) <= AtStake(run[0]) && RecordCount(run[i]) <= RecordCount(run[0])
  {
    if i > 0 {
      BoundHolds(w, run, es, i - 1);
      StepKeepsInv(w, run[i - 1], es[i - 1], run[i]);
      StakeOnlyShrinks(w, run[i - 1], es[i - 1], run[i]);
      RecordsOnlyShrink(w, run[i - 1], es[i - 1], run[i]);
    }
  }

  lemma OneStepOfRun(w: World, run: seq<State>, es: seq<Event>, i: nat)
    requires WorkerAlone(w, run, es) && i < |es|
    ensures var m := Bound(run[0]); Work(run[i + 1], m) < Work(run[i], m) + Extra(w, run[i], es[i], m)
  {
    BoundHolds(w, run, es, i);
    Smaller(run[i].pins.Keys, AtStake(run[0]));
    StepWork(w, run[i], es[i], run[i + 1], Bound(run[0]));
  }

  ghost predicate Falls(measure: State -> nat, extra: seq<nat>, run: seq<State>) {
    && |run| == |extra| + 1
    && forall j :: 0 <= j < |extra| ==> measure(run[j + 1]) < measure(run[j]) + extra[j]
  }

  function Sum(xs: seq<nat>): nat {
    if xs == [] then 0 else Sum(xs[..|xs| - 1]) + xs[|xs| - 1]
  }

  /** Adding up a measure that falls with every step, except for what is added. */
  lemma {:induction false} StepsUpTo(measure: State -> nat, extra: seq<nat>, run: seq<State>, i: nat)
    requires Falls(measure, extra, run) && i <= |extra|
    ensures i + measure(run[i]) <= measure(run[0]) + Sum(extra[..i])
  {
    if i > 0 {
      StepsUpTo(measure, extra, run, i - 1);
      assert extra[..i][..i - 1] == extra[..i - 1] && extra[..i][i - 1] == extra[i - 1];
    }
  }

  ghost function Measure(m: nat): State -> nat {
    s => Work(s, m)
  }

  /** What passes elsewhere add to the bound, step by step. */
  ghost function Extras(w: World, run: seq<State>, es: seq<Event>, m: nat): (extra: seq<nat>)
    requires |run| == |es| + 1
    ensures |extra| == |es| && forall i :: 0 <= i < |es| ==> extra[i] == Extra(w, run[i], es[i], m)
  {
    seq(|es|, i requires 0 <= i < |es| => Extra(w, run[i], es[i], m))
  }

  lemma MeasureFalls(w: World, run: seq<State>, es: seq<Event>)
    requires WorkerAlone(w, run, es)
    ensures var m := Bound(run[0]); Falls(Measure(m), Extras(w, run, es, m), run)
  {
    var m := Bound(run[0]);
    forall i | 0 <= i < |es|
      ensures Measure(m)(run[i + 1]) < Measure(m)(run[i]) + Extras(w, run, es, m)[i]
    {
      OneStepOfRun(w, run, es, i);
    }
  }

  lemma AllSteps(measure: State -> nat, extra: seq<nat>, run: seq<State>)
    requires Falls(measure, extra, run)
    ensures |extra| <= measure(run[0]) + Sum(extra)
  {
    StepsUpTo(measure, extra, run, |extra|);
    assert extra[..|extra|] == extra;
  }

  lemma MeasureIsWork(m: nat, s: State)
    ensures Measure(m)(s) == Work(s, m)
  {
  }

  /**
   * From any state the protocol reaches, a run without publishers has at most so many steps as the
   * measure of its first state, and a fixed number more for each rerun a pass elsewhere asks for.
   */
  lemma StepsAreBounded(w: World, run: seq<State>, es: seq<Event>)
    requires WorkerAlone(w, run, es)
    ensures var m := Bound(run[0]); |es| <= Work(run[0], m) + Sum(Extras(w, run, es, m))
  {
    var m := Bound(run[0]);
    MeasureFalls(w, run, es);
    AllSteps(Measure(m), Extras(w, run, es, m), run);
    MeasureIsWork(m, run[0]);
  }

  /** No request waits, is being entered or runs that has a pass on another node or service. */
  ghost predicate AllInView(w: World, s: State) {
    && (forall k :: k in s.scheduler.pending ==> !HasElsewhere(w, s.scheduler.pending[k]))
    && (s.scheduler.entering.Some? ==> !HasElsewhere(w, s.scheduler.entering.value))
    && (s.scheduler.phase.Running? ==> !HasElsewhere(w, s.scheduler.phase.request))
  }

  lemma StaysInView(w: World, s: State, e: Event, s': State)
    requires AllInView(w, s) && Next(w, s, e, s') && WithoutPublishers(e)
    ensures AllInView(w, s')
  {
    match e
    case Finish(otherMore) => FinishStaysInView(w, s, otherMore, s');
    case _ =>
  }

  lemma FinishStaysInView(w: World, s: State, otherMore: bool, s': State)
    requires AllInView(w, s) && Next(w, s, Finish(otherMore), s')
    ensures AllInView(w, s')
  {
    forall k | k in s'.scheduler.pending
      ensures !HasElsewhere(w, s'.scheduler.pending[k])
    {
    }
  }

  lemma {:induction false} InViewOverRun(w: World, run: seq<State>, es: seq<Event>, i: nat)
    requires WorkerAlone(w, run, es) && AllInView(w, run[0]) && i < |run|
    ensures AllInView(w, run[i])
  {
    if i > 0 {
      InViewOverRun(w, run, es, i - 1);
      StaysInView(w, run[i - 1], es[i - 1], run[i]);
    }
  }

  lemma {:induction false} SumOfNothing(xs: seq<nat>)
    requires forall i :: 0 <= i < |xs| ==> xs[i] == 0
    ensures Sum(xs) == 0
  {
    if xs != [] {
      SumOfNothing(xs[..|xs| - 1]);
    }
  }

  /** With all requests in view, the measure bounds the run outright. */
  lemma RestIsReached(w: World, run: seq<State>, es: seq<Event>)
    requires WorkerAlone(w, run, es) && AllInView(w, run[0])
    ensures |es| <= Work(run[0], Bound(run[0]))
  {
    var m := Bound(run[0]);
    StepsAreBounded(w, run, es);
    forall i | 0 <= i < |es|
      ensures Extras(w, run, es, m)[i] == 0
    {
      InViewOverRun(w, run, es, i);
    }
    SumOfNothing(Extras(w, run, es, m));
  }

  /** Unless all is at rest, scheduler or worker can take a step: nobody waits for ever. */
  lemma SomebodyCanStep(w: World, s: State) returns (e: Event, s': State)
    requires Inv(w, s)
    requires !(s.scheduler.phase.Idle? && s.scheduler.channel == [] && s.scheduler.entering.None?)
    ensures Next(w, s, e, s') && WithoutPublishers(e)
  {
    var sched := s.scheduler;
    if sched.entering.Some? {
      e := Insert;
      s' := s.(scheduler := Scheduler.Step(sched, Scheduler.Insert), lost := s.lost - Touched(w, sched.entering.value));
    } else {
      match sched.phase
      case Idle => e, s' := Receive, s.(scheduler := Scheduler.Step(sched, Scheduler.Receive));
      case Received(_) => e, s' := Take, AfterTake(w, s);
      case Delaying(_) => e, s' := Resend, s.(scheduler := Scheduler.Step(sched, Scheduler.Resend));
      case Running(_, _) =>
        if BatchOver(s) {
          e := Finish(false);
          s' := LostCopies.BatchEnds(w, s, false);
        } else {
          e, s' := LostCopies.BatchFails(w, s);
        }
    }
  }
}
