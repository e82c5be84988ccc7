/**
 * What the protocol does to the local pins of the node (src/kubo/pinning.rs:253-307), whatever else
 * goes on: an invariant of publishers, scheduler and worker together, and the end state.
 */
module PinProtocol {
  import opened Kubo
  import opened PublishSystem
  import LocalPass
  import Scheduler = CleanupScheduler

  /** The running pass only handles CIDs that belong to its name, and never removes the protected one. */
  ghost predicate PassWithinName(w: World, s: State) {
    s.scheduler.phase.Running? && Touches(w, Pins, s.scheduler.phase.request) ==>
      var r := s.scheduler.phase.request;
      && LocalPass.NeverTargetsProtected(r, s.local)
      && (s.local.ListTemp? ==> forall c :: c in s.local.finals ==> Belongs(w, c, r.name))
      && (s.local.Remove? ==> forall c :: c in s.local.todo ==> Belongs(w, c, r.name))
  }

  /** Undisturbed and without failures it is on track. */
  ghost predicate PassOnTrack(w: World, s: State) {
    Undisturbed(w, s, Pins) ==> LocalPass.OnTrack(s.scheduler.phase.request, LocalPass.State(s.local, s.pins))
  }

  ghost predicate IdleNamesSettled(w: World, s: State) {
    forall n, k :: Idle(w, s, Pins, n, k) ==> LocalPass.Settled(s.scheduler.accepted[k], s.pins)
  }

  ghost predicate Inv(w: World, s: State) {
    && BaseInv(w, s) && OwnedPins(w, s.pins)
    && PassWithinName(w, s) && PassOnTrack(w, s) && IdleNamesSettled(w, s)
  }

  // ---- framing ----

  /** Only CIDs that belong to `m` differ. */
  ghost predicate OnlyTouches(w: World, m: Name, pins: LocalPins, pins': LocalPins) {
    forall c :: !Belongs(w, c, m) ==> (c in pins <==> c in pins') && (c in pins ==> pins[c] == pins'[c])
  }

  /** What is said about a request of a guarded name depends on the CIDs of that name only. */
  lemma OtherNamesUnaffected(w: World, m: Name, r: Request, pins: LocalPins, pins': LocalPins)
    requires WellFormed(w) && OwnedPins(w, pins) && OwnedPins(w, pins') && OnlyTouches(w, m, pins, pins')
    requires w.guarded(r.name) && r.name != m && MayPublish(w, r.name, r.protectedCid)
    ensures LocalPass.StaleSet(r, pins') == LocalPass.StaleSet(r, pins)
    ensures LocalPass.Settled(r, pins) <==> LocalPass.Settled(r, pins')
    ensures forall pc :: LocalPass.OnTrack(r, LocalPass.State(pc, pins)) ==>
                         LocalPass.OnTrack(r, LocalPass.State(pc, pins'))
  {
    forall c
      ensures (c in pins && LocalPass.OwnName(r, pins[c])) <==> (c in pins' && LocalPass.OwnName(r, pins'[c]))
      ensures (c in pins && pins[c] == r.name) <==> (c in pins' && pins'[c] == r.name)
    {
      if Belongs(w, c, r.name) {
        assert !Belongs(w, c, m) || w.owner(c) != r.name;
      }
    }
  }

  lemma AddKeepsOwned(w: World, n: Name, c: Cid, name: Name, pins: LocalPins)
    requires WellFormed(w) && OwnedPins(w, pins) && MayPublish(w, n, c) && (name == n || name == InFlightName(n))
    ensures OwnedPins(w, pins[c := name]) && OnlyTouches(w, n, pins, pins[c := name])
  {
    forall m | w.named(m) && (name == m || name == InFlightName(m))
      ensures Belongs(w, c, m)
    {
      if name == InFlightName(m) && name == InFlightName(n) {
        InFlightNameInjective(m, n);
      }
    }
  }

  // ---- the invariant ----

  lemma InitialInv(w: World, s: State, capacity: nat)
    requires Initial(s, capacity) && OwnedPins(w, s.pins)
    ensures Inv(w, s)
  {
  }

  /** Pins change within one name that is not quiet afterwards; nothing becomes quiet. */
  lemma PinsOfOneName(w: World, s: State, m: Name, s': State)
    requires WellFormed(w) && Inv(w, s) && BaseInv(w, s') && PassWithinName(w, s')
    requires OwnedPins(w, s'.pins) && OnlyTouches(w, m, s.pins, s'.pins)
    requires s'.scheduler == s.scheduler && s'.local == s.local && s.failed <= s'.failed
    requires forall n :: Quiet(w, s', Pins, n) ==> Quiet(w, s, Pins, n)
    requires s'.pins != s.pins ==> !Quiet(w, s', Pins, m)
    ensures Inv(w, s')
  {
    if Undisturbed(w, s', Pins) && s'.pins != s.pins {
      OtherNamesUnaffected(w, m, s.scheduler.phase.request, s.pins, s'.pins);
    }
    forall n, k | Idle(w, s', Pins, n, k)
      ensures LocalPass.Settled(s'.scheduler.accepted[k], s'.pins)
    {
      assert Idle(w, s, Pins, n, k);
      IdleIsOther(w, s, Pins, n, k);
      if s'.pins != s.pins {
        OtherNamesUnaffected(w, m, s.scheduler.accepted[k], s.pins, s'.pins);
      }
    }
  }

  lemma PublisherStep(w: World, s: State, e: Event, s': State)
    requires WellFormed(w) && Inv(w, s) && Next(w, s, e, s') && IsPublishers(e)
    ensures Inv(w, s')
  {
    var m := PublishedName(s, e);
    PublisherBase(w, s, e, s');
    if e.PinFresh? {
      AddKeepsOwned(w, m, e.cid, InFlightName(m), s.pins);
    } else if e.PinPlain? {
      AddKeepsOwned(w, m, e.cid, m, s.pins);
    }
    forall n | Quiet(w, s', Pins, n)
      ensures Quiet(w, s, Pins, n)
    {
      PublisherQuiet(w, s, e, s', Pins, n);
    }
    if s'.pins != s.pins {
      PublisherInMotion(w, s, e, s', Pins);
    }
    PinsOfOneName(w, s, m, s');
  }

  /** The scheduler moves; no pin changes. */
  lemma SchedulerStep(w: World, s: State, e: Event, s': State)
    requires WellFormed(w) && Inv(w, s) && SchedulerMoves(e) && Next(w, s, e, s')
    ensures Inv(w, s')
  {
    SchedulerStepBase(w, s, e, s');
    if Undisturbed(w, s', Pins) {
      SchedulerStepQuiet(w, s, e, s', Pins, s'.scheduler.phase.request.name);
      assert Undisturbed(w, s, Pins);
    }
    forall n, k | Idle(w, s', Pins, n, k)
      ensures LocalPass.Settled(s'.scheduler.accepted[k], s'.pins)
    {
      SchedulerStepIdle(w, s, e, s', Pins, n, k);
    }
  }

  lemma TakeStep(w: World, s: State, s': State)
    requires WellFormed(w) && Inv(w, s) && Next(w, s, Take, s')
    ensures Inv(w, s')
  {
    TakeBase(w, s, s');
    forall n, k | Idle(w, s', Pins, n, k)
      ensures LocalPass.Settled(s'.scheduler.accepted[k], s'.pins)
    {
      TakeIdle(w, s, s', Pins, n, k);
    }
  }

  /** A call of the pass touches CIDs of its own name only, and will go on doing so. */
  lemma CallStaysWithinName(w: World, s: State, ok: bool, s': State)
    requires WellFormed(w) && OwnedPins(w, s.pins) && RequestsFit(w, s) && PassWithinName(w, s)
    requires Next(w, s, Call(ok), s')
    ensures OwnedPins(w, s'.pins) && OnlyTouches(w, s.scheduler.phase.request.name, s.pins, s'.pins)
    ensures PassWithinName(w, s')
  {
    var r := s.scheduler.phase.request;
    LocalPass.ProtectedPinKept(r, LocalPass.State(s.local, s.pins), ok, LocalPass.State(s'.local, s'.pins));
    match s.local
    case ListTemp(finals) =>
      if ok {
        var temps :| ListsLocal(s.pins, InFlightName(r.name), temps) && s'.local == LocalPass.Decide(r, finals, temps);
        if s'.local.Remove? {
          forall c | c in s'.local.todo
            ensures Belongs(w, c, r.name)
          {
            assert c in finals + temps;
          }
        }
      }
    case Remove(todo, _) =>
      assert todo[0] in todo;
    case Finalise =>
      AddKeepsOwned(w, r.name, r.protectedCid, r.name, s.pins);
    case _ =>
  }

  lemma CallStep(w: World, s: State, ok: bool, s': State)
    requires WellFormed(w) && Inv(w, s) && Next(w, s, Call(ok), s')
    ensures Inv(w, s')
  {
    var r := s.scheduler.phase.request;
    CallStaysWithinName(w, s, ok, s');
    CallBase(w, s, Call(ok), s');
    CallQuiet(w, s, Call(ok), s');
    if Undisturbed(w, s', Pins) {
      assert ok && Undisturbed(w, s, Pins);
      LocalPass.OnTrackStep(r, LocalPass.State(s.local, s.pins), LocalPass.State(s'.local, s'.pins));
    }
    forall n, k | Idle(w, s', Pins, n, k)
      ensures LocalPass.Settled(s'.scheduler.accepted[k], s'.pins)
    {
      assert Idle(w, s, Pins, n, k);
      IdleIsOther(w, s, Pins, n, k);
      OtherNamesUnaffected(w, r.name, s.scheduler.accepted[k], s.pins, s'.pins);
    }
  }

  lemma RemoteCallStep(w: World, s: State, ok: bool, s': State)
    requires WellFormed(w) && Inv(w, s) && Next(w, s, RemoteCall(ok), s')
    ensures Inv(w, s')
  {
    CallBase(w, s, RemoteCall(ok), s');
    CallQuiet(w, s, RemoteCall(ok), s');
    PinsOfOneName(w, s, s.scheduler.phase.request.name, s');
  }

  /** Undisturbed, and not asking for more: the pass ended clean, and settled its name. */
  lemma FinishStep(w: World, s: State, otherMore: bool, s': State)
    requires WellFormed(w) && Inv(w, s) && Next(w, s, Finish(otherMore), s')
    ensures Inv(w, s')
  {
    FinishBase(w, s, otherMore, s');
    forall n, k | Idle(w, s', Pins, n, k)
      ensures LocalPass.Settled(s'.scheduler.accepted[k], s'.pins)
    {
      FinishIdle(w, s, otherMore, s', Pins, n, k);
    }
  }

  lemma StepKeepsInv(w: World, s: State, e: Event, s': State)
    requires WellFormed(w) && Inv(w, s) && Next(w, s, e, s')
    ensures Inv(w, s')
  {
    if IsPublishers(e) {
      PublisherStep(w, s, e, s');
    } else if SchedulerMoves(e) {
      SchedulerStep(w, s, e, s');
    } else {
      WorkerStep(w, s, e, s');
    }
  }

  lemma WorkerStep(w: World, s: State, e: Event, s': State)
    requires WellFormed(w) && Inv(w, s) && Next(w, s, e, s') && !IsPublishers(e) && !SchedulerMoves(e)
    ensures Inv(w, s')
  {
    match e
    case Take => TakeStep(w, s, s');
    case Call(ok) => CallStep(w, s, ok, s');
    case RemoteCall(ok) => RemoteCallStep(w, s, ok, s');
    case Finish(otherMore) => FinishStep(w, s, otherMore, s');
  }

  lemma {:induction false} RunKeepsInv(w: World, capacity: nat, run: seq<State>, es: seq<Event>, i: nat)
    requires WellFormed(w) && IsRun(w, capacity, run, es) && i < |run|
    ensures Inv(w, run[i])
  {
    if i == 0 {
      InitialInv(w, run[0], capacity);
    } else {
      RunKeepsInv(w, capacity, run, es, i - 1);
      StepKeepsInv(w, run[i - 1], es[i - 1], run[i]);
    }
  }

  // ---- the end ----

  /** The name holds exactly this CID, under the final name. */
  ghost predicate HoldsExactly(pins: LocalPins, n: Name, cid: Cid) {
    && cid in pins && pins[cid] == n
    && forall c :: c in pins && (pins[c] == n || pins[c] == InFlightName(n)) ==> c == cid
  }

  /**
   * Whatever the interleaving was: when all is at rest, every guarded name whose requests had one key,
   * whose cleanup was not lost since the last of them and whose key is not stranded, holds exactly the
   * CID of the last accepted request, under its final name.
   */
  lemma EndState(w: World, capacity: nat, run: seq<State>, es: seq<Event>, n: Name, k: Scheduler.Key)
    requires WellFormed(w) && IsRun(w, capacity, run, es)
    requires var s := run[|run| - 1]; AtRest(s) && (Pins, n) !in s.lost && k !in s.scheduler.stranded
    requires w.guarded(n) && OnlyKeyUsed(w, run, es, Pins, n, k)
    ensures HoldsExactly(run[|run| - 1].pins, n, LastRequest(w, run, es, k).value.protectedCid)
  {
    var s := run[|run| - 1];
    OnlyKeyOfRun(w, capacity, run, es, Pins, n, k);
    RunKeepsInv(w, capacity, run, es, |run| - 1);
    IdleAtRest(w, s, Pins, n, k);
    IdleIsOther(w, s, Pins, n, k);
    var r := s.scheduler.accepted[k];
    assert LocalPass.Settled(r, s.pins);
    forall c | c in s.pins && (s.pins[c] == n || s.pins[c] == InFlightName(n))
      ensures c == r.protectedCid
    {
      assert c !in LocalPass.StaleSet(r, s.pins);
    }
  }

  /** In particular when all goes well, and no more keys are in use than the channel has slots. */
  lemma EndStateWhenAllGoesWell(
      w: World, capacity: nat, run: seq<State>, es: seq<Event>, keys: set<Scheduler.Key>, n: Name, k: Scheduler.Key)
    requires WellFormed(w) && IsRun(w, capacity, run, es) && AtRest(run[|run| - 1])
    requires 1 <= capacity && |keys| <= capacity
    requires forall i :: 0 <= i < |es| ==> Uses(es[i], keys) && (GoesWell(w, run[i], es[i]) || IsRefused(es[i]))
    requires w.guarded(n) && OnlyKeyUsed(w, run, es, Pins, n, k)
    ensures HoldsExactly(run[|run| - 1].pins, n, LastRequest(w, run, es, k).value.protectedCid)
  {
    AllCleanedUp(w, capacity, run, es, keys);
    EndState(w, capacity, run, es, n, k);
  }
}
