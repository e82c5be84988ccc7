/**
 * Runs of the replacement protocol (src/ipfs/publish.rs:508-595, src/kubo/pinning.rs:206-401) in which
 * every call succeeds and every schedule is accepted. One ends as `EndState` says; the others show
 * what its conditions are for.
 */
module PublishRuns {
  import opened Wrappers
  import opened Kubo
  import opened PublishSystem
  import LocalPass
  import RemotePass
  import PinProtocol
  import RecordProtocol
  import LostCopies
  import Scheduler = CleanupScheduler

  /** The run, in which all goes well, has come to this state. */
  ghost predicate Reached(w: World, capacity: nat, run: seq<State>, es: seq<Event>, s: State) {
    && IsRun(w, capacity, run, es) && run[|run| - 1] == s
    && forall i :: 0 <= i < |es| ==> GoesWell(w, run[i], es[i])
  }

  lemma Extended(w: World, capacity: nat, run: seq<State>, es: seq<Event>, e: Event, s: State)
    returns (run': seq<State>, es': seq<Event>)
    requires run != [] && Reached(w, capacity, run, es, run[|run| - 1])
    requires Next(w, run[|run| - 1], e, s) && GoesWell(w, run[|run| - 1], e)
    ensures run' == run + [s] && es' == es + [e] && Reached(w, capacity, run', es', s)
  {
    run', es' := run + [s], es + [e];
    forall i | 0 <= i < |es'|
      ensures Next(w, run'[i], es'[i], run'[i + 1]) && GoesWell(w, run'[i], es'[i])
    {
      if i < |es| {
        assert run'[i] == run[i] && run'[i + 1] == run[i + 1] && es'[i] == es[i];
      }
    }
  }

  // ---- publishing ----

  /** Nobody publishes or holds the lock, and nothing was lost. */
  predicate Calm(s: State) {
    s.publishing == map[] && s.lost == {} && s.scheduler.entering.None?
  }

  /** A publisher's pin, and its record if it asks for remote cleanup. */
  function Published(w: World, s: State, r: Request): State {
    var sides := if Touches(w, Records, r) then {Pins, Records} else {Pins};
    s.(pins := s.pins[r.protectedCid := InFlightName(r.name)],
       records := if Touches(w, Records, r) then s.records + {(r.protectedCid, r.name)} else s.records,
       publishing := map[0 := Publication(r.name, r.protectedCid, sides)])
  }

  lemma Publishes(w: World, capacity: nat, run: seq<State>, es: seq<Event>, s: State, r: Request)
    returns (run': seq<State>, es': seq<Event>)
    requires Reached(w, capacity, run, es, s) && Calm(s) && MayPublish(w, r.name, r.protectedCid)
    ensures Reached(w, capacity, run', es', Published(w, s, r))
    ensures run <= run' && |es'| == |es| + if Touches(w, Records, r) then 2 else 1
  {
    var n, c := r.name, r.protectedCid;
    var pinned := s.(pins := s.pins[c := InFlightName(n)], publishing := map[0 := Publication(n, c, {Pins})]);
    run', es' := Extended(w, capacity, run, es, PinFresh(0, n, c, true, true), pinned);
    if Touches(w, Records, r) {
      assert {Records} + {Pins} == {Pins, Records};
      assert WithRecord(pinned.publishing, 0, n, c) == map[0 := Publication(n, c, {Pins, Records})];
      run', es' := Extended(w, capacity, run', es', AddRecord(0, n, c, true), Published(w, s, r));
    }
  }

  /** The state once the publisher's request is accepted. */
  function Accepted(s: State, r: Request): State {
    var k := Scheduler.KeyOf(r);
    s.(publishing := map[],
       scheduler := s.scheduler.(channel := s.scheduler.channel + [k], pending := s.scheduler.pending[k := r],
                                 accepted := s.scheduler.accepted[k := r]))
  }

  lemma HandsRequestOver(w: World, capacity: nat, run: seq<State>, es: seq<Event>, s: State, r: Request)
    returns (run': seq<State>, es': seq<Event>)
    requires Reached(w, capacity, run, es, s) && MayPublish(w, r.name, r.protectedCid) && Touches(w, Pins, r)
    requires s.lost == {} && s.scheduler.entering.None?
    requires exists sides :: s.publishing == map[0 := Publication(r.name, r.protectedCid, sides)]
                             && forall d :: d in sides ==> Touches(w, d, r)
    requires Scheduler.KeyOf(r) !in s.scheduler.pending && |s.scheduler.channel| < s.scheduler.capacity
    ensures Reached(w, capacity, run', es', Accepted(s, r)) && run <= run'
  {
    assert LeftBy(w, s.publishing[0], r) == {};
    assert s.publishing - {0} == map[];
    var sent := s.(scheduler := Scheduler.Step(s.scheduler, Scheduler.Send(r)), publishing := map[]);
    run', es' := Extended(w, capacity, run, es, Schedule(Some(0), Scheduler.Send(r)), sent);
    run', es' := Extended(w, capacity, run', es', Insert, Accepted(s, r));
  }

  /** A publication from the first pin to the accepted request. */
  lemma PublishesAndSchedules(w: World, capacity: nat, run: seq<State>, es: seq<Event>, s: State, r: Request)
    returns (run': seq<State>, es': seq<Event>)
    requires Reached(w, capacity, run, es, s) && Calm(s)
    requires MayPublish(w, r.name, r.protectedCid) && Touches(w, Pins, r)
    requires Scheduler.KeyOf(r) !in s.scheduler.pending && |s.scheduler.channel| < s.scheduler.capacity
    ensures Reached(w, capacity, run', es', Accepted(Published(w, s, r), r)) && run <= run'
  {
    run', es' := Publishes(w, capacity, run, es, s, r);
    run', es' := HandsRequestOver(w, capacity, run', es', Published(w, s, r), r);
  }

  // ---- the worker ----

  predicate NextInLine(s: State, r: Request) {
    var k := Scheduler.KeyOf(r);
    && s.scheduler.phase.Idle? && s.scheduler.entering.None? && s.scheduler.channel != []
    && s.scheduler.channel[0] == k && k in s.scheduler.pending && s.scheduler.pending[k] == r
  }

  /** The state once the worker has taken the request that is next in line. */
  function Taken(w: World, s: State, r: Request): State
    requires NextInLine(s, r)
  {
    AfterTake(w, s.(scheduler := Scheduler.Step(s.scheduler, Scheduler.Receive)))
  }

  lemma Takes(w: World, capacity: nat, run: seq<State>, es: seq<Event>, s: State, r: Request)
    returns (run': seq<State>, es': seq<Event>)
    requires Reached(w, capacity, run, es, s) && NextInLine(s, r)
    ensures Reached(w, capacity, run', es', Taken(w, s, r)) && run <= run'
  {
    var received := s.(scheduler := Scheduler.Step(s.scheduler, Scheduler.Receive));
    run', es' := Extended(w, capacity, run, es, Receive, received);
    run', es' := Extended(w, capacity, run', es', Take, Taken(w, s, r));
  }

  /** The batch has taken its request, and no call has been made. */
  predicate Beginning(w: World, s: State) {
    && s.scheduler.phase.Running? && s.failed == {}
    && Touches(w, Pins, s.scheduler.phase.request) && s.local.ListFinal?
  }

  /** The local pass lists both names. */
  lemma Lists(w: World, capacity: nat, run: seq<State>, es: seq<Event>, s: State)
    returns (run': seq<State>, es': seq<Event>, finals: seq<Cid>, temps: seq<Cid>)
    requires Reached(w, capacity, run, es, s) && Beginning(w, s)
    ensures var r := s.scheduler.phase.request;
      && ListsLocal(s.pins, r.name, finals) && ListsLocal(s.pins, InFlightName(r.name), temps)
      && Reached(w, capacity, run', es', s.(local := LocalPass.Decide(r, finals, temps)))
    ensures run <= run' && es' == es + [Call(true), Call(true)]
  {
    var r := s.scheduler.phase.request;
    finals := SomeListing(s.pins, r.name);
    temps := SomeListing(s.pins, InFlightName(r.name));
    run', es' := Extended(w, capacity, run, es, Call(true), s.(local := LocalPass.ListTemp(finals)));
    run', es' := Extended(w, capacity, run', es', Call(true), s.(local := LocalPass.Decide(r, finals, temps)));
  }

  /**
   * Two listings without repeats, of different names, with one stale CID between them: that is all
   * there is to remove.
   */
  lemma OneToRemove(r: Request, pins: LocalPins, finals: seq<Cid>, temps: seq<Cid>, c: Cid)
    requires ListsLocal(pins, r.name, finals) && ListsLocal(pins, InFlightName(r.name), temps)
    requires LocalPass.StaleSet(r, pins) == {c}
    ensures LocalPass.Decide(r, finals, temps) == LocalPass.Remove([c], false)
  {
    var all, p := finals + temps, r.protectedCid;
    var stale := LocalPass.StalePins(all, p);
    LocalPass.DecideIsRight(r, pins, finals, temps);
    LocalPass.StalePinsKeepCount(all, p);
    assert forall x :: x in stale <==> x == c;
    CountOfDistinct(finals, c);
    CountOfDistinct(temps, c);
    assert multiset(all) == multiset(finals) + multiset(temps);
    assert !(c in finals && c in temps);
    CountOfAll(stale, c);
    assert |stale| == 1 && stale[0] in stale;
  }

  lemma {:induction false} CountOfDistinct(xs: seq<Cid>, c: Cid)
    requires Distinct(xs)
    ensures multiset(xs)[c] == if c in xs then 1 else 0
  {
    if xs != [] {
      var rest := xs[1..];
      assert xs == [xs[0]] + rest;
      assert forall i :: 0 <= i < |rest| ==> rest[i] == xs[i + 1];
      CountOfDistinct(rest, c);
    }
  }

  lemma {:induction false} CountOfAll(xs: seq<Cid>, c: Cid)
    requires forall x :: x in xs ==> x == c
    ensures multiset(xs)[c] == |xs|
  {
    if xs != [] {
      assert xs == [xs[0]] + xs[1..];
      assert xs[0] in xs && forall x :: x in xs[1..] ==> x in xs;
      CountOfAll(xs[1..], c);
    }
  }

  /** The local pass removes the one stale pin, and will ask for more. */
  lemma RemovesPin(w: World, capacity: nat, run: seq<State>, es: seq<Event>, s: State, c: Cid)
    returns (run': seq<State>, es': seq<Event>)
    requires Reached(w, capacity, run, es, s) && Beginning(w, s)
    requires LocalPass.StaleSet(s.scheduler.phase.request, s.pins) == {c}
    ensures Reached(w, capacity, run', es', s.(local := LocalPass.Done(true), pins := s.pins - {c}))
    ensures run <= run' && es' == es + [Call(true), Call(true), Call(true)]
  {
    var finals, temps;
    run', es', finals, temps := Lists(w, capacity, run, es, s);
    OneToRemove(s.scheduler.phase.request, s.pins, finals, temps, c);
    run', es' := Extended(w, capacity, run', es', Call(true), s.(local := LocalPass.Done(true), pins := s.pins - {c}));
  }

  /** With nothing stale, the local pass renames the CID of its request, or pins it again. */
  lemma Finalises(w: World, capacity: nat, run: seq<State>, es: seq<Event>, s: State)
    returns (run': seq<State>, es': seq<Event>)
    requires Reached(w, capacity, run, es, s) && Beginning(w, s)
    requires LocalPass.StaleSet(s.scheduler.phase.request, s.pins) == {}
    requires !LocalPass.Settled(s.scheduler.phase.request, s.pins)
    ensures var r := s.scheduler.phase.request;
      Reached(w, capacity, run', es', s.(local := LocalPass.Done(false), pins := s.pins[r.protectedCid := r.name]))
    ensures run <= run'
  {
    var r := s.scheduler.phase.request;
    var finals, temps;
    run', es', finals, temps := Lists(w, capacity, run, es, s);
    LocalPass.DecideIsRight(r, s.pins, finals, temps);
    var renamed := s.(local := LocalPass.Done(false), pins := s.pins[r.protectedCid := r.name]);
    run', es' := Extended(w, capacity, run', es', Call(true), renamed);
  }

  /** The remote pass, if there is one, finds nothing to do. */
  lemma NothingRemote(w: World, capacity: nat, run: seq<State>, es: seq<Event>, s: State)
    returns (run': seq<State>, es': seq<Event>)
    requires Reached(w, capacity, run, es, s) && s.scheduler.phase.Running? && s.local.Done? && s.failed == {}
    requires var r := s.scheduler.phase.request;
      if Touches(w, Records, r)
      then s.remote.ListFinal? && RecordProtocol.RecordsOf(s.records, r.name) <= {(r.protectedCid, r.name)}
      else s.remote == RemotePass.Done(false)
    ensures Reached(w, capacity, run', es', s.(remote := RemotePass.Done(false))) && run <= run'
  {
    var r := s.scheduler.phase.request;
    run', es' := run, es;
    if Touches(w, Records, r) {
      NothingStaleRemote(r, s.records);
      var finals := LostCopies.SomeRecordListing(s.records, r.name);
      var temps := LostCopies.SomeRecordListing(s.records, InFlightName(r.name));
      RemotePass.DecideIsRight(r, s.records, finals, temps);
      var listed := s.(remote := RemotePass.ListTemp(finals));
      run', es' := Extended(w, capacity, run', es', RemoteCall(true), listed);
      run', es' := Extended(w, capacity, run', es', RemoteCall(true), s.(remote := RemotePass.Done(false)));
    }
  }

  lemma NothingStaleRemote(r: Request, records: RemotePins)
    requires RecordProtocol.RecordsOf(records, r.name) <= {(r.protectedCid, r.name)}
    ensures RemotePass.StaleSet(r, records) == {} && (r.protectedCid, InFlightName(r.name)) !in records
  {
    forall p | p in records && LocalPass.OwnName(r, p.1)
      ensures p == (r.protectedCid, r.name)
    {
      assert p in RecordProtocol.RecordsOf(records, r.name);
    }
  }

  /** The batch is over, and its request gets in line again. */
  function InLine(s: State): State
    requires s.scheduler.phase.Running?
  {
    var k, r := s.scheduler.phase.key, s.scheduler.phase.request;
    s.(scheduler := s.scheduler.(phase := Scheduler.Idle, channel := s.scheduler.channel + [k],
                                 pending := s.scheduler.pending[k := r]))
  }

  lemma AsksAgain(w: World, capacity: nat, run: seq<State>, es: seq<Event>, s: State)
    returns (run': seq<State>, es': seq<Event>)
    requires Reached(w, capacity, run, es, s) && BatchOver(s) && s.failed == {} && BatchMore(w, s, false)
    requires s.scheduler.entering.None? && s.scheduler.phase.key !in s.scheduler.pending
    requires |s.scheduler.channel| < s.scheduler.capacity
    ensures Reached(w, capacity, run', es', InLine(s)) && run <= run'
  {
    var more := Scheduler.Step(s.scheduler, Scheduler.Finish(true));
    run', es' := Extended(w, capacity, run, es, Finish(false), s.(scheduler := more));
    run', es' := Extended(w, capacity, run', es', Resend, s.(scheduler := Scheduler.Step(more, Scheduler.Resend)));
  }

  /** The batch is over for good, or somebody else waits for its key. */
  lemma Ends(w: World, capacity: nat, run: seq<State>, es: seq<Event>, s: State)
    returns (run': seq<State>, es': seq<Event>)
    requires Reached(w, capacity, run, es, s) && BatchOver(s) && s.failed == {} && s.scheduler.entering.None?
    requires BatchMore(w, s, false) ==> s.scheduler.phase.key in s.scheduler.pending
    ensures Reached(w, capacity, run', es', s.(scheduler := s.scheduler.(phase := Scheduler.Idle))) && run <= run'
  {
    var idle := s.(scheduler := s.scheduler.(phase := Scheduler.Idle));
    assert s.lost + (set d | d in s.failed :: (d, s.scheduler.phase.request.name)) == s.lost;
    run', es' := Extended(w, capacity, run, es, Finish(false), idle);
  }

  // ---- whole batches ----

  ghost predicate RemoteIsIdle(w: World, s: State, r: Request) {
    Touches(w, Records, r) ==> forall p :: p in s.records && LocalPass.OwnName(r, p.1) ==> p == (r.protectedCid, r.name)
  }

  lemma RemoteHasNothing(w: World, s: State, r: Request)
    requires RemoteIsIdle(w, s, r) && Touches(w, Records, r)
    ensures RecordProtocol.RecordsOf(s.records, r.name) <= {(r.protectedCid, r.name)}
  {
  }

  /** The next in line removes the one stale pin, and gets in line again. */
  lemma Round(w: World, capacity: nat, run: seq<State>, es: seq<Event>, s: State, r: Request, c: Cid)
    returns (run': seq<State>, es': seq<Event>, s': State)
    requires Reached(w, capacity, run, es, s) && NextInLine(s, r) && Touches(w, Pins, r) && RemoteIsIdle(w, s, r)
    requires LocalPass.StaleSet(r, s.pins) == {c} && |s.scheduler.channel| <= s.scheduler.capacity
    ensures Reached(w, capacity, run', es', s') && run <= run'
    ensures s'.pins == s.pins - {c} && s'.records == s.records && s'.publishing == s.publishing && s'.lost == s.lost
    ensures s'.scheduler == s.scheduler.(channel := s.scheduler.channel[1..] + [Scheduler.KeyOf(r)])
  {
    var k, taken := Scheduler.KeyOf(r), Taken(w, s, r);
    run', es' := Takes(w, capacity, run, es, s, r);
    run', es' := RemovesPin(w, capacity, run', es', taken, c);
    var removed := taken.(local := LocalPass.Done(true), pins := s.pins - {c});
    if Touches(w, Records, r) {
      RemoteHasNothing(w, removed, r);
    }
    run', es' := NothingRemote(w, capacity, run', es', removed);
    var over := removed.(remote := RemotePass.Done(false));
    run', es' := AsksAgain(w, capacity, run', es', over);
    s' := InLine(over);
    assert (s.scheduler.pending - {k})[k := r] == s.scheduler.pending;
  }

  /** The next in line settles its name, and is done with. */
  lemma LastRound(w: World, capacity: nat, run: seq<State>, es: seq<Event>, s: State, r: Request)
    returns (run': seq<State>, es': seq<Event>, s': State)
    requires Reached(w, capacity, run, es, s) && NextInLine(s, r) && Touches(w, Pins, r) && RemoteIsIdle(w, s, r)
    requires LocalPass.StaleSet(r, s.pins) == {} && !LocalPass.Settled(r, s.pins)
    ensures Reached(w, capacity, run', es', s') && run <= run'
    ensures s'.pins == s.pins[r.protectedCid := r.name] && s'.records == s.records
    ensures s'.publishing == s.publishing && s'.lost == s.lost
    ensures s'.scheduler == s.scheduler.(channel := s.scheduler.channel[1..],
                                         pending := s.scheduler.pending - {Scheduler.KeyOf(r)})
  {
    var taken := Taken(w, s, r);
    run', es' := Takes(w, capacity, run, es, s, r);
    run', es' := Finalises(w, capacity, run', es', taken);
    var renamed := taken.(local := LocalPass.Done(false), pins := s.pins[r.protectedCid := r.name]);
    if Touches(w, Records, r) {
      RemoteHasNothing(w, renamed, r);
    }
    run', es' := NothingRemote(w, capacity, run', es', renamed);
    var over := renamed.(remote := RemotePass.Done(false));
    run', es' := Ends(w, capacity, run', es', over);
    s' := over.(scheduler := over.scheduler.(phase := Scheduler.Idle));
  }

  lemma StaleAmong(r: Request, pins: LocalPins, c: Cid)
    requires pins.Keys <= {c, r.protectedCid} && c != r.protectedCid && c in pins && LocalPass.OwnName(r, pins[c])
    ensures LocalPass.StaleSet(r, pins) == {c}
  {
  }

  function Start(capacity: nat, pins: LocalPins): State {
    State(Scheduler.Init(capacity), pins, {}, LocalPass.Done(false), RemotePass.Done(false), {}, map[], {}, {})
  }

  /** One guarded name. */
  function OneName(node: string, service: string, n: Name): World {
    World(node, service, m => m == n, m => m == n, c => n)
  }

  lemma OneNameIsWellFormed(node: string, service: string, n: Name)
    ensures WellFormed(OneName(node, service, n))
  {
  }

  // ---- a publication that goes well ----

  /** The run that `EndState` is about exists: one publication on an empty node comes to rest with its CID in place. */
  lemma OnePublicationSettles(w: World, r: Request) returns (run: seq<State>, es: seq<Event>, s: State)
    requires w == OneName(w.node, w.service, r.name) && Touches(w, Pins, r)
    ensures WellFormed(w) && Reached(w, 1, run, es, s) && AtRest(s) && s.lost == {} && s.scheduler.stranded == {}
    ensures OnlyKey(w, s, Pins, r.name, Scheduler.KeyOf(r)) && s.scheduler.accepted[Scheduler.KeyOf(r)] == r
    ensures PinProtocol.HoldsExactly(s.pins, r.name, r.protectedCid)
    ensures s.records == if Touches(w, Records, r) then {(r.protectedCid, r.name)} else {}
  {
    OneNameIsWellFormed(w.node, w.service, r.name);
    s := Start(1, map[]);
    run, es := [s], [];
    run, es := PublishesAndSchedules(w, 1, run, es, s, r);
    s := Accepted(Published(w, s, r), r);
    assert LocalPass.StaleSet(r, s.pins) == {};
    run, es, s := LastRound(w, 1, run, es, s, r);
  }

  // ---- one name, two keys ----

  /** Two requests for the name, whose keys differ. */
  ghost predicate Conflicting(w: World, older: Request, newer: Request) {
    && w == OneName(w.node, w.service, older.name) && older.name == newer.name
    && Touches(w, Pins, older) && Touches(w, Pins, newer)
    && Scheduler.KeyOf(older) != Scheduler.KeyOf(newer) && older.protectedCid != newer.protectedCid
  }

  /** The older request is accepted, runs, and has removed something. */
  lemma OlderRemoves(w: World, older: Request, c0: Cid) returns (run: seq<State>, es: seq<Event>, i: nat, s: State)
    requires w == OneName(w.node, w.service, older.name) && Touches(w, Pins, older) && c0 != older.protectedCid
    ensures Reached(w, 2, run, es, s) && i < |run| && Calm(s) && BatchOver(s) && s.failed == {}
    ensures run[i].scheduler.accepted == map[Scheduler.KeyOf(older) := older]
    ensures s.pins == map[older.protectedCid := InFlightName(older.name)] && s.local == LocalPass.Done(true)
    ensures s.records == if Touches(w, Records, older) then {(older.protectedCid, older.name)} else {}
    ensures var k1 := Scheduler.KeyOf(older);
      s.scheduler == Scheduler.Init(2).(phase := Scheduler.Running(k1, older), accepted := map[k1 := older])
  {
    var k1 := Scheduler.KeyOf(older);
    run, es := [Start(2, map[c0 := older.name])], [];
    run, es := PublishesAndSchedules(w, 2, run, es, run[0], older);
    i := |run| - 1;
    s := run[i];
    StaleAmong(older, s.pins, c0);
    run, es := Takes(w, 2, run, es, s, older);
    s := Taken(w, s, older);
    run, es := RemovesPin(w, 2, run, es, s, c0);
    s := run[|run| - 1];
    if Touches(w, Records, older) {
      RemoteHasNothing(w, s, older);
    }
    run, es := NothingRemote(w, 2, run, es, s);
    s := run[|run| - 1];
    assert map[k1 := older] - {k1} == map[];
  }

  /** While the older request runs, the newer one is accepted; the older one gets in line behind it. */
  lemma BothAccepted(w: World, older: Request, newer: Request, c0: Cid)
    returns (run: seq<State>, es: seq<Event>, i: nat, s: State)
    requires Conflicting(w, older, newer) && c0 != older.protectedCid && c0 != newer.protectedCid
    ensures Reached(w, 2, run, es, s) && i < |run|
    ensures run[i].scheduler.accepted == map[Scheduler.KeyOf(older) := older]
    ensures var k1, k2, t := Scheduler.KeyOf(older), Scheduler.KeyOf(newer), InFlightName(older.name);
      && s.pins == map[older.protectedCid := t, newer.protectedCid := t]
      && OnTheWay(w, older, newer, s) && s.scheduler.channel == [k2, k1]
      && s.scheduler.pending == map[k2 := newer, k1 := older]
  {
    run, es, i, s := OlderRemoves(w, older, c0);
    var first := run;
    run, es := PublishesAndSchedules(w, 2, run, es, s, newer);
    s := Accepted(Published(w, s, newer), newer);
    run, es := AsksAgain(w, 2, run, es, s);
    s := InLine(s);
    assert run[i] == first[i];
  }

  /** What the last steps share: at most one of the two requests has recorded its CID. */
  ghost predicate OnTheWay(w: World, older: Request, newer: Request, s: State) {
    && Calm(s) && s.scheduler.phase.Idle? && s.scheduler.capacity == 2 && s.scheduler.stranded == {}
    && s.scheduler.accepted == map[Scheduler.KeyOf(older) := older, Scheduler.KeyOf(newer) := newer]
    && RemoteIsIdle(w, s, older) && RemoteIsIdle(w, s, newer)
  }

  lemma SameRecords(w: World, s: State, s': State, r: Request)
    requires s'.records == s.records && RemoteIsIdle(w, s, r)
    ensures RemoteIsIdle(w, s', r)
  {
  }

  /**
   * `EndState` needs its one key: for any two local requests of a name with different keys there is a
   * run, in which all goes well, that accepts the one and then the other, strands no key, comes to
   * rest, and leaves the name holding exactly the CID of the older request.
   */
  lemma OlderCidCanStay(w: World, older: Request, newer: Request, c0: Cid)
    returns (run: seq<State>, es: seq<Event>, i: nat, s: State)
    requires Conflicting(w, older, newer) && c0 != older.protectedCid && c0 != newer.protectedCid
    ensures WellFormed(w) && Reached(w, 2, run, es, s) && i < |run|
    ensures run[i].scheduler.accepted == map[Scheduler.KeyOf(older) := older]
    ensures AtRest(s) && s.lost == {} && s.scheduler.stranded == {} && s.scheduler.pending == map[]
    ensures s.scheduler.accepted == map[Scheduler.KeyOf(older) := older, Scheduler.KeyOf(newer) := newer]
    ensures PinProtocol.HoldsExactly(s.pins, older.name, older.protectedCid)
  {
    OneNameIsWellFormed(w.node, w.service, older.name);
    run, es, i, s := BothAccepted(w, older, newer, c0);
    var first := run;
    StaleAmong(newer, s.pins, older.protectedCid);
    run, es, s := Round(w, 2, run, es, s, newer, older.protectedCid);
    run, es, s := OlderOvertakes(w, older, newer, run, es, s);
    run, es, s := NewerSettles(w, older, newer, run, es, s);
    run, es, s := OlderSettles(w, older, newer, run, es, s);
    assert run[i] == first[i];
  }

  /** The older request removes the newer one's pin. */
  lemma OlderOvertakes(w: World, older: Request, newer: Request, run: seq<State>, es: seq<Event>, s: State)
    returns (run': seq<State>, es': seq<Event>, s': State)
    requires Reached(w, 2, run, es, s) && Conflicting(w, older, newer) && OnTheWay(w, older, newer, s)
    requires var k1, k2 := Scheduler.KeyOf(older), Scheduler.KeyOf(newer);
      s.scheduler.channel == [k1, k2] && s.scheduler.pending == map[k2 := newer, k1 := older]
    requires s.pins == map[newer.protectedCid := InFlightName(older.name)]
    ensures Reached(w, 2, run', es', s') && run <= run' && OnTheWay(w, older, newer, s')
    ensures var k1, k2 := Scheduler.KeyOf(older), Scheduler.KeyOf(newer);
      s'.scheduler.channel == [k2, k1] && s'.scheduler.pending == map[k2 := newer, k1 := older]
    ensures s'.pins == map[]
  {
    StaleAmong(older, s.pins, newer.protectedCid);
    run', es', s' := Round(w, 2, run, es, s, older, newer.protectedCid);
    SameRecords(w, s, s', older);
    SameRecords(w, s, s', newer);
    assert s.pins - {newer.protectedCid} == map[];
  }

  /** The newer request finds nothing stale, and pins its CID under the final name. */
  lemma NewerSettles(w: World, older: Request, newer: Request, run: seq<State>, es: seq<Event>, s: State)
    returns (run': seq<State>, es': seq<Event>, s': State)
    requires Reached(w, 2, run, es, s) && Conflicting(w, older, newer)
    requires OnTheWay(w, older, newer, s) && s.pins == map[]
    requires var k1, k2 := Scheduler.KeyOf(older), Scheduler.KeyOf(newer);
      s.scheduler.channel == [k2, k1] && s.scheduler.pending == map[k2 := newer, k1 := older]
    ensures Reached(w, 2, run', es', s') && run <= run' && OnTheWay(w, older, newer, s')
    ensures var k1 := Scheduler.KeyOf(older); s'.scheduler.channel == [k1] && s'.scheduler.pending == map[k1 := older]
    ensures s'.pins == map[newer.protectedCid := older.name]
  {
    var k1, k2 := Scheduler.KeyOf(older), Scheduler.KeyOf(newer);
    assert LocalPass.StaleSet(newer, s.pins) == {};
    run', es', s' := LastRound(w, 2, run, es, s, newer);
    SameRecords(w, s, s', older);
    SameRecords(w, s, s', newer);
    assert map[k2 := newer, k1 := older] - {k2} == map[k1 := older];
  }

  /** The older request, still in line, removes it, and runs a last time. */
  lemma OlderSettles(w: World, older: Request, newer: Request, run: seq<State>, es: seq<Event>, s: State)
    returns (run': seq<State>, es': seq<Event>, s': State)
    requires Reached(w, 2, run, es, s) && Conflicting(w, older, newer) && OnTheWay(w, older, newer, s)
    requires var k1 := Scheduler.KeyOf(older); s.scheduler.channel == [k1] && s.scheduler.pending == map[k1 := older]
    requires s.pins == map[newer.protectedCid := older.name]
    ensures Reached(w, 2, run', es', s') && run <= run' && OnTheWay(w, older, newer, s')
    ensures s'.scheduler.channel == [] && s'.scheduler.pending == map[]
    ensures s'.pins == map[older.protectedCid := older.name]
  {
    var k1 := Scheduler.KeyOf(older);
    StaleAmong(older, s.pins, newer.protectedCid);
    run', es', s' := Round(w, 2, run, es, s, older, newer.protectedCid);
    SameRecords(w, s, s', older);
    SameRecords(w, s, s', newer);
    var again := s';
    assert again.pins == map[] && again.scheduler.channel == [k1];
    assert LocalPass.StaleSet(older, again.pins) == {};
    run', es', s' := LastRound(w, 2, run', es', again, older);
    SameRecords(w, again, s', older);
    SameRecords(w, again, s', newer);
    assert map[k1 := older] - {k1} == map[];
  }

  // ---- one CID, two names ----

  /** Nothing is guarded, and the same document may be published under two names. */
  function TwoNames(node: string, service: string, n: Name, m: Name): World {
    World(node, service, x => x == n || x == m, x => false, c => n)
  }

  /**
   * `EndState` needs its guard: a node keeps one name per CID, so when the same document is published
   * under two names, one after the other, the first ends empty, although all goes well.
   */
  lemma SharedCidLeavesOneEmpty(node: string, service: string, first: Request, second: Request)
    returns (run: seq<State>, es: seq<Event>, s: State)
    requires first.kuboUrl == second.kuboUrl == node && first.cleanupLocal && second.cleanupLocal
    requires first.remoteService.None? && second.remoteService.None?
    requires first.protectedCid == second.protectedCid && first.name != second.name
    requires InFlightName(first.name) != second.name && InFlightName(second.name) != first.name
    ensures Reached(TwoNames(node, service, first.name, second.name), 1, run, es, s) && AtRest(s) && s.lost == {}
    ensures s.scheduler.accepted == map[Scheduler.KeyOf(first) := first, Scheduler.KeyOf(second) := second]
    ensures s.pins == map[first.protectedCid := second.name]
  {
    var w := TwoNames(node, service, first.name, second.name);
    run, es := [Start(1, map[])], [];
    run, es, s := NextNameSettles(w, run, es, run[0], first);
    run, es, s := NextNameSettles(w, run, es, s, second);
    assert s.pins == map[first.protectedCid := second.name];
  }

  /** With no CID but its own pinned, a publication settles its name. */
  lemma NextNameSettles(w: World, run: seq<State>, es: seq<Event>, s: State, r: Request)
    returns (run': seq<State>, es': seq<Event>, s': State)
    requires Reached(w, 1, run, es, s) && Calm(s) && MayPublish(w, r.name, r.protectedCid)
    requires Touches(w, Pins, r) && r.remoteService.None? && s.pins.Keys <= {r.protectedCid}
    requires s.scheduler.phase.Idle? && s.scheduler.pending == map[]
    requires s.scheduler.channel == [] && s.scheduler.capacity == 1
    ensures Reached(w, 1, run', es', s') && run <= run' && Calm(s') && s'.pins == map[r.protectedCid := r.name]
    ensures s'.scheduler == s.scheduler.(accepted := s.scheduler.accepted[Scheduler.KeyOf(r) := r])
  {
    run', es' := PublishesAndSchedules(w, 1, run, es, s, r);
    s' := Accepted(Published(w, s, r), r);
    assert s'.pins == map[r.protectedCid := InFlightName(r.name)];
    assert LocalPass.StaleSet(r, s'.pins) == {};
    run', es', s' := LastRound(w, 1, run', es', s', r);
    assert map[Scheduler.KeyOf(r) := r] - {Scheduler.KeyOf(r)} == map[];
  }
}
