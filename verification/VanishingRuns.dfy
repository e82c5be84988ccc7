/**
 * Two runs of the replacement protocol in which every call succeeds and a fresh copy vanishes before
 * its publisher schedules (src/kubo/pinning.rs:206-401 beside src/ipfs/publish.rs:508-595). The pin
 * comes back; the record does not.
 */
module VanishingRuns {
  import opened Wrappers
  import opened Kubo
  import opened PublishSystem
  import opened PublishRuns
  import LocalPass
  import RemotePass
  import PinProtocol
  import Scheduler = CleanupScheduler

  /** Two publications of a name, with the same key. */
  ghost predicate Republishes(w: World, older: Request, newer: Request) {
    && w == OneName(w.node, w.service, older.name) && Touches(w, Pins, older)
    && Scheduler.KeyOf(older) == Scheduler.KeyOf(newer) && older.protectedCid != newer.protectedCid
  }

  /** The older request is accepted and taken, and its batch has made no call. */
  lemma OlderTaken(w: World, older: Request) returns (run: seq<State>, es: seq<Event>, s: State)
    requires w == OneName(w.node, w.service, older.name) && Touches(w, Pins, older)
    ensures Reached(w, 1, run, es, s) && Calm(s) && Beginning(w, s)
    ensures s.remote == if Touches(w, Records, older) then RemotePass.ListFinal else RemotePass.Done(false)
    ensures s.pins == map[older.protectedCid := InFlightName(older.name)]
    ensures s.records == if Touches(w, Records, older) then {(older.protectedCid, older.name)} else {}
    ensures var k := Scheduler.KeyOf(older);
      s.scheduler == Scheduler.Init(1).(phase := Scheduler.Running(k, older), accepted := map[k := older])
  {
    var k := Scheduler.KeyOf(older);
    run, es := [Start(1, map[])], [];
    run, es := PublishesAndSchedules(w, 1, run, es, run[0], older);
    s := Accepted(Published(w, run[0], older), older);
    run, es := Takes(w, 1, run, es, s, older);
    s := Taken(w, s, older);
    assert map[k := older] - {k} == map[];
  }

  /**
   * A publisher's fresh pin is gone before it hands its request over, because a batch still running
   * for the previous CID lists it and takes it for stale.
   */
  lemma FreshPinCanVanish(w: World, older: Request, newer: Request)
    returns (run: seq<State>, es: seq<Event>, i: nat, s: State)
    requires Republishes(w, older, newer) && !Touches(w, Records, newer)
    ensures WellFormed(w) && Reached(w, 1, run, es, s)
    ensures i < |es| && es[i] == PinFresh(0, newer.name, newer.protectedCid, true, true)
    ensures forall j :: i < j < |es| ==> es[j] == Call(true)
    ensures s.publishing == map[0 := Publication(newer.name, newer.protectedCid, {Pins})]
    ensures newer.protectedCid !in s.pins
  {
    OneNameIsWellFormed(w.node, w.service, older.name);
    run, es, s := OlderTaken(w, older);
    i := |es|;
    var before := es;
    var n, c := newer.name, newer.protectedCid;
    s := s.(pins := s.pins[c := InFlightName(n)], publishing := map[0 := Publication(n, c, {Pins})]);
    run, es := Extended(w, 1, run, es, PinFresh(0, n, c, true, true), s);
    StaleAmong(older, s.pins, c);
    run, es := RemovesPin(w, 1, run, es, s, c);
    s := run[|run| - 1];
  }

  /** The remote pass lists what it is shown, and removes the one stale final record. */
  lemma RemovesRecord(w: World, run: seq<State>, es: seq<Event>, s: State, finals: seq<Cid>, c: Cid)
    returns (run': seq<State>, es': seq<Event>)
    requires Reached(w, 1, run, es, s) && s.scheduler.phase.Running? && s.local.Done? && s.failed == {}
    requires Touches(w, Records, s.scheduler.phase.request) && s.remote.ListFinal?
    requires var r := s.scheduler.phase.request;
      && ListsRemote(s.records, r.name, finals) && ListsRemote(s.records, InFlightName(r.name), [])
      && c != r.protectedCid && (finals == [c] || finals == [r.protectedCid, c])
    ensures var r := s.scheduler.phase.request;
      Reached(w, 1, run', es', s.(remote := RemotePass.Done(true), records := s.records - {(c, r.name)}))
    ensures run <= run'
  {
    var r := s.scheduler.phase.request;
    run', es' := Extended(w, 1, run, es, RemoteCall(true), s.(remote := RemotePass.ListTemp(finals)));
    OneStale(r, finals, c);
    var decided := s.(remote := RemotePass.Remove([(c, r.name)], false));
    run', es' := Extended(w, 1, run', es', RemoteCall(true), decided);
    var removed := s.(remote := RemotePass.Done(true), records := s.records - {(c, r.name)});
    run', es' := Extended(w, 1, run', es', RemoteCall(true), removed);
  }

  lemma OneStale(r: Request, finals: seq<Cid>, c: Cid)
    requires c != r.protectedCid && (finals == [c] || finals == [r.protectedCid, c])
    ensures RemotePass.Decide(r, finals, []) == RemotePass.Remove([(c, r.name)], false)
  {
    assert LocalPass.StalePins([c], r.protectedCid) == [c];
    assert [r.protectedCid, c][1..] == [c];
    assert RemotePass.WithName([c], r.name) == [(c, r.name)];
  }

  /** The older batch settles the pins; then the newer publisher pins and records, and that record is removed. */
  lemma RecordRemoved(w: World, older: Request, newer: Request) returns (run: seq<State>, es: seq<Event>, s: State)
    requires Republishes(w, older, newer) && Touches(w, Records, older)
    ensures Reached(w, 1, run, es, s) && s.lost == {} && s.failed == {}
    ensures s.publishing == map[0 := Publication(newer.name, newer.protectedCid, {Pins, Records})]
    ensures s.pins == map[older.protectedCid := older.name, newer.protectedCid := InFlightName(older.name)]
    ensures s.records == {(older.protectedCid, older.name)}
    ensures s.local == LocalPass.Done(false) && s.remote == RemotePass.Done(true)
    ensures var k := Scheduler.KeyOf(older);
      s.scheduler == Scheduler.Init(1).(phase := Scheduler.Running(k, older), accepted := map[k := older])
  {
    var n, c1, c2 := older.name, older.protectedCid, newer.protectedCid;
    run, es, s := OlderTaken(w, older);
    assert LocalPass.StaleSet(older, s.pins) == {};
    run, es := Finalises(w, 1, run, es, s);
    s := run[|run| - 1];
    run, es := Publishes(w, 1, run, es, s, newer);
    s := Published(w, s, newer);
    assert s.records == {(c1, n), (c2, n)};
    assert ListsRemote(s.records, n, [c1, c2]) && ListsRemote(s.records, InFlightName(n), []);
    run, es := RemovesRecord(w, run, es, s, [c1, c2], c2);
    s := run[|run| - 1];
    assert {(c1, n), (c2, n)} - {(c2, n)} == {(c1, n)};
  }

  /** The newer request is accepted, and taken in turn. */
  lemma NewerTaken(w: World, older: Request, newer: Request, run: seq<State>, es: seq<Event>, s: State)
    returns (run': seq<State>, es': seq<Event>, s': State)
    requires Republishes(w, older, newer) && Touches(w, Records, older) && Reached(w, 1, run, es, s)
    requires s.lost == {} && s.failed == {}
    requires s.publishing == map[0 := Publication(newer.name, newer.protectedCid, {Pins, Records})]
    requires s.local == LocalPass.Done(false) && s.remote == RemotePass.Done(true)
    requires var k := Scheduler.KeyOf(older);
      s.scheduler == Scheduler.Init(1).(phase := Scheduler.Running(k, older), accepted := map[k := older])
    ensures Reached(w, 1, run', es', s') && Calm(s') && Beginning(w, s') && s'.remote == RemotePass.ListFinal
    ensures s'.pins == s.pins && s'.records == s.records
    ensures var k := Scheduler.KeyOf(newer);
      s'.scheduler == Scheduler.Init(1).(phase := Scheduler.Running(k, newer), accepted := map[k := newer])
  {
    var k := Scheduler.KeyOf(newer);
    assert forall d :: d in {Pins, Records} ==> Touches(w, d, newer);
    run', es' := HandsRequestOver(w, 1, run, es, s, newer);
    s' := Accepted(s, newer);
    assert s'.scheduler.accepted == map[k := newer];
    run', es' := Ends(w, 1, run', es', s');
    s' := s'.(scheduler := s'.scheduler.(phase := Scheduler.Idle));
    run', es' := Takes(w, 1, run', es', s', newer);
    s' := Taken(w, s', newer);
    assert map[k := newer] - {k} == map[];
  }

  /** Its batch removes the older pin and the older record, and asks for more. */
  lemma NewerCleansUp(w: World, older: Request, newer: Request, run: seq<State>, es: seq<Event>, s: State)
    returns (run': seq<State>, es': seq<Event>, s': State)
    requires Republishes(w, older, newer) && Touches(w, Records, older) && Reached(w, 1, run, es, s)
    requires Calm(s) && Beginning(w, s) && s.remote == RemotePass.ListFinal
    requires s.pins == map[older.protectedCid := older.name, newer.protectedCid := InFlightName(older.name)]
    requires s.records == {(older.protectedCid, older.name)}
    requires var k := Scheduler.KeyOf(newer);
      s.scheduler == Scheduler.Init(1).(phase := Scheduler.Running(k, newer), accepted := map[k := newer])
    ensures Reached(w, 1, run', es', s') && Calm(s') && s'.records == {}
    ensures s'.pins == map[newer.protectedCid := InFlightName(newer.name)]
    ensures var k := Scheduler.KeyOf(newer);
      s'.scheduler == Scheduler.Init(1).(channel := [k], pending := map[k := newer], accepted := map[k := newer])
  {
    var n, c1 := older.name, older.protectedCid;
    StaleAmong(newer, s.pins, c1);
    run', es' := RemovesPin(w, 1, run, es, s, c1);
    s' := run'[|run'| - 1];
    assert ListsRemote(s'.records, n, [c1]) && ListsRemote(s'.records, InFlightName(n), []);
    run', es' := RemovesRecord(w, run', es', s', [c1], c1);
    s' := run'[|run'| - 1];
    assert {(c1, n)} - {(c1, n)} == {};
    run', es' := AsksAgain(w, 1, run', es', s');
    s' := InLine(s');
  }

  /**
   * The second half of `RecordProtocol.EndState` is real: on an empty node a name is published twice
   * with a remote service, all goes well, and at rest the name holds its CID and has no record at all.
   */
  lemma RecordCanVanish(w: World, older: Request, newer: Request) returns (run: seq<State>, es: seq<Event>, s: State)
    requires Republishes(w, older, newer) && Touches(w, Records, older)
    ensures WellFormed(w) && Reached(w, 1, run, es, s)
    ensures AtRest(s) && s.lost == {} && s.scheduler.stranded == {} && s.scheduler.pending == map[]
    ensures s.scheduler.accepted == map[Scheduler.KeyOf(newer) := newer]
    ensures PinProtocol.HoldsExactly(s.pins, newer.name, newer.protectedCid) && s.records == {}
  {
    OneNameIsWellFormed(w.node, w.service, older.name);
    run, es, s := RecordRemoved(w, older, newer);
    run, es, s := NewerTaken(w, older, newer, run, es, s);
    run, es, s := NewerCleansUp(w, older, newer, run, es, s);
    assert LocalPass.StaleSet(newer, s.pins) == {};
    run, es, s := LastRound(w, 1, run, es, s, newer);
    assert map[Scheduler.KeyOf(newer) := newer] - {Scheduler.KeyOf(newer)} == map[];
  }
}
