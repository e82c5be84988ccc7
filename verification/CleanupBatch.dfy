/**
 * One cleanup batch, a local pass and then a remote pass (`cleanup_one_batch`,
 * src/kubo/pinning.rs:239-251), and how often a request can ask for another batch.
 */
module CleanupBatch {
  import opened Kubo
  import LocalPass
  import RemotePass

  datatype Pc =
    | Local(local: LocalPass.Pc)
    | Remote(localMore: bool, remote: RemotePass.Pc)
    | Finished(more: bool)

  function AfterLocal(r: Request, localMore: bool): Pc {
    if r.remoteService.Some? then Remote(localMore, RemotePass.ListFinal) else Finished(localMore)
  }

  function Start(r: Request): Pc {
    if r.cleanupLocal then Local(LocalPass.ListFinal) else AfterLocal(r, false)
  }

  /**
   * A request being worked on: the batch, the two stores, how often the request has been run again,
   * and (for the proof only) the stale records there were when the current batch started.
   */
  datatype State = State(
    pc: Pc,
    local: LocalPins,
    remote: RemotePins,
    reruns: nat,
    startLocal: set<Cid>,
    startRemote: set<(Cid, Name)>)

  /** The stale local pins the request is concerned with. */
  ghost function StaleLocal(r: Request, s: State): set<Cid> {
    if r.cleanupLocal then LocalPass.StaleSet(r, s.local) else {}
  }

  ghost function StaleRemote(r: Request, s: State): set<(Cid, Name)> {
    if r.remoteService.Some? then RemotePass.StaleSet(r, s.remote) else {}
  }

  ghost function StaleCount(r: Request, s: State): nat {
    |StaleLocal(r, s)| + |StaleRemote(r, s)|
  }

  /** One step of the batch; `ok` is the answer of the Kubo call made, if the step makes one. */
  ghost predicate BatchStep(r: Request, s: State, ok: bool, s': State) {
    && s'.reruns == s.reruns && s'.startLocal == s.startLocal && s'.startRemote == s.startRemote
    && match s.pc
       case Local(pc) =>
         && s'.remote == s.remote
         && (if pc.Done? then s'.local == s.local && s'.pc == AfterLocal(r, pc.more)
             else s'.pc.Local?
                  && LocalPass.Step(r, LocalPass.State(pc, s.local), ok, LocalPass.State(s'.pc.local, s'.local)))
       case Remote(localMore, pc) =>
         && s'.local == s.local
         && (if RemotePass.Terminal(pc)
             then s'.remote == s.remote && s'.pc == Finished(localMore || pc == RemotePass.Done(true))
             else s'.pc.Remote? && s'.pc.localMore == localMore
                  && RemotePass.Step(r, RemotePass.State(pc, s.remote), ok, RemotePass.State(s'.pc.remote, s'.remote)))
       case Finished(_) => false
  }

  /** Somebody else changes the stores, adding no stale record. */
  ghost predicate EnvironmentStep(r: Request, s: State, s': State) {
    && s' == s.(local := s'.local, remote := s'.remote)
    && StaleLocal(r, s') <= StaleLocal(r, s)
    && StaleRemote(r, s') <= StaleRemote(r, s)
  }

  /** The batch asked for another one, and gets it. */
  ghost predicate RerunStep(r: Request, s: State, s': State) {
    && s.pc == Finished(true)
    && s' == s.(pc := Start(r), reruns := s.reruns + 1,
                startLocal := StaleLocal(r, s), startRemote := StaleRemote(r, s))
  }

  ghost predicate Moves(r: Request, s: State, s': State) {
    BatchStep(r, s, true, s') || BatchStep(r, s, false, s') || EnvironmentStep(r, s, s') || RerunStep(r, s, s')
  }

  ghost predicate IsRun(r: Request, run: seq<State>) {
    && run != []
    && run[0].pc == Start(r) && run[0].reruns == 0
    && run[0].startLocal == StaleLocal(r, run[0]) && run[0].startRemote == StaleRemote(r, run[0])
    && forall i :: 0 <= i < |run| - 1 ==> Moves(r, run[i], run[i + 1])
  }

  /** A local pass, seen as the steps of a batch whose remote records nobody touches meanwhile. */
  ghost function LiftLocal(r: Request, first: State, trace: seq<LocalPass.State>): (run: seq<State>)
    requires IsRun(r, [first]) && r.cleanupLocal
    requires LocalPass.IsTrace(r, trace) && trace[0].pins == first.local
    ensures IsRun(r, run) && run[0] == first
    ensures run[|run| - 1] == first.(pc := Local(trace[|trace| - 1].pc), local := trace[|trace| - 1].pins)
  {
    var run := seq(|trace|, i requires 0 <= i < |trace| => first.(pc := Local(trace[i].pc), local := trace[i].pins));
    assert forall i :: 0 <= i < |run| - 1 ==> LocalPass.Moves(r, trace[i], trace[i + 1]);
    run
  }

  /** A remote pass, seen as the last steps of a batch. */
  ghost function LiftRemote(r: Request, before: seq<State>, trace: seq<RemotePass.State>): (run: seq<State>)
    requires IsRun(r, before)
    requires before[|before| - 1].pc.Remote? && before[|before| - 1].pc.remote == RemotePass.ListFinal
    requires RemotePass.IsTrace(r, trace) && trace[0].pins == before[|before| - 1].remote
    ensures IsRun(r, run) && run[0] == before[0]
    ensures var last := before[|before| - 1];
            run[|run| - 1] == last.(pc := Remote(last.pc.localMore, trace[|trace| - 1].pc),
                                    remote := trace[|trace| - 1].pins)
  {
    var last := before[|before| - 1];
    var tail := seq(|trace|, i requires 0 <= i < |trace| =>
      last.(pc := Remote(last.pc.localMore, trace[i].pc), remote := trace[i].pins));
    assert tail[0] == last;
    assert forall i :: 0 <= i < |tail| - 1 ==> RemotePass.Moves(r, trace[i], trace[i + 1]);
    before[..|before| - 1] + tail
  }

  ghost function Extend(r: Request, run: seq<State>, s: State): (longer: seq<State>)
    requires IsRun(r, run) && BatchStep(r, run[|run| - 1], true, s)
    ensures IsRun(r, longer) && longer[0] == run[0] && longer[|longer| - 1] == s
  {
    run + [s]
  }

  /** The batch as the worker runs it, undisturbed: its calls are steps of the machine above. */
  method CleanupOneBatch(node: LocalNode, service: RemoteNode, r: Request) returns (more: bool, ghost run: seq<State>)
    modifies node, service
    ensures IsRun(r, run)
    ensures run[0].local == old(node.pins) && run[0].remote == old(service.pins)
    ensures var last := run[|run| - 1];
            last.pc == Finished(more) && last.local == node.pins && last.remote == service.pins && last.reruns == 0
    ensures more <==> HasRemoved(r, run, |run| - 1)
  {
    ghost var first := State(Start(r), node.pins, service.pins, 0, {}, {});
    first := first.(startLocal := StaleLocal(r, first), startRemote := StaleRemote(r, first));
    run := [first];
    var localMore := false;
    if r.cleanupLocal {
      ghost var trace;
      localMore, trace := LocalPass.CleanupLocalPass(node, r);
      run := LiftLocal(r, first, trace);
      run := Extend(r, run, run[|run| - 1].(pc := AfterLocal(r, localMore)));
    }
    var remoteMore := false;
    if r.remoteService.Some? {
      ghost var trace;
      remoteMore, trace := RemotePass.CleanupRemotePass(service, r);
      run := LiftRemote(r, run, trace);
      run := Extend(r, run, run[|run| - 1].(pc := Finished(localMore || remoteMore)));
    }
    more := localMore || remoteMore;
    AnswerIsRight(r, run, |run| - 1);
  }

  /** The batch is bound to ask for another one. */
  predicate WillAskAgain(pc: Pc) {
    match pc
    case Local(l) => (l.Remove? && l.removedAny) || (l.Done? && l.more)
    case Remote(localMore, m) => localMore || (m.Remove? && m.removedAny) || (m.Done? && m.more)
    case Finished(more) => more
  }

  /** Whatever the batch is about to remove was stale when it started. */
  ghost predicate TargetsWereStale(r: Request, s: State) {
    match s.pc
    case Local(l) =>
      && r.cleanupLocal
      && (l.ListTemp? ==> forall c :: c in l.finals && c != r.protectedCid ==> c in s.startLocal)
      && (l.Remove? ==> l.todo != [] && forall c :: c in l.todo ==> c in s.startLocal)
      && (l.Done? && l.more ==> s.startLocal != {})
    case Remote(_, m) =>
      && r.remoteService.Some?
      && (m.ListTemp? ==> forall c :: c in m.finals && c != r.protectedCid ==> (c, r.name) in s.startRemote)
      && (m.Remove? ==> m.todo != [] && forall p :: p in m.todo ==> p in s.startRemote)
    case Finished(_) => true
  }

  ghost predicate Progress(r: Request, s: State) {
    && StaleLocal(r, s) <= s.startLocal
    && StaleRemote(r, s) <= s.startRemote
    && (WillAskAgain(s.pc) ==> StaleLocal(r, s) != s.startLocal || StaleRemote(r, s) != s.startRemote)
  }

  lemma LocalBatchStep(r: Request, s: State, ok: bool, s': State)
    requires s.pc.Local? && !s.pc.local.Done? && BatchStep(r, s, ok, s')
    requires TargetsWereStale(r, s) && Progress(r, s)
    ensures TargetsWereStale(r, s') && Progress(r, s')
  {
    match s.pc.local
    case ListTemp(finals) =>
      if ok {
        var temps :| ListsLocal(s.local, InFlightName(r.name), temps)
                     && s'.pc.local == LocalPass.Decide(r, finals, temps);
        forall c | c in LocalPass.StalePins(finals + temps, r.protectedCid)
          ensures c in s.startLocal
        {
          assert c in finals || c in temps;
        }
      }
    case Remove(todo, removedAny) =>
      assert todo[0] in todo;
      if ok {
        assert todo[0] !in StaleLocal(r, s');
      }
    case _ =>
  }

  lemma RemoteBatchStep(r: Request, s: State, ok: bool, s': State)
    requires s.pc.Remote? && !RemotePass.Terminal(s.pc.remote) && BatchStep(r, s, ok, s')
    requires TargetsWereStale(r, s) && Progress(r, s)
    ensures TargetsWereStale(r, s') && Progress(r, s')
  {
    match s.pc.remote
    case ListTemp(finals) =>
      if ok {
        RemoteDecisionStep(r, s, s');
      }
    case Remove(todo, removedAny) =>
      assert todo[0] in todo;
      if ok {
        assert (todo[0].0, todo[0].1) == todo[0];
        assert todo[0] !in StaleRemote(r, s');
      }
    case _ =>
  }

  lemma RemoteDecisionStep(r: Request, s: State, s': State)
    requires s.pc.Remote? && s.pc.remote.ListTemp? && BatchStep(r, s, true, s')
    requires TargetsWereStale(r, s) && Progress(r, s)
    ensures TargetsWereStale(r, s') && Progress(r, s')
  {
    var finals := s.pc.remote.finals;
    var temps :| ListsRemote(s.remote, InFlightName(r.name), temps)
                 && s'.pc.remote == RemotePass.Decide(r, finals, temps);
    assert StaleRemote(r, s') == StaleRemote(r, s) && StaleLocal(r, s') == StaleLocal(r, s);
    if s'.pc.remote.Remove? {
      forall c | c in temps && c != r.protectedCid
        ensures (c, InFlightName(r.name)) in s.startRemote
      {
        assert (c, InFlightName(r.name)) in StaleRemote(r, s);
      }
      DecidedWithin(r, finals, temps, s.startRemote);
    }
  }

  lemma DecidedWithin(r: Request, finals: seq<Cid>, temps: seq<Cid>, start: RemotePins)
    requires RemotePass.Decide(r, finals, temps).Remove?
    requires forall c :: c in finals && c != r.protectedCid ==> (c, r.name) in start
    requires forall c :: c in temps && c != r.protectedCid ==> (c, InFlightName(r.name)) in start
    ensures var todo := RemotePass.Decide(r, finals, temps).todo; todo != [] && forall p :: p in todo ==> p in start
  {
    RemotePass.DecidedRecords(r, finals, temps);
    forall p | p in RemotePass.Decide(r, finals, temps).todo
      ensures p in start
    {
      assert p == (p.0, p.1);
    }
  }

  lemma SmallerPair<A, B>(a: set<A>, a': set<A>, b: set<B>, b': set<B>)
    requires a <= a' && b <= b' && (a != a' || b != b')
    ensures |a| + |b| < |a'| + |b'|
  {
    assert a' == a + (a' - a) && b' == b + (b' - b);
    assert |a'| == |a| + |a' - a| && |b'| == |b| + |b' - b|;
    if a != a' {
      assert a' - a != {};
    } else {
      assert b' - b != {};
    }
  }

  lemma MoveKeepsProgress(r: Request, s: State, s': State)
    requires Moves(r, s, s')
    requires TargetsWereStale(r, s) && Progress(r, s)
    ensures TargetsWereStale(r, s') && Progress(r, s')
    ensures s'.reruns + |s'.startLocal| + |s'.startRemote| <= s.reruns + |s.startLocal| + |s.startRemote|
  {
    if RerunStep(r, s, s') {
      SmallerPair(StaleLocal(r, s), s.startLocal, StaleRemote(r, s), s.startRemote);
    } else if !EnvironmentStep(r, s, s') {
      var ok := BatchStep(r, s, true, s');
      assert BatchStep(r, s, ok, s');
      if s.pc.Local? && !s.pc.local.Done? {
        LocalBatchStep(r, s, ok, s');
      } else if s.pc.Remote? && !RemotePass.Terminal(s.pc.remote) {
        RemoteBatchStep(r, s, ok, s');
      }
    }
  }

  lemma {:induction false} RunKeepsProgress(r: Request, run: seq<State>, i: nat)
    requires IsRun(r, run) && i < |run|
    ensures TargetsWereStale(r, run[i]) && Progress(r, run[i])
    ensures run[i].reruns + |run[i].startLocal| + |run[i].startRemote| <= StaleCount(r, run[0])
  {
    if i > 0 {
      RunKeepsProgress(r, run, i - 1);
      MoveKeepsProgress(r, run[i - 1], run[i]);
    }
  }

  /**
   * However its calls fail, and whatever others do short of adding stale records, a request is run
   * again at most as often as there were stale records when it first started.
   */
  lemma RerunsAreBounded(r: Request, run: seq<State>)
    requires IsRun(r, run)
    ensures run[|run| - 1].reruns <= StaleCount(r, run[0])
  {
    RunKeepsProgress(r, run, |run| - 1);
  }

  // ---- what the batch answers ----

  /** A removal, in either pass, that reports success. */
  ghost predicate RemovalSucceeds(r: Request, s: State, s': State) {
    && (if s.pc.Local? then s.pc.local.Remove? else s.pc.Remote? && s.pc.remote.Remove?)
    && BatchStep(r, s, true, s')
  }

  ghost predicate HasRemoved(r: Request, run: seq<State>, i: nat)
    requires i < |run|
  {
    exists j :: 0 <= j < i && run[j].reruns == run[i].reruns && RemovalSucceeds(r, run[j], run[j + 1])
  }

  lemma AsksAfterStep(r: Request, s: State, s': State)
    requires Moves(r, s, s') && !RerunStep(r, s, s')
    ensures s'.reruns == s.reruns
    ensures WillAskAgain(s'.pc) <==> WillAskAgain(s.pc) || RemovalSucceeds(r, s, s')
  {
    if s.pc.Local? && s.pc.local.ListTemp? {
      LocalListingAsksNothing(r, s, s');
    } else if s.pc.Remote? && s.pc.remote.ListTemp? {
      RemoteListingAsksNothing(r, s, s');
    }
  }

  lemma LocalListingAsksNothing(r: Request, s: State, s': State)
    requires Moves(r, s, s') && s.pc.Local? && s.pc.local.ListTemp?
    ensures s'.reruns == s.reruns && !WillAskAgain(s'.pc)
  {
  }

  lemma RemoteListingAsksNothing(r: Request, s: State, s': State)
    requires Moves(r, s, s') && s.pc.Remote? && s.pc.remote.ListTemp?
    ensures s'.reruns == s.reruns && (WillAskAgain(s'.pc) <==> s.pc.localMore)
  {
  }

  lemma {:induction false} RerunsGrow(r: Request, run: seq<State>, j: nat, i: nat)
    requires IsRun(r, run) && j <= i < |run|
    ensures run[j].reruns <= run[i].reruns
  {
    if j < i {
      RerunsGrow(r, run, j, i - 1);
      assert Moves(r, run[i - 1], run[i - 1 + 1]);
    }
  }

  lemma {:induction false} AsksIffRemoved(r: Request, run: seq<State>, i: nat)
    requires IsRun(r, run) && i < |run|
    ensures WillAskAgain(run[i].pc) <==> HasRemoved(r, run, i)
  {
    if i > 0 {
      AsksIffRemoved(r, run, i - 1);
      assert Moves(r, run[i - 1], run[i - 1 + 1]);
      if RerunStep(r, run[i - 1], run[i]) {
        forall j | 0 <= j < i
          ensures run[j].reruns != run[i].reruns
        {
          RerunsGrow(r, run, j, i - 1);
        }
      } else {
        AsksAfterStep(r, run[i - 1], run[i]);
        HasRemovedStep(r, run, i);
      }
    }
  }

  lemma HasRemovedStep(r: Request, run: seq<State>, i: nat)
    requires 0 < i < |run| && run[i].reruns == run[i - 1].reruns
    ensures HasRemoved(r, run, i) <==> HasRemoved(r, run, i - 1) || RemovalSucceeds(r, run[i - 1], run[i])
  {
    if RemovalSucceeds(r, run[i - 1], run[i]) {
      assert RemovalSucceeds(r, run[i - 1], run[i - 1 + 1]);
    }
  }

  /**
   * Whatever fails, and whatever others do: a batch asks for another one exactly when one of its
   * removals, in either pass, reported success.
   */
  lemma AnswerIsRight(r: Request, run: seq<State>, i: nat)
    requires IsRun(r, run) && i < |run| && run[i].pc.Finished?
    ensures run[i].pc.more <==> HasRemoved(r, run, i)
  {
    AsksIffRemoved(r, run, i);
  }

  // ---- the answer, from the stores alone ----

  /** Nobody else acts, and every call succeeds. */
  ghost predicate AllSucceed(r: Request, run: seq<State>) {
    forall j :: 0 <= j < |run| - 1 ==> BatchStep(r, run[j], true, run[j + 1])
  }

  /** What the local pass has achieved since it started with the pins `before`. */
  ghost predicate LocalGoes(r: Request, before: LocalPins, pc: LocalPass.Pc, pins: LocalPins) {
    && LocalPass.OnTrack(r, LocalPass.State(pc, pins))
    && (pc.ListFinal? || pc.ListTemp? ==> pins == before)
    && (pc.Remove? ==> LocalPass.StaleSet(r, before) != {})
    && (pc.Finalise? ==> LocalPass.StaleSet(r, before) == {})
    && (pc.Done? ==> (pc.more <==> LocalPass.StaleSet(r, before) != {}))
  }

  ghost predicate RemoteGoes(r: Request, before: RemotePins, pc: RemotePass.Pc, pins: RemotePins) {
    var stale := RemotePass.StaleSet(r, pins);
    && (RemotePass.StaleSet(r, before) == {} && RemotePass.CanSettle(r, before) ==>
          RemotePass.OnTrack(r, RemotePass.State(pc, pins)))
    && match pc
       case ListFinal => pins == before
       case ListTemp(finals) => pins == before && ListsRemote(pins, r.name, finals)
       case Remove(todo, _) =>
         RemotePass.StaleSet(r, before) != {} && todo != [] && forall p :: p in stale ==> p in todo
       case Done(more) => stale == {} && (more <==> RemotePass.StaleSet(r, before) != {})
       case MigrateFailed => false
       case _ => stale == {} && RemotePass.StaleSet(r, before) == {}
  }

  lemma LocalGoesOn(r: Request, before: LocalPins, s: LocalPass.State, s': LocalPass.State)
    requires LocalGoes(r, before, s.pc, s.pins) && LocalPass.Step(r, s, true, s')
    ensures LocalGoes(r, before, s'.pc, s'.pins)
  {
    LocalPass.OnTrackStep(r, s, s');
    if s.pc.ListTemp? {
      var temps :| ListsLocal(s.pins, InFlightName(r.name), temps) && s'.pc == LocalPass.Decide(r, s.pc.finals, temps);
      LocalPass.DecideIsRight(r, s.pins, s.pc.finals, temps);
    }
  }

  lemma RemoteGoesOn(r: Request, before: RemotePins, s: RemotePass.State, s': RemotePass.State)
    requires RemoteGoes(r, before, s.pc, s.pins) && RemotePass.Step(r, s, true, s')
    ensures RemoteGoes(r, before, s'.pc, s'.pins)
  {
    if RemotePass.OnTrack(r, s) {
      RemotePass.OnTrackStep(r, s, s');
    }
    match s.pc
    case ListTemp(finals) =>
      var temps :| ListsRemote(s.pins, InFlightName(r.name), temps) && s'.pc == RemotePass.Decide(r, finals, temps);
      RemotePass.DecideIsRight(r, s.pins, finals, temps);
    case Remove(todo, _) =>
      RemovalGoesOn(r, s, s');
    case MigrateAdd =>
      assert RemotePass.StaleSet(r, s'.pins) == {};
    case _ =>
  }

  lemma RemovalGoesOn(r: Request, s: RemotePass.State, s': RemotePass.State)
    requires RemotePass.Step(r, s, true, s') && s.pc.Remove?
    requires forall p :: p in RemotePass.StaleSet(r, s.pins) ==> p in s.pc.todo
    ensures s'.pc.Remove? ==> s'.pc.todo != [] && forall p :: p in RemotePass.StaleSet(r, s'.pins) ==> p in s'.pc.todo
    ensures !s'.pc.Remove? ==> s'.pc == RemotePass.Done(true) && RemotePass.StaleSet(r, s'.pins) == {}
  {
    var todo := s.pc.todo;
    assert todo[0] == (todo[0].0, todo[0].1);
    forall p | p in RemotePass.StaleSet(r, s'.pins)
      ensures p in todo[1..]
    {
      assert p in RemotePass.StaleSet(r, s.pins) && p != todo[0];
    }
    assert |todo| == 1 ==> todo[1..] == [];
  }

  /** What the local half of the batch, if there is one, has come to. */
  ghost predicate LocalOver(r: Request, before: LocalPins, more: bool, pins: LocalPins) {
    if r.cleanupLocal then LocalGoes(r, before, LocalPass.Done(more), pins) else !more
  }

  ghost predicate RemoteOver(r: Request, before: RemotePins, more: bool, pins: RemotePins) {
    if r.remoteService.Some? then RemoteGoes(r, before, RemotePass.Done(more), pins) else !more
  }

  ghost predicate Goes(r: Request, first: State, s: State) {
    match s.pc
    case Local(l) => r.cleanupLocal && LocalGoes(r, first.local, l, s.local) && s.remote == first.remote
    case Remote(localMore, m) =>
      && r.remoteService.Some?
      && LocalOver(r, first.local, localMore, s.local) && RemoteGoes(r, first.remote, m, s.remote)
    case Finished(more) =>
      exists l, m :: more == (l || m)
                     && LocalOver(r, first.local, l, s.local) && RemoteOver(r, first.remote, m, s.remote)
  }

  lemma RemoteStarts(r: Request, before: RemotePins)
    ensures RemoteGoes(r, before, RemotePass.ListFinal, before)
  {
  }

  lemma GoesOn(r: Request, first: State, s: State, s': State)
    requires Goes(r, first, s) && BatchStep(r, s, true, s')
    ensures Goes(r, first, s')
  {
    match s.pc
    case Local(l) =>
      if l.Done? {
        RemoteStarts(r, first.remote);
        if s'.pc.Finished? {
          assert LocalOver(r, first.local, l.more, s'.local) && RemoteOver(r, first.remote, false, s'.remote);
        }
      } else {
        LocalGoesOn(r, first.local, LocalPass.State(l, s.local), LocalPass.State(s'.pc.local, s'.local));
      }
    case Remote(localMore, m) =>
      if RemotePass.Terminal(m) {
        assert LocalOver(r, first.local, localMore, s'.local) && RemoteOver(r, first.remote, m.more, s'.remote);
      } else {
        RemoteGoesOn(r, first.remote, RemotePass.State(m, s.remote), RemotePass.State(s'.pc.remote, s'.remote));
      }
  }

  lemma {:induction false} StaysGoing(r: Request, run: seq<State>, i: nat)
    requires IsRun(r, run) && AllSucceed(r, run) && i < |run|
    ensures Goes(r, run[0], run[i])
  {
    if i == 0 {
      RemoteStarts(r, run[0].remote);
      if run[0].pc.Finished? {
        assert LocalOver(r, run[0].local, false, run[0].local) && RemoteOver(r, run[0].remote, false, run[0].remote);
      }
    } else {
      StaysGoing(r, run, i - 1);
      assert BatchStep(r, run[i - 1], true, run[i - 1 + 1]);
      GoesOn(r, run[0], run[i - 1], run[i]);
    }
  }

  /**
   * A batch that nobody disturbs and whose calls all succeed asks for another one exactly when it
   * started with something stale, and leaves nothing stale. If it does not ask, its request is
   * settled on the node, and at the service too if the CID has a record there that can be settled.
   */
  lemma SuccessfulBatch(r: Request, run: seq<State>)
    requires IsRun(r, run) && AllSucceed(r, run) && run[|run| - 1].pc.Finished?
    ensures var first, last := run[0], run[|run| - 1];
      && (last.pc.more <==> StaleLocal(r, first) != {} || StaleRemote(r, first) != {})
      && StaleLocal(r, last) == {} && StaleRemote(r, last) == {}
      && (!last.pc.more && r.cleanupLocal ==> LocalPass.Settled(r, last.local))
      && (!last.pc.more && r.remoteService.Some? && RemotePass.CanSettle(r, first.remote) ==>
            RemotePass.Settled(r, last.remote))
  {
    StaysGoing(r, run, |run| - 1);
  }
}
