/**
 * One remote cleanup pass (`cleanup_remote_pass`, src/kubo/pinning.rs:309-401) as a step machine
 * over the records of the request's pinning service; one step is one call to the service.
 */
module RemotePass {
  import opened Kubo
  import LocalPass

  datatype Pc =
    | ListFinal
    | ListTemp(finals: seq<Cid>)
    | Remove(todo: seq<(Cid, Name)>, removedAny: bool)
    | MigrateRemove       // about to drop the temporary record, no final record exists
    | MigrateAdd          // about to recreate that record under the requested name
    | MigrateFailed       // one of the two migration calls was answered with an error; the pass is over
    | DropTemp            // about to drop the temporary record, a final record exists
    | Done(more: bool)

  datatype State = State(pc: Pc, pins: RemotePins)

  /** The pass is over, and asks to be run again exactly when `more`. */
  predicate Over(pc: Pc, more: bool) {
    pc == Done(more) || (pc.MigrateFailed? && !more)
  }

  function WithName(cids: seq<Cid>, name: Name): (records: seq<(Cid, Name)>)
    ensures |records| == |cids|
    ensures forall c, n :: (c, n) in records <==> c in cids && n == name
  {
    if cids == [] then [] else [(cids[0], name)] + WithName(cids[1..], name)
  }

  function Decide(r: Request, finals: seq<Cid>, temps: seq<Cid>): Pc {
    var staleFinal := LocalPass.StalePins(finals, r.protectedCid);
    var staleTemp := LocalPass.StalePins(temps, r.protectedCid);
    if staleFinal != [] || staleTemp != [] then
      Remove(WithName(staleFinal, r.name) + WithName(staleTemp, InFlightName(r.name)), false)
    else if r.protectedCid in temps then
      if r.protectedCid !in finals then MigrateRemove else DropTemp
    else Done(false)
  }

  function AfterRemoval(todo: seq<(Cid, Name)>, removedAny: bool): Pc
    requires todo != []
  {
    if |todo| == 1 then Done(removedAny) else Remove(todo[1..], removedAny)
  }

  ghost predicate Step(r: Request, s: State, ok: bool, s': State) {
    match s.pc
    case ListFinal =>
      && s'.pins == s.pins
      && (if ok then s'.pc.ListTemp? && ListsRemote(s.pins, r.name, s'.pc.finals) else s'.pc == Done(false))
    case ListTemp(finals) =>
      && s'.pins == s.pins
      && (if ok then
            exists temps :: ListsRemote(s.pins, InFlightName(r.name), temps) && s'.pc == Decide(r, finals, temps)
          else s'.pc == Done(false))
    case Remove(todo, removedAny) =>
      && todo != []
      && RemoteRm(s.pins, todo[0].0, todo[0].1, ok, s'.pins)
      && s'.pc == AfterRemoval(todo, removedAny || ok)
    case MigrateRemove =>
      && RemoteRm(s.pins, r.protectedCid, InFlightName(r.name), ok, s'.pins)
      && s'.pc == (if ok then MigrateAdd else MigrateFailed)
    case MigrateAdd =>
      && RemoteAdd(s.pins, r.protectedCid, r.name, ok, s'.pins)
      && s'.pc == (if ok then Done(false) else MigrateFailed)
    case DropTemp =>
      && RemoteRm(s.pins, r.protectedCid, InFlightName(r.name), ok, s'.pins)
      && s'.pc == Done(false)
    case Done(_) => false
    case MigrateFailed => false
  }

  ghost predicate Moves(r: Request, s: State, s': State) {
    Step(r, s, true, s') || Step(r, s, false, s')
  }

  ghost predicate IsTrace(r: Request, trace: seq<State>) {
    && trace != []
    && trace[0].pc == ListFinal
    && forall i :: 0 <= i < |trace| - 1 ==> Moves(r, trace[i], trace[i + 1])
  }

  /** The removal loop of the pass. */
  method RemoveStale(service: RemoteNode, r: Request, stale: seq<(Cid, Name)>, ghost before: seq<State>)
    returns (removedAny: bool, ghost trace: seq<State>)
    requires stale != []
    requires IsTrace(r, before) && before[|before| - 1] == State(Remove(stale, false), service.pins)
    modifies service
    ensures IsTrace(r, trace) && trace[0] == before[0]
    ensures trace[|trace| - 1] == State(Done(removedAny), service.pins)
  {
    removedAny, trace := false, before;
    for i := 0 to |stale|
      invariant IsTrace(r, trace) && trace[0] == before[0]
      invariant trace[|trace| - 1]
             == State(if i < |stale| then Remove(stale[i..], removedAny) else Done(removedAny), service.pins)
    {
      var ok := service.Rm(stale[i].0, stale[i].1);
      assert stale[i..][1..] == stale[i + 1..];
      trace := Extend(r, trace, ok, State(AfterRemoval(stale[i..], removedAny || ok), service.pins));
      removedAny := removedAny || ok;
    }
  }

  ghost function Extend(r: Request, trace: seq<State>, ok: bool, s: State): (longer: seq<State>)
    requires IsTrace(r, trace) && Step(r, trace[|trace| - 1], ok, s)
    ensures IsTrace(r, longer) && longer[0] == trace[0] && longer[|longer| - 1] == s
  {
    trace + [s]
  }

  /** The pass as the worker runs it, for a request that names a remote service. */
  method CleanupRemotePass(service: RemoteNode, r: Request) returns (more: bool, ghost trace: seq<State>)
    modifies service
    ensures IsTrace(r, trace)
    ensures trace[0].pins == old(service.pins)
    ensures trace[|trace| - 1].pins == service.pins && Over(trace[|trace| - 1].pc, more)
  {
    more, trace := false, [State(ListFinal, service.pins)];
    var finals := service.List(r.name);
    if finals.None? {
      trace := Extend(r, trace, false, State(Done(false), service.pins));
      return;
    }
    trace := Extend(r, trace, true, State(ListTemp(finals.value), service.pins));
    var tempName := InFlightName(r.name);
    var temps := service.List(tempName);
    if temps.None? {
      trace := Extend(r, trace, false, State(Done(false), service.pins));
      return;
    }
    trace := Extend(r, trace, true, State(Decide(r, finals.value, temps.value), service.pins));
    var staleFinal := LocalPass.StalePins(finals.value, r.protectedCid);
    var staleTemp := LocalPass.StalePins(temps.value, r.protectedCid);
    if staleFinal != [] || staleTemp != [] {
      var stale := WithName(staleFinal, r.name) + WithName(staleTemp, tempName);
      more, trace := RemoveStale(service, r, stale, trace);
    } else if r.protectedCid in temps.value {
      if r.protectedCid !in finals.value {
        trace := Migrate(service, r, trace);
      } else {
        var ok := service.Rm(r.protectedCid, tempName);
        trace := Extend(r, trace, ok, State(Done(false), service.pins));
      }
    }
  }

  /** Moves the protected CID from its temporary record to a final one. */
  method Migrate(service: RemoteNode, r: Request, ghost before: seq<State>) returns (ghost trace: seq<State>)
    requires IsTrace(r, before) && before[|before| - 1] == State(MigrateRemove, service.pins)
    modifies service
    ensures IsTrace(r, trace) && trace[0] == before[0]
    ensures trace[|trace| - 1].pins == service.pins && Over(trace[|trace| - 1].pc, false)
  {
    var ok := service.Rm(r.protectedCid, InFlightName(r.name));
    if !ok {
      trace := Extend(r, before, false, State(MigrateFailed, service.pins));
      return;
    }
    trace := Extend(r, before, true, State(MigrateAdd, service.pins));
    ok := service.Add(r.protectedCid, r.name);
    trace := Extend(r, trace, ok, State(if ok then Done(false) else MigrateFailed, service.pins));
  }

  /** The records under either name of the request, except those of the protected CID. */
  ghost function StaleSet(r: Request, pins: RemotePins): set<(Cid, Name)> {
    set p | p in pins && LocalPass.OwnName(r, p.1) && p.0 != r.protectedCid
  }

  /** The protected CID has a record under either name. */
  predicate Covered(r: Request, pins: RemotePins) {
    (r.protectedCid, r.name) in pins || (r.protectedCid, InFlightName(r.name)) in pins
  }

  /** The protected CID has a record under some unrelated name. */
  ghost predicate RecordedElsewhere(r: Request, pins: RemotePins) {
    exists n :: !LocalPass.OwnName(r, n) && (r.protectedCid, n) in pins
  }

  /** The request's names hold exactly the final record of the protected CID. */
  ghost predicate Settled(r: Request, pins: RemotePins) {
    && (r.protectedCid, r.name) in pins
    && forall p :: p in pins && LocalPass.OwnName(r, p.1) ==> p == (r.protectedCid, r.name)
  }

  /** The protected CID has only its temporary record, and nothing is stale: the records a pass migrates. */
  ghost predicate OnlyTemporary(r: Request, pins: RemotePins) {
    && (r.protectedCid, r.name) !in pins && (r.protectedCid, InFlightName(r.name)) in pins
    && StaleSet(r, pins) == {}
  }

  /**
   * Where a pass that migrates may have left the protected CID without a record: between dropping
   * the temporary record and recreating it, after a migration call that reported an error, and after
   * a recreation answered "duplicate" by a service that records the CID under an unrelated name.
   */
  ghost predicate MidMigration(r: Request, s: State) {
    s.pc.MigrateAdd? || s.pc.MigrateFailed? || (s.pc == Done(false) && RecordedElsewhere(r, s.pins))
  }

  ghost predicate Undisturbed(r: Request, before: RemotePins, s: State) {
    && (Covered(r, before) && !Covered(r, s.pins) ==> OnlyTemporary(r, before) && MidMigration(r, s))
    && ((r.protectedCid, r.name) in before ==> (r.protectedCid, r.name) in s.pins)
    && (forall p: (Cid, Name) :: !LocalPass.OwnName(r, p.1) ==> (p in before <==> p in s.pins))
    && (s.pc.ListTemp? ==> ListsRemote(s.pins, r.name, s.pc.finals))
    && (s.pc.Remove? ==>
          s.pc.todo != [] && forall p :: p in s.pc.todo ==> LocalPass.OwnName(r, p.1) && p.0 != r.protectedCid)
    && (s.pc.MigrateRemove? || s.pc.MigrateAdd? || s.pc.MigrateFailed? ==> OnlyTemporary(r, before))
    && (s.pc.MigrateRemove? ==> s.pins == before)
    && (s.pc.MigrateAdd? ==> s.pins == before - {(r.protectedCid, InFlightName(r.name))})
    && (s.pc.DropTemp? ==> s.pins == before && (r.protectedCid, r.name) in before)
    && (s.pc.ListFinal? || s.pc.ListTemp? ==> s.pins == before)
  }

  lemma DecideIsRight(r: Request, pins: RemotePins, finals: seq<Cid>, temps: seq<Cid>)
    requires ListsRemote(pins, r.name, finals) && ListsRemote(pins, InFlightName(r.name), temps)
    ensures var pc := Decide(r, finals, temps);
            && (pc.Remove? <==> StaleSet(r, pins) != {})
            && (pc.Remove? ==> pc.todo != [] && forall p :: p in pc.todo <==> p in StaleSet(r, pins))
            && (pc.MigrateRemove? || pc.DropTemp? ==> (r.protectedCid, InFlightName(r.name)) in pins)
            && (pc.MigrateRemove? ==> (r.protectedCid, r.name) !in pins)
            && (pc.DropTemp? ==> (r.protectedCid, r.name) in pins)
            && (pc.Done? ==> !pc.more && (r.protectedCid, InFlightName(r.name)) !in pins)
  {
    var staleFinal := LocalPass.StalePins(finals, r.protectedCid);
    var staleTemp := LocalPass.StalePins(temps, r.protectedCid);
    var todo := WithName(staleFinal, r.name) + WithName(staleTemp, InFlightName(r.name));
    forall p: (Cid, Name)
      ensures p in todo <==> p in StaleSet(r, pins)
    {
      var (c, n) := p;
      var a, b := WithName(staleFinal, r.name), WithName(staleTemp, InFlightName(r.name));
      assert (c, n) in todo <==> (c, n) in a || (c, n) in b;
    }
    if staleFinal != [] || staleTemp != [] {
      assert todo[0] in todo;
    }
  }

  /** What a pass decides to remove are the stale CIDs of each listing, under the listed name. */
  lemma DecidedRecords(r: Request, finals: seq<Cid>, temps: seq<Cid>)
    requires Decide(r, finals, temps).Remove?
    ensures var todo := Decide(r, finals, temps).todo;
      && todo != []
      && forall p: (Cid, Name) :: p in todo <==>
           p.0 != r.protectedCid && ((p.0 in finals && p.1 == r.name) || (p.0 in temps && p.1 == InFlightName(r.name)))
  {
    var a := WithName(LocalPass.StalePins(finals, r.protectedCid), r.name);
    var b := WithName(LocalPass.StalePins(temps, r.protectedCid), InFlightName(r.name));
    forall p: (Cid, Name)
      ensures p in a + b <==>
                p.0 != r.protectedCid
                && ((p.0 in finals && p.1 == r.name) || (p.0 in temps && p.1 == InFlightName(r.name)))
    {
      var (c, n) := p;
      assert (c, n) in a + b <==> (c, n) in a || (c, n) in b;
    }
  }

  lemma UndisturbedStep(r: Request, before: RemotePins, s: State, ok: bool, s': State)
    requires Undisturbed(r, before, s) && Step(r, s, ok, s')
    ensures Undisturbed(r, before, s')
    ensures s.pc.MigrateRemove? ==> (r.protectedCid, r.name) !in s.pins
  {
    match s.pc
    case ListTemp(finals) =>
      if ok {
        var temps :| ListsRemote(s.pins, InFlightName(r.name), temps) && s'.pc == Decide(r, finals, temps);
        DecideIsRight(r, s.pins, finals, temps);
      }
    case Remove(todo, _) =>
      assert todo[0] in todo;
    case MigrateAdd =>
      if ok && s'.pins == s.pins && !Covered(r, s.pins) {
        var n :| (r.protectedCid, n) in s.pins;
        assert !LocalPass.OwnName(r, n);
      }
    case _ =>
  }

  /**
   * At every state of an undisturbed pass, with any subset of calls failing: records under other
   * names are untouched, a final record of the protected CID stays, and a protected CID recorded
   * under either name at the start still is, except in the course of a migration, which starts only
   * from a lone temporary record with nothing stale.
   */
  lemma {:induction false} RemotePassSafe(r: Request, trace: seq<State>, i: nat)
    requires IsTrace(r, trace) && i < |trace|
    ensures Undisturbed(r, trace[0].pins, trace[i])
  {
    if i > 0 {
      RemotePassSafe(r, trace, i - 1);
      UndisturbedStep(r, trace[0].pins, trace[i - 1], Step(r, trace[i - 1], true, trace[i]), trace[i]);
    }
  }

  ghost predicate AllSucceed(r: Request, trace: seq<State>) {
    forall j :: 0 <= j < |trace| - 1 ==> Step(r, trace[j], true, trace[j + 1])
  }

  predicate Terminal(pc: Pc) {
    pc.Done? || pc.MigrateFailed?
  }

  /** The pass can settle the request: a final record exists, or a temporary one that can be recreated. */
  ghost predicate CanSettle(r: Request, pins: RemotePins) {
    (r.protectedCid, r.name) in pins || (Covered(r, pins) && !RecordedElsewhere(r, pins))
  }

  /** Where a successful pass without stale records stands. */
  ghost predicate OnTrack(r: Request, s: State) {
    var temp, final := (r.protectedCid, InFlightName(r.name)), (r.protectedCid, r.name);
    && StaleSet(r, s.pins) == {}
    && match s.pc
       case ListFinal => CanSettle(r, s.pins)
       case ListTemp(finals) => CanSettle(r, s.pins) && ListsRemote(s.pins, r.name, finals)
       case MigrateRemove => temp in s.pins && final !in s.pins && !RecordedElsewhere(r, s.pins)
       case MigrateAdd => temp !in s.pins && final !in s.pins && !RecordedElsewhere(r, s.pins)
       case DropTemp => final in s.pins
       case Done(more) => !more && Settled(r, s.pins)
       case _ => false
  }

  lemma SettledWhenDone(r: Request, pins: RemotePins)
    requires StaleSet(r, pins) == {} && (r.protectedCid, r.name) in pins
    requires (r.protectedCid, InFlightName(r.name)) !in pins
    ensures Settled(r, pins)
  {
    forall p | p in pins && LocalPass.OwnName(r, p.1)
      ensures p == (r.protectedCid, r.name)
    {
      assert p !in StaleSet(r, pins);
    }
  }

  lemma OnTrackStep(r: Request, s: State, s': State)
    requires OnTrack(r, s) && Step(r, s, true, s')
    ensures OnTrack(r, s')
  {
    match s.pc
    case ListTemp(finals) =>
      var temps :| ListsRemote(s.pins, InFlightName(r.name), temps) && s'.pc == Decide(r, finals, temps);
      DecideIsRight(r, s.pins, finals, temps);
      if s'.pc.Done? {
        SettledWhenDone(r, s.pins);
      }
    case MigrateAdd =>
      assert !Recorded(s.pins, r.protectedCid);
      SettledWhenDone(r, s'.pins);
    case DropTemp => SettledWhenDone(r, s'.pins);
    case _ =>
  }

  /**
   * A pass that starts without stale records and whose calls all succeed ends with exactly the
   * final-named record, if there was one, or if the CID is recorded under the temporary name and
   * under no unrelated one.
   */
  lemma CleanPassSettles(r: Request, trace: seq<State>)
    requires IsTrace(r, trace) && AllSucceed(r, trace) && Terminal(trace[|trace| - 1].pc)
    requires StaleSet(r, trace[0].pins) == {} && CanSettle(r, trace[0].pins)
    ensures trace[|trace| - 1].pc == Done(false)
    ensures Settled(r, trace[|trace| - 1].pins)
  {
    StaysOnTrack(r, trace, |trace| - 1);
  }

  lemma {:induction false} StaysOnTrack(r: Request, trace: seq<State>, i: nat)
    requires IsTrace(r, trace) && AllSucceed(r, trace) && i < |trace| && OnTrack(r, trace[0])
    ensures OnTrack(r, trace[i])
  {
    if i > 0 {
      StaysOnTrack(r, trace, i - 1);
      OnTrackStep(r, trace[i - 1], trace[i]);
    }
  }

  // ---- exactly when a pass can lose the record ----

  /** A whole pass over these records that ends with no record of the protected CID. */
  ghost predicate Loses(r: Request, before: RemotePins, trace: seq<State>) {
    && IsTrace(r, trace) && trace[0].pins == before
    && Terminal(trace[|trace| - 1].pc) && !Covered(r, trace[|trace| - 1].pins)
  }

  ghost predicate CanLose(r: Request, before: RemotePins) {
    exists trace :: Loses(r, before, trace)
  }

  /** It can even though every call succeeds. */
  ghost predicate CanLoseQuietly(r: Request, before: RemotePins) {
    exists trace :: Loses(r, before, trace) && AllSucceed(r, trace)
  }

  /** The migration of a lone temporary record, up to the removal of that record. */
  lemma MigrationStarts(r: Request, before: RemotePins) returns (trace: seq<State>)
    requires OnlyTemporary(r, before)
    ensures IsTrace(r, trace) && AllSucceed(r, trace) && trace[0].pins == before
    ensures trace[|trace| - 1] == State(MigrateAdd, before - {(r.protectedCid, InFlightName(r.name))})
  {
    var t, c := InFlightName(r.name), r.protectedCid;
    forall d
      ensures (d, r.name) !in before
      ensures (d, t) in before <==> d == c
    {
      assert (d, r.name) !in StaleSet(r, before) && (d, t) !in StaleSet(r, before);
    }
    assert ListsRemote(before, r.name, []);
    assert ListsRemote(before, t, [c]);
    assert LocalPass.StalePins([c], c) == [];
    assert Decide(r, [], [c]) == MigrateRemove;
    trace := [State(ListFinal, before), State(ListTemp([]), before), State(MigrateRemove, before),
              State(MigrateAdd, before - {(c, t)})];
    assert Step(r, trace[0], true, trace[1]);
    assert Step(r, trace[1], true, trace[2]);
    assert Step(r, trace[2], true, trace[3]);
  }

  /** Recreating the record may fail. */
  lemma MigrationFails(r: Request, before: RemotePins)
    requires OnlyTemporary(r, before)
    ensures CanLose(r, before)
  {
    var trace := MigrationStarts(r, before);
    var last := trace[|trace| - 1];
    assert !Covered(r, last.pins);
    trace := Extend(r, trace, false, State(MigrateFailed, last.pins));
    assert Loses(r, before, trace);
  }

  /** Recreating the record may be answered "duplicate", without effect. */
  lemma MigrationIsDuplicate(r: Request, before: RemotePins)
    requires OnlyTemporary(r, before) && RecordedElsewhere(r, before)
    ensures CanLoseQuietly(r, before)
  {
    var trace := MigrationStarts(r, before);
    var last := trace[|trace| - 1];
    var n :| !LocalPass.OwnName(r, n) && (r.protectedCid, n) in before;
    assert (r.protectedCid, n) in last.pins;
    assert Recorded(last.pins, r.protectedCid);
    var longer := trace + [State(Done(false), last.pins)];
    assert Step(r, last, true, longer[|longer| - 1]);
    forall j | 0 <= j < |longer| - 1
      ensures Step(r, longer[j], true, longer[j + 1])
    {
      if j < |trace| - 1 {
        assert Step(r, trace[j], true, trace[j + 1]);
      }
    }
    assert IsTrace(r, longer) by {
      assert forall j :: 0 <= j < |longer| - 1 ==> Moves(r, longer[j], longer[j + 1]);
    }
    assert Loses(r, before, longer);
  }

  /**
   * A pass over records that hold the protected CID can end without any of them exactly when the CID
   * has only its temporary record and nothing is stale.
   */
  lemma LosesOnlyTheLoneTemporary(r: Request, before: RemotePins)
    requires Covered(r, before)
    ensures CanLose(r, before) <==> OnlyTemporary(r, before)
  {
    if trace :| Loses(r, before, trace) {
      RemotePassSafe(r, trace, |trace| - 1);
    }
    if OnlyTemporary(r, before) {
      MigrationFails(r, before);
    }
  }

  /** With every call succeeding it can only if, besides, the service records the CID under an unrelated name. */
  lemma LosesQuietlyOnlyDuplicates(r: Request, before: RemotePins)
    requires Covered(r, before)
    ensures CanLoseQuietly(r, before) <==> OnlyTemporary(r, before) && RecordedElsewhere(r, before)
  {
    if trace :| Loses(r, before, trace) && AllSucceed(r, trace) {
      RemotePassSafe(r, trace, |trace| - 1);
      if !RecordedElsewhere(r, before) {
        StaysOnTrack(r, trace, |trace| - 1);
      }
    }
    if OnlyTemporary(r, before) && RecordedElsewhere(r, before) {
      MigrationIsDuplicate(r, before);
    }
  }

  /** What a pass that lost the record leaves behind: no record under either name, and no further pass asked for. */
  lemma LossIsFinal(r: Request, trace: seq<State>)
    requires IsTrace(r, trace) && Terminal(trace[|trace| - 1].pc)
    requires Covered(r, trace[0].pins) && !Covered(r, trace[|trace| - 1].pins)
    ensures Over(trace[|trace| - 1].pc, false)
    ensures forall p :: p in trace[|trace| - 1].pins ==> !LocalPass.OwnName(r, p.1)
  {
    RemotePassSafe(r, trace, |trace| - 1);
    LossLeavesNothing(r, trace, |trace| - 1);
    var pins := trace[|trace| - 1].pins;
    forall p | p in pins
      ensures !LocalPass.OwnName(r, p.1)
    {
      assert p !in StaleSet(r, pins);
      assert p == (p.0, p.1);
    }
  }

  /** From a lone temporary record on, a pass leaves at most the two records of the protected CID. */
  lemma {:induction false} LossLeavesNothing(r: Request, trace: seq<State>, i: nat)
    requires IsTrace(r, trace) && i < |trace| && OnlyTemporary(r, trace[0].pins)
    ensures StaleSet(r, trace[i].pins) == {}
    ensures !trace[i].pc.Remove?
  {
    if i > 0 {
      LossLeavesNothing(r, trace, i - 1);
      RemotePassSafe(r, trace, i - 1);
      StaysClean(r, trace[0].pins, trace[i - 1], Step(r, trace[i - 1], true, trace[i]), trace[i]);
    }
  }

  lemma StaysClean(r: Request, before: RemotePins, s: State, ok: bool, s': State)
    requires Undisturbed(r, before, s) && StaleSet(r, s.pins) == {} && !s.pc.Remove? && Step(r, s, ok, s')
    ensures StaleSet(r, s'.pins) == {} && !s'.pc.Remove?
  {
    if s.pc.ListTemp? && ok {
      var temps :| ListsRemote(s.pins, InFlightName(r.name), temps) && s'.pc == Decide(r, s.pc.finals, temps);
      DecideIsRight(r, s.pins, s.pc.finals, temps);
    }
    forall p | p in s'.pins && LocalPass.OwnName(r, p.1)
      ensures p.0 == r.protectedCid
    {
      assert p in s.pins ==> p !in StaleSet(r, s.pins);
    }
  }
}
