/**
 * One local cleanup pass (`cleanup_local_pass`, src/kubo/pinning.rs:253-307) as a step machine:
 * one step is one Kubo call, so that other actors may act between any two steps.
 */
module LocalPass {
  import opened Kubo

  datatype Pc =
    | ListFinal                                    // about to list the requested name
    | ListTemp(finals: seq<Cid>)                   // about to list the in-flight name
    | Remove(todo: seq<Cid>, removedAny: bool)     // about to remove todo[0]
    | Finalise                                     // about to rename the surviving pin
    | Done(more: bool)

  datatype State = State(pc: Pc, pins: LocalPins)

  /** The CIDs of `pins` other than the protected one, in order. */
  function StalePins(pins: seq<Cid>, protectedCid: Cid): (stale: seq<Cid>)
    ensures forall c :: c in stale <==> c in pins && c != protectedCid
  {
    if pins == [] then []
    else (if pins[0] != protectedCid then [pins[0]] else []) + StalePins(pins[1..], protectedCid)
  }

  /** Each listed CID is kept as often as it is listed. */
  lemma {:induction false} StalePinsKeepCount(pins: seq<Cid>, protectedCid: Cid)
    ensures multiset(StalePins(pins, protectedCid)) == multiset(pins)[protectedCid := 0]
  {
    if pins != [] {
      StalePinsKeepCount(pins[1..], protectedCid);
      assert pins == [pins[0]] + pins[1..];
    }
  }

  /** And in the order listed: the stale pins of two listings are those of the first, then those of the second. */
  lemma {:induction false} StalePinsKeepOrder(a: seq<Cid>, b: seq<Cid>, protectedCid: Cid)
    ensures StalePins(a + b, protectedCid) == StalePins(a, protectedCid) + StalePins(b, protectedCid)
  {
    if a == [] {
      assert a + b == b;
    } else {
      var c, rest := a[0], a[1..];
      StalePinsKeepOrder(rest, b, protectedCid);
      StalePinsStep(c, rest + b, protectedCid);
      StalePinsStep(c, rest, protectedCid);
      assert a == [c] + rest;
      Associative([c], rest, b);
      Associative(if c != protectedCid then [c] else [], StalePins(rest, protectedCid), StalePins(b, protectedCid));
    }
  }

  lemma Associative(a: seq<Cid>, b: seq<Cid>, c: seq<Cid>)
    ensures (a + b) + c == a + (b + c)
  {
  }

  lemma StalePinsStep(c: Cid, rest: seq<Cid>, protectedCid: Cid)
    ensures StalePins([c] + rest, protectedCid)
         == (if c != protectedCid then [c] else []) + StalePins(rest, protectedCid)
  {
    assert ([c] + rest)[1..] == rest;
  }

  /** What the pass does once it has both listings. */
  function Decide(r: Request, finals: seq<Cid>, temps: seq<Cid>): Pc {
    var stale := StalePins(finals + temps, r.protectedCid);
    if stale != [] then Remove(stale, false)
    else if r.protectedCid !in finals then Finalise
    else Done(false)
  }

  function AfterRemoval(todo: seq<Cid>, removedAny: bool): Pc
    requires todo != []
  {
    if |todo| == 1 then Done(removedAny) else Remove(todo[1..], removedAny)
  }

  /** One Kubo call of the pass, answered with success (`ok`) or an error. */
  ghost predicate Step(r: Request, s: State, ok: bool, s': State) {
    match s.pc
    case ListFinal =>
      && s'.pins == s.pins
      && (if ok then s'.pc.ListTemp? && ListsLocal(s.pins, r.name, s'.pc.finals) else s'.pc == Done(false))
    case ListTemp(finals) =>
      && s'.pins == s.pins
      && (if ok then
            exists temps :: ListsLocal(s.pins, InFlightName(r.name), temps) && s'.pc == Decide(r, finals, temps)
          else s'.pc == Done(false))
    case Remove(todo, removedAny) =>
      && todo != []
      && LocalRm(s.pins, todo[0], ok, s'.pins)
      && s'.pc == AfterRemoval(todo, removedAny || ok)
    case Finalise =>
      && LocalAdd(s.pins, r.protectedCid, r.name, ok, s'.pins)
      && s'.pc == Done(false)
    case Done(_) => false
  }

  /** The CIDs pinned under the requested or the in-flight name, except the protected one. */
  ghost function StaleSet(r: Request, pins: LocalPins): set<Cid> {
    set c | c in pins && OwnName(r, pins[c]) && c != r.protectedCid
  }

  /** The request's names hold exactly the protected CID, under the requested name. */
  ghost predicate Settled(r: Request, pins: LocalPins) {
    && r.protectedCid in pins && pins[r.protectedCid] == r.name
    && StaleSet(r, pins) == {}
  }

  ghost predicate Moves(r: Request, s: State, s': State) {
    Step(r, s, true, s') || Step(r, s, false, s')
  }

  /** A pass nobody interferes with, recorded state by state, any calls failing. */
  ghost predicate IsTrace(r: Request, trace: seq<State>) {
    && trace != []
    && trace[0].pc == ListFinal
    && forall i :: 0 <= i < |trace| - 1 ==> Moves(r, trace[i], trace[i + 1])
  }

  ghost function Extend(r: Request, trace: seq<State>, ok: bool, s: State): (longer: seq<State>)
    requires IsTrace(r, trace) && Step(r, trace[|trace| - 1], ok, s)
    ensures IsTrace(r, longer) && longer[0] == trace[0] && longer[|longer| - 1] == s
  {
    trace + [s]
  }

  /** The removal loop of the pass. */
  method RemoveStale(kubo: LocalNode, r: Request, stale: seq<Cid>, ghost before: seq<State>)
    returns (removedAny: bool, ghost trace: seq<State>)
    requires stale != []
    requires IsTrace(r, before) && before[|before| - 1] == State(Remove(stale, false), kubo.pins)
    modifies kubo
    ensures IsTrace(r, trace) && trace[0] == before[0]
    ensures trace[|trace| - 1] == State(Done(removedAny), kubo.pins)
  {
    removedAny, trace := false, before;
    for i := 0 to |stale|
      invariant IsTrace(r, trace) && trace[0] == before[0]
      invariant trace[|trace| - 1]
             == State(if i < |stale| then Remove(stale[i..], removedAny) else Done(removedAny), kubo.pins)
    {
      var ok := kubo.Rm(stale[i]);
      assert stale[i..][1..] == stale[i + 1..];
      trace := Extend(r, trace, ok, State(AfterRemoval(stale[i..], removedAny || ok), kubo.pins));
      removedAny := removedAny || ok;
    }
  }

  /** The pass as the worker runs it: its calls are the steps above, in the same order. */
  method CleanupLocalPass(kubo: LocalNode, r: Request) returns (more: bool, ghost trace: seq<State>)
    modifies kubo
    ensures IsTrace(r, trace)
    ensures trace[0].pins == old(kubo.pins)
    ensures trace[|trace| - 1] == State(Done(more), kubo.pins)
  {
    more, trace := false, [State(ListFinal, kubo.pins)];
    var finals := kubo.List(r.name);
    if finals.None? {
      trace := Extend(r, trace, false, State(Done(false), kubo.pins));
      return;
    }
    trace := Extend(r, trace, true, State(ListTemp(finals.value), kubo.pins));
    var temps := kubo.List(InFlightName(r.name));
    if temps.None? {
      trace := Extend(r, trace, false, State(Done(false), kubo.pins));
      return;
    }
    trace := Extend(r, trace, true, State(Decide(r, finals.value, temps.value), kubo.pins));
    var stale := StalePins(finals.value + temps.value, r.protectedCid);
    if stale != [] {
      more, trace := RemoveStale(kubo, r, stale, trace);
    } else if r.protectedCid !in finals.value {
      var ok := kubo.Add(r.protectedCid, r.name);
      trace := Extend(r, trace, ok, State(Done(false), kubo.pins));
    }
  }

  /** What the program counter alone promises, whatever anybody does to the pins. */
  ghost predicate NeverTargetsProtected(r: Request, pc: Pc) {
    pc.Remove? ==> pc.todo != [] && r.protectedCid !in pc.todo
  }

  /** However the pins change between calls, no call of the pass removes the protected pin. */
  lemma ProtectedPinKept(r: Request, s: State, ok: bool, s': State)
    requires NeverTargetsProtected(r, s.pc) && Step(r, s, ok, s')
    ensures NeverTargetsProtected(r, s'.pc)
    ensures r.protectedCid in s.pins ==> r.protectedCid in s'.pins
  {
  }

  ghost predicate OwnName(r: Request, n: Name) {
    n == r.name || n == InFlightName(r.name)
  }

  /** Every pin of `small` is a pin of `big`, under the same name. */
  ghost predicate SubPins(small: LocalPins, big: LocalPins) {
    forall c :: c in small ==> c in big && small[c] == big[c]
  }

  /** Pins under any other name are as before, except that the protected CID may have been renamed. */
  ghost predicate OthersUntouched(r: Request, before: LocalPins, now: LocalPins) {
    && (forall c :: c in before && c != r.protectedCid && !OwnName(r, before[c]) ==> c in now && now[c] == before[c])
    && (forall c :: c in now && c != r.protectedCid && !OwnName(r, now[c]) ==> c in before && before[c] == now[c])
  }

  /** What an undisturbed pass that started with the pins `before` knows about its present state. */
  ghost predicate Undisturbed(r: Request, before: LocalPins, s: State) {
    && NeverTargetsProtected(r, s.pc)
    && (r.protectedCid in before ==> r.protectedCid in s.pins)
    && OthersUntouched(r, before, s.pins)
    && (!s.pc.Done? ==> SubPins(s.pins, before))
    && (s.pc.ListTemp? ==> ListsLocal(s.pins, r.name, s.pc.finals))
    && (s.pc.Remove? ==> forall c :: c in s.pc.todo ==> c in before && OwnName(r, before[c]))
    && (s.pc.Finalise? ==> StaleSet(r, s.pins) == {})
  }

  /** A call only ever takes pins away, except the final rename, made when no stale pin is left. */
  ghost predicate OnlyRenamesWhenClean(r: Request, s: State, s': State) {
    || SubPins(s'.pins, s.pins)
    || (s.pc.Finalise? && StaleSet(r, s.pins) == {} && s'.pins == s.pins[r.protectedCid := r.name])
  }

  lemma DecideIsRight(r: Request, pins: LocalPins, finals: seq<Cid>, temps: seq<Cid>)
    requires ListsLocal(pins, r.name, finals) && ListsLocal(pins, InFlightName(r.name), temps)
    ensures var pc := Decide(r, finals, temps);
            && (pc.Remove? <==> StaleSet(r, pins) != {})
            && (pc.Remove? ==> forall c :: c in pc.todo <==> c in StaleSet(r, pins))
            && (pc == Done(false) <==> Settled(r, pins))
  {
    var stale := StalePins(finals + temps, r.protectedCid);
    assert forall c :: c in finals + temps <==> c in finals || c in temps;
    assert forall c :: c in stale <==> c in StaleSet(r, pins);
    if stale != [] {
      assert stale[0] in stale;
    }
  }

  lemma UndisturbedStep(r: Request, before: LocalPins, s: State, ok: bool, s': State)
    requires Undisturbed(r, before, s) && Step(r, s, ok, s')
    ensures Undisturbed(r, before, s')
    ensures OnlyRenamesWhenClean(r, s, s')
  {
    match s.pc
    case ListTemp(finals) =>
      if ok {
        var temps :| ListsLocal(s.pins, InFlightName(r.name), temps) && s'.pc == Decide(r, finals, temps);
        DecideIsRight(r, s.pins, finals, temps);
      }
    case Remove(todo, _) =>
      assert todo[0] in todo;
    case _ =>
  }

  /**
   * At every state of an undisturbed pass, with any subset of calls failing: the protected pin is
   * there if it was at the start, pins under other names are untouched, and the only pin ever
   * (re)named is the protected one, when no stale pin is left under either name.
   */
  lemma {:induction false} LocalPassSafe(r: Request, trace: seq<State>, i: nat)
    requires IsTrace(r, trace) && i < |trace|
    ensures Undisturbed(r, trace[0].pins, trace[i])
    ensures i + 1 < |trace| ==> OnlyRenamesWhenClean(r, trace[i], trace[i + 1])
  {
    if i > 0 {
      LocalPassSafe(r, trace, i - 1);
      var ok := Step(r, trace[i - 1], true, trace[i]);
      UndisturbedStep(r, trace[0].pins, trace[i - 1], ok, trace[i]);
    }
    if i + 1 < |trace| {
      UndisturbedStep(r, trace[0].pins, trace[i], Step(r, trace[i], true, trace[i + 1]), trace[i + 1]);
    }
  }

  /** What a pass whose calls have all succeeded so far has achieved. */
  ghost predicate OnTrack(r: Request, s: State) {
    match s.pc
    case ListFinal => true
    case ListTemp(finals) => ListsLocal(s.pins, r.name, finals)
    case Remove(todo, _) => todo != [] && forall c :: c in StaleSet(r, s.pins) ==> c in todo
    case Finalise => StaleSet(r, s.pins) == {}
    case Done(more) => if more then StaleSet(r, s.pins) == {} else Settled(r, s.pins)
  }

  lemma OnTrackStep(r: Request, s: State, s': State)
    requires OnTrack(r, s) && Step(r, s, true, s')
    ensures OnTrack(r, s')
  {
    match s.pc
    case ListTemp(finals) =>
      var temps :| ListsLocal(s.pins, InFlightName(r.name), temps) && s'.pc == Decide(r, finals, temps);
      DecideIsRight(r, s.pins, finals, temps);
    case Remove(todo, removedAny) =>
      forall c | c in StaleSet(r, s'.pins)
        ensures c in todo[1..]
      {
        assert c in StaleSet(r, s.pins) && c != todo[0];
      }
      assert |todo| == 1 ==> todo[1..] == [];
    case _ =>
  }

  /**
   * A pass whose calls all succeed either leaves the request settled and asks for nothing more, or
   * has removed every stale pin and asks to be run again; so two such passes in a row settle it.
   */
  lemma {:induction false} SuccessfulPass(r: Request, trace: seq<State>, i: nat)
    requires IsTrace(r, trace) && i < |trace|
    requires forall j :: 0 <= j < |trace| - 1 ==> Step(r, trace[j], true, trace[j + 1])
    ensures OnTrack(r, trace[i])
  {
    if i > 0 {
      SuccessfulPass(r, trace, i - 1);
      OnTrackStep(r, trace[i - 1], trace[i]);
    }
  }

  /** A successful pass that starts without stale pins settles the request in that one pass. */
  lemma {:induction false} CleanPassSettles(r: Request, trace: seq<State>)
    requires IsTrace(r, trace) && trace[|trace| - 1].pc.Done?
    requires forall j :: 0 <= j < |trace| - 1 ==> Step(r, trace[j], true, trace[j + 1])
    requires StaleSet(r, trace[0].pins) == {}
    ensures trace[|trace| - 1].pc == Done(false)
    ensures Settled(r, trace[|trace| - 1].pins)
  {
    assert Step(r, trace[0], true, trace[1]);
    assert Step(r, trace[1], true, trace[2]);
    var finals := trace[1].pc.finals;
    var temps :| ListsLocal(trace[1].pins, InFlightName(r.name), temps) && trace[2].pc == Decide(r, finals, temps);
    DecideIsRight(r, trace[1].pins, finals, temps);
    if trace[2].pc.Finalise? {
      assert Step(r, trace[2], true, trace[3]);
      assert |trace| > 4 ==> !Step(r, trace[3], true, trace[4]);
    } else {
      assert |trace| > 3 ==> !Step(r, trace[2], true, trace[3]);
    }
    SuccessfulPass(r, trace, |trace| - 1);
  }
}
