/**
 * What a batch answers in the midst of everything else (`cleanup_one_batch`,
 * src/kubo/pinning.rs:239-251): the batches of the whole system are the batches of `CleanupBatch`.
 */
module BatchAnswers {
  import opened Kubo
  import opened PublishSystem
  import LocalPass
  import RemotePass
  import PinProtocol
  import CleanupBatch
  import Scheduler = CleanupScheduler

  // ---- over whole runs ----

  /** A removal, in either pass, that reports success. */
  predicate RemovalSucceeds(s: State, e: Event) {
    (e == Call(true) && s.local.Remove?) || (e == RemoteCall(true) && s.remote.Remove?)
  }

  lemma TakeAsksNothing(w: World, s: State, s': State)
    requires BaseInv(w, s) && Next(w, s, Take, s')
    ensures s'.scheduler.phase.Running? && !Asks(s')
  {
    TakeBase(w, s, s');
    assert BatchFits(w, s');
  }

  lemma AsksAfterStep(w: World, s: State, e: Event, s': State)
    requires s.scheduler.phase.Running? && Next(w, s, e, s') && !e.Finish?
    ensures s'.scheduler.phase == s.scheduler.phase
    ensures Asks(s') <==> Asks(s) || RemovalSucceeds(s, e)
  {
    if e.Call? {
      AsksAfterCall(w, s, e.ok, s');
    } else if e.RemoteCall? {
      AsksAfterRemoteCall(w, s, e.ok, s');
    }
  }

  lemma AsksAfterCall(w: World, s: State, ok: bool, s': State)
    requires Next(w, s, Call(ok), s')
    ensures s'.scheduler == s.scheduler && (Asks(s') <==> Asks(s) || RemovalSucceeds(s, Call(ok)))
  {
  }

  lemma AsksAfterRemoteCall(w: World, s: State, ok: bool, s': State)
    requires Next(w, s, RemoteCall(ok), s')
    ensures s'.scheduler == s.scheduler && (Asks(s') <==> Asks(s) || RemovalSucceeds(s, RemoteCall(ok)))
  {
  }

  /** Since the event `i` some removal has reported success. */
  ghost predicate HasRemoved(run: seq<State>, es: seq<Event>, i: nat, j: nat)
    requires j <= |es| < |run|
  {
    exists m :: i < m < j && RemovalSucceeds(run[m], es[m])
  }

  lemma {:induction false} AsksSinceTake(w: World, capacity: nat, run: seq<State>, es: seq<Event>, i: nat, j: nat)
    requires PublishSystem.WellFormed(w) && IsRun(w, capacity, run, es) && i < j <= |es| && es[i] == Take
    requires forall m :: i < m < j ==> !es[m].Finish?
    ensures run[j].scheduler.phase.Running? && run[j].scheduler.phase == run[i + 1].scheduler.phase
    ensures Asks(run[j]) <==> HasRemoved(run, es, i, j)
    decreases j
  {
    if j == i + 1 {
      PinProtocol.RunKeepsInv(w, capacity, run, es, i);
      TakeAsksNothing(w, run[i], run[i + 1]);
    } else {
      AsksSinceTake(w, capacity, run, es, i, j - 1);
      AsksAfterStep(w, run[j - 1], es[j - 1], run[j]);
      assert RemovalSucceeds(run[j - 1], es[j - 1]) ==> HasRemoved(run, es, i, j);
    }
  }

  /**
   * Whatever fails, and whatever else goes on: a batch that was taken at event `i` and ends at event
   * `j` asks for another one exactly when one of its removals in between reported success, or a pass
   * elsewhere asks.
   */
  lemma AnswerIsRight(
      w: World, capacity: nat, run: seq<State>, es: seq<Event>, i: nat, j: nat, otherMore: bool)
    requires PublishSystem.WellFormed(w) && IsRun(w, capacity, run, es) && i < j < |es|
    requires es[i] == Take && es[j] == Finish(otherMore) && forall m :: i < m < j ==> !es[m].Finish?
    ensures run[j].scheduler.phase.Running?
    ensures BatchMore(w, run[j], otherMore) <==>
              HasRemoved(run, es, i, j) || (HasElsewhere(w, run[j].scheduler.phase.request) && otherMore)
  {
    AsksSinceTake(w, capacity, run, es, i, j);
    assert Next(w, run[j], es[j], run[j + 1]);
  }

  // ---- step by step ----

  /** The request's passes are all in view. */
  predicate IsInView(w: World, r: Request) {
    r.kuboUrl == w.node && (r.remoteService.Some? ==> r.remoteService.value == w.service)
  }

  /** Where the running batch is, as `CleanupBatch` has it. */
  function BatchPc(s: State): CleanupBatch.Pc
    requires s.scheduler.phase.Running?
  {
    if !s.local.Done? then CleanupBatch.Local(s.local)
    else if s.scheduler.phase.request.remoteService.Some? && !RemotePass.Terminal(s.remote)
    then CleanupBatch.Remote(s.local.more, s.remote)
    else CleanupBatch.Finished(s.local.more || s.remote == RemotePass.Done(true))
  }

  ghost function BatchOf(s: State): CleanupBatch.State
    requires s.scheduler.phase.Running?
  {
    CleanupBatch.State(BatchPc(s), s.pins, s.records, 0, {}, {})
  }

  /** The remote pass has not begun while the local one is under way. */
  ghost predicate RemoteNotBegun(w: World, s: State) {
    s.scheduler.phase.Running? && !s.local.Done? && Touches(w, Records, s.scheduler.phase.request) ==>
      s.remote.ListFinal?
  }

  lemma StepKeepsNotBegun(w: World, s: State, e: Event, s': State)
    requires BaseInv(w, s) && RemoteNotBegun(w, s) && Next(w, s, e, s')
    ensures RemoteNotBegun(w, s')
  {
    if e.Take? {
      TakeBase(w, s, s');
    }
  }

  lemma {:induction false} RunKeepsNotBegun(w: World, capacity: nat, run: seq<State>, es: seq<Event>, i: nat)
    requires PublishSystem.WellFormed(w) && IsRun(w, capacity, run, es) && i < |run|
    ensures BaseInv(w, run[i]) && RemoteNotBegun(w, run[i])
  {
    PinProtocol.RunKeepsInv(w, capacity, run, es, i);
    if i > 0 {
      RunKeepsNotBegun(w, capacity, run, es, i - 1);
      StepKeepsNotBegun(w, run[i - 1], es[i - 1], run[i]);
    }
  }

  /** One call of the batch, and going on to the next pass, or ending, if it was the last of its pass. */
  ghost predicate CallOfBatch(r: Request, a: CleanupBatch.State, ok: bool, b: CleanupBatch.State) {
    || CleanupBatch.BatchStep(r, a, ok, b)
    || exists mid :: CleanupBatch.BatchStep(r, a, ok, mid) && CleanupBatch.BatchStep(r, mid, true, b)
  }

  lemma BatchBegins(w: World, s: State, s': State)
    requires BaseInv(w, s) && Next(w, s, Take, s')
    ensures s'.scheduler.phase.Running?
    ensures IsInView(w, s'.scheduler.phase.request) ==> BatchPc(s') == CleanupBatch.Start(s'.scheduler.phase.request)
  {
    TakeBase(w, s, s');
    assert BatchFits(w, s');
  }

  lemma CallIsBatchStep(w: World, s: State, ok: bool, s': State)
    requires BaseInv(w, s) && RemoteNotBegun(w, s) && Next(w, s, Call(ok), s')
    requires IsInView(w, s.scheduler.phase.request)
    ensures s'.scheduler == s.scheduler && CallOfBatch(s.scheduler.phase.request, BatchOf(s), ok, BatchOf(s'))
  {
    assert BatchFits(w, s);
    var mid := BatchOf(s').(pc := CleanupBatch.Local(s'.local));
    assert CleanupBatch.BatchStep(s.scheduler.phase.request, BatchOf(s), ok, mid);
    if s'.local.Done? {
      assert CleanupBatch.BatchStep(s.scheduler.phase.request, mid, true, BatchOf(s'));
    }
  }

  lemma RemoteCallIsBatchStep(w: World, s: State, ok: bool, s': State)
    requires Next(w, s, RemoteCall(ok), s') && IsInView(w, s.scheduler.phase.request)
    ensures s'.scheduler == s.scheduler && CallOfBatch(s.scheduler.phase.request, BatchOf(s), ok, BatchOf(s'))
  {
    var mid := BatchOf(s').(pc := CleanupBatch.Remote(s.local.more, s'.remote));
    assert CleanupBatch.BatchStep(s.scheduler.phase.request, BatchOf(s), ok, mid);
    if RemotePass.Terminal(s'.remote) {
      assert CleanupBatch.BatchStep(s.scheduler.phase.request, mid, true, BatchOf(s'));
    }
  }

  /**
   * In any run, the batch of a request whose passes are in view is a batch of `CleanupBatch`: it
   * starts where that starts, each call is one of that batch's, and its answer is that batch's.
   */
  lemma BatchesAreBatches(w: World, capacity: nat, run: seq<State>, es: seq<Event>, i: nat)
    requires PublishSystem.WellFormed(w) && IsRun(w, capacity, run, es) && i < |es|
    ensures var s, e, s' := run[i], es[i], run[i + 1];
      && (e.Take? ==> s'.scheduler.phase.Running?)
      && (e.Call? || e.RemoteCall? || e.Finish? ==> s.scheduler.phase.Running?)
      && (e.Take? && IsInView(w, s'.scheduler.phase.request) ==>
            BatchPc(s') == CleanupBatch.Start(s'.scheduler.phase.request))
      && ((e.Call? || e.RemoteCall?) && IsInView(w, s.scheduler.phase.request) ==>
            s'.scheduler.phase.Running? && CallOfBatch(s.scheduler.phase.request, BatchOf(s), e.ok, BatchOf(s')))
      && (e.Finish? && IsInView(w, s.scheduler.phase.request) ==>
            BatchPc(s) == CleanupBatch.Finished(BatchMore(w, s, e.otherMore)))
  {
    var s, e, s' := run[i], es[i], run[i + 1];
    RunKeepsNotBegun(w, capacity, run, es, i);
    match e
    case Take => BatchBegins(w, s, s');
    case Call(ok) =>
      if IsInView(w, s.scheduler.phase.request) {
        CallIsBatchStep(w, s, ok, s');
      }
    case RemoteCall(ok) =>
      if IsInView(w, s.scheduler.phase.request) {
        RemoteCallIsBatchStep(w, s, ok, s');
      }
    case Finish(otherMore) => FinishIsAnswer(w, s, otherMore, s');
    case _ =>
  }

  lemma FinishIsAnswer(w: World, s: State, otherMore: bool, s': State)
    requires BaseInv(w, s) && Next(w, s, Finish(otherMore), s')
    ensures IsInView(w, s.scheduler.phase.request) ==>
              BatchPc(s) == CleanupBatch.Finished(BatchMore(w, s, otherMore))
  {
  }
}
