/**
 * The sliding-window replay guard (src/msg.rs:433-470) and what it guarantees over a whole run,
 * together with the freshness check.
 */
module ReplayGuards {
  import opened Wrappers
  import opened Dids
  import opened Formats
  import opened Messages

  /** One call reads the clock three times: to validate, to prune, and to record the id. */
  datatype Readings = Readings(validate: u64, prune: u64, insert: u64)

  type Seen = map<string, u64>

  /** Saturating subtraction. */
  function Elapsed(now: u64, since: u64): u64 {
    if now >= since then now - since else 0
  }

  /** Forgets ids recorded more than `window` ago. */
  function Prune(seen: Seen, window: u64, now: u64): Seen {
    map id | id in seen && Elapsed(now, seen[id]) <= window :: seen[id]
  }

  /** An id is forgotten once more than the window has passed, and not when the clock goes back. */
  lemma PrunedIff(seen: Seen, window: u64, now: u64, id: string)
    ensures id in Prune(seen, window, now) <==> id in seen && now - seen[id] <= window
    ensures id in Prune(seen, window, now) ==> Prune(seen, window, now)[id] == seen[id]
  {
  }

  /** What a call leaves behind; `error` is the outcome of validating the headers. */
  function SeenAfter(seen: Seen, window: u64, id: string, error: Option<Error>, t: Readings): Seen {
    var pruned := Prune(seen, window, t.prune);
    if error.Some? then seen else if id in pruned then pruned else pruned[id := t.insert]
  }

  function Verdict(seen: Seen, window: u64, id: string, error: Option<Error>, t: Readings): Option<Error> {
    if error.Some? then error else if id in Prune(seen, window, t.prune) then Some(ReplayDetected) else None
  }

  class ReplayGuard {
    var seen: Seen
    const window: u64

    constructor (window: u64)
      ensures seen == map[] && this.window == window
    {
      seen := map[];
      this.window := window;
    }

    method CheckAndInsert<B>(p: Suite<B>, headers: Headers<B>, t: Readings) returns (error: Option<Error>)
      modifies this
      ensures error == Verdict(old(seen), window, headers.id, HeadersError(p, headers, t.validate), t)
      ensures seen == SeenAfter(old(seen), window, headers.id, HeadersError(p, headers, t.validate), t)
    {
      error := HeadersError(p, headers, t.validate);
      if error.Some? {
        return;
      }
      seen := Prune(seen, window, t.prune);
      if headers.id in seen {
        return Some(ReplayDetected);
      }
      seen := seen[headers.id := t.insert];
      return None;
    }
  }

  // ---- runs ----

  /** A call with what of its headers matters here. */
  datatype Call = Call(id: string, createdAt: u64, exp: u64, otherError: Option<Error>, t: Readings)

  /** Everything but freshness is decided by the headers alone. */
  function CallError(c: Call): Option<Error> {
    if c.otherError.Some? then c.otherError else FreshnessError(c.createdAt, c.exp, c.t.validate)
  }

  function After(seen: Seen, window: u64, calls: seq<Call>): Seen {
    if calls == [] then seen
    else
      var c := calls[|calls| - 1];
      SeenAfter(After(seen, window, calls[..|calls| - 1]), window, c.id, CallError(c), c.t)
  }

  ghost predicate Accepted(window: u64, calls: seq<Call>, i: nat)
    requires i < |calls|
  {
    Verdict(After(map[], window, calls[..i]), window, calls[i].id, CallError(calls[i]), calls[i].t).None?
  }

  ghost predicate ClockOk(t: Readings) {
    t.validate <= t.prune <= t.insert
  }

  /** The mutex puts the calls one after another, and the clock does not go back. */
  ghost predicate ClockRuns(calls: seq<Call>) {
    && (forall i :: 0 <= i < |calls| ==> ClockOk(calls[i].t))
    && (forall i, j :: 0 <= i < j < |calls| ==> calls[i].t.insert <= calls[j].t.validate)
  }

  /** After an acceptance, its id stays recorded until more than the window has passed. */
  lemma {:induction false} RecordedOrExpired(window: u64, calls: seq<Call>, i: nat, k: nat)
    requires ClockRuns(calls) && i < k <= |calls| && Accepted(window, calls, i)
    ensures Remembers(After(map[], window, calls[..k]), calls[i]) || calls[k - 1].t.prune - calls[i].t.insert > window
  {
    var before, c := After(map[], window, calls[..k - 1]), calls[k - 1];
    AfterStep(window, calls, k);
    if k == i + 1 {
      AcceptedIsRecorded(before, window, c);
    } else {
      RecordedOrExpired(window, calls, i, k - 1);
      PrunesRun(calls, k - 2, k - 1);
      RecordStays(before, window, calls[i], c);
    }
  }

  /** The id of the call is recorded, no earlier than the call did. */
  ghost predicate Remembers(seen: Seen, c: Call) {
    c.id in seen && seen[c.id] >= c.t.insert
  }

  lemma PrunesRun(calls: seq<Call>, i: nat, j: nat)
    requires ClockRuns(calls) && i < j < |calls|
    ensures calls[i].t.prune <= calls[j].t.prune
  {
    assert ClockOk(calls[i].t) && ClockOk(calls[j].t);
  }

  lemma AcceptedIsRecorded(seen: Seen, window: u64, c: Call)
    requires Verdict(seen, window, c.id, CallError(c), c.t).None?
    ensures Remembers(SeenAfter(seen, window, c.id, CallError(c), c.t), c)
  {
  }

  lemma AfterStep(window: u64, calls: seq<Call>, k: nat)
    requires 0 < k <= |calls|
    ensures var c := calls[k - 1];
            After(map[], window, calls[..k])
            == SeenAfter(After(map[], window, calls[..k - 1]), window, c.id, CallError(c), c.t)
  {
    var prefix := calls[..k];
    assert prefix[..k - 1] == calls[..k - 1] && prefix[k - 1] == calls[k - 1];
  }

  /** A call forgets a record only if it is older than the window, and overwrites it only then. */
  lemma RecordStays(seen: Seen, window: u64, accepted: Call, c: Call)
    ensures Remembers(seen, accepted) ==>
              || Remembers(SeenAfter(seen, window, c.id, CallError(c), c.t), accepted)
              || c.t.prune - accepted.t.insert > window
  {
  }

  /** Two acceptances of the same id are more than the window apart. */
  lemma {:induction false} AcceptancesFarApart(window: u64, calls: seq<Call>, i: nat, j: nat)
    requires ClockRuns(calls) && i < j < |calls| && calls[i].id == calls[j].id
    requires Accepted(window, calls, i) && Accepted(window, calls, j)
    ensures calls[j].t.prune - calls[i].t.insert > window
  {
    RecordedOrExpired(window, calls, i, j);
    if j > i + 1 {
      PrunesRun(calls, j - 1, j);
    } else {
      PrunesRun(calls, i, j);
    }
  }

  /** No sum of the freshness check exceeds u64. */
  predicate NoOverflow(c: Call) {
    && c.t.validate + DEFAULT_MAX_CLOCK_SKEW_SECS < 0x1_0000_0000_0000_0000
    && c.exp + DEFAULT_MAX_CLOCK_SKEW_SECS < 0x1_0000_0000_0000_0000
  }

  /**
   * The delivery bound: if a call takes at most `delay` from validating to pruning, a message whose
   * lifetime is at most the window minus twice the clock skew minus that delay is accepted at most
   * once over the whole run. With one clock reading per call and the default constants, that is a
   * lifetime of 60 seconds.
   */
  lemma {:induction false} ShortLivedAcceptedOnce(window: u64, calls: seq<Call>, i: nat, j: nat, delay: nat)
    requires ClockRuns(calls) && i < j < |calls|
    requires calls[i].id == calls[j].id && calls[i].createdAt == calls[j].createdAt && calls[i].exp == calls[j].exp
    requires NoOverflow(calls[i]) && NoOverflow(calls[j]) && calls[j].t.prune <= calls[j].t.validate + delay
    requires calls[i].exp != 0
    requires calls[i].exp - calls[i].createdAt <= window - 2 * DEFAULT_MAX_CLOCK_SKEW_SECS - delay
    ensures !(Accepted(window, calls, i) && Accepted(window, calls, j))
  {
    assert ClockOk(calls[i].t);
    if Accepted(window, calls, i) && Accepted(window, calls, j) {
      FreshWhenAccepted(window, calls, i);
      FreshWhenAccepted(window, calls, j);
      AcceptancesFarApart(window, calls, i, j);
    }
  }

  lemma FreshWhenAccepted(window: u64, calls: seq<Call>, i: nat)
    requires i < |calls| && Accepted(window, calls, i) && NoOverflow(calls[i])
    ensures var c := calls[i];
      && c.createdAt <= c.t.validate + DEFAULT_MAX_CLOCK_SKEW_SECS
      && (c.exp != 0 ==> c.t.validate <= c.exp + DEFAULT_MAX_CLOCK_SKEW_SECS)
  {
    var c := calls[i];
    assert CallError(c).None? && FreshnessError(c.createdAt, c.exp, c.t.validate).None?;
  }

  /** All three readings of a call at once. */
  function At(now: u64): Readings {
    Readings(now, now, now)
  }

  /** The earliest time a message is accepted. */
  function Earliest(createdAt: u64): u64 {
    if createdAt < DEFAULT_MAX_CLOCK_SKEW_SECS then 0 else createdAt - DEFAULT_MAX_CLOCK_SKEW_SECS
  }

  /** Still fresh one window and a second after the earliest acceptance. */
  predicate OutlivesWindow(window: u64, createdAt: u64, exp: u64) {
    exp == 0 || Earliest(createdAt) + window + 1 <= exp + DEFAULT_MAX_CLOCK_SKEW_SECS
  }

  lemma PrunedTwice(seen: Seen, window: u64, t: u64, t': u64)
    requires t <= t'
    ensures Prune(Prune(seen, window, t), window, t') == Prune(seen, window, t')
  {
  }

  /** In the run of calls, i and j are both about the message, read the clock once each, and are accepted. */
  ghost predicate TwoAcceptances(window: u64, id: string, createdAt: u64, exp: u64, calls: seq<Call>, i: nat, j: nat) {
    && ClockRuns(calls) && i < j < |calls|
    && (exists t: u64 :: calls[i] == Call(id, createdAt, exp, None, At(t)))
    && (exists t: u64 :: calls[j] == Call(id, createdAt, exp, None, At(t)))
    && NoOverflow(calls[i]) && NoOverflow(calls[j])
    && Accepted(window, calls, i) && Accepted(window, calls, j)
  }

  /** Some run, with whatever other calls in it, accepts the message twice. */
  ghost predicate CanBeAcceptedTwice(window: u64, id: string, createdAt: u64, exp: u64) {
    exists calls, i, j :: TwoAcceptances(window, id, createdAt, exp, calls, i, j)
  }

  /**
   * The bound is exact: with single clock readings, some run accepts the message twice if and only if
   * it is still fresh more than a window after the earliest time it is accepted.
   */
  lemma AcceptedTwiceIffOutlivesWindow(window: u64, id: string, createdAt: u64, exp: u64)
    requires Earliest(createdAt) + window + 1 + DEFAULT_MAX_CLOCK_SKEW_SECS < 0x1_0000_0000_0000_0000
    requires exp + DEFAULT_MAX_CLOCK_SKEW_SECS < 0x1_0000_0000_0000_0000
    ensures CanBeAcceptedTwice(window, id, createdAt, exp) <==> OutlivesWindow(window, createdAt, exp)
  {
    if OutlivesWindow(window, createdAt, exp) {
      var t: u64 := Earliest(createdAt);
      TwiceAccepted(window, id, createdAt, exp, t, t + window + 1);
    }
    if calls, i, j :| TwoAcceptances(window, id, createdAt, exp, calls, i, j) {
      AcceptancesFarApart(window, calls, i, j);
      FreshWhenAccepted(window, calls, i);
      FreshWhenAccepted(window, calls, j);
    }
  }

  /** A message with the default lifetime of an hour can be accepted twice by a guard with the default window. */
  lemma DefaultLifetimeOutlivesDefaultWindow(id: string, createdAt: u64)
    requires createdAt + DEFAULT_MESSAGE_TTL_SECS + DEFAULT_MAX_CLOCK_SKEW_SECS < 0x1_0000_0000_0000_0000
    ensures CanBeAcceptedTwice(DEFAULT_REPLAY_WINDOW_SECS, id, createdAt, createdAt + DEFAULT_MESSAGE_TTL_SECS)
  {
    AcceptedTwiceIffOutlivesWindow(DEFAULT_REPLAY_WINDOW_SECS, id, createdAt, createdAt + DEFAULT_MESSAGE_TTL_SECS);
  }

  lemma TwiceAccepted(window: u64, id: string, createdAt: u64, exp: u64, t: u64, t': u64)
    requires t + window < t' && t' + DEFAULT_MAX_CLOCK_SKEW_SECS < 0x1_0000_0000_0000_0000
    requires exp + DEFAULT_MAX_CLOCK_SKEW_SECS < 0x1_0000_0000_0000_0000
    requires createdAt <= t + DEFAULT_MAX_CLOCK_SKEW_SECS && (exp == 0 || t' <= exp + DEFAULT_MAX_CLOCK_SKEW_SECS)
    ensures CanBeAcceptedTwice(window, id, createdAt, exp)
  {
    var calls := [Call(id, createdAt, exp, None, At(t)), Call(id, createdAt, exp, None, At(t'))];
    assert calls[..0] == [] && calls[..1] == [calls[0]];
    assert calls[..1][..0] == [];
    assert After(map[], window, calls[..1]) == map[id := t];
    assert calls[0].t == At(t) && calls[1].t == At(t');
    assert TwoAcceptances(window, id, createdAt, exp, calls, 0, 1);
  }
}
