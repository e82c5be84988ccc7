/**
 * The cleanup scheduler (src/kubo/pinning.rs:77-237): publishers call `schedule`, one worker takes
 * wake tokens from a bounded channel and re-queues a batch that asks for more.
 *
 * A state machine over the steps of publishers and worker. `schedule` holds the mutex from looking
 * the key up to inserting the request, but the worker receives from the channel without it, so
 * sending the token and inserting the request are two steps.
 */
module CleanupScheduler {
  import opened Wrappers
  import opened Kubo
  import CleanupBatch

  /** Requests with the same key replace each other. */
  datatype Key = Key(kuboUrl: string, name: Name, cleanupLocal: bool, remoteService: Option<string>)

  function KeyOf(r: Request): Key {
    Key(r.kuboUrl, r.name, r.cleanupLocal, r.remoteService)
  }

  lemma SameKeyIff(a: Request, b: Request)
    ensures KeyOf(a) == KeyOf(b) <==>
              && a.kuboUrl == b.kuboUrl && a.name == b.name
              && a.cleanupLocal == b.cleanupLocal && a.remoteService == b.remoteService
  {
  }

  datatype Phase =
    | Idle
    | Received(key: Key)                       // holds a token, has not taken the lock yet
    | Running(key: Key, request: Request)
    | Delaying(key: Key)                       // re-inserted the request, sleeps before sending its token

  /** `entering`: a publisher inside `schedule`, holding the lock, that has sent its token but not inserted yet. */
  datatype State = State(
    capacity: nat,
    pending: map<Key, Request>,
    channel: seq<Key>,
    phase: Phase,
    entering: Option<Request>,
    accepted: map<Key, Request>,               // history: the last request accepted for each key
    stranded: set<Key>)                        // history: keys whose delayed re-send found the channel full

  /** `with_capacity`: at least one slot. */
  function Init(capacity: nat): State {
    State(if capacity < 1 then 1 else capacity, map[], [], Idle, None, map[], {})
  }

  datatype Event =
    | Replace(request: Request)   // schedule, occupied entry: returns true
    | Send(request: Request)      // schedule, token sent
    | Insert                      // schedule, request inserted and lock released: returns true
    | Drop(request: Request)      // schedule, channel full: returns false
    | Receive
    | Take
    | Finish(more: bool)          // the batch is over and, if it asks for more, the lock was taken
    | Resend

  predicate Enabled(s: State, e: Event) {
    match e
    case Replace(r) => s.entering.None? && KeyOf(r) in s.pending
    case Send(r) => s.entering.None? && KeyOf(r) !in s.pending && |s.channel| < s.capacity
    case Insert => s.entering.Some?
    case Drop(r) => s.entering.None? && KeyOf(r) !in s.pending && |s.channel| >= s.capacity
    case Receive => s.phase.Idle? && s.channel != []
    case Take => s.phase.Received? && s.entering.None?
    case Finish(more) => s.phase.Running? && (more ==> s.entering.None?)
    case Resend => s.phase.Delaying?
  }

  function Step(s: State, e: Event): State
    requires Enabled(s, e)
  {
    match e
    case Replace(r) =>
      s.(pending := s.pending[KeyOf(r) := r], accepted := s.accepted[KeyOf(r) := r])
    case Send(r) =>
      s.(channel := s.channel + [KeyOf(r)], entering := Some(r))
    case Insert =>
      var r := s.entering.value;
      s.(pending := s.pending[KeyOf(r) := r], accepted := s.accepted[KeyOf(r) := r], entering := None)
    case Drop(_) => s
    case Receive => s.(phase := Received(s.channel[0]), channel := s.channel[1..])
    case Take =>
      var k := s.phase.key;
      if k in s.pending then s.(phase := Running(k, s.pending[k]), pending := s.pending - {k})
      else s.(phase := Idle)
    case Finish(more) =>
      var k := s.phase.key;
      if !more || k in s.pending then s.(phase := Idle)
      else s.(phase := Delaying(k), pending := s.pending[k := s.phase.request])
    case Resend =>
      var k := s.phase.key;
      if |s.channel| < s.capacity then s.(phase := Idle, channel := s.channel + [k])
      else s.(phase := Idle, stranded := s.stranded + {k})
  }

  predicate Feasible(s: State, es: seq<Event>)
    decreases |es|
  {
    es == [] || (Enabled(s, es[0]) && Feasible(Step(s, es[0]), es[1..]))
  }

  function After(s: State, es: seq<Event>): State
    requires Feasible(s, es)
    decreases |es|
  {
    if es == [] then s else After(Step(s, es[0]), es[1..])
  }

  lemma {:induction false} AfterConcat(s: State, es: seq<Event>, fs: seq<Event>)
    requires Feasible(s, es) && Feasible(After(s, es), fs)
    ensures Feasible(s, es + fs) && After(s, es + fs) == After(After(s, es), fs)
    decreases |es|
  {
    if es == [] {
      assert es + fs == fs;
    } else {
      AfterConcat(Step(s, es[0]), es[1..], fs);
      assert (es + fs)[0] == es[0] && (es + fs)[1..] == es[1..] + fs;
    }
  }

  lemma AfterSnoc(s: State, es: seq<Event>, e: Event)
    requires Feasible(s, es) && Enabled(After(s, es), e)
    ensures Feasible(s, es + [e]) && After(s, es + [e]) == Step(After(s, es), e)
  {
    assert [e][1..] == [];
    AfterConcat(s, es, [e]);
  }

  // ---- tokens ----

  /** Does the worker hold the wake token of `k`, received or about to be re-sent? */
  predicate HeldByWorker(s: State, k: Key) {
    (s.phase.Received? || s.phase.Delaying?) && s.phase.key == k
  }

  /** The wake tokens of `k`. */
  ghost function Tokens(s: State, k: Key): nat {
    InChannel(s.channel, k) + if HeldByWorker(s, k) then 1 else 0
  }

  ghost function InChannel(channel: seq<Key>, k: Key): nat {
    multiset(channel)[k]
  }

  ghost predicate IsEntering(s: State, k: Key) {
    s.entering.Some? && KeyOf(s.entering.value) == k
  }

  /**
   * Each key has at most one token. The keys with a token are those with a pending request that are
   * not stranded, and the one a publisher is just entering.
   */
  ghost predicate TokenLaw(s: State) {
    && (forall k :: Tokens(s, k) <= 1)
    && (forall k :: Tokens(s, k) == 1 <==> (k in s.pending && k !in s.stranded) || IsEntering(s, k))
    && s.stranded <= s.pending.Keys
    && (s.entering.Some? ==> KeyOf(s.entering.value) !in s.pending)
    && (s.phase.Delaying? ==> s.phase.key in s.pending)
  }

  /** Every request waiting or running is the one last accepted for its key. */
  ghost predicate LatestLaw(s: State) {
    && s.pending.Keys <= s.accepted.Keys
    && (forall k :: k in s.pending ==> s.pending[k] == s.accepted[k])
    && (s.phase.Running? && s.phase.key !in s.pending ==>
          s.phase.key in s.accepted && s.phase.request == s.accepted[s.phase.key])
    && (s.phase.Running? ==> KeyOf(s.phase.request) == s.phase.key && s.phase.key !in s.stranded)
    && (forall k :: k in s.accepted ==> KeyOf(s.accepted[k]) == k)
  }

  ghost predicate Inv(s: State) {
    s.capacity >= 1 && |s.channel| <= s.capacity && TokenLaw(s) && LatestLaw(s)
  }

  /** How each step changes the number of tokens of a key. */
  ghost function TokenChange(s: State, e: Event, k: Key): int
    requires Enabled(s, e)
  {
    match e
    case Send(r) => if k == KeyOf(r) then 1 else 0
    case Take => if k == s.phase.key then -1 else 0
    case Finish(more) => if more && k == s.phase.key && k !in s.pending then 1 else 0
    case Resend => if k == s.phase.key && |s.channel| >= s.capacity then -1 else 0
    case _ => 0
  }

  lemma CountAfterSend(channel: seq<Key>, sent: Key, k: Key)
    ensures InChannel(channel + [sent], k) == InChannel(channel, k) + if k == sent then 1 else 0
  {
  }

  lemma CountAfterReceive(channel: seq<Key>, k: Key)
    requires channel != []
    ensures InChannel(channel, k) == InChannel(channel[1..], k) + if k == channel[0] then 1 else 0
  {
    assert channel == [channel[0]] + channel[1..];
  }

  lemma TokensAfterPublisher(s: State, e: Event, k: Key)
    requires Enabled(s, e) && (e.Replace? || e.Send? || e.Insert? || e.Drop?)
    ensures Tokens(Step(s, e), k) == Tokens(s, k) + TokenChange(s, e, k)
  {
    assert Step(s, e).phase == s.phase;
    if e.Send? {
      CountAfterSend(s.channel, KeyOf(e.request), k);
    }
  }

  lemma TokensAfterResend(s: State, k: Key)
    requires Enabled(s, Resend)
    ensures Tokens(Step(s, Resend), k) == Tokens(s, k) + TokenChange(s, Resend, k)
  {
    CountAfterSend(s.channel, s.phase.key, k);
  }

  lemma TokensAfterWorker(s: State, e: Event, k: Key)
    requires Enabled(s, e) && (e.Receive? || e.Take? || e.Finish?)
    ensures Tokens(Step(s, e), k) == Tokens(s, k) + TokenChange(s, e, k)
  {
    if e.Receive? {
      CountAfterReceive(s.channel, k);
    } else {
      assert Step(s, e).channel == s.channel;
    }
  }

  lemma TokensAfterStep(s: State, e: Event, k: Key)
    requires Enabled(s, e)
    ensures Tokens(Step(s, e), k) == Tokens(s, k) + TokenChange(s, e, k)
  {
    if e.Resend? {
      TokensAfterResend(s, k);
    } else if e.Receive? || e.Take? || e.Finish? {
      TokensAfterWorker(s, e, k);
    } else {
      TokensAfterPublisher(s, e, k);
    }
  }

  lemma StepKeepsTokenLaw(s: State, e: Event)
    requires Inv(s) && Enabled(s, e)
    ensures TokenLaw(Step(s, e))
  {
    var s' := Step(s, e);
    forall k
      ensures Tokens(s', k) <= 1
      ensures Tokens(s', k) == 1 <==> (k in s'.pending && k !in s'.stranded) || IsEntering(s', k)
    {
      StepKeepsTokensOf(s, e, k);
    }
    if e.Resend? {
      assert Tokens(s, s.phase.key) == 1;
    }
  }

  lemma StepKeepsTokensOf(s: State, e: Event, k: Key)
    requires Inv(s) && Enabled(s, e)
    ensures var s' := Step(s, e);
      && Tokens(s', k) <= 1
      && (Tokens(s', k) == 1 <==> (k in s'.pending && k !in s'.stranded) || IsEntering(s', k))
  {
    assert Tokens(s, k) <= 1;
    assert Tokens(s, k) == 1 <==> (k in s.pending && k !in s.stranded) || IsEntering(s, k);
    TokensAfterStep(s, e, k);
  }

  lemma StepKeepsInv(s: State, e: Event)
    requires Inv(s) && Enabled(s, e)
    ensures Inv(Step(s, e))
  {
    StepKeepsTokenLaw(s, e);
    StepKeepsLatestLaw(s, e);
  }

  lemma StepKeepsLatestLaw(s: State, e: Event)
    requires Inv(s) && Enabled(s, e)
    ensures LatestLaw(Step(s, e))
  {
    if e.Take? {
      assert Tokens(s, s.phase.key) == 1;
    }
  }

  lemma {:induction false} RunKeepsInv(s: State, es: seq<Event>)
    requires Inv(s) && Feasible(s, es)
    ensures Inv(After(s, es))
    decreases |es|
  {
    if es != [] {
      StepKeepsInv(s, es[0]);
      RunKeepsInv(Step(s, es[0]), es[1..]);
    }
  }

  /** For every interleaving of publishers and worker. */
  lemma {:induction false} TokensMatchPending(capacity: nat, es: seq<Event>)
    requires Feasible(Init(capacity), es)
    ensures TokenLaw(After(Init(capacity), es))
  {
    RunKeepsInv(Init(capacity), es);
  }

  // ---- the last request, read off the events ----

  /** The request whose token was sent last. */
  function LastSent(es: seq<Event>): Option<Request> {
    if es == [] then None
    else if es[|es| - 1].Send? then Some(es[|es| - 1].request)
    else LastSent(es[..|es| - 1])
  }

  /** The request last accepted for the key: it replaced another one, or was inserted once its token was sent. */
  function LastAccepted(es: seq<Event>, k: Key): Option<Request> {
    if es == [] then None
    else
      var before, e := es[..|es| - 1], es[|es| - 1];
      var now := if e.Replace? then Some(e.request) else if e.Insert? then LastSent(before) else None;
      if now.Some? && KeyOf(now.value) == k then now else LastAccepted(before, k)
  }

  lemma {:induction false} LastStep(s: State, es: seq<Event>)
    requires Feasible(s, es) && es != []
    ensures var before, e := es[..|es| - 1], es[|es| - 1];
            Feasible(s, before) && Enabled(After(s, before), e) && After(s, es) == Step(After(s, before), e)
    decreases |es|
  {
    if |es| == 1 {
      assert es[1..] == [] && es[..0] == [];
    } else {
      LastStep(Step(s, es[0]), es[1..]);
      assert es[..|es| - 1][1..] == es[1..][..|es[1..]| - 1];
    }
  }

  /** What the state has as accepted, and as being entered, is what the events say. */
  lemma {:induction false} AcceptedIsLast(capacity: nat, es: seq<Event>)
    requires Feasible(Init(capacity), es)
    ensures var s := After(Init(capacity), es);
      && (s.entering.Some? ==> s.entering == LastSent(es))
      && forall k :: LastAccepted(es, k) == if k in s.accepted then Some(s.accepted[k]) else None
    decreases |es|
  {
    if es != [] {
      LastStep(Init(capacity), es);
      AcceptedIsLast(capacity, es[..|es| - 1]);
    }
  }

  /**
   * Whenever the worker takes the lock with a token in hand it finds a request, and that request is
   * the last one accepted for the key.
   */
  lemma {:induction false} WorkerRunsTheLatest(capacity: nat, es: seq<Event>)
    requires Feasible(Init(capacity), es) && Enabled(After(Init(capacity), es), Take)
    ensures var s := After(Init(capacity), es);
            && LastAccepted(es, s.phase.key).Some?
            && Step(s, Take).phase == Running(s.phase.key, LastAccepted(es, s.phase.key).value)
  {
    RunKeepsInv(Init(capacity), es);
    AcceptedIsLast(capacity, es);
    var s := After(Init(capacity), es);
    assert Tokens(s, s.phase.key) >= 1;
  }

  /** When everything has come to rest, the requests still waiting are exactly the stranded ones. */
  lemma {:induction false} AtRestOnlyStrandedWait(capacity: nat, es: seq<Event>)
    requires Feasible(Init(capacity), es)
    requires var s := After(Init(capacity), es); s.phase.Idle? && s.channel == [] && s.entering.None?
    ensures After(Init(capacity), es).pending.Keys == After(Init(capacity), es).stranded
  {
    RunKeepsInv(Init(capacity), es);
    var s := After(Init(capacity), es);
    assert forall k :: Tokens(s, k) == 0;
  }

  // ---- places in line ----

  /** Where the token of the key is in line. */
  function First(channel: seq<Key>, k: Key): (i: nat)
    ensures i <= |channel|
    ensures i < |channel| <==> k in channel
    ensures i < |channel| ==> channel[i] == k
  {
    if channel == [] || channel[0] == k then 0 else 1 + First(channel[1..], k)
  }

  lemma {:induction false} FirstAfterSend(channel: seq<Key>, sent: Key, k: Key)
    requires k in channel || sent == k
    ensures First(channel + [sent], k) == First(channel, k)
  {
    if channel != [] && channel[0] != k {
      FirstAfterSend(channel[1..], sent, k);
      assert (channel + [sent])[1..] == channel[1..] + [sent];
    }
  }

  /** How many tokens the worker has to receive before it holds the one of the key. */
  function Ahead(s: State, k: Key): nat {
    if s.phase == Received(k) then 0 else 1 + First(s.channel, k)
  }

  lemma TokenInLine(s: State, k: Key)
    requires Tokens(s, k) == 1 && !HeldByWorker(s, k)
    ensures k in s.channel
  {
    assert k in multiset(s.channel);
  }

  // ---- stranded keys ----

  /** Stranded, and with no way for the worker to get at the request. */
  ghost predicate StuckAt(s: State, k: Key) {
    Inv(s) && k in s.stranded
  }

  lemma {:induction false} StrandedForever(s: State, es: seq<Event>, k: Key)
    requires StuckAt(s, k) && Feasible(s, es)
    ensures StuckAt(After(s, es), k)
    ensures k in After(s, es).pending
    ensures !HeldByWorker(After(s, es), k) && !(After(s, es).phase.Running? && After(s, es).phase.key == k)
    decreases |es|
  {
    assert Tokens(s, k) == 0;
    if es != [] {
      StepKeepsInv(s, es[0]);
      StrandedForever(Step(s, es[0]), es[1..], k);
    }
  }

  /**
   * Scheduling a stranded key is always accepted and never changes anything but the waiting request:
   * of the three ways through `schedule`, only the occupied entry remains.
   */
  lemma StrandedSchedulesAreAcceptedInVain(s: State, r: Request)
    requires StuckAt(s, KeyOf(r)) && s.entering.None?
    ensures Enabled(s, Replace(r)) && !Enabled(s, Send(r)) && !Enabled(s, Drop(r))
    ensures Step(s, Replace(r)).channel == s.channel
    ensures StuckAt(Step(s, Replace(r)), KeyOf(r))
  {
    StepKeepsInv(s, Replace(r));
  }

  /** A key is stranded by exactly one kind of step: a delayed re-send into a full channel. */
  lemma StrandedOnlyByFullResend(s: State, e: Event, k: Key)
    requires Inv(s) && Enabled(s, e) && k !in s.stranded
    ensures k in Step(s, e).stranded <==> e == Resend && s.phase == Delaying(k) && |s.channel| == s.capacity
  {
  }

  // ---- when is the channel large enough? ----

  ghost predicate UsesKeys(es: seq<Event>, keys: set<Key>) {
    forall i :: 0 <= i < |es| && (es[i].Replace? || es[i].Send? || es[i].Drop?) ==> KeyOf(es[i].request) in keys
  }

  ghost predicate KeysWithin(s: State, keys: set<Key>) {
    && s.pending.Keys <= keys
    && (forall k :: Tokens(s, k) > 0 ==> k in keys)
    && (s.entering.Some? ==> KeyOf(s.entering.value) in keys)
    && (!s.phase.Idle? ==> s.phase.key in keys)
  }

  /** Distinct keys from `keys`, with one key of `keys` missing, leave room. */
  lemma RoomLeft(channel: seq<Key>, keys: set<Key>, k: Key)
    requires forall x :: multiset(channel)[x] <= 1
    requires forall x :: x in channel ==> x in keys
    requires k in keys && k !in channel
    ensures |channel| < |keys|
  {
    if channel == [] {
      assert |keys| == |keys - {k}| + 1;
    } else {
      var last := channel[|channel| - 1];
      var front := channel[..|channel| - 1];
      assert channel == front + [last];
      assert multiset(channel) == multiset(front) + multiset{last};
      assert multiset(channel)[last] <= 1;
      assert last !in multiset(front);
      forall x
        ensures multiset(front)[x] <= 1
        ensures x in front ==> x in keys - {last}
      {
        assert multiset(channel)[x] <= 1;
        assert x in front ==> x in channel && x in multiset(front);
      }
      RoomLeft(front, keys - {last}, k);
    }
  }

  /** A key without a token in the channel leaves room in it. */
  lemma FullChannelImpossible(s: State, k: Key, keys: set<Key>)
    requires Inv(s) && KeysWithin(s, keys) && |keys| <= s.capacity && k in keys
    requires multiset(s.channel)[k] == 0 || HeldByWorker(s, k)
    ensures |s.channel| < s.capacity
  {
    forall x
      ensures multiset(s.channel)[x] <= 1
      ensures x in s.channel ==> x in keys
    {
      assert Tokens(s, x) <= 1;
      assert x in s.channel ==> x in multiset(s.channel) && Tokens(s, x) > 0;
    }
    assert Tokens(s, k) <= 1;
    assert k in s.channel ==> k in multiset(s.channel);
    RoomLeft(s.channel, keys, k);
  }

  lemma StepStaysWithin(s: State, e: Event, keys: set<Key>)
    requires Inv(s) && KeysWithin(s, keys) && Enabled(s, e)
    requires s.stranded == {} && |keys| <= s.capacity
    requires UsesKeys([e], keys)
    ensures KeysWithin(Step(s, e), keys) && Step(s, e).stranded == {}
    ensures !e.Drop?
  {
    var s' := Step(s, e);
    if e.Drop? || e.Send? || e.Replace? {
      assert [e][0] == e;
    }
    if e.Drop? {
      assert Tokens(s, KeyOf(e.request)) <= 1;
      FullChannelImpossible(s, KeyOf(e.request), keys);
    }
    if e.Resend? && |s.channel| >= s.capacity {
      FullChannelImpossible(s, s.phase.key, keys);
    }
    forall k | Tokens(s', k) > 0
      ensures k in keys
    {
      TokensAfterStep(s, e, k);
    }
    if e.Receive? {
      assert s.channel[0] in multiset(s.channel);
      assert Tokens(s, s.channel[0]) > 0;
    }
  }

  lemma {:induction false} EnoughRoomFrom(s: State, es: seq<Event>, keys: set<Key>)
    requires Inv(s) && KeysWithin(s, keys) && s.stranded == {} && |keys| <= s.capacity
    requires Feasible(s, es) && UsesKeys(es, keys)
    ensures After(s, es).stranded == {}
    ensures forall i :: 0 <= i < |es| ==> !es[i].Drop?
    decreases |es|
  {
    if es != [] {
      StepStaysWithin(s, es[0], keys);
      StepKeepsInv(s, es[0]);
      assert Step(s, es[0]).capacity == s.capacity;
      EnoughRoomFrom(Step(s, es[0]), es[1..], keys);
    }
  }

  /**
   * With no more keys in use than the channel has slots, `schedule` never returns false and no key
   * is ever stranded, whatever the interleaving.
   */
  lemma {:induction false} EnoughRoom(capacity: nat, es: seq<Event>, keys: set<Key>)
    requires capacity >= 1 && |keys| <= capacity
    requires Feasible(Init(capacity), es) && UsesKeys(es, keys)
    ensures After(Init(capacity), es).stranded == {}
    ensures forall i :: 0 <= i < |es| ==> !es[i].Drop?
  {
    EnoughRoomFrom(Init(capacity), es, keys);
  }

  /** One request per key, all different. */
  ghost predicate DistinctKeys(rs: seq<Request>) {
    forall i, j :: 0 <= i < j < |rs| ==> KeyOf(rs[i]) != KeyOf(rs[j])
  }

  function KeysOf(rs: seq<Request>): (keys: set<Key>)
    ensures forall r :: r in rs ==> KeyOf(r) in keys
  {
    if rs == [] then {} else {KeyOf(rs[0])} + KeysOf(rs[1..])
  }

  lemma {:induction false} KeysOfAre(rs: seq<Request>, k: Key)
    requires forall r :: r in rs ==> KeyOf(r) != k
    ensures k !in KeysOf(rs)
  {
    if rs != [] {
      assert rs[0] in rs;
      KeysOfAre(rs[1..], k);
    }
  }

  function SendAll(rs: seq<Request>): (es: seq<Event>)
    ensures UsesKeys(es, KeysOf(rs))
    ensures forall i :: 0 <= i < |es| ==> !es[i].Drop?
  {
    if rs == [] then [] else [Send(rs[0]), Insert] + SendAll(rs[1..])
  }

  lemma {:induction false} SendAllFills(s: State, rs: seq<Request>)
    requires s.entering.None? && |s.channel| + |rs| <= s.capacity
    requires DistinctKeys(rs)
    requires forall r :: r in rs ==> KeyOf(r) !in s.pending
    ensures Feasible(s, SendAll(rs))
    ensures var s' := After(s, SendAll(rs));
            && |s'.channel| == |s.channel| + |rs|
            && s'.phase == s.phase && s'.entering.None? && s'.capacity == s.capacity && s'.stranded == s.stranded
            && s'.pending.Keys == s.pending.Keys + KeysOf(rs)
    decreases |rs|
  {
    if rs != [] {
      var s1 := Step(s, Send(rs[0]));
      var s2 := Step(s1, Insert);
      forall r | r in rs[1..]
        ensures KeyOf(r) !in s2.pending
      {
        var i :| 0 <= i < |rs[1..]| && rs[1..][i] == r;
        assert rs[i + 1] == r;
      }
      SendAllFills(s2, rs[1..]);
      SendInsertThen(s, rs[0], SendAll(rs[1..]));
    }
  }

  lemma SendInsertThen(s: State, r: Request, es: seq<Event>)
    requires Enabled(s, Send(r)) && Feasible(Step(Step(s, Send(r)), Insert), es)
    ensures Feasible(s, [Send(r), Insert] + es)
    ensures After(s, [Send(r), Insert] + es) == After(Step(Step(s, Send(r)), Insert), es)
  {
    var s1 := Step(s, Send(r));
    var tail := [Insert] + es;
    assert tail[0] == Insert && tail[1..] == es;
    assert Feasible(s1, tail) && After(s1, tail) == After(Step(s1, Insert), es);
    var all := [Send(r), Insert] + es;
    assert all[0] == Send(r) && all[1..] == tail;
  }

  lemma OthersDiffer(rs: seq<Request>)
    requires rs != [] && DistinctKeys(rs)
    ensures DistinctKeys(rs[1..])
    ensures forall r :: r in rs[1..] ==> KeyOf(r) != KeyOf(rs[0])
  {
    var rest := rs[1..];
    assert forall i :: 0 <= i < |rest| ==> rest[i] == rs[i + 1];
  }

  /** The first request runs while all the others fill the channel. */
  lemma RunsWhileFull(capacity: nat, rs: seq<Request>) returns (es: seq<Event>)
    requires capacity >= 1 && |rs| == capacity + 1 && DistinctKeys(rs)
    ensures Feasible(Init(capacity), es) && UsesKeys(es, KeysOf(rs))
    ensures forall i :: 0 <= i < |es| ==> !es[i].Drop?
    ensures var s := After(Init(capacity), es);
            && s.phase.Running? && s.phase.key == KeyOf(rs[0]) && s.entering.None? && s.stranded == {}
            && |s.channel| == s.capacity && KeyOf(rs[0]) !in s.pending
  {
    var s0, rest := Init(capacity), rs[1..];
    var first := RunFirst(s0, rs[0]);
    OthersDiffer(rs);
    SendAllFills(After(s0, first), rest);
    AfterConcat(s0, first, SendAll(rest));
    KeysOfAre(rest, KeyOf(rs[0]));
    es := first + SendAll(rest);
    UsesKeysConcat(first, SendAll(rest), KeysOf(rs));
  }

  lemma UsesKeysConcat(es: seq<Event>, fs: seq<Event>, keys: set<Key>)
    requires UsesKeys(es, keys) && UsesKeys(fs, keys)
    ensures UsesKeys(es + fs, keys)
  {
  }

  /**
   * The bound is exact: with one key more than the channel has slots there is a run that strands a
   * key (and that run contains no rejected schedule to warn of it).
   */
  lemma TooManyKeysCanStrand(capacity: nat, rs: seq<Request>) returns (es: seq<Event>)
    requires capacity >= 1 && |rs| == capacity + 1 && DistinctKeys(rs)
    ensures Feasible(Init(capacity), es)
    ensures UsesKeys(es, KeysOf(rs))
    ensures After(Init(capacity), es).stranded == {KeyOf(rs[0])}
    ensures forall i :: 0 <= i < |es| ==> !es[i].Drop?
  {
    es := RunsWhileFull(capacity, rs);
    AsksAgainInVain(Init(capacity), es);
    UsesKeysConcat(es, [Finish(true)], KeysOf(rs));
    UsesKeysConcat(es + [Finish(true)], [Resend], KeysOf(rs));
    es := es + [Finish(true)] + [Resend];
  }

  /** With the channel full and nothing pending for its key, a batch that asks for more strands its key. */
  lemma AsksAgainInVain(s0: State, es: seq<Event>)
    requires Feasible(s0, es)
    requires var s := After(s0, es);
             s.phase.Running? && s.entering.None? && |s.channel| >= s.capacity && s.phase.key !in s.pending
    ensures Feasible(s0, es + [Finish(true)] + [Resend])
    ensures After(s0, es + [Finish(true)] + [Resend]).stranded == After(s0, es).stranded + {After(s0, es).phase.key}
  {
    AfterSnoc(s0, es, Finish(true));
    AfterSnoc(s0, es + [Finish(true)], Resend);
  }

  /** An idle scheduler accepts a request and starts running it. */
  lemma RunFirst(s: State, r: Request) returns (es: seq<Event>)
    requires s.entering.None? && s.phase.Idle? && s.channel == [] && KeyOf(r) !in s.pending && s.capacity >= 1
    ensures es == [Send(r), Insert, Receive, Take] && Feasible(s, es)
    ensures After(s, es) == s.(phase := Running(KeyOf(r), r), accepted := s.accepted[KeyOf(r) := r])
  {
    es := [];
    AfterSnoc(s, es, Send(r));
    es := es + [Send(r)];
    AfterSnoc(s, es, Insert);
    es := es + [Insert];
    AfterSnoc(s, es, Receive);
    es := es + [Receive];
    AfterSnoc(s, es, Take);
    es := es + [Take];
    assert s.pending[KeyOf(r) := r] - {KeyOf(r)} == s.pending;
  }

  /** While a request runs, another key is scheduled; then the first asks for more and gets in line behind it. */
  lemma AsksAgainBehind(s: State, older: Request, newer: Request) returns (es: seq<Event>)
    requires s.phase == Running(KeyOf(older), older) && s.channel == [] && s.pending == map[] && s.entering.None?
    requires s.capacity >= 2 && KeyOf(older) != KeyOf(newer)
    ensures es == [Send(newer), Insert, Finish(true), Resend] && Feasible(s, es)
    ensures After(s, es) == s.(phase := Idle, channel := [KeyOf(newer), KeyOf(older)],
                               pending := map[KeyOf(newer) := newer, KeyOf(older) := older],
                               accepted := s.accepted[KeyOf(newer) := newer])
  {
    es := [];
    AfterSnoc(s, es, Send(newer));
    es := es + [Send(newer)];
    AfterSnoc(s, es, Insert);
    es := es + [Insert];
    assert After(s, es).pending == map[KeyOf(newer) := newer];
    AfterSnoc(s, es, Finish(true));
    es := es + [Finish(true)];
    AfterSnoc(s, es, Resend);
    es := es + [Resend];
  }

  /** The worker takes the first token, and runs its request. */
  lemma TakesFirst(s: State)
    requires s.phase.Idle? && s.channel != [] && s.entering.None? && s.channel[0] in s.pending
    ensures Feasible(s, [Receive, Take])
    ensures After(s, [Receive, Take]) ==
            s.(phase := Running(s.channel[0], s.pending[s.channel[0]]), channel := s.channel[1..],
               pending := s.pending - {s.channel[0]})
  {
    AfterSnoc(s, [], Receive);
    AfterSnoc(s, [] + [Receive], Take);
    assert [] + [Receive] + [Take] == [Receive, Take];
  }

  /**
   * One key per name matters: two requests for the same name with different keys (the remote pin of
   * the second publication failed, say) do not replace each other, and if the first asks for more, it
   * runs again after the second is done with.
   */
  lemma TwoKeysOlderRunsLast(capacity: nat, older: Request, newer: Request) returns (es: seq<Event>, fs: seq<Event>)
    requires capacity >= 2 && older.name == newer.name && KeyOf(older) != KeyOf(newer)
    ensures |es| == 10 && es[0] == Send(older) && es[4] == Send(newer)
    ensures Feasible(Init(capacity), es) && After(Init(capacity), es).phase == Running(KeyOf(newer), newer)
    ensures fs == [Finish(false), Receive, Take]
    ensures Feasible(Init(capacity), es + fs) && After(Init(capacity), es + fs).phase == Running(KeyOf(older), older)
    ensures After(Init(capacity), es + fs).pending == map[] && After(Init(capacity), es + fs).channel == []
  {
    var s0 := Init(capacity);
    es := NewerRunsFirst(capacity, older, newer);
    fs := [Finish(false), Receive, Take];
    OlderRunsNext(s0, es, older);
  }

  lemma NewerRunsFirst(capacity: nat, older: Request, newer: Request) returns (es: seq<Event>)
    requires capacity >= 2 && KeyOf(older) != KeyOf(newer)
    ensures es == [Send(older), Insert, Receive, Take, Send(newer), Insert, Finish(true), Resend, Receive, Take]
    ensures Feasible(Init(capacity), es)
    ensures var s := After(Init(capacity), es);
            && s.phase == Running(KeyOf(newer), newer) && s.entering.None?
            && s.pending == map[KeyOf(older) := older] && s.channel == [KeyOf(older)]
  {
    var s0 := Init(capacity);
    var first := RunFirst(s0, older);
    var second := AsksAgainBehind(After(s0, first), older, newer);
    AfterConcat(s0, first, second);
    TakesFirst(After(s0, first + second));
    AfterConcat(s0, first + second, [Receive, Take]);
    es := first + second + [Receive, Take];
  }

  /** The batch under way is done with; the only request left runs. */
  lemma OlderRunsNext(s0: State, es: seq<Event>, r: Request)
    requires Feasible(s0, es)
    requires var s := After(s0, es);
             s.phase.Running? && s.entering.None? && s.pending == map[KeyOf(r) := r] && s.channel == [KeyOf(r)]
    ensures var all := es + [Finish(false), Receive, Take];
            && Feasible(s0, all) && After(s0, all).phase == Running(KeyOf(r), r)
            && After(s0, all).pending == map[] && After(s0, all).channel == []
  {
    AfterSnoc(s0, es, Finish(false));
    var finished := es + [Finish(false)];
    TakesFirst(After(s0, finished));
    AfterConcat(s0, finished, [Receive, Take]);
    assert es + [Finish(false), Receive, Take] == finished + [Receive, Take];
    assert map[KeyOf(r) := r] - {KeyOf(r)} == map[];
  }

  // ---- the scheduler object ----

  /**
   * The scheduler's shared state with its two operations. Each is shown uninterrupted; the lemmas
   * above are about their steps in any interleaving.
   */
  class PinCleanupScheduler {
    const capacity: nat
    var pending: map<Key, Request>
    var wake: seq<Key>
    ghost var accepted: map<Key, Request>
    ghost var stranded: set<Key>

    ghost function View(): State
      reads this
    {
      State(capacity, pending, wake, Idle, None, accepted, stranded)
    }

    constructor WithCapacity(requested: nat)
      ensures View() == Init(requested)
    {
      capacity := if requested < 1 then 1 else requested;
      pending, wake := map[], [];
      accepted, stranded := map[], {};
    }

    method Schedule(request: Request) returns (queued: bool)
      modifies this
      ensures var before := old(View());
              var es := if KeyOf(request) in before.pending then [Replace(request)]
                        else if |before.channel| < before.capacity then [Send(request), Insert]
                        else [Drop(request)];
              && Feasible(before, es) && View() == After(before, es)
              && (queued <==> es != [Drop(request)])
      ensures queued <==> KeyOf(request) in old(pending) || |old(wake)| < capacity
      ensures pending == if queued then old(pending)[KeyOf(request) := request] else old(pending)
      ensures wake == old(wake) + if queued && KeyOf(request) !in old(pending) then [KeyOf(request)] else []
    {
      ghost var s0 := View();
      var key := KeyOf(request);
      if key in pending {
        AfterSnoc(s0, [], Replace(request));
        assert [] + [Replace(request)] == [Replace(request)];
        pending, accepted := pending[key := request], accepted[key := request];
        return true;
      }
      if |wake| < capacity {
        AfterSnoc(s0, [], Send(request));
        AfterSnoc(s0, [] + [Send(request)], Insert);
        assert [] + [Send(request)] + [Insert] == [Send(request), Insert];
        wake := wake + [key];
        pending, accepted := pending[key := request], accepted[key := request];
        return true;
      }
      AfterSnoc(s0, [], Drop(request));
      assert [] + [Drop(request)] == [Drop(request)];
      return false;
    }

    /**
     * One turn of the worker's loop, from receiving a token to re-sending it if the batch asks for
     * more. `run` is the batch's own run on the two stores, for the request that was waiting.
     */
    method WorkerTurn(
        node: LocalNode, service: RemoteNode) returns (ghost es: seq<Event>, ghost run: seq<CleanupBatch.State>)
      requires wake != []
      modifies this, node, service
      ensures Feasible(old(View()), es) && View() == After(old(View()), es)
      ensures old(wake[0]) !in old(pending) ==>
                es == [Receive, Take] && run == [] && node.pins == old(node.pins) && service.pins == old(service.pins)
      ensures old(wake[0]) in old(pending) ==>
                && CleanupBatch.IsRun(old(pending[wake[0]]), run)
                && run[0].local == old(node.pins) && run[0].remote == old(service.pins)
                && run[|run| - 1].pc.Finished?
                && run[|run| - 1].local == node.pins && run[|run| - 1].remote == service.pins
                && es == [Receive, Take] + if run[|run| - 1].pc.more then [Finish(true), Resend] else [Finish(false)]
      ensures var key := old(wake[0]);
              var again := key in old(pending) && run[|run| - 1].pc == CleanupBatch.Finished(true);
              && pending == (if again then old(pending) else old(pending) - {key})
              && wake == old(wake)[1..] + if again && |old(wake)| <= capacity then [key] else []
    {
      ghost var s0 := View();
      es, run := [Receive, Take], [];
      var key := wake[0];
      wake := wake[1..];
      if key !in pending {
        TurnInVain(s0);
        return;
      }
      var request := pending[key];
      pending := pending - {key};
      var more;
      more, run := CleanupBatch.CleanupOneBatch(node, service, request);
      es := [Receive, Take] + if more then [Finish(true), Resend] else [Finish(false)];
      TurnOf(s0, more);
      // Nobody has scheduled the key meanwhile: the turn is shown uninterrupted.
      if more && key !in pending {
        pending := pending[key := request];
        if |wake| < capacity {
          wake := wake + [key];
        } else {
          stranded := stranded + {key};
        }
      }
    }
  }

  /** A token whose key has no request. */
  lemma TurnInVain(s: State)
    requires s.phase.Idle? && s.entering.None? && s.channel != [] && s.channel[0] !in s.pending
    ensures Feasible(s, [Receive, Take]) && After(s, [Receive, Take]) == s.(channel := s.channel[1..])
  {
    AfterSnoc(s, [], Receive);
    AfterSnoc(s, [] + [Receive], Take);
    assert [] + [Receive] + [Take] == [Receive, Take];
  }

  /** The worker's turn with a waiting request, whose batch asks for more or does not. */
  lemma TurnOf(s: State, more: bool)
    requires s.phase.Idle? && s.entering.None? && s.channel != [] && s.channel[0] in s.pending
    ensures var es := [Receive, Take] + if more then [Finish(true), Resend] else [Finish(false)];
            var k, room := s.channel[0], |s.channel| <= s.capacity;
            && Feasible(s, es)
            && After(s, es) == s.(channel := s.channel[1..] + (if more && room then [k] else []),
                                  pending := if more then s.pending else s.pending - {k},
                                  stranded := s.stranded + if more && !room then {k} else {})
  {
    TakesFirst(s);
    var first, k := [Receive, Take], s.channel[0];
    AfterSnoc(s, first, Finish(more));
    if more {
      assert (s.pending - {k})[k := s.pending[k]] == s.pending;
      AfterSnoc(s, first + [Finish(true)], Resend);
      assert first + [Finish(true)] + [Resend] == first + [Finish(true), Resend];
    }
  }
}
