/**
 * The bounded FIFO with per-item expiry behind every inbox (src/ttl_queue.rs), and what a whole run
 * of pushes, pops and drains does with each item.
 */
module TtlQueues {
  import opened Wrappers

  datatype Entry<+T> = Entry(expiresAt: nat, item: T)

  /** 0 means never. */
  predicate Expired<T>(e: Entry<T>, now: nat) {
    e.expiresAt > 0 && e.expiresAt <= now
  }

  /** What is left when the expired entries at the front are gone. */
  function Evict<T>(buf: seq<Entry<T>>, now: nat): (rest: seq<Entry<T>>)
    ensures |rest| <= |buf| && rest == buf[|buf| - |rest|..]
    ensures forall i :: 0 <= i < |buf| - |rest| ==> Expired(buf[i], now)
    ensures rest != [] ==> !Expired(rest[0], now)
  {
    if buf != [] && Expired(buf[0], now) then Evict(buf[1..], now) else buf
  }

  /** Nothing is evicted before its time, and nothing that never expires; the head has time left. */
  lemma EvictionIsTimely<T>(buf: seq<Entry<T>>, now: nat)
    ensures var rest := Evict(buf, now);
      && (forall i :: 0 <= i < |buf| - |rest| ==> 0 < buf[i].expiresAt <= now)
      && (rest != [] ==> rest[0].expiresAt == 0 || rest[0].expiresAt > now)
  {
  }

  function Items<T>(buf: seq<Entry<T>>): (items: seq<T>)
    ensures |items| == |buf|
    ensures forall i :: 0 <= i < |buf| ==> items[i] == buf[i].item
  {
    seq(|buf|, i requires 0 <= i < |buf| => buf[i].item)
  }

  function Pushed<T>(buf: seq<Entry<T>>, capacity: nat, now: nat, e: Entry<T>): seq<Entry<T>> {
    Appended(Evict(buf, now), capacity, e)
  }

  /** At the end, dropping the oldest entry when full. */
  function Appended<T>(live: seq<Entry<T>>, capacity: nat, e: Entry<T>): seq<Entry<T>> {
    (if |live| >= capacity && live != [] then live[1..] else live) + [e]
  }

  class TtlQueue<T> {
    var buf: seq<Entry<T>>
    const capacity: nat

    ghost predicate Valid()
      reads this
    {
      0 < capacity && |buf| <= capacity
    }

    constructor (capacity: nat)
      requires capacity > 0
      ensures Valid() && buf == [] && this.capacity == capacity
    {
      this.capacity := capacity;
      buf := [];
    }

    /** Removes expired entries from the front. */
    method EvictExpired(now: nat)
      modifies this
      ensures buf == Evict(old(buf), now)
    {
      while buf != [] && Expired(buf[0], now)
        invariant Evict(buf, now) == Evict(old(buf), now)
        decreases |buf|
      {
        buf := buf[1..];
      }
    }

    method Push(now: nat, expiresAt: nat, item: T)
      requires Valid()
      modifies this
      ensures Valid() && buf == Pushed(old(buf), capacity, now, Entry(expiresAt, item))
    {
      EvictExpired(now);
      if |buf| >= capacity {
        buf := buf[1..];
      }
      buf := buf + [Entry(expiresAt, item)];
    }

    method Pop(now: nat) returns (item: Option<T>)
      requires Valid()
      modifies this
      ensures Valid()
      ensures var live := Evict(old(buf), now);
              if live == [] then item == None && buf == [] else item == Some(live[0].item) && buf == live[1..]
    {
      EvictExpired(now);
      if buf == [] {
        return None;
      }
      item := Some(buf[0].item);
      buf := buf[1..];
    }

    method Peek(now: nat) returns (item: Option<T>)
      requires Valid()
      modifies this
      ensures Valid() && buf == Evict(old(buf), now)
      ensures item == if buf == [] then None else Some(buf[0].item)
    {
      EvictExpired(now);
      item := if buf == [] then None else Some(buf[0].item);
    }

    method Drain(now: nat) returns (items: seq<T>)
      requires Valid()
      modifies this
      ensures Valid() && buf == []
      ensures items == Items(Evict(old(buf), now))
    {
      EvictExpired(now);
      items := Items(buf);
      buf := [];
    }
  }

  /** The unexpired items, in order. */
  function Live<T>(buf: seq<Entry<T>>, now: nat): seq<T> {
    if buf == [] then []
    else (if Expired(buf[0], now) then [] else [buf[0].item]) + Live(buf[1..], now)
  }

  /** What popping until nothing comes back returns. */
  function PopAll<T>(buf: seq<Entry<T>>, now: nat): seq<T>
    decreases |buf|
  {
    var live := Evict(buf, now);
    if live == [] then [] else [live[0].item] + PopAll(live[1..], now)
  }

  /** Popping until nothing comes back returns exactly the unexpired items, in order. */
  lemma {:induction false} PopAllIsLive<T>(buf: seq<Entry<T>>, now: nat)
    ensures PopAll(buf, now) == Live(buf, now)
    decreases |buf|
  {
    LiveIgnoresEviction(buf, now);
    var live := Evict(buf, now);
    if live != [] {
      PopAllIsLive(live[1..], now);
    }
  }

  lemma {:induction false} LiveIsAll<T>(buf: seq<Entry<T>>, now: nat)
    ensures |Live(buf, now)| <= |buf|
    ensures |Live(buf, now)| == |buf| <==> forall i :: 0 <= i < |buf| ==> !Expired(buf[i], now)
    ensures |Live(buf, now)| == |buf| ==> Live(buf, now) == Items(buf)
  {
    if buf != [] {
      LiveIsAll(buf[1..], now);
      assert forall i :: 0 <= i < |buf[1..]| ==> buf[1..][i] == buf[i + 1];
      assert forall i :: 1 <= i < |buf| ==> buf[i] == buf[1..][i - 1];
    }
  }

  lemma {:induction false} LiveIgnoresEviction<T>(buf: seq<Entry<T>>, now: nat)
    ensures Live(Evict(buf, now), now) == Live(buf, now)
  {
    if buf != [] && Expired(buf[0], now) {
      LiveIgnoresEviction(buf[1..], now);
    }
  }

  /** No expired item follows an unexpired one. */
  ghost predicate ExpiredFirst<T>(buf: seq<Entry<T>>, now: nat) {
    forall i, j :: 0 <= i < j < |buf| && !Expired(buf[i], now) ==> !Expired(buf[j], now)
  }

  ghost predicate OnlyLive<T>(buf: seq<Entry<T>>, now: nat) {
    forall i :: 0 <= i < |buf| ==> !Expired(buf[i], now)
  }

  lemma EvictionSuffices<T>(buf: seq<Entry<T>>, now: nat)
    requires ExpiredFirst(buf, now)
    ensures OnlyLive(Evict(buf, now), now)
  {
    var rest := Evict(buf, now);
    var d := |buf| - |rest|;
    forall i | 0 <= i < |rest|
      ensures !Expired(rest[i], now)
    {
      assert rest[i] == buf[d + i] && rest[0] == buf[d];
    }
  }

  lemma EvictionFallsShort<T>(buf: seq<Entry<T>>, now: nat, i: nat, j: nat)
    requires i < j < |buf| && !Expired(buf[i], now) && Expired(buf[j], now)
    ensures !OnlyLive(Evict(buf, now), now)
  {
    var rest := Evict(buf, now);
    var d := |buf| - |rest|;
    assert d <= i;
    assert rest[j - d] == buf[j];
  }

  /**
   * `drain` returns exactly the unexpired items if and only if no expired item follows the first
   * unexpired one; otherwise it returns expired items too.
   */
  lemma DrainReturnsOnlyLive<T>(buf: seq<Entry<T>>, now: nat)
    ensures Items(Evict(buf, now)) == Live(buf, now) <==> ExpiredFirst(buf, now)
  {
    var rest := Evict(buf, now);
    LiveIgnoresEviction(buf, now);
    LiveIsAll(rest, now);
    if ExpiredFirst(buf, now) {
      EvictionSuffices(buf, now);
    } else {
      var i, j :| 0 <= i < j < |buf| && !Expired(buf[i], now) && Expired(buf[j], now);
      EvictionFallsShort(buf, now, i, j);
    }
  }

  /** Later, with 0 as infinity. */
  predicate NoEarlier(a: nat, b: nat) {
    b == 0 || (a != 0 && a <= b)
  }

  /** In particular when expiries never decrease along the queue, as with a constant time to live. */
  lemma DrainOfOrderedExpiries<T>(buf: seq<Entry<T>>, now: nat)
    requires forall i, j :: 0 <= i < j < |buf| ==> NoEarlier(buf[i].expiresAt, buf[j].expiresAt)
    ensures Items(Evict(buf, now)) == Live(buf, now)
  {
    forall i, j | 0 <= i < j < |buf| && !Expired(buf[i], now)
      ensures !Expired(buf[j], now)
    {
      assert NoEarlier(buf[i].expiresAt, buf[j].expiresAt);
    }
    assert ExpiredFirst(buf, now);
    DrainReturnsOnlyLive(buf, now);
  }

  /** An expired item behind a live head is returned by `drain`, though not by `pop`. */
  lemma DrainCanReturnExpired<T>(a: T, b: T, now: nat)
    requires now > 0
    ensures var buf := [Entry(0, a), Entry(now, b)];
            Items(Evict(buf, now)) == [a, b] && Live(buf, now) == [a]
  {
    var buf := [Entry(0, a), Entry(now, b)];
    assert Live(buf[1..], now) == [];
  }

  // ---- the fate of every item over a whole run ----

  datatype Operation =
    | Push(now: nat, expiresAt: nat)   // pushes the item numbered by the pushes before it
    | Pop(now: nat)
    | Peek(now: nat)
    | Drain(now: nat)

  datatype Fate =
    | Queued
    | Consumed
    | Evicted(at: nat)       // when it was evicted
    | Dropped(byPush: nat)   // the number of the push that made room by dropping it

  /** The queue, the expiry of every pushed item, what was consumed so far in order, and every item's fate. */
  datatype Ledger = Ledger(buf: seq<Entry<nat>>, expiries: seq<nat>, consumed: seq<nat>, fates: map<nat, Fate>)

  const Empty := Ledger([], [], [], map[])

  /** The head leaves the queue. */
  function Leave(l: Ledger, fate: Fate): Ledger
    requires l.buf != []
  {
    var item := l.buf[0].item;
    Ledger(l.buf[1..], l.expiries, if fate.Consumed? then l.consumed + [item] else l.consumed, l.fates[item := fate])
  }

  /** The eviction every operation starts with. */
  function Evicting(l: Ledger, now: nat): (l': Ledger)
    ensures l'.buf == Evict(l.buf, now) && l'.expiries == l.expiries
    decreases |l.buf|
  {
    if l.buf != [] && Expired(l.buf[0], now) then Evicting(Leave(l, Evicted(now)), now) else l
  }

  function ConsumeAll(l: Ledger): (l': Ledger)
    ensures l'.buf == [] && l'.expiries == l.expiries
    decreases |l.buf|
  {
    if l.buf == [] then l else ConsumeAll(Leave(l, Consumed))
  }

  function Enter(l: Ledger, expiresAt: nat): Ledger {
    var n := |l.expiries|;
    Ledger(l.buf + [Entry(expiresAt, n)], l.expiries + [expiresAt], l.consumed, l.fates[n := Queued])
  }

  /** Enters, dropping the oldest item when full. */
  function EnterBounded(l: Ledger, capacity: nat, expiresAt: nat): (l': Ledger)
    requires capacity > 0
    ensures l'.buf == Appended(l.buf, capacity, Entry(expiresAt, |l.expiries|))
    ensures l'.expiries == l.expiries + [expiresAt]
  {
    if |l.buf| >= capacity then Overflow(l, expiresAt) else Enter(l, expiresAt)
  }

  function Overflow(l: Ledger, expiresAt: nat): Ledger
    requires l.buf != []
  {
    Enter(Leave(l, Dropped(|l.expiries|)), expiresAt)
  }

  /** The operation proper, on what eviction left. */
  function Perform(e: Ledger, capacity: nat, op: Operation): (l': Ledger)
    requires capacity > 0
    ensures l'.buf == Performed(e.buf, capacity, op, |e.expiries|)
    ensures l'.expiries == if op.Push? then e.expiries + [op.expiresAt] else e.expiries
  {
    match op
    case Push(_, expiresAt) => EnterBounded(e, capacity, expiresAt)
    case Pop(_) => if e.buf == [] then e else Leave(e, Consumed)
    case Peek(_) => e
    case Drain(_) => ConsumeAll(e)
  }

  function Apply(l: Ledger, capacity: nat, op: Operation): Ledger
    requires capacity > 0
  {
    Perform(Evicting(l, op.now), capacity, op)
  }

  /** What the class's operations make of the entries eviction left. */
  function Performed<T>(live: seq<Entry<T>>, capacity: nat, op: Operation, pushed: T): seq<Entry<T>> {
    match op
    case Push(_, expiresAt) => Appended(live, capacity, Entry(expiresAt, pushed))
    case Pop(_) => if live == [] then [] else live[1..]
    case Peek(_) => live
    case Drain(_) => []
  }

  /** The queue moves as in the class, and a push records its expiry; the rest is bookkeeping. */
  lemma ApplyMovesTheQueue(l: Ledger, capacity: nat, op: Operation)
    requires capacity > 0
    ensures Apply(l, capacity, op).buf == Performed(Evict(l.buf, op.now), capacity, op, |l.expiries|)
    ensures Apply(l, capacity, op).expiries == if op.Push? then l.expiries + [op.expiresAt] else l.expiries
  {
  }

  function Run(capacity: nat, ops: seq<Operation>): Ledger
    requires capacity > 0
  {
    if ops == [] then Empty else Apply(Run(capacity, ops[..|ops| - 1]), capacity, ops[|ops| - 1])
  }

  ghost predicate Increasing(s: seq<nat>) {
    forall i, j :: 0 <= i < j < |s| ==> s[i] < s[j]
  }

  ghost predicate FateOk(l: Ledger, capacity: nat, n: nat)
    requires n in l.fates && n < |l.expiries|
  {
    match l.fates[n]
    case Queued => exists i :: 0 <= i < |l.buf| && l.buf[i].item == n
    case Consumed => n in l.consumed
    case Evicted(at) => 0 < l.expiries[n] <= at
    case Dropped(byPush) => n + capacity <= byPush < |l.expiries|
  }

  /** The queue holds exactly the queued items, in push order and after everything consumed. */
  ghost predicate QueueOk(l: Ledger) {
    && (forall i, j :: 0 <= i < j < |l.buf| ==> l.buf[i].item < l.buf[j].item)
    && (forall i :: 0 <= i < |l.buf| ==>
          l.buf[i].item < |l.expiries| && l.buf[i].expiresAt == l.expiries[l.buf[i].item])
    && (forall i :: 0 <= i < |l.buf| ==> l.buf[i].item in l.fates && l.fates[l.buf[i].item] == Queued)
    && Increasing(l.consumed)
    && (forall i :: 0 <= i < |l.consumed| ==> l.consumed[i] in l.fates && l.fates[l.consumed[i]] == Consumed)
    && (forall i, j :: 0 <= i < |l.consumed| && 0 <= j < |l.buf| ==> l.consumed[i] < l.buf[j].item)
  }

  ghost predicate Accounted(l: Ledger, capacity: nat) {
    && (forall n :: n in l.fates <==> 0 <= n < |l.expiries|)
    && (forall n :: n in l.fates ==> FateOk(l, capacity, n))
    && QueueOk(l)
    && |l.buf| <= capacity
  }

  /** A fate, once sealed, does not change. */
  ghost predicate FatesKept(l: Ledger, l': Ledger) {
    && l.expiries <= l'.expiries
    && (forall n :: n in l.fates ==> n in l'.fates && (l.fates[n].Queued? || l'.fates[n] == l.fates[n]))
  }

  /** Any departure but the one by overflow, which is part of a push. */
  lemma LeaveKeepsAccount(l: Ledger, capacity: nat, fate: Fate)
    requires Accounted(l, capacity) && l.buf != [] && !fate.Queued?
    requires fate.Evicted? ==> Expired(l.buf[0], fate.at)
    requires !fate.Dropped?
    ensures Accounted(Leave(l, fate), capacity) && FatesKept(l, Leave(l, fate))
  {
    LeaveKeepsQueue(l, fate);
    forall n | n in Leave(l, fate).fates
      ensures FateOk(Leave(l, fate), capacity, n)
    {
      assert n in l.fates && FateOk(l, capacity, n);
      LeaveKeepsFate(l, capacity, fate, n);
    }
  }

  lemma LeaveKeepsQueue(l: Ledger, fate: Fate)
    requires QueueOk(l) && l.buf != [] && !fate.Queued?
    ensures QueueOk(Leave(l, fate))
  {
    var l' := Leave(l, fate);
    assert forall i :: 0 <= i < |l'.buf| ==> l'.buf[i] == l.buf[i + 1];
    assert l.buf[0].item in l.fates;
    if fate.Consumed? {
      var n := |l.consumed|;
      assert l'.consumed[n] == l.buf[0].item && forall i :: 0 <= i < n ==> l'.consumed[i] == l.consumed[i];
    }
  }

  lemma LeaveKeepsFate(l: Ledger, capacity: nat, fate: Fate, n: nat)
    requires QueueOk(l) && l.buf != [] && !fate.Queued? && !fate.Dropped?
    requires fate.Evicted? ==> Expired(l.buf[0], fate.at)
    requires n in l.fates && n < |l.expiries| && FateOk(l, capacity, n)
    ensures FateOk(Leave(l, fate), capacity, n)
  {
    var item, l' := l.buf[0].item, Leave(l, fate);
    if n == item {
      assert fate.Consumed? ==> l'.consumed[|l.consumed|] == n;
    } else if l.fates[n].Queued? {
      var i :| 0 <= i < |l.buf| && l.buf[i].item == n;
      assert l'.buf[i - 1].item == n;
    }
  }

  lemma {:induction false} EvictingKeepsAccount(l: Ledger, capacity: nat, now: nat)
    requires Accounted(l, capacity)
    ensures Accounted(Evicting(l, now), capacity) && FatesKept(l, Evicting(l, now))
    decreases |l.buf|
  {
    if l.buf != [] && Expired(l.buf[0], now) {
      var fate := Evicted(now);
      LeaveKeepsAccount(l, capacity, fate);
      EvictingKeepsAccount(Leave(l, fate), capacity, now);
    }
  }

  lemma {:induction false} ConsumeAllKeepsAccount(l: Ledger, capacity: nat)
    requires Accounted(l, capacity)
    ensures Accounted(ConsumeAll(l), capacity) && FatesKept(l, ConsumeAll(l))
    decreases |l.buf|
  {
    if l.buf != [] {
      LeaveKeepsAccount(l, capacity, Consumed);
      ConsumeAllKeepsAccount(Leave(l, Consumed), capacity);
    }
  }

  /** Items in the queue are as far apart in push order as their positions, at least. */
  lemma {:induction false} Spread(l: Ledger, i: nat, j: nat)
    requires QueueOk(l) && i <= j < |l.buf|
    ensures l.buf[i].item + (j - i) <= l.buf[j].item
    decreases j - i
  {
    if i < j {
      Spread(l, i, j - 1);
    }
  }

  lemma EnterKeepsAccount(l: Ledger, capacity: nat, expiresAt: nat)
    requires Accounted(l, capacity) && |l.buf| < capacity
    ensures Accounted(Enter(l, expiresAt), capacity) && FatesKept(l, Enter(l, expiresAt))
  {
    EnterKeepsQueue(l, expiresAt);
    forall n | n in Enter(l, expiresAt).fates
      ensures FateOk(Enter(l, expiresAt), capacity, n)
    {
      EnterKeepsFate(l, capacity, expiresAt, n);
    }
  }

  lemma EnterKeepsQueue(l: Ledger, expiresAt: nat)
    requires QueueOk(l) && |l.expiries| !in l.fates
    requires forall n :: n in l.fates ==> n < |l.expiries|
    ensures QueueOk(Enter(l, expiresAt))
  {
    var l' := Enter(l, expiresAt);
    assert forall i :: 0 <= i < |l.buf| ==> l'.buf[i] == l.buf[i];
  }

  lemma EnterKeepsFate(l: Ledger, capacity: nat, expiresAt: nat, n: nat)
    requires Accounted(l, capacity)
    requires n in Enter(l, expiresAt).fates
    ensures FateOk(Enter(l, expiresAt), capacity, n)
  {
    var l' := Enter(l, expiresAt);
    if n == |l.expiries| {
      assert l'.buf[|l.buf|].item == n;
    } else {
      assert FateOk(l, capacity, n);
      if l.fates[n].Queued? {
        var i :| 0 <= i < |l.buf| && l.buf[i].item == n;
        assert l'.buf[i].item == n;
      }
    }
  }

  lemma OverflowKeepsQueue(l: Ledger, expiresAt: nat)
    requires QueueOk(l) && l.buf != [] && |l.expiries| !in l.fates
    ensures QueueOk(Overflow(l, expiresAt))
  {
    var l' := Overflow(l, expiresAt);
    assert forall i :: 0 <= i < |l.buf| - 1 ==> l'.buf[i] == l.buf[i + 1];
  }

  lemma OverflowKeepsFate(l: Ledger, capacity: nat, expiresAt: nat, n: nat)
    requires Accounted(l, capacity) && |l.buf| == capacity > 0
    requires n in Overflow(l, expiresAt).fates
    ensures FateOk(Overflow(l, expiresAt), capacity, n)
  {
    var item, l' := l.buf[0].item, Overflow(l, expiresAt);
    if n == |l.expiries| {
      assert l'.buf[|l'.buf| - 1].item == n;
    } else if n == item {
      Spread(l, 0, |l.buf| - 1);
    } else {
      assert FateOk(l, capacity, n);
      if l.fates[n].Queued? {
        var i :| 0 <= i < |l.buf| && l.buf[i].item == n;
        assert l'.buf[i - 1].item == n;
      }
    }
  }

  lemma OverflowKeepsAccount(l: Ledger, capacity: nat, expiresAt: nat)
    requires Accounted(l, capacity) && |l.buf| == capacity > 0
    ensures Accounted(Overflow(l, expiresAt), capacity) && FatesKept(l, Overflow(l, expiresAt))
  {
    OverflowKeepsQueue(l, expiresAt);
    forall n | n in Overflow(l, expiresAt).fates
      ensures FateOk(Overflow(l, expiresAt), capacity, n)
    {
      OverflowKeepsFate(l, capacity, expiresAt, n);
    }
  }

  lemma ApplyKeepsAccount(l: Ledger, capacity: nat, op: Operation)
    requires capacity > 0 && Accounted(l, capacity)
    ensures Accounted(Apply(l, capacity, op), capacity) && FatesKept(l, Apply(l, capacity, op))
  {
    EvictingKeepsAccount(l, capacity, op.now);
    var e := Evicting(l, op.now);
    match op
    case Push(_, expiresAt) =>
      if |e.buf| >= capacity {
        OverflowKeepsAccount(e, capacity, expiresAt);
      } else {
        EnterKeepsAccount(e, capacity, expiresAt);
      }
    case Pop(_) =>
      if e.buf != [] {
        LeaveKeepsAccount(e, capacity, Consumed);
      }
    case Peek(_) =>
    case Drain(_) => ConsumeAllKeepsAccount(e, capacity);
  }

  /**
   * Over any run of pushes, pops, peeks and drains, at whatever times: every pushed item is exactly
   * one of consumed, evicted while expired, dropped by overflow and still queued; consumption
   * follows push order; the length never exceeds the capacity; and an item dropped by overflow was
   * followed by at least `capacity` later pushes.
   */
  lemma {:induction false} EveryItemAccounted(capacity: nat, ops: seq<Operation>)
    requires capacity > 0
    ensures Accounted(Run(capacity, ops), capacity)
    ensures ops != [] ==> FatesKept(Run(capacity, ops[..|ops| - 1]), Run(capacity, ops))
  {
    if ops != [] {
      EveryItemAccounted(capacity, ops[..|ops| - 1]);
      ApplyKeepsAccount(Run(capacity, ops[..|ops| - 1]), capacity, ops[|ops| - 1]);
    }
  }
}
