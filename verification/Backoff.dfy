/**
 * The Fibonacci-backoff retry loops: `wait_for_api` and `name_publish_with_retry`
 * (src/kubo/kubo.rs:152-206, 445-495) and `remote_pin_with_retry` (src/ipfs/publish.rs:598-624).
 * Durations are in nanoseconds; `succeeds(i)` is the outcome of attempt i, counted from 1.
 */
module Backoff {
  const MILLISECOND := 1_000_000

  /** The longest `Duration`; sums saturate at it. */
  const MAX_DURATION := 0x1_0000_0000_0000_0000 * 1_000_000_000 - 1

  function Min(a: nat, b: nat): nat {
    if a <= b then a else b
  }

  function Fib(n: nat): nat {
    if n < 2 then n else Fib(n - 1) + Fib(n - 2)
  }

  /** What the caller of a retry loop sees: the answer, the number of calls, and the sleeps between them. */
  datatype Outcome = Outcome(ok: bool, calls: nat, sleeps: seq<nat>)

  /** Stops at the first success or after `attempts` calls, with one sleep between calls. */
  ghost predicate StopsAtFirstSuccess(succeeds: nat -> bool, attempts: nat, o: Outcome) {
    && o.calls <= attempts
    && (forall i :: 1 <= i < o.calls ==> !succeeds(i))
    && (o.ok ==> o.calls >= 1 && succeeds(o.calls))
    && (!o.ok ==> o.calls == attempts && (attempts >= 1 ==> !succeeds(attempts)))
    && |o.sleeps| == if o.calls == 0 then 0 else o.calls - 1
  }

  /**
   * Sleep i of the two loops in kubo.rs: the first is the initial delay as given, later ones are its
   * whole milliseconds times the i-th Fibonacci number, capped.
   */
  function MillisecondSleep(initial: nat, capMillis: nat, i: nat): nat {
    if i <= 1 then initial else Min(Fib(i) * (initial / MILLISECOND), capMillis) * MILLISECOND
  }

  /** Sleep i of the loop in publish.rs: exact, capped from the second on. */
  function ExactSleep(initial: nat, cap: nat, i: nat): nat {
    if i <= 1 then initial else Min(Fib(i) * initial, cap)
  }

  /** One step of the capped Fibonacci recurrence, with the first term uncapped. */
  lemma CappedFib(d: nat, cap: nat, i: nat)
    requires i >= 2
    ensures var previous := if i == 2 then d else Min(Fib(i - 1) * d, cap);
      Min(previous + Min(Fib(i) * d, cap), cap) == Min(Fib(i + 1) * d, cap)
  {
    assert Fib(i + 1) * d == Fib(i) * d + Fib(i - 1) * d;
    if i == 2 {
      assert Fib(1) == 1;
    }
  }

  /** The sleep before, counting from nothing before the first. */
  function MillisecondSleepBefore(initial: nat, capMillis: nat, i: nat): nat {
    if i <= 1 then 0 else MillisecondSleep(initial, capMillis, i - 1)
  }

  /** Adding two sleeps in whole milliseconds, capped, gives the next one. */
  lemma NextMillisecondSleep(initial: nat, capMillis: nat, i: nat)
    requires i >= 1
    ensures var next := MillisecondSleepBefore(initial, capMillis, i) / MILLISECOND
                        + MillisecondSleep(initial, capMillis, i) / MILLISECOND;
            Min(next, capMillis) * MILLISECOND == MillisecondSleep(initial, capMillis, i + 1)
  {
    var d := initial / MILLISECOND;
    if i == 1 {
      assert Fib(2) == 1;
    } else {
      CappedFib(d, capMillis, i);
      WholeMilliseconds(Min(Fib(i) * d, capMillis));
      if i > 2 {
        WholeMilliseconds(Min(Fib(i - 1) * d, capMillis));
      }
    }
  }

  lemma WholeMilliseconds(n: nat)
    ensures (n * MILLISECOND) / MILLISECOND == n
  {
  }

  /** `wait_for_api` with 200 ms and a cap of 5 s; `name_publish_with_retry` with a cap of 30 s. */
  method RetryInMilliseconds(succeeds: nat -> bool, attempts: nat, initial: nat, capMillis: nat) returns (o: Outcome)
    ensures StopsAtFirstSuccess(succeeds, attempts, o)
    ensures forall i :: 0 <= i < |o.sleeps| ==> o.sleeps[i] == MillisecondSleep(initial, capMillis, i + 1)
  {
    if attempts == 0 {
      return Outcome(false, 0, []);
    }
    var previous, current := 0, initial;
    var sleeps := [];
    for attempt := 1 to attempts + 1
      invariant |sleeps| == if attempt <= attempts then attempt - 1 else attempts - 1
      invariant forall i :: 1 <= i < attempt ==> !succeeds(i)
      invariant forall i :: 0 <= i < |sleeps| ==> sleeps[i] == MillisecondSleep(initial, capMillis, i + 1)
      invariant attempt <= attempts ==> current == MillisecondSleep(initial, capMillis, attempt)
      invariant attempt <= attempts ==> previous == MillisecondSleepBefore(initial, capMillis, attempt)
    {
      if succeeds(attempt) {
        return Outcome(true, attempt, sleeps);
      }
      if attempt < attempts {
        sleeps := sleeps + [current];
        var next := previous / MILLISECOND + current / MILLISECOND;
        NextMillisecondSleep(initial, capMillis, attempt);
        previous, current := current, Min(next, capMillis) * MILLISECOND;
      }
    }
    return Outcome(false, attempts, sleeps);
  }

  /** Adding two sleeps, capped, gives the next one; nothing comes before the first. */
  lemma NextExactSleep(initial: nat, cap: nat, i: nat)
    requires i >= 1
    ensures var previous := if i == 1 then 0 else ExactSleep(initial, cap, i - 1);
            Min(previous + ExactSleep(initial, cap, i), cap) == ExactSleep(initial, cap, i + 1)
  {
    if i == 1 {
      assert Fib(2) == 1;
    } else {
      CappedFib(initial, cap, i);
    }
  }

  /** `remote_pin_with_retry`, with a cap of 30 s. */
  method RetryExactly(succeeds: nat -> bool, attempts: nat, initial: nat, cap: nat) returns (o: Outcome)
    requires initial <= MAX_DURATION && cap <= MAX_DURATION
    ensures StopsAtFirstSuccess(succeeds, attempts, o)
    ensures forall i :: 0 <= i < |o.sleeps| ==> o.sleeps[i] == ExactSleep(initial, cap, i + 1)
  {
    if attempts == 0 {
      return Outcome(false, 0, []);
    }
    var delay, previous := initial, 0;
    var sleeps := [];
    for attempt := 1 to attempts + 1
      invariant |sleeps| == if attempt <= attempts then attempt - 1 else attempts - 1
      invariant forall i :: 1 <= i < attempt ==> !succeeds(i)
      invariant forall i :: 0 <= i < |sleeps| ==> sleeps[i] == ExactSleep(initial, cap, i + 1)
      invariant attempt <= attempts ==> delay == ExactSleep(initial, cap, attempt)
      invariant attempt <= attempts ==> previous == if attempt == 1 then 0 else ExactSleep(initial, cap, attempt - 1)
    {
      if succeeds(attempt) {
        return Outcome(true, attempt, sleeps);
      }
      if attempt < attempts {
        sleeps := sleeps + [delay];
        var next := Min(previous + delay, MAX_DURATION);
        NextExactSleep(initial, cap, attempt);
        previous, delay := delay, Min(next, cap);
      }
    }
    return Outcome(false, attempts, sleeps);
  }

  /** A loop that stops at the first success makes min(first success, attempts) calls, and there is one such number. */
  lemma CallsAreMinimal(succeeds: nat -> bool, attempts: nat, o: Outcome, first: nat)
    requires StopsAtFirstSuccess(succeeds, attempts, o)
    requires first >= 1 && succeeds(first) && forall i :: 1 <= i < first ==> !succeeds(i)
    ensures o.calls == Min(first, attempts)
    ensures o.ok <==> first <= attempts
  {
  }

  function Sum(s: seq<nat>): nat {
    if s == [] then 0 else Sum(s[..|s| - 1]) + s[|s| - 1]
  }

  lemma MulMono(a: nat, b: nat, c: nat)
    requires b <= c
    ensures a * b <= a * c
  {
  }

  lemma MulAssoc(a: nat, b: nat, c: nat)
    ensures (a * b) * c == a * (b * c)
  {
  }

  lemma MulDistributes(a: nat, b: nat, c: nat)
    ensures (a + b) * c == a * c + b * c
  {
  }

  lemma ExactSleepBounded(initial: nat, cap: nat, i: nat)
    requires i >= 1
    ensures ExactSleep(initial, cap, i) <= Fib(i) * initial
    ensures i >= 2 ==> ExactSleep(initial, cap, i) <= cap
  {
    assert Fib(1) * initial == initial;
  }

  lemma MillisecondSleepBounded(initial: nat, capMillis: nat, i: nat)
    requires i >= 1
    ensures MillisecondSleep(initial, capMillis, i) <= Fib(i) * initial
    ensures i >= 2 ==> MillisecondSleep(initial, capMillis, i) <= capMillis * MILLISECOND
  {
    if i == 1 {
      assert Fib(1) * initial == initial;
    } else {
      var d := initial / MILLISECOND;
      var scaled := Fib(i) * d;
      MulMono(Fib(i), d * MILLISECOND, initial);
      MulAssoc(Fib(i), d, MILLISECOND);
      assert scaled * MILLISECOND <= Fib(i) * initial;
      var s := Min(scaled, capMillis);
      assert s * MILLISECOND <= scaled * MILLISECOND && s * MILLISECOND <= capMillis * MILLISECOND;
    }
  }

  /** Sleep i is at most Fib(i) initial delays, and from the second on at most the cap. */
  ghost predicate Bounded(sleeps: seq<nat>, initial: nat, cap: nat) {
    forall i :: 0 <= i < |sleeps| ==> sleeps[i] <= Fib(i + 1) * initial && (i >= 1 ==> sleeps[i] <= cap)
  }

  /** With n sleeps the total is at most Fib(n + 2) - 1 initial delays. */
  lemma {:induction false} WaitWithinFib(sleeps: seq<nat>, initial: nat, cap: nat)
    requires Bounded(sleeps, initial, cap)
    ensures Sum(sleeps) + initial <= Fib(|sleeps| + 2) * initial
  {
    var n := |sleeps|;
    if n == 0 {
      assert Fib(2) == 1;
      MulMono(initial, 1, Fib(2));
    } else {
      WaitWithinFib(sleeps[..n - 1], initial, cap);
      MulDistributes(Fib(n + 1), Fib(n), initial);
      assert Fib(n + 2) == Fib(n + 1) + Fib(n);
      assert sleeps[n - 1] <= Fib(n) * initial;
    }
  }

  /** And at most the initial delay plus n - 1 caps. */
  lemma {:induction false} WaitWithinCaps(sleeps: seq<nat>, initial: nat, cap: nat)
    requires Bounded(sleeps, initial, cap)
    ensures Sum(sleeps) <= if sleeps == [] then 0 else initial + (|sleeps| - 1) * cap
  {
    var n := |sleeps|;
    if n == 1 {
      assert Fib(1) * initial == initial;
      assert Sum(sleeps[..0]) == 0;
    } else if n > 1 {
      WaitWithinCaps(sleeps[..n - 1], initial, cap);
      MulDistributes(n - 2, 1, cap);
    }
  }

  /**
   * The total wait of any run of either loop, whose sleeps are `s`: at most Fib(|s| + 2) - 1 initial
   * delays, and at most one initial delay and |s| - 1 caps.
   */
  lemma TotalWait(s: seq<nat>, initial: nat, cap: nat)
    requires (forall i :: 0 <= i < |s| ==> s[i] == ExactSleep(initial, cap, i + 1))
          || (cap % MILLISECOND == 0
              && forall i :: 0 <= i < |s| ==> s[i] == MillisecondSleep(initial, cap / MILLISECOND, i + 1))
    ensures Sum(s) + initial <= Fib(|s| + 2) * initial
    ensures s != [] ==> Sum(s) <= initial + (|s| - 1) * cap
  {
    forall i | 0 <= i < |s|
      ensures s[i] <= Fib(i + 1) * initial && (i >= 1 ==> s[i] <= cap)
    {
      ExactSleepBounded(initial, cap, i + 1);
      MillisecondSleepBounded(initial, cap / MILLISECOND, i + 1);
    }
    WaitWithinFib(s, initial, cap);
    WaitWithinCaps(s, initial, cap);
  }
}
