/**
 The failed-login counter: a Redis counter for each identifier that vanishes a
 fixed window after the first failure it counts, and locks the identifier once it
 reaches the limit.
 */
module Lockout {
  import opened Prelude
  import opened Redis
  import opened Settings

  type Counters = Store<string, int>

  predicate Locked(counters: Counters, id: string, now: int) {
    match Get(counters, id, now)
    case None => false
    case Some(attempts) => attempts >= MAX_LOGIN_ATTEMPTS
  }

  /** INCR, then EXPIRE when the count has just become 1. */
  function Incremented(counters: Counters, id: string, now: int): Counters {
    var count := FailureCount(counters, id, now);
    var expiresAt :=
      if count == 1 then Some(now + LOCKOUT_WINDOW)
      else if Visible(counters, id, now) then counters[id].expiresAt
      else None;
    counters[id := Entry(count, expiresAt)]
  }

  /** What INCR returns. */
  function FailureCount(counters: Counters, id: string, now: int): int {
    match Get(counters, id, now)
    case None => 1
    case Some(attempts) => attempts + 1
  }

  /** One sign-in attempt; `good` says whether the password check would pass. */
  datatype Attempt = Attempt(id: string, at: int, good: bool)

  datatype Outcome = Refused | Failed(count: int) | Passed

  function Try(counters: Counters, a: Attempt): (Counters, Outcome) {
    if Locked(counters, a.id, a.at) then
      (counters, Refused)
    else if a.good then
      (Delete(counters, a.id), Passed)
    else
      (Incremented(counters, a.id, a.at), Failed(FailureCount(counters, a.id, a.at)))
  }

  function Run(counters: Counters, trace: seq<Attempt>): Counters
    decreases |trace|
  {
    if trace == [] then counters else Run(Try(counters, trace[0]).0, trace[1..])
  }

  predicate Chronological(trace: seq<Attempt>, start: int) {
    trace == [] || (start <= trace[0].at && Chronological(trace[1..], trace[0].at))
  }

  function EndOf(trace: seq<Attempt>, start: int): int {
    if trace == [] then start else EndOf(trace[1..], trace[0].at)
  }

  /** The number of failed password checks for `id` at instants in [from, until). */
  function FailuresIn(counters: Counters, trace: seq<Attempt>, id: string, from: int, until: int): nat
    decreases |trace|
  {
    if trace == [] then 0 else
      var (after, outcome) := Try(counters, trace[0]);
      (if trace[0].id == id && outcome.Failed? && from <= trace[0].at < until then 1 else 0)
      + FailuresIn(after, trace[1..], id, from, until)
  }

  /** The number of times the counter of `id` is reset by a password check that passes. */
  function ResetsOf(counters: Counters, trace: seq<Attempt>, id: string): nat
    decreases |trace|
  {
    if trace == [] then 0 else
      var (after, outcome) := Try(counters, trace[0]);
      (if trace[0].id == id && outcome.Passed? then 1 else 0) + ResetsOf(after, trace[1..], id)
  }

  /** Counters that runs produce: between 1 and the limit, and started no later than `now`. */
  ghost predicate WellFormed(counters: Counters, now: int) {
    forall id :: id in counters ==>
      && 1 <= counters[id].value <= MAX_LOGIN_ATTEMPTS
      && counters[id].expiresAt.Some?
      && counters[id].expiresAt.value <= now + LOCKOUT_WINDOW
  }

  lemma TryKeepsWellFormed(counters: Counters, a: Attempt, now: int)
    requires WellFormed(counters, now) && now <= a.at
    ensures WellFormed(Try(counters, a).0, a.at)
  {}

  lemma {:induction false} RunKeepsWellFormed(counters: Counters, trace: seq<Attempt>, now: int)
    requires WellFormed(counters, now) && Chronological(trace, now)
    ensures WellFormed(Run(counters, trace), EndOf(trace, now))
    decreases |trace|
  {
    if trace != [] {
      TryKeepsWellFormed(counters, trace[0], now);
      RunKeepsWellFormed(Try(counters, trace[0]).0, trace[1..], trace[0].at);
    }
  }

  /**
   How many failures of `id` the interval [from, from + LOCKOUT_WINDOW) can still
   take, seen from `now`: a counter started inside the interval covers the rest of
   it, one started before it leaves room for a second counter after it.
   */
  ghost function Headroom(counters: Counters, id: string, now: int, from: int): int {
    if from + LOCKOUT_WINDOW <= now then
      0
    else if !Visible(counters, id, now) then
      if from <= now then MAX_LOGIN_ATTEMPTS else 2 * MAX_LOGIN_ATTEMPTS - 1
    else if counters[id].expiresAt.None? || from + LOCKOUT_WINDOW <= counters[id].expiresAt.value then
      MAX_LOGIN_ATTEMPTS - counters[id].value
    else if from < counters[id].expiresAt.value then
      2 * MAX_LOGIN_ATTEMPTS - counters[id].value
    else
      2 * MAX_LOGIN_ATTEMPTS - 1
  }

  lemma {:induction false} FailuresWithinHeadroom(
    counters: Counters, trace: seq<Attempt>, id: string, now: int, from: int)
    requires WellFormed(counters, now) && Chronological(trace, now)
    requires ResetsOf(counters, trace, id) == 0
    ensures FailuresIn(counters, trace, id, from, from + LOCKOUT_WINDOW) <= Headroom(counters, id, now, from)
    decreases |trace|
  {
    if trace != [] {
      var a := trace[0];
      var after := Try(counters, a).0;
      TryKeepsWellFormed(counters, a, now);
      FailuresWithinHeadroom(after, trace[1..], id, a.at, from);
    }
  }

  /**
   Between two resets of an identifier's counter, no interval of the window's
   length holds more than 2 * MAX_LOGIN_ATTEMPTS - 1 failed password checks,
   whatever the other identifiers do and whatever happened before.
   */
  lemma FailuresPerWindow(before: seq<Attempt>, trace: seq<Attempt>, id: string, start: int, from: int)
    requires Chronological(before, start) && Chronological(trace, EndOf(before, start))
    requires ResetsOf(Run(map[], before), trace, id) == 0
    ensures FailuresIn(Run(map[], before), trace, id, from, from + LOCKOUT_WINDOW) <= 2 * MAX_LOGIN_ATTEMPTS - 1
  {
    RunKeepsWellFormed(map[], before, start);
    FailuresWithinHeadroom(Run(map[], before), trace, id, EndOf(before, start), from);
  }

  /** While an identifier has no counter, one lifetime is ahead. */
  lemma FailuresFromBirth(counters: Counters, trace: seq<Attempt>, id: string, now: int, born: int)
    requires WellFormed(counters, now) && now <= born && Chronological(trace, born)
    requires !Visible(counters, id, born) && ResetsOf(counters, trace, id) == 0
    ensures FailuresIn(counters, trace, id, born, born + LOCKOUT_WINDOW) <= MAX_LOGIN_ATTEMPTS
  {
    FailuresWithinHeadroom(counters, trace, id, born, born);
  }

  /**
   One counter lifetime holds at most MAX_LOGIN_ATTEMPTS failed password checks. It
   begins with an attempt that finds no counter of the identifier, at whatever instant
   after whatever history, lasts the window's length and ends early at a reset.
   */
  lemma FailuresPerLifetime(before: seq<Attempt>, trace: seq<Attempt>, id: string, start: int)
    requires Chronological(before, start) && Chronological(trace, EndOf(before, start))
    requires trace != [] && !Visible(Run(map[], before), id, trace[0].at)
    requires ResetsOf(Run(map[], before), trace, id) == 0
    ensures var born := trace[0].at;
            FailuresIn(Run(map[], before), trace, id, born, born + LOCKOUT_WINDOW) <= MAX_LOGIN_ATTEMPTS
  {
    RunKeepsWellFormed(map[], before, start);
    FailuresFromBirth(Run(map[], before), trace, id, EndOf(before, start), trace[0].at);
  }

  /** `k` failures of `id`, one each millisecond from `t` on. */
  function Burst(id: string, t: int, k: nat): seq<Attempt>
    decreases k
  {
    if k == 0 then [] else [Attempt(id, t, false)] + Burst(id, t + 1, k - 1)
  }

  lemma ChronologicalBefore(trace: seq<Attempt>, start: int)
    requires Chronological(trace, start)
    ensures Chronological(trace, start - 1)
  {}

  lemma {:induction false} BurstChronological(id: string, t: int, k: nat, rest: seq<Attempt>)
    requires Chronological(rest, t + k)
    ensures Chronological(Burst(id, t, k) + rest, t)
    decreases k
  {
    if k == 0 {
      assert Burst(id, t, k) + rest == rest;
    } else {
      var tail := Burst(id, t + 1, k - 1) + rest;
      BurstChronological(id, t + 1, k - 1, rest);
      ChronologicalBefore(tail, t + 1);
      assert Burst(id, t, k) + rest == [Attempt(id, t, false)] + tail;
      hide Burst;
    }
  }

  lemma NextCounted(counters: Counters, id: string, t: int, rest: seq<Attempt>, from: int, until: int)
    requires Visible(counters, id, t) && 1 <= counters[id].value < MAX_LOGIN_ATTEMPTS
    requires from <= t < until
    ensures var next := counters[id := Entry(counters[id].value + 1, counters[id].expiresAt)];
            && FailuresIn(counters, [Attempt(id, t, false)] + rest, id, from, until)
               == 1 + FailuresIn(next, rest, id, from, until)
            && ResetsOf(counters, [Attempt(id, t, false)] + rest, id) == ResetsOf(next, rest, id)
  {
    var trace := [Attempt(id, t, false)] + rest;
    assert trace[0] == Attempt(id, t, false) && trace[1..] == rest;
  }

  /** While the counter lives and stays within the limit, a burst is counted in full. */
  lemma {:induction false} BurstCounted(
    counters: Counters, id: string, t: int, k: nat, rest: seq<Attempt>, from: int, until: int)
    requires id in counters && counters[id].expiresAt.Some? && t + k <= counters[id].expiresAt.value
    requires 1 <= counters[id].value && counters[id].value + k <= MAX_LOGIN_ATTEMPTS
    requires from <= t && t + k <= until
    ensures var after := counters[id := Entry(counters[id].value + k, counters[id].expiresAt)];
            && FailuresIn(counters, Burst(id, t, k) + rest, id, from, until)
               == k + FailuresIn(after, rest, id, from, until)
            && ResetsOf(counters, Burst(id, t, k) + rest, id) == ResetsOf(after, rest, id)
    decreases k
  {
    hide FailuresIn, ResetsOf, Try;
    var trace := Burst(id, t, k) + rest;
    var after := counters[id := Entry(counters[id].value + k, counters[id].expiresAt)];
    if k == 0 {
      assert trace == rest;
      assert after == counters;
    } else {
      var tail := Burst(id, t + 1, k - 1) + rest;
      assert trace == [Attempt(id, t, false)] + tail;
      var next := counters[id := Entry(counters[id].value + 1, counters[id].expiresAt)];
      NextCounted(counters, id, t, tail, from, until);
      BurstCounted(next, id, t + 1, k - 1, rest, from, until);
      assert next[id := Entry(next[id].value + (k - 1), next[id].expiresAt)] == after;
    }
  }

  /** The bound of FailuresPerWindow is met by some run, for every identifier. */
  lemma WindowBoundIsReached(id: string) returns (trace: seq<Attempt>, from: int)
    ensures Chronological(trace, 0) && ResetsOf(map[], trace, id) == 0
    ensures FailuresIn(map[], trace, id, from, from + LOCKOUT_WINDOW) == 2 * MAX_LOGIN_ATTEMPTS - 1
  {
    var k := MAX_LOGIN_ATTEMPTS - 1;
    var second := [Attempt(id, LOCKOUT_WINDOW, false)] + Burst(id, LOCKOUT_WINDOW + 1, k);
    from := LOCKOUT_WINDOW - k;
    trace := [Attempt(id, 0, false)] + (Burst(id, from, k) + second);
    var until := from + LOCKOUT_WINDOW;

    var born := Incremented(map[], id, 0);
    assert trace[0] == Attempt(id, 0, false) && trace[1..] == Burst(id, from, k) + second;
    BurstCounted(born, id, from, k, second, from, until);
    var full := born[id := Entry(MAX_LOGIN_ATTEMPTS, born[id].expiresAt)];
    assert second[0] == Attempt(id, LOCKOUT_WINDOW, false) && second[1..] == Burst(id, LOCKOUT_WINDOW + 1, k);
    var reborn := Incremented(full, id, LOCKOUT_WINDOW);
    assert Burst(id, LOCKOUT_WINDOW + 1, k) == Burst(id, LOCKOUT_WINDOW + 1, k) + [];
    BurstCounted(reborn, id, LOCKOUT_WINDOW + 1, k, [], from, until);
    BurstChronological(id, LOCKOUT_WINDOW + 1, k, []);
    BurstChronological(id, from, k, second);
  }
}
