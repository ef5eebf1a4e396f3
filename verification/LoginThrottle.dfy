/** The per-source login throttle and the rate it enforces, also on attempts that overlap. Instants are nanoseconds. */
module LoginThrottle {
  import opened Prelude

  const LOGIN_MAX_FAILS: nat := 5
  const LOGIN_BLOCK: int := 300_000_000_000

  datatype LoginAttempt = LoginAttempt(fails: nat, blockedUntil: Option<int>)

  type Sources = map<string, LoginAttempt>

  function EntryOf(sources: Sources, key: string): LoginAttempt {
    if key in sources then sources[key] else LoginAttempt(0, None)
  }

  predicate MayAttempt(sources: Sources, key: string, now: int) {
    EntryOf(sources, key).blockedUntil.Some? ==> now >= EntryOf(sources, key).blockedUntil.value
  }

  function AfterFailure(sources: Sources, key: string, now: int): Sources {
    var a := EntryOf(sources, key);
    sources[key := if a.fails + 1 >= LOGIN_MAX_FAILS then LoginAttempt(0, Some(now + LOGIN_BLOCK))
            else a.(fails := a.fails + 1)]
  }

  class Throttle {
    var sources: Sources

    constructor ()
      ensures sources == map[]
    {
      sources := map[];
    }

    method Allowed(key: string, now: int) returns (allowed: bool)
      ensures allowed <==> key in sources && sources[key].blockedUntil.Some? ==> now >= sources[key].blockedUntil.value
    {
      if key in sources && sources[key].blockedUntil.Some? {
        return now >= sources[key].blockedUntil.value;
      }
      return true;
    }

    method RecordFailure(key: string, now: int)
      modifies this
      ensures sources == AfterFailure(old(sources), key, now)
      // In numbers: the fifth failure blocks for 300 seconds and restarts the count, any other is counted.
      ensures sources.Keys == old(sources).Keys + {key} && forall k :: k in old(sources) && k != key ==>
                sources[k] == old(sources)[k]
      ensures var fails := if key in old(sources) then old(sources)[key].fails else 0;
              sources[key] == if fails >= 4 then LoginAttempt(0, Some(now + 300 * 1_000_000_000))
                              else LoginAttempt(fails + 1, if key in old(sources) then old(sources)[key].blockedUntil
                                                           else None)
    {
      var a := EntryOf(sources, key);
      a := a.(fails := a.fails + 1);
      if a.fails >= LOGIN_MAX_FAILS {
        a := LoginAttempt(0, Some(now + LOGIN_BLOCK));
      }
      sources := sources[key := a];
    }

    method RecordSuccess(key: string)
      modifies this
      ensures sources == old(sources) - {key}
    {
      sources := sources - {key};
    }

    /** How the login handler sequences the three: check at the start, record when the password has been verified. */
    method Login(attempt: Attempt) returns (outcome: Outcome)
      modifies this
      ensures sources == AfterAttempt(old(sources), attempt)
      ensures outcome == Throttled <==> !MayAttempt(old(sources), attempt.key, attempt.start)
      ensures outcome != Throttled ==> outcome == if attempt.ok then SignedIn else Refused
      // Refused without a record; a success forgets the source; a failure is recorded when the password was verified.
      ensures outcome == Throttled
              <==> attempt.key in old(sources) && old(sources)[attempt.key].blockedUntil.Some?
                   && attempt.start < old(sources)[attempt.key].blockedUntil.value
      ensures outcome == Throttled ==> sources == old(sources)
      ensures outcome == SignedIn ==> sources == old(sources) - {attempt.key}
      ensures outcome == Refused ==>
                var fails := if attempt.key in old(sources) then old(sources)[attempt.key].fails else 0;
                attempt.key in sources
                && (fails >= 4 ==>
                      sources[attempt.key] == LoginAttempt(0, Some(attempt.end + 300 * 1_000_000_000)))
                && (fails < 4 ==> sources[attempt.key].fails == fails + 1)
    {
      var allowed := Allowed(attempt.key, attempt.start);
      if !allowed { return Throttled; }
      if attempt.ok {
        RecordSuccess(attempt.key);
        return SignedIn;
      }
      RecordFailure(attempt.key, attempt.end);
      return Refused;
    }
  }

  // ---- Interleaved attempts ----

  /** One login request: checked at `start`, its password found right or wrong at `end`. */
  datatype Attempt = Attempt(key: string, start: int, end: int, ok: bool)

  datatype Outcome = Throttled | SignedIn | Refused

  function AfterAttempt(sources: Sources, a: Attempt): Sources {
    if !MayAttempt(sources, a.key, a.start) then sources
    else if a.ok then sources - {a.key}
    else AfterFailure(sources, a.key, a.end)
  }

  /** The throttle is locked twice in an attempt, for the check and for the record; in between, others take their
      turn. */
  datatype Event = Check(key: string, at: int) | Record(key: string, at: int, ok: bool)

  /** The throttle and the attempts of each source between their check and their record. */
  datatype Door = Door(sources: Sources, open: map<string, nat>)

  function OpenFor(door: Door, key: string): nat { if key in door.open then door.open[key] else 0 }

  predicate CanHappen(door: Door, e: Event) { e.Record? ==> OpenFor(door, e.key) > 0 }

  function After(door: Door, e: Event): Door
    requires CanHappen(door, e)
  {
    match e
    case Check(key, at) =>
      if MayAttempt(door.sources, key, at) then door.(open := door.open[key := OpenFor(door, key) + 1]) else door
    case Record(key, at, ok) =>
      Door(if ok then door.sources - {key}
           else AfterFailure(door.sources, key, at), door.open[key := (OpenFor(door, key) - 1) as nat])
  }

  /** An attempt nobody interrupts is its check followed by its record. */
  lemma AttemptIsTwoEvents(sources: Sources, a: Attempt)
    ensures var checked := After(Door(sources, map[]), Check(a.key, a.start));
            if MayAttempt(sources, a.key, a.start)
            then CanHappen(checked, Record(a.key, a.end, a.ok))
                && After(checked, Record(a.key, a.end, a.ok)).sources == AfterAttempt(sources, a)
                && checked.open[a.key] == 1 && After(checked, Record(a.key, a.end, a.ok)).open[a.key] == 0
            else checked.sources == AfterAttempt(sources, a)
  {
  }

  // ---- Traces ----

  datatype Trace = Trace(doors: seq<Door>, events: seq<Event>)

  /** Events in the order in which they hold the lock. */
  ghost predicate IsTrace(trace: Trace) {
    && |trace.doors| == |trace.events| + 1 && trace.doors[0] == Door(map[], map[])
    && (forall n :: 0 <= n < |trace.events| ==>
          CanHappen(trace.doors[n], trace.events[n]) && trace.doors[n + 1] == After(trace.doors[n], trace.events[n]))
    && (forall m, n :: 0 <= m < n < |trace.events| ==> trace.events[m].at <= trace.events[n].at)
  }

  /** At no time are more than so many attempts of the source between their check and their record. */
  ghost predicate AtMost(trace: Trace, key: string, overlapping: nat) {
    forall n :: 0 <= n < |trace.doors| ==> OpenFor(trace.doors[n], key) <= overlapping
  }

  /** The instants of the failures of `key` recorded by the first `n` events since its last success. */
  function Failures(events: seq<Event>, n: nat, key: string): seq<int>
    requires n <= |events|
  {
    if n == 0 then []
    else
      var e, before := events[n - 1], Failures(events, n - 1, key);
      if e.key != key || e.Check? then before else if e.ok then [] else before + [e.at]
  }

  ghost predicate Sorted(f: seq<int>) { forall i, j :: 0 <= i < j < |f| ==> f[i] <= f[j] }

  /** Every fifth failure blocks the source. */
  predicate Blocks(i: int) { (i + 1) % LOGIN_MAX_FAILS == 0 }

  /** After a failure that blocks, at most the attempts already open fail before the block ends. */
  ghost predicate Spaced(f: seq<int>, overlapping: nat) {
    forall i, j :: 0 <= i && j == i + overlapping && j < |f| && Blocks(i) ==> f[j] >= f[i] + LOGIN_BLOCK
  }

  /** What the entry of a key records about its failures. */
  ghost predicate Reflects(entry: LoginAttempt, f: seq<int>) {
    && entry.fails == |f| % LOGIN_MAX_FAILS
    && (if |f| < LOGIN_MAX_FAILS then entry.blockedUntil.None?
        else entry.blockedUntil == Some(f[|f| - |f| % LOGIN_MAX_FAILS - 1] + LOGIN_BLOCK))
  }

  /** While a block lasts, the failures recorded since it began and the attempts still open were all open when it
      began. */
  ghost predicate Draining(f: seq<int>, now: int, open: nat, overlapping: nat) {
    forall i :: 0 <= i < |f| && Blocks(i) && now < f[i] + LOGIN_BLOCK ==> |f| - 1 - i + open <= overlapping - 1
  }

  lemma ReflectsStep(sources: Sources, key: string, now: int, f: seq<int>)
    requires Reflects(EntryOf(sources, key), f)
    ensures Reflects(EntryOf(AfterFailure(sources, key, now), key), f + [now])
  {
  }

  lemma BlocksBefore(i: nat, n: nat)
    requires i < n && Blocks(i)
    ensures i <= n - n % LOGIN_MAX_FAILS - 1 && n >= LOGIN_MAX_FAILS
  {
    assert (i + 1) / LOGIN_MAX_FAILS <= n / LOGIN_MAX_FAILS;
  }

  /** An attempt that passes the check finds every block ended. */
  lemma CheckFindsNoBlock(sources: Sources, key: string, at: int, f: seq<int>)
    requires Reflects(EntryOf(sources, key), f) && Sorted(f) && MayAttempt(sources, key, at)
    ensures forall i :: 0 <= i < |f| && Blocks(i) ==> at >= f[i] + LOGIN_BLOCK
  {
    forall i | 0 <= i < |f| && Blocks(i) ensures at >= f[i] + LOGIN_BLOCK { BlocksBefore(i, |f|); }
  }

  lemma FailureStep(f: seq<int>, now: int, at: int, open: nat, overlapping: nat)
    requires Sorted(f) && Spaced(f, overlapping) && Draining(f, now, open, overlapping) && 0 < open <= overlapping
    requires now <= at && (f != [] ==> f[|f| - 1] <= now)
    ensures Sorted(f + [at]) && Spaced(f + [at], overlapping) && Draining(f + [at], at, open - 1, overlapping)
  {
    var g := f + [at];
    forall i, j | 0 <= i && j == i + overlapping && j < |g| && Blocks(i) ensures g[j] >= g[i] + LOGIN_BLOCK {
      assert j == |f| ==> |f| - 1 - i + open > overlapping - 1;
    }
  }

  /** What the throttle, at instant `now`, knows of the failures of a key, and what is still to come. */
  ghost predicate Tracks(door: Door, key: string, f: seq<int>, now: int, overlapping: nat) {
    && Sorted(f) && Spaced(f, overlapping) && Reflects(EntryOf(door.sources, key), f)
    && Draining(f, now, OpenFor(door, key), overlapping)
    && (f != [] ==> f[|f| - 1] <= now)
  }

  lemma CheckStep(door: Door, e: Event, key: string, f: seq<int>, now: int, overlapping: nat)
    requires Tracks(door, key, f, now, overlapping) && e.Check? && now <= e.at
    ensures Tracks(After(door, e), key, f, e.at, overlapping)
  {
    if e.key == key && MayAttempt(door.sources, key, e.at) { CheckFindsNoBlock(door.sources, key, e.at, f); }
  }

  lemma RecordStep(door: Door, e: Event, key: string, f: seq<int>, now: int, overlapping: nat)
    requires Tracks(door, key, f, now, overlapping) && e.Record? && CanHappen(door, e) && now <= e.at
             && OpenFor(door, key) <= overlapping
    ensures Tracks(After(door, e), key, if e.key != key then f else if e.ok then [] else f + [e.at], e.at, overlapping)
  {
    if e.key == key && !e.ok {
      ReflectsStep(door.sources, key, e.at, f);
      FailureStep(f, now, e.at, OpenFor(door, key), overlapping);
    }
  }

  lemma {:induction false} FailuresSpaced(trace: Trace, n: nat, key: string, overlapping: nat) returns (now: int)
    requires IsTrace(trace) && AtMost(trace, key, overlapping) && n <= |trace.events|
    ensures Tracks(trace.doors[n], key, Failures(trace.events, n, key), now, overlapping)
    ensures forall k :: n <= k < |trace.events| ==> now <= trace.events[k].at
  {
    if n == 0 {
      now := if trace.events == [] then 0 else trace.events[0].at;
    } else {
      var before := FailuresSpaced(trace, n - 1, key, overlapping);
      var e, door, f := trace.events[n - 1], trace.doors[n - 1], Failures(trace.events, n - 1, key);
      now := e.at;
      match e
      case Check(_, _) => CheckStep(door, e, key, f, before, overlapping);
      case Record(_, _, _) => RecordStep(door, e, key, f, before, overlapping);
    }
  }

  // ---- The rate ----

  /** How many failures always span a block. */
  function Burst(overlapping: nat): nat { overlapping + LOGIN_MAX_FAILS - 1 }

  lemma BurstSpansBlock(f: seq<int>, i: nat, overlapping: nat)
    requires Sorted(f) && Spaced(f, overlapping) && i + Burst(overlapping) < |f|
    ensures f[i + Burst(overlapping)] >= f[i] + LOGIN_BLOCK
  {
    var t := i + LOGIN_MAX_FAILS - 1 - i % LOGIN_MAX_FAILS;
    assert Blocks(t) && i <= t;
    assert f[t + overlapping] >= f[t] + LOGIN_BLOCK;
  }

  /** The length of `m` bursts. */
  function Bursts(m: nat, overlapping: nat): nat {
    if m == 0 then 0 else Bursts(m - 1, overlapping) + Burst(overlapping)
  }

  lemma {:induction false} BurstsIsProduct(m: nat, overlapping: nat)
    ensures Bursts(m, overlapping) == m * Burst(overlapping)
  {
    if m > 0 {
      BurstsIsProduct(m - 1, overlapping);
    }
  }

  lemma {:induction false} BurstsSpanBlocks(f: seq<int>, i: nat, m: nat, overlapping: nat)
    requires Sorted(f) && Spaced(f, overlapping) && i + Bursts(m, overlapping) < |f|
    ensures f[i + Bursts(m, overlapping)] >= f[i] + m * LOGIN_BLOCK
    decreases m
  {
    if m > 0 {
      BurstsSpanBlocks(f, i, m - 1, overlapping);
      BurstSpansBlock(f, i + Bursts(m - 1, overlapping), overlapping);
    }
  }

  lemma FewWithin(f: seq<int>, i: nat, j: nat, m: nat, overlapping: nat)
    requires Sorted(f) && Spaced(f, overlapping) && i <= j < |f| && f[j] - f[i] < m * LOGIN_BLOCK
    ensures j - i + 1 <= Bursts(m, overlapping)
  {
    if i + Bursts(m, overlapping) <= j {
      BurstsSpanBlocks(f, i, m, overlapping);
    }
  }

  /** The rate: on every trace, with at most K attempts of a source overlapping and whatever other sources do, its
      failures i to j that fall within a window of length L are at most (K + 4)·(⌊L / 300 s⌋ + 1); 5 a block if
      they are sequential. */
  lemma RateBounded(trace: Trace, n: nat, key: string, overlapping: nat, i: nat, j: nat, window: nat)
    requires IsTrace(trace) && AtMost(trace, key, overlapping) && n <= |trace.events| && overlapping > 0
    requires i <= j < |Failures(trace.events, n, key)|
    requires Failures(trace.events, n, key)[j] - Failures(trace.events, n, key)[i] <= window
    ensures j - i + 1 <= (window / 300_000_000_000 + 1) * (overlapping + 4)
  {
    var now := FailuresSpaced(trace, n, key, overlapping);
    assert window < (window / LOGIN_BLOCK + 1) * LOGIN_BLOCK;
    FewWithin(Failures(trace.events, n, key), i, j, window / LOGIN_BLOCK + 1, overlapping);
    BurstsIsProduct(window / LOGIN_BLOCK + 1, overlapping);
  }
}
