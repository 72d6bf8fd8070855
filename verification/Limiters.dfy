/**
  The per-IP rate limiters. Each entry holds a token bucket that starts full,
  refills continuously and pays one token per allowed attempt; a sweep drops
  entries that have been idle. Time is in nanoseconds, and so is the level of a
  bucket: one token is worth one refill period, so no rounding is involved.
 */
module Limiters {
  import opened Wrappers

  datatype RateLimit = Limit(period: nat, burst: nat)

  /** rate.Every(period) with a burst of at least one. */
  type Limit = l: RateLimit | l.period >= 1 && l.burst >= 1 witness Limit(1, 1)

  const SECOND: nat := 1_000_000_000
  const UNLOCK_LIMIT: Limit := Limit(30 * SECOND, 5)
  const AUTH_LIMIT: Limit := Limit(60 * SECOND, 5)
  const IDLE: nat := 600 * SECOND

  /** What n attempts cost together. */
  function Price(period: nat, n: nat): nat {
    if n == 0 then 0 else Price(period, n - 1) + period
  }

  /** The level of a full bucket. */
  function Cap(l: Limit): (cap: nat)
    ensures l.period <= cap
  {
    Price(l.period, l.burst)
  }

  datatype Bucket = Bucket(level: nat, last: int)

  /** unlockEntry. */
  datatype Entry = Entry(bucket: Bucket, lastSeen: int)

  function LevelAt(l: Limit, b: Bucket, now: int): nat {
    var level := b.level + (if now < b.last then 0 else now - b.last);
    if level < Cap(l) then level else Cap(l)
  }

  function Allows(l: Limit, b: Bucket, now: int): bool {
    l.period <= LevelAt(l, b, now)
  }

  /** A refused attempt leaves the bucket as it was. */
  function Spend(l: Limit, b: Bucket, now: int): Bucket {
    if Allows(l, b, now) then Bucket(LevelAt(l, b, now) - l.period, now) else b
  }

  // ---- one IP's entry ---------------------------------------------------

  type Slot = Option<Entry>

  /** The entry's bucket, or a new full one. */
  function BucketOf(l: Limit, slot: Slot, now: int): Bucket {
    if slot.Some? then slot.value.bucket else Bucket(Cap(l), now)
  }

  function Attempted(l: Limit, slot: Slot, now: int): Slot {
    Some(Entry(Spend(l, BucketOf(l, slot, now), now), now))
  }

  function Swept(slot: Slot, idle: nat, now: int): Slot {
    if slot.Some? && now - slot.value.lastSeen > idle then None else slot
  }

  // ---- the handler's maps -----------------------------------------------

  /** The map after an event: one entry changes, or the idle ones go. */
  function TableThen(l: Limit, entries: map<string, Entry>, e: TableEvent): map<string, Entry> {
    match e
    case AttemptBy(ip, now) => entries[ip := Attempted(l, Get(entries, ip), now).value]
    case CleanupAt(now) => map ip | ip in entries && now - entries[ip].lastSeen <= IDLE :: entries[ip]
    case ClearOf(ip) => entries - {ip}
  }

  class Table {
    var entries: map<string, Entry>
    const limit: Limit

    constructor (limit: Limit)
      ensures this.limit == limit && entries == map[]
    {
      this.limit := limit;
      entries := map[];
    }

    /** unlockAllowed and authAllowed. */
    method Allow(ip: string, now: int) returns (allowed: bool)
      modifies this
      ensures allowed == Allows(limit, BucketOf(limit, Get(old(entries), ip), now), now)
      ensures entries == TableThen(limit, old(entries), AttemptBy(ip, now))
      ensures ip in entries && entries[ip].lastSeen == now && entries - {ip} == old(entries) - {ip}
    {
      if ip !in entries {
        entries := entries[ip := Entry(Bucket(Cap(limit), now), now)];
      }
      var bucket := entries[ip].bucket;
      allowed := Allows(limit, bucket, now);
      entries := entries[ip := Entry(Spend(limit, bucket, now), now)];
    }

    /** One round of cleanupLimiters. */
    method Cleanup(now: int)
      modifies this
      ensures entries == TableThen(limit, old(entries), CleanupAt(now))
      ensures forall ip :: ip in entries <==>
        ip in old(entries) && now - old(entries)[ip].lastSeen <= 600_000_000_000
      ensures forall ip :: Get(entries, ip) == Swept(Get(old(entries), ip), IDLE, now)
    {
      var todo := entries.Keys;
      while todo != {}
        invariant todo <= old(entries).Keys && entries.Keys <= old(entries).Keys
        invariant forall ip ::
          Get(entries, ip) == if ip in todo then Get(old(entries), ip) else Swept(Get(old(entries), ip), IDLE, now)
        decreases |todo|
      {
        var ip :| ip in todo;
        assert Get(entries, ip) == Get(old(entries), ip);
        todo := todo - {ip};
        if now - entries[ip].lastSeen > IDLE {
          entries := entries - {ip};
        }
      }
      SameEntries(entries, TableThen(limit, old(entries), CleanupAt(now)));
    }

    /** clearAuthFailures. */
    method ClearFailures(ip: string)
      modifies this
      ensures entries == TableThen(limit, old(entries), ClearOf(ip)) && entries == old(entries) - {ip}
    {
      entries := entries - {ip};
    }
  }

  lemma SameEntries(a: map<string, Entry>, b: map<string, Entry>)
    requires forall ip :: Get(a, ip) == Get(b, ip)
    ensures a == b
  {
    forall ip ensures ip in a <==> ip in b {
      assert Get(a, ip) == Get(b, ip);
    }
    forall ip | ip in a ensures a[ip] == b[ip] {
      assert Get(a, ip) == Get(b, ip);
    }
  }

  // ---- runs -------------------------------------------------------------

  /** What happens to one IP's entry; attempts of other IPs leave it alone. */
  datatype Event = Attempt(now: int) | Cleanup(now: int) | Clear

  /** `sweeping` is the program; without it, cleanups are left out. */
  function Then(l: Limit, idle: nat, sweeping: bool, slot: Slot, e: Event): Slot {
    match e
    case Attempt(now) => Attempted(l, slot, now)
    case Cleanup(now) => if sweeping then Swept(slot, idle, now) else slot
    case Clear => None
  }

  function After(l: Limit, idle: nat, sweeping: bool, slot: Slot, events: seq<Event>): Slot
    decreases |events|
  {
    if events == [] then slot else After(l, idle, sweeping, Then(l, idle, sweeping, slot, events[0]), events[1..])
  }

  /** The answers to the attempts of a run, in order. */
  function Decisions(l: Limit, idle: nat, sweeping: bool, slot: Slot, events: seq<Event>): seq<bool>
    decreases |events|
  {
    if events == [] then []
    else
      var first := if events[0].Attempt? then [Allows(l, BucketOf(l, slot, events[0].now), events[0].now)] else [];
      first + Decisions(l, idle, sweeping, Then(l, idle, sweeping, slot, events[0]), events[1..])
  }

  /** The clock does not run backwards. */
  predicate Ordered(events: seq<Event>, now: int)
    decreases |events|
  {
    if events == [] then true
    else if events[0].Clear? then Ordered(events[1..], now)
    else now <= events[0].now && Ordered(events[1..], events[0].now)
  }

  /** An entry is never older than its last use. */
  predicate Valid(l: Limit, slot: Slot, now: int) {
    slot.Some? ==> slot.value.bucket.level <= Cap(l) && slot.value.bucket.last <= slot.value.lastSeen <= now
  }

  /** The same entry, or one that was evicted and whose bucket is full again. */
  predicate Alike(l: Limit, swept: Slot, kept: Slot, now: int) {
    swept == kept || (swept.None? && kept.Some? && LevelAt(l, kept.value.bucket, now) == Cap(l))
  }

  lemma StaysAlike(l: Limit, idle: nat, swept: Slot, kept: Slot, now: int, e: Event)
    requires Cap(l) <= idle + 1 && Valid(l, swept, now) && Valid(l, kept, now) && Alike(l, swept, kept, now)
    requires e.Clear? || now <= e.now
    ensures
      var now' := if e.Clear? then now else e.now;
      var swept', kept' := Then(l, idle, true, swept, e), Then(l, idle, false, kept, e);
      Valid(l, swept', now') && Valid(l, kept', now') && Alike(l, swept', kept', now')
    ensures e.Attempt? ==> Allows(l, BucketOf(l, swept, e.now), e.now) == Allows(l, BucketOf(l, kept, e.now), e.now)
  {
    if kept.Some? && !e.Clear? {
      assert LevelAt(l, kept.value.bucket, now) <= LevelAt(l, kept.value.bucket, e.now);
    }
  }

  lemma {:induction false} SweepsUnobservable(
    l: Limit, idle: nat, swept: Slot, kept: Slot, now: int, events: seq<Event>)
    requires Cap(l) <= idle + 1 && Ordered(events, now)
    requires Valid(l, swept, now) && Valid(l, kept, now) && Alike(l, swept, kept, now)
    ensures Decisions(l, idle, true, swept, events) == Decisions(l, idle, false, kept, events)
    decreases |events|
  {
    if events != [] {
      var e := events[0];
      StaysAlike(l, idle, swept, kept, now, e);
      SweepsUnobservable(l, idle, Then(l, idle, true, swept, e), Then(l, idle, false, kept, e),
        if e.Clear? then now else e.now, events[1..]);
    }
  }

  /** Eviction after `idle` can never be observed, whatever the entry, the attempts and the sweeps. */
  ghost predicate EvictionUnobservable(l: Limit, idle: nat) {
    forall slot, now, events :: Valid(l, slot, now) && Ordered(events, now)
      ==> Decisions(l, idle, true, slot, events) == Decisions(l, idle, false, slot, events)
  }

  // ---- exactly when eviction is unobservable ----------------------------

  function Attempts(n: nat, now: int): seq<Event> {
    seq(n, _ => Attempt(now))
  }

  lemma {:induction false} PriceIsProduct(period: nat, n: nat)
    ensures Price(period, n) == n * period
  {
    if n > 0 {
      PriceIsProduct(period, n - 1);
      assert n * period == (n - 1) * period + period;
    }
  }

  lemma {:induction false} PriceOfSome(period: nat, n: nat)
    requires n >= 1
    ensures period <= Price(period, n)
  {
  }

  /** A level pays for one more attempt now and i later exactly if it pays for i + 1. */
  lemma SpendsOnePeriod(l: Limit, b: Bucket, now: int, i: nat)
    requires b.level <= Cap(l) && b.last <= now && i >= 1
    ensures Price(l.period, i) <= LevelAt(l, Spend(l, b, now), now) <==> Price(l.period, i + 1) <= LevelAt(l, b, now)
    ensures Allows(l, b, now) ==> LevelAt(l, Spend(l, b, now), now) == LevelAt(l, b, now) - l.period
  {
    PriceOfSome(l.period, i);
    SpentLevel(l, b, now);
  }

  lemma SpentLevel(l: Limit, b: Bucket, now: int)
    requires b.level <= Cap(l) && b.last <= now
    ensures
      LevelAt(l, Spend(l, b, now), now) == LevelAt(l, b, now) - (if Allows(l, b, now) then l.period else 0)
  {
  }

  /** n attempts at once are allowed as long as the level lasts. */
  lemma {:induction false} BurstIsSpent(l: Limit, idle: nat, sweeping: bool, slot: Slot, n: nat, now: int)
    requires Valid(l, slot, now)
    ensures
      var d := Decisions(l, idle, sweeping, slot, Attempts(n, now));
      var level := LevelAt(l, BucketOf(l, slot, now), now);
      |d| == n && forall i :: 0 <= i < n ==> (d[i] <==> Price(l.period, i + 1) <= level)
    decreases n
  {
    if n > 0 {
      var bucket, next := BucketOf(l, slot, now), Attempted(l, slot, now);
      var rest := Decisions(l, idle, sweeping, next, Attempts(n - 1, now));
      var d := Decisions(l, idle, sweeping, slot, Attempts(n, now));
      assert Attempts(n, now)[0] == Attempt(now) && Attempts(n, now)[1..] == Attempts(n - 1, now);
      BurstIsSpent(l, idle, sweeping, next, n - 1, now);
      assert d == [Allows(l, bucket, now)] + rest;
      forall i | 0 <= i < n
        ensures d[i] <==> Price(l.period, i + 1) <= LevelAt(l, bucket, now)
      {
        if i > 0 {
          SpendsOnePeriod(l, bucket, now, i);
          assert d[i] == rest[i - 1];
        }
      }
    }
  }

  /** A burst that is allowed to the last attempt leaves what it has not spent. */
  lemma {:induction false} BurstLeaves(l: Limit, idle: nat, sweeping: bool, slot: Slot, n: nat, now: int)
    requires Valid(l, slot, now) && n >= 1
    requires Price(l.period, n) <= LevelAt(l, BucketOf(l, slot, now), now)
    ensures
      var left := LevelAt(l, BucketOf(l, slot, now), now) - Price(l.period, n);
      After(l, idle, sweeping, slot, Attempts(n, now)) == Some(Entry(Bucket(left, now), now))
    decreases n
  {
    var bucket, next := BucketOf(l, slot, now), Attempted(l, slot, now);
    assert Attempts(n, now)[0] == Attempt(now) && Attempts(n, now)[1..] == Attempts(n - 1, now);
    PriceOfSome(l.period, n);
    SpentLevel(l, bucket, now);
    if n > 1 {
      BurstLeaves(l, idle, sweeping, next, n - 1, now);
    }
  }

  lemma {:induction false} RunInTwo(
    l: Limit, idle: nat, sweeping: bool, slot: Slot, first: seq<Event>, second: seq<Event>)
    ensures After(l, idle, sweeping, slot, first + second)
      == After(l, idle, sweeping, After(l, idle, sweeping, slot, first), second)
    ensures Decisions(l, idle, sweeping, slot, first + second)
      == Decisions(l, idle, sweeping, slot, first)
        + Decisions(l, idle, sweeping, After(l, idle, sweeping, slot, first), second)
    decreases |first|
  {
    if first == [] {
      assert first + second == second;
    } else {
      assert (first + second)[0] == first[0] && (first + second)[1..] == first[1..] + second;
      RunInTwo(l, idle, sweeping, Then(l, idle, sweeping, slot, first[0]), first[1..], second);
    }
  }

  /** A full burst, an idle time just long enough to be evicted, and another burst. */
  function BurstTwice(l: Limit, idle: nat): seq<Event> {
    Attempts(l.burst, 0) + ([Cleanup(idle + 1)] + Attempts(l.burst, idle + 1))
  }

  lemma {:induction false} OrderedAttempts(n: nat, now: int, tail: seq<Event>)
    requires Ordered(tail, now)
    ensures Ordered(Attempts(n, now) + tail, now)
    decreases n
  {
    var events := Attempts(n, now) + tail;
    if n == 0 {
      assert events == tail;
    } else {
      assert events[0] == Attempt(now) && events[1..] == Attempts(n - 1, now) + tail;
      OrderedAttempts(n - 1, now, tail);
    }
  }

  /** The last attempt of a burst on a bucket that was emptied, and is swept if sweeps run. */
  lemma SecondBurst(l: Limit, idle: nat, sweeping: bool)
    requires idle + 1 < Cap(l)
    ensures
      var second := [Cleanup(idle + 1)] + Attempts(l.burst, idle + 1);
      var d := Decisions(l, idle, sweeping, Some(Entry(Bucket(0, 0), 0)), second);
      |d| == l.burst && (d[l.burst - 1] <==> sweeping)
  {
    var spent: Slot := Some(Entry(Bucket(0, 0), 0));
    var slot: Slot := if sweeping then None else spent;
    var second := Attempts(l.burst, idle + 1);
    BurstIsSpent(l, idle, sweeping, slot, l.burst, idle + 1);
    assert Then(l, idle, sweeping, spent, Cleanup(idle + 1)) == slot;
    assert ([Cleanup(idle + 1)] + second)[1..] == second;
    assert Decisions(l, idle, sweeping, spent, [Cleanup(idle + 1)] + second)
      == Decisions(l, idle, sweeping, slot, second);
  }

  /** The last attempt of the second burst is allowed if the entry was evicted, and refused if it was kept too empty. */
  lemma BurstTwiceDecides(l: Limit, idle: nat, sweeping: bool)
    requires idle + 1 < Cap(l)
    ensures
      var d := Decisions(l, idle, sweeping, None, BurstTwice(l, idle));
      |d| == 2 * l.burst && (d[2 * l.burst - 1] <==> sweeping)
  {
    var first := Attempts(l.burst, 0);
    BurstIsSpent(l, idle, sweeping, None, l.burst, 0);
    BurstLeaves(l, idle, sweeping, None, l.burst, 0);
    RunInTwo(l, idle, sweeping, None, first, [Cleanup(idle + 1)] + Attempts(l.burst, idle + 1));
    SecondBurst(l, idle, sweeping);
  }

  /**
    Dropping idle entries can never be observed exactly if the idle time
    covers a full refill; otherwise a client gains attempts by waiting for it.
   */
  lemma EvictionUnobservableIff(l: Limit, idle: nat)
    ensures EvictionUnobservable(l, idle) <==> Cap(l) <= idle + 1
  {
    if Cap(l) <= idle + 1 {
      forall slot, now, events | Valid(l, slot, now) && Ordered(events, now)
        ensures Decisions(l, idle, true, slot, events) == Decisions(l, idle, false, slot, events)
      {
        SweepsUnobservable(l, idle, slot, slot, now, events);
      }
    } else {
      var events := BurstTwice(l, idle);
      var second := Attempts(l.burst, idle + 1);
      BurstTwiceDecides(l, idle, true);
      BurstTwiceDecides(l, idle, false);
      assert second + [] == second;
      OrderedAttempts(l.burst, idle + 1, []);
      assert ([Cleanup(idle + 1)] + second)[1..] == second;
      OrderedAttempts(l.burst, 0, [Cleanup(idle + 1)] + second);
      assert Valid(l, None, 0) && Ordered(events, 0);
      assert Decisions(l, idle, true, None, events)[2 * l.burst - 1]
        != Decisions(l, idle, false, None, events)[2 * l.burst - 1];
    }
  }

  lemma CapsOfBoth()
    ensures Cap(UNLOCK_LIMIT) == 150 * SECOND && Cap(AUTH_LIMIT) == 300 * SECOND
  {
    PriceIsProduct(30 * SECOND, 5);
    PriceIsProduct(60 * SECOND, 5);
  }

  /** Ten idle minutes exceed the refill time of both limiters. */
  lemma BothLimitersForget()
    ensures EvictionUnobservable(UNLOCK_LIMIT, IDLE) && EvictionUnobservable(AUTH_LIMIT, IDLE)
  {
    CapsOfBoth();
    EvictionUnobservableIff(UNLOCK_LIMIT, IDLE);
    EvictionUnobservableIff(AUTH_LIMIT, IDLE);
  }

  // ---- how many attempts get through ------------------------------------

  function Allowed(decisions: seq<bool>): nat {
    if decisions == [] then 0 else (if decisions[0] then 1 else 0) + Allowed(decisions[1..])
  }

  /** What the allowed attempts cost. */
  function Cost(decisions: seq<bool>, period: nat): nat {
    if decisions == [] then 0 else (if decisions[0] then period else 0) + Cost(decisions[1..], period)
  }

  lemma {:induction false} CostPerAttempt(decisions: seq<bool>, period: nat)
    ensures Cost(decisions, period) == Allowed(decisions) * period
  {
    if decisions != [] {
      CostPerAttempt(decisions[1..], period);
      assert (Allowed(decisions[1..]) + 1) * period == Allowed(decisions[1..]) * period + period;
    }
  }

  /** No Clear, and no event past the end of the window. */
  predicate Within(events: seq<Event>, end: int) {
    forall i :: 0 <= i < |events| ==> !events[i].Clear? && events[i].now <= end
  }

  /** What an event leaves in the bucket, and what it took out. */
  lemma PaysForOne(l: Limit, idle: nat, slot: Slot, e: Event, start: int)
    requires Valid(l, slot, start) && !e.Clear? && start <= e.now
    ensures
      var next := Then(l, idle, false, slot, e);
      var allowed := e.Attempt? && Allows(l, BucketOf(l, slot, e.now), e.now);
      && Valid(l, next, e.now)
      && LevelAt(l, BucketOf(l, next, e.now), e.now) + (if allowed then l.period else 0)
           <= LevelAt(l, BucketOf(l, slot, start), start) + (e.now - start)
  {
  }

  /** Every allowed attempt is paid for out of the level at the start or the time since. */
  lemma {:induction false} AttemptsArePaid(l: Limit, idle: nat, slot: Slot, events: seq<Event>, start: int, end: int)
    requires Valid(l, slot, start) && Ordered(events, start) && start <= end && Within(events, end)
    ensures Cost(Decisions(l, idle, false, slot, events), l.period)
      <= LevelAt(l, BucketOf(l, slot, start), start) + (end - start)
    decreases |events|
  {
    if events != [] {
      var e := events[0];
      var next := Then(l, idle, false, slot, e);
      PaysForOne(l, idle, slot, e, start);
      AttemptsArePaid(l, idle, next, events[1..], e.now, end);
      var d, rest := Decisions(l, idle, false, slot, events), Decisions(l, idle, false, next, events[1..]);
      if e.Attempt? {
        assert d == [Allows(l, BucketOf(l, slot, e.now), e.now)] + rest && d[1..] == rest;
      } else {
        assert d == rest;
      }
    }
  }

  predicate Until(events: seq<Event>, end: int) {
    forall i :: 0 <= i < |events| ==> events[i].Clear? || events[i].now <= end
  }

  lemma {:induction false} RunStaysValid(l: Limit, idle: nat, slot: Slot, events: seq<Event>, now: int, end: int)
    requires Valid(l, slot, now) && Ordered(events, now) && Until(events, end) && now <= end
    ensures Valid(l, After(l, idle, true, slot, events), end)
    decreases |events|
  {
    if events != [] {
      RunStaysValid(l, idle, Then(l, idle, true, slot, events[0]), events[1..],
        if events[0].Clear? then now else events[0].now, end);
    }
  }

  /**
    In any window of any run, at most burst + (length of the window) / period
    attempts of one IP are allowed, across any evictions. For the auth limiter
    the window must lie between two clears.
   */
  lemma RateBound(
    l: Limit, idle: nat, slot: Slot, now: int, before: seq<Event>, events: seq<Event>, start: int, end: int)
    requires Cap(l) <= idle + 1 && Valid(l, slot, now) && Ordered(before, now) && now <= start && Until(before, start)
    requires Ordered(events, start) && start <= end && Within(events, end)
    ensures
      Allowed(Decisions(l, idle, true, After(l, idle, true, slot, before), events))
        <= l.burst + (end - start) / l.period
  {
    var reached := After(l, idle, true, slot, before);
    RunStaysValid(l, idle, slot, before, now, start);
    SweepsUnobservable(l, idle, reached, reached, start, events);
    AttemptsArePaid(l, idle, reached, events, start, end);
    var d := Decisions(l, idle, true, reached, events);
    CostPerAttempt(d, l.period);
    PriceIsProduct(l.period, l.burst);
    WholePeriods(Allowed(d), l.burst, l.period, end - start);
  }

  lemma WholePeriods(n: nat, burst: nat, period: nat, length: nat)
    requires period >= 1 && n * period <= burst * period + length
    ensures n <= burst + length / period
  {
    var whole := length / period;
    assert (whole + 1) * period > length;
    assert n * period < (burst + whole + 1) * period by {
      assert (burst + whole + 1) * period == burst * period + (whole + 1) * period;
    }
    Cancel(n, burst + whole + 1, period);
  }

  lemma Cancel(a: nat, b: nat, factor: nat)
    requires a * factor < b * factor
    ensures a < b
  {
  }

  // ---- the whole table --------------------------------------------------

  datatype TableEvent = AttemptBy(ip: string, now: int) | CleanupAt(now: int) | ClearOf(ip: string)

  /** What a table event means to one IP. */
  function Share(e: TableEvent, ip: string): seq<Event> {
    match e
    case AttemptBy(who, now) => if who == ip then [Attempt(now)] else []
    case CleanupAt(now) => [Cleanup(now)]
    case ClearOf(who) => if who == ip then [Clear] else []
  }

  function Shares(events: seq<TableEvent>, ip: string): seq<Event> {
    if events == [] then [] else Share(events[0], ip) + Shares(events[1..], ip)
  }

  /** The answers one IP gets in a run of the whole table. */
  function Answers(l: Limit, entries: map<string, Entry>, events: seq<TableEvent>, ip: string): seq<bool>
    decreases |events|
  {
    if events == [] then []
    else
      var e := events[0];
      var first := if e.AttemptBy? && e.ip == ip then [Allows(l, BucketOf(l, Get(entries, ip), e.now), e.now)] else [];
      first + Answers(l, TableThen(l, entries, e), events[1..], ip)
  }

  lemma {:induction false} IpsAreIndependent(l: Limit, entries: map<string, Entry>, events: seq<TableEvent>, ip: string)
    ensures Answers(l, entries, events, ip) == Decisions(l, IDLE, true, Get(entries, ip), Shares(events, ip))
    decreases |events|
  {
    if events != [] {
      var e, rest := events[0], Shares(events[1..], ip);
      var next := TableThen(l, entries, e);
      IpsAreIndependent(l, next, events[1..], ip);
      RunInTwo(l, IDLE, true, Get(entries, ip), Share(e, ip), rest);
      if Share(e, ip) != [] {
        assert Share(e, ip) == [Share(e, ip)[0]] && Share(e, ip)[1..] == [];
        assert Get(next, ip) == Then(l, IDLE, true, Get(entries, ip), Share(e, ip)[0]);
      } else {
        assert Get(next, ip) == Get(entries, ip);
      }
    }
  }

  /** No client of the running program can tell whether cleanupLimiters ever runs. */
  lemma CleanupsUnobservable(l: Limit, events: seq<TableEvent>, ip: string, start: int)
    requires Cap(l) <= IDLE + 1 && Ordered(Shares(events, ip), start)
    ensures Answers(l, map[], events, ip) == Decisions(l, IDLE, false, None, Shares(events, ip))
  {
    IpsAreIndependent(l, map[], events, ip);
    SweepsUnobservable(l, IDLE, None, None, start, Shares(events, ip));
  }

  function TableAfter(l: Limit, entries: map<string, Entry>, events: seq<TableEvent>): map<string, Entry>
    decreases |events|
  {
    if events == [] then entries else TableAfter(l, TableThen(l, entries, events[0]), events[1..])
  }

  lemma {:induction false} EntryAfter(l: Limit, entries: map<string, Entry>, events: seq<TableEvent>, ip: string)
    ensures Get(TableAfter(l, entries, events), ip) == After(l, IDLE, true, Get(entries, ip), Shares(events, ip))
    decreases |events|
  {
    if events != [] {
      var e := events[0];
      EntryAfter(l, TableThen(l, entries, e), events[1..], ip);
      RunInTwo(l, IDLE, true, Get(entries, ip), Share(e, ip), Shares(events[1..], ip));
      assert Share(e, ip) != [] ==> Share(e, ip)[1..] == [];
    }
  }

  /**
    For the whole table, from its start: in any window of any run, no IP gets
    more than burst + (length of the window) / period attempts through.
   */
  lemma EveryIpIsBounded(
    l: Limit, before: seq<TableEvent>, events: seq<TableEvent>, ip: string, now: int, start: int, end: int)
    requires Cap(l) <= IDLE + 1 && now <= start <= end
    requires Ordered(Shares(before, ip), now) && Until(Shares(before, ip), start)
    requires Ordered(Shares(events, ip), start) && Within(Shares(events, ip), end)
    ensures Allowed(Answers(l, TableAfter(l, map[], before), events, ip)) <= l.burst + (end - start) / l.period
  {
    IpsAreIndependent(l, TableAfter(l, map[], before), events, ip);
    EntryAfter(l, map[], before, ip);
    RateBound(l, IDLE, None, now, Shares(before, ip), Shares(events, ip), start, end);
  }
}
