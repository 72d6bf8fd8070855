/**
  Exactly which attempts the rate limiters let through: the answer to every
  attempt of a run, in terms of the times and the answers before it.
 */
module LimiterHistory {
  import opened Wrappers
  import opened Limiters

  /** The clock does not run backwards. */
  predicate InOrder(events: seq<TableEvent>) {
    forall i, j :: 0 <= i < j < |events| && !events[i].ClearOf? && !events[j].ClearOf?
      ==> events[i].now <= events[j].now
  }

  predicate NotBefore(events: seq<TableEvent>, n: nat, now: int)
    requires n <= |events|
  {
    forall i :: 0 <= i < n && !events[i].ClearOf? ==> events[i].now <= now
  }

  predicate IsAttempt(e: TableEvent, ip: string) {
    e.AttemptBy? && e.ip == ip
  }

  /** An attempt of this IP before event n that no clear separates from it. */
  predicate Starts(events: seq<TableEvent>, ip: string, i: nat, n: nat)
    requires n <= |events|
  {
    i < n && IsAttempt(events[i], ip) && forall k :: i <= k < n ==> events[k] != ClearOf(ip)
  }

  /** The IP's entry before event n of a run from the start of the program. */
  function SlotAt(l: Limit, events: seq<TableEvent>, ip: string, n: nat): Slot
    requires n <= |events|
  {
    Get(TableAfter(l, map[], events[..n]), ip)
  }

  /** The answer to event n, an attempt. */
  predicate AllowedAt(l: Limit, events: seq<TableEvent>, n: nat)
    requires n < |events| && events[n].AttemptBy?
  {
    Allows(l, BucketOf(l, SlotAt(l, events, events[n].ip, n), events[n].now), events[n].now)
  }

  /** How many attempts of one IP were allowed from event i up to event n. */
  function AllowedIn(l: Limit, events: seq<TableEvent>, ip: string, i: nat, n: nat): (count: nat)
    requires n <= |events|
    ensures i <= n ==> count <= n - i
    decreases n
  {
    if n <= i then 0
    else
      var last := if IsAttempt(events[n - 1], ip) && AllowedAt(l, events, n - 1) then 1 else 0;
      AllowedIn(l, events, ip, i, n - 1) + last
  }

  /** The level the IP's bucket has at `now`, before event n. */
  function LevelBefore(l: Limit, events: seq<TableEvent>, ip: string, n: nat, now: int): nat
    requires n <= |events|
  {
    LevelAt(l, BucketOf(l, SlotAt(l, events, ip, n), now), now)
  }

  /** What a full bucket at event i would have left at `now`. */
  function LeftSince(l: Limit, events: seq<TableEvent>, ip: string, i: nat, n: nat, now: int): int
    requires n <= |events| && Starts(events, ip, i, n)
  {
    Cap(l) + (now - events[i].now) - Price(l.period, AllowedIn(l, events, ip, i, n))
  }

  /** The bucket holds the least of what it would hold had it been full at any of the attempts. */
  ghost predicate LevelIsLeast(l: Limit, events: seq<TableEvent>, ip: string, n: nat, now: int)
    requires n <= |events|
  {
    var level := LevelBefore(l, events, ip, n, now);
    && (forall i: nat :: Starts(events, ip, i, n) ==> level <= LeftSince(l, events, ip, i, n, now))
    && (level == Cap(l) || exists i: nat :: Starts(events, ip, i, n) && level == LeftSince(l, events, ip, i, n, now))
  }

  lemma {:induction false} TableInTwo(
    l: Limit, entries: map<string, Entry>, first: seq<TableEvent>, second: seq<TableEvent>)
    ensures TableAfter(l, entries, first + second) == TableAfter(l, TableAfter(l, entries, first), second)
    decreases |first|
  {
    if first == [] {
      assert first + second == second;
    } else {
      assert (first + second)[0] == first[0] && (first + second)[1..] == first[1..] + second;
      TableInTwo(l, TableThen(l, entries, first[0]), first[1..], second);
    }
  }

  lemma SlotThen(l: Limit, events: seq<TableEvent>, ip: string, n: nat)
    requires n < |events|
    ensures SlotAt(l, events, ip, n + 1) == Get(TableThen(l, TableAfter(l, map[], events[..n]), events[n]), ip)
  {
    assert events[..n + 1] == events[..n] + [events[n]];
    TableInTwo(l, map[], events[..n], [events[n]]);
  }

  lemma CleanupKeepsLevel(l: Limit, slot: Slot, idle: nat, swept: int, now: int)
    requires Valid(l, slot, swept) && swept <= now && Cap(l) <= idle + 1
    ensures LevelAt(l, BucketOf(l, Swept(slot, idle, swept), now), now) == LevelAt(l, BucketOf(l, slot, now), now)
  {
  }

  lemma AttemptSpendsLevel(l: Limit, slot: Slot, at: int, now: int)
    requires Valid(l, slot, at) && at <= now
    ensures
      var left := LevelAt(l, BucketOf(l, slot, at), at);
      LevelAt(l, BucketOf(l, Attempted(l, slot, at), now), now) ==
        if left < l.period then LevelAt(l, BucketOf(l, slot, now), now)
        else if left - l.period + (now - at) < Cap(l) then left - l.period + (now - at) else Cap(l)
  {
  }

  /** An event of this IP's own, if allowed, costs every window that goes on one period. */
  lemma LeftAfter(l: Limit, events: seq<TableEvent>, ip: string, i: nat, n: nat, now: int)
    requires n < |events| && events[n] != ClearOf(ip)
    ensures Starts(events, ip, i, n + 1) <==> (i == n && IsAttempt(events[n], ip)) || Starts(events, ip, i, n)
    ensures
      Starts(events, ip, i, n + 1) ==>
        var spent := if IsAttempt(events[n], ip) && AllowedAt(l, events, n) then l.period else 0;
        LeftSince(l, events, ip, i, n + 1, now) ==
          if i == n then Cap(l) + (now - events[n].now) - spent
          else LeftSince(l, events, ip, i, n, now) - spent
  {
  }

  lemma LevelAfterOther(l: Limit, events: seq<TableEvent>, ip: string, n: nat, now: int)
    requires n < |events| && NotBefore(events, n + 1, now) && Cap(l) <= IDLE + 1
    requires !IsAttempt(events[n], ip) && events[n] != ClearOf(ip)
    requires events[n].CleanupAt? ==> Valid(l, SlotAt(l, events, ip, n), events[n].now)
    requires Valid(l, SlotAt(l, events, ip, n), now) && LevelIsLeast(l, events, ip, n, now)
    ensures Valid(l, SlotAt(l, events, ip, n + 1), now) && LevelIsLeast(l, events, ip, n + 1, now)
  {
    SlotThen(l, events, ip, n);
    if events[n].CleanupAt? {
      CleanupKeepsLevel(l, SlotAt(l, events, ip, n), IDLE, events[n].now, now);
    }
    var level := LevelBefore(l, events, ip, n, now);
    assert LevelBefore(l, events, ip, n + 1, now) == level;
    var next := n + 1;
    forall i: nat | Starts(events, ip, i, next) ensures level <= LeftSince(l, events, ip, i, next, now) {
      LeftAfter(l, events, ip, i, n, now);
    }
    if level != Cap(l) {
      var i: nat :| Starts(events, ip, i, n) && level == LeftSince(l, events, ip, i, n, now);
      LeftAfter(l, events, ip, i, n, now);
    }
  }

  lemma LevelAfterAttempt(l: Limit, events: seq<TableEvent>, ip: string, n: nat, now: int)
    requires n < |events| && NotBefore(events, n + 1, now) && IsAttempt(events[n], ip)
    requires Valid(l, SlotAt(l, events, ip, n), events[n].now)
    requires LevelIsLeast(l, events, ip, n, events[n].now) && LevelIsLeast(l, events, ip, n, now)
    ensures Valid(l, SlotAt(l, events, ip, n + 1), now) && LevelIsLeast(l, events, ip, n + 1, now)
  {
    var at := events[n].now;
    SlotThen(l, events, ip, n);
    AttemptSpendsLevel(l, SlotAt(l, events, ip, n), at, now);
    var level, after := LevelBefore(l, events, ip, n, at), LevelBefore(l, events, ip, n + 1, now);
    LeftAfter(l, events, ip, n, n, now);
    var next := n + 1;
    forall i: nat | Starts(events, ip, i, next) ensures after <= LeftSince(l, events, ip, i, next, now) {
      LeftAfter(l, events, ip, i, n, now);
      assert i < n ==> LeftSince(l, events, ip, i, n, now) == LeftSince(l, events, ip, i, n, at) + (now - at);
    }
    if after != Cap(l) && (level < Cap(l) || !AllowedAt(l, events, n)) {
      var since := if AllowedAt(l, events, n) then at else now;
      var i: nat :| Starts(events, ip, i, n)
        && LevelBefore(l, events, ip, n, since) == LeftSince(l, events, ip, i, n, since);
      LeftAfter(l, events, ip, i, n, now);
    }
  }

  lemma {:induction false} LevelIsHistory(l: Limit, events: seq<TableEvent>, ip: string, n: nat, now: int)
    requires InOrder(events) && n <= |events| && NotBefore(events, n, now) && Cap(l) <= IDLE + 1
    ensures Valid(l, SlotAt(l, events, ip, n), now) && LevelIsLeast(l, events, ip, n, now)
    decreases n
  {
    if n > 0 {
      var e := events[n - 1];
      LevelIsHistory(l, events, ip, n - 1, now);
      if e == ClearOf(ip) {
        SlotThen(l, events, ip, n - 1);
      } else if e.ClearOf? {
        LevelAfterOther(l, events, ip, n - 1, now);
      } else {
        LevelIsHistory(l, events, ip, n - 1, e.now);
        if IsAttempt(e, ip) {
          LevelAfterAttempt(l, events, ip, n - 1, now);
        } else {
          LevelAfterOther(l, events, ip, n - 1, now);
        }
      }
    }
  }

  lemma Scales(a: nat, b: nat, factor: nat)
    requires a <= b
    ensures a * factor <= b * factor
  {
  }

  lemma PaysIff(l: Limit, n: nat, length: nat)
    ensures Price(l.period, n) <= Cap(l) + length <==> n <= l.burst + length / l.period
  {
    PriceIsProduct(l.period, n);
    PriceIsProduct(l.period, l.burst);
    var whole := length / l.period;
    if n <= l.burst + whole {
      Scales(n, l.burst + whole, l.period);
      assert (l.burst + whole) * l.period == l.burst * l.period + whole * l.period;
    } else if n * l.period <= Cap(l) + length {
      WholePeriods(n, l.burst, l.period, length);
    }
  }

  /** The window that starts at event i pays for one more attempt at `now`. */
  predicate Pays(l: Limit, events: seq<TableEvent>, ip: string, i: nat, n: nat, now: int)
    requires n <= |events| && Starts(events, ip, i, n)
  {
    l.period <= LeftSince(l, events, ip, i, n, now)
  }

  lemma PaysForOneMore(l: Limit, events: seq<TableEvent>, ip: string, i: nat, n: nat, now: int)
    requires n <= |events| && Starts(events, ip, i, n) && NotBefore(events, n, now)
    ensures
      var most := l.burst + (now - events[i].now) / l.period;
      Pays(l, events, ip, i, n, now) <==> AllowedIn(l, events, ip, i, n) + 1 <= most
  {
    PaysIff(l, AllowedIn(l, events, ip, i, n) + 1, now - events[i].now);
  }

  lemma LeastLevelPays(l: Limit, events: seq<TableEvent>, ip: string, n: nat, now: int)
    requires n <= |events| && LevelIsLeast(l, events, ip, n, now)
    ensures
      l.period <= LevelBefore(l, events, ip, n, now) <==>
        (forall i: nat :: Starts(events, ip, i, n) ==> Pays(l, events, ip, i, n, now))
  {
  }

  /**
    In any run of the whole table from its start, an attempt is allowed exactly
    if in every window that ends with it and starts at an earlier attempt of the
    same IP since its last clear, the attempts allowed so far and this one are at
    most burst + (length of the window) / period.
   */
  lemma AllowedIff(l: Limit, events: seq<TableEvent>, n: nat, ip: string, now: int)
    requires InOrder(events) && n < |events| && events[n] == AttemptBy(ip, now) && Cap(l) <= IDLE + 1
    ensures
      AllowedAt(l, events, n) <==>
        (forall i: nat :: Starts(events, ip, i, n) ==>
          AllowedIn(l, events, ip, i, n) + 1 <= l.burst + (now - events[i].now) / l.period)
  {
    LevelIsHistory(l, events, ip, n, now);
    LeastLevelPays(l, events, ip, n, now);
    forall i: nat | Starts(events, ip, i, n)
      ensures
        var most := l.burst + (now - events[i].now) / l.period;
        Pays(l, events, ip, i, n, now) <==> AllowedIn(l, events, ip, i, n) + 1 <= most
    {
      PaysForOneMore(l, events, ip, i, n, now);
    }
  }

  /** Unlock attempts: five at once, and one more every 30 seconds. */
  lemma UnlockAllowedIff(events: seq<TableEvent>, n: nat, ip: string, now: int)
    requires InOrder(events) && n < |events| && events[n] == AttemptBy(ip, now)
    ensures
      AllowedAt(UNLOCK_LIMIT, events, n) <==>
        (forall i: nat :: Starts(events, ip, i, n) ==>
          AllowedIn(UNLOCK_LIMIT, events, ip, i, n) < 5 + (now - events[i].now) / 30_000_000_000)
  {
    CapsOfBoth();
    AllowedIff(UNLOCK_LIMIT, events, n, ip, now);
  }

  /** Credential checks: five at once, and one more every minute. */
  lemma AuthAllowedIff(events: seq<TableEvent>, n: nat, ip: string, now: int)
    requires InOrder(events) && n < |events| && events[n] == AttemptBy(ip, now)
    ensures
      AllowedAt(AUTH_LIMIT, events, n) <==>
        (forall i: nat :: Starts(events, ip, i, n) ==>
          AllowedIn(AUTH_LIMIT, events, ip, i, n) < 5 + (now - events[i].now) / 60_000_000_000)
  {
    CapsOfBoth();
    AllowedIff(AUTH_LIMIT, events, n, ip, now);
  }

  lemma {:induction false} AllCount(l: Limit, events: seq<TableEvent>, ip: string, n: nat)
    requires n <= |events| && forall k :: 0 <= k < n ==> IsAttempt(events[k], ip) && AllowedAt(l, events, k)
    ensures AllowedIn(l, events, ip, 0, n) == n
    decreases n
  {
    if n > 0 {
      AllCount(l, events, ip, n - 1);
    }
  }

  function FourThenThree(ip: string): seq<TableEvent> {
    var now, later := AttemptBy(ip, 0), AttemptBy(ip, 30_000_000_000);
    [now, now, now, now, later, later, later]
  }

  /** What is left of a burst stays while the bucket refills: four at once and two after 30 seconds, but no third. */
  lemma LeftoversAreKept(ip: string, n: nat)
    requires n < 7
    ensures AllowedAt(UNLOCK_LIMIT, FourThenThree(ip), n) <==> n < 6
  {
    var events := FourThenThree(ip);
    forall k: nat | k < 6 ensures AllowedAt(UNLOCK_LIMIT, events, k) {
      UnlockAllowedIff(events, k, ip, events[k].now);
    }
    if n == 6 {
      AllCount(UNLOCK_LIMIT, events, ip, 6);
      UnlockAllowedIff(events, 6, ip, events[6].now);
      assert Starts(events, ip, 0, 6);
    }
  }
}
