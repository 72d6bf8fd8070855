/**
  Login sessions: a token is good while it is used often enough and not too
  old. Expired sessions are dropped when they are used and by a sweep.
 */
module Sessions {
  import opened Wrappers

  datatype Session = Session(createdAt: int, lastSeen: int)

  datatype Policy = Policy(idle: int, maxAge: int)

  predicate Live(p: Policy, s: Session, now: int) {
    now - s.lastSeen <= p.idle && now - s.createdAt <= p.maxAge
  }

  type Slot = Option<Session>

  /** What happens to one token. */
  datatype Event = Login(now: int) | Touch(now: int) | Cleanup(now: int) | Logout

  predicate Accepts(p: Policy, slot: Slot, now: int) {
    slot.Some? && Live(p, slot.value, now)
  }

  /** `sweeping` is the program; without it, cleanups are left out. */
  function Then(p: Policy, sweeping: bool, slot: Slot, e: Event): Slot {
    match e
    case Login(now) => Some(Session(now, now))
    case Touch(now) => if Accepts(p, slot, now) then Some(slot.value.(lastSeen := now)) else None
    case Cleanup(now) => if !sweeping || Accepts(p, slot, now) then slot else None
    case Logout => None
  }

  class Table {
    var sessions: map<string, Session>
    const policy: Policy

    constructor (policy: Policy)
      ensures this.policy == policy && sessions == map[]
    {
      this.policy := policy;
      sessions := map[];
    }

    method Login(token: string, now: int)
      modifies this
      ensures token in sessions && sessions[token].createdAt == now && sessions[token].lastSeen == now
      ensures Get(sessions, token) == Then(policy, true, Get(old(sessions), token), Event.Login(now))
      ensures forall other :: other != token ==> Get(sessions, other) == Get(old(sessions), other)
    {
      sessions := sessions[token := Session(now, now)];
    }

    /** validSession. */
    method ValidSession(token: string, now: int) returns (ok: bool)
      modifies this
      ensures ok <==>
        && token in old(sessions)
        && now - old(sessions)[token].lastSeen <= policy.idle && now - old(sessions)[token].createdAt <= policy.maxAge
      ensures ok ==> sessions == old(sessions)[token := Session(old(sessions)[token].createdAt, now)]
      ensures !ok ==> sessions == old(sessions) - {token}
      ensures ok <==> Accepts(policy, Get(old(sessions), token), now)
      ensures Get(sessions, token) == Then(policy, true, Get(old(sessions), token), Touch(now))
      ensures forall other :: other != token ==> Get(sessions, other) == Get(old(sessions), other)
    {
      if token !in sessions {
        return false;
      }
      var s := sessions[token];
      if now - s.lastSeen > policy.idle || now - s.createdAt > policy.maxAge {
        sessions := sessions - {token};
        return false;
      }
      sessions := sessions[token := s.(lastSeen := now)];
      return true;
    }

    method Logout(token: string)
      modifies this
      ensures sessions == old(sessions) - {token}
      ensures Get(sessions, token) == Then(policy, true, Get(old(sessions), token), Event.Logout)
      ensures forall other :: other != token ==> Get(sessions, other) == Get(old(sessions), other)
    {
      sessions := sessions - {token};
    }

    /** One round of cleanupSessions. */
    method Cleanup(now: int)
      modifies this
      ensures forall token :: Get(sessions, token) == Then(policy, true, Get(old(sessions), token), Event.Cleanup(now))
      ensures sessions == map token | token in old(sessions)
        && now - old(sessions)[token].lastSeen <= policy.idle && now - old(sessions)[token].createdAt <= policy.maxAge
        :: old(sessions)[token]
    {
      var todo := sessions.Keys;
      while todo != {}
        invariant todo <= old(sessions).Keys && sessions.Keys <= old(sessions).Keys
        invariant forall token ::
          Get(sessions, token) ==
            if token in todo then Get(old(sessions), token)
            else Then(policy, true, Get(old(sessions), token), Event.Cleanup(now))
        decreases |todo|
      {
        var token :| token in todo;
        assert Get(sessions, token) == Get(old(sessions), token);
        todo := todo - {token};
        var s := sessions[token];
        if now - s.lastSeen > policy.idle || now - s.createdAt > policy.maxAge {
          sessions := sessions - {token};
        }
      }
      forall token
        ensures token in sessions <==> token in old(sessions) && Live(policy, old(sessions)[token], now)
        ensures token in sessions ==> sessions[token] == old(sessions)[token]
      {
        assert Get(sessions, token) == Then(policy, true, Get(old(sessions), token), Event.Cleanup(now));
      }
    }
  }

  // ---- runs -------------------------------------------------------------

  function After(p: Policy, sweeping: bool, slot: Slot, events: seq<Event>): Slot {
    if events == [] then slot
    else Then(p, sweeping, After(p, sweeping, slot, events[..|events| - 1]), events[|events| - 1])
  }

  /** The answer to the n-th event, a request. */
  predicate AcceptedAt(p: Policy, sweeping: bool, slot: Slot, events: seq<Event>, n: nat)
    requires n < |events| && events[n].Touch?
  {
    Accepts(p, After(p, sweeping, slot, events[..n]), events[n].now)
  }

  predicate Ordered(events: seq<Event>) {
    forall i, j :: 0 <= i < j < |events| && !events[i].Logout? && !events[j].Logout? ==> events[i].now <= events[j].now
  }

  /** The same session, or one that was swept because it was dead by then. */
  predicate Alike(p: Policy, swept: Slot, kept: Slot, events: seq<Event>) {
    || swept == kept
    || (swept.None? && kept.Some?
        && exists i :: 0 <= i < |events| && events[i].Cleanup? && !Live(p, kept.value, events[i].now))
  }

  lemma {:induction false} RunsStayAlike(p: Policy, slot: Slot, events: seq<Event>)
    requires Ordered(events)
    ensures Alike(p, After(p, true, slot, events), After(p, false, slot, events), events)
  {
    if events != [] {
      var n := |events| - 1;
      var before, e := events[..n], events[n];
      RunsStayAlike(p, slot, before);
      var swept, kept := After(p, true, slot, before), After(p, false, slot, before);
      if swept != kept {
        var i :| 0 <= i < n && before[i].Cleanup? && !Live(p, kept.value, before[i].now);
        assert events[i] == before[i];
      } else if e.Cleanup? {
        assert events[n] == e;
      }
    }
  }

  /** For every run: whether sweeps ran makes no difference to any request. */
  lemma SweepsUnobservable(p: Policy, slot: Slot, events: seq<Event>, n: nat)
    requires Ordered(events) && n < |events| && events[n].Touch?
    ensures AcceptedAt(p, true, slot, events, n) <==> AcceptedAt(p, false, slot, events, n)
  {
    var before := events[..n];
    RunsStayAlike(p, slot, before);
    var swept, kept := After(p, true, slot, before), After(p, false, slot, before);
    if swept != kept {
      var i :| 0 <= i < n && before[i].Cleanup? && !Live(p, kept.value, before[i].now);
      assert events[i] == before[i];
    }
  }

  // ---- when a token is good ---------------------------------------------

  /** The last use before event n of a session created at `created`. */
  function LastUse(created: int, events: seq<Event>, n: nat): int
    requires n <= |events|
  {
    if n == 0 then created else if events[n - 1].Touch? then events[n - 1].now else LastUse(created, events, n - 1)
  }

  predicate SameSession(events: seq<Event>, n: nat)
    requires n <= |events|
  {
    forall i :: 0 <= i < n ==> !events[i].Logout? && !events[i].Login?
  }

  predicate UsedOften(p: Policy, created: int, events: seq<Event>, n: nat)
    requires n <= |events|
  {
    forall i :: 0 <= i < n && events[i].Touch? ==> events[i].now - LastUse(created, events, i) <= p.idle
  }

  predicate StillYoung(p: Policy, created: int, events: seq<Event>, n: nat)
    requires n <= |events|
  {
    forall i :: 0 <= i < n && events[i].Touch? ==> events[i].now - created <= p.maxAge
  }

  /** Without sweeps, the session is there exactly while the token has been good, with its last use. */
  lemma {:induction false} SessionIsHistory(p: Policy, created: int, events: seq<Event>, n: nat)
    requires n <= |events| && forall i :: 0 <= i < n ==> !events[i].Login?
    ensures
      var good := SameSession(events, n) && UsedOften(p, created, events, n) && StillYoung(p, created, events, n);
      After(p, false, Some(Session(created, created)), events[..n])
        == if good then Some(Session(created, LastUse(created, events, n))) else None
    decreases n
  {
    if n > 0 {
      assert events[..n][..n - 1] == events[..n - 1] && events[..n][n - 1] == events[n - 1];
      SessionIsHistory(p, created, events, n - 1);
    }
  }

  lemma LoginFirst(created: int, events: seq<Event>)
    requires Ordered([Login(created)] + events)
    ensures Ordered(events) && forall i :: 0 <= i < |events| && !events[i].Logout? ==> created <= events[i].now
  {
    var all := [Login(created)] + events;
    assert forall i :: 0 <= i < |events| ==> all[i + 1] == events[i];
    forall i, j | 0 <= i < j < |events| && !events[i].Logout? && !events[j].Logout?
      ensures events[i].now <= events[j].now
    {
      assert all[i + 1].now <= all[j + 1].now;
    }
    forall i | 0 <= i < |events| && !events[i].Logout? ensures created <= events[i].now {
      assert all[0].now <= all[i + 1].now;
    }
  }

  lemma {:induction false} RunInTwo(p: Policy, sweeping: bool, slot: Slot, first: seq<Event>, second: seq<Event>)
    ensures After(p, sweeping, slot, first + second) == After(p, sweeping, After(p, sweeping, slot, first), second)
    decreases |second|
  {
    if second == [] {
      assert first + second == first;
    } else {
      var n := |second| - 1;
      assert (first + second)[..|first| + n] == first + second[..n];
      RunInTwo(p, sweeping, slot, first, second[..n]);
    }
  }

  /** A run in which somebody logs in, whatever came before. */
  function WithLogin(before: seq<Event>, created: int, events: seq<Event>): seq<Event> {
    before + [Login(created)] + events
  }

  /** A login forgets everything before it. */
  lemma LoginStartsAnew(p: Policy, slot: Slot, before: seq<Event>, created: int, events: seq<Event>, n: nat)
    requires n < |events| && events[n].Touch?
    ensures
      var anew := AcceptedAt(p, true, Some(Session(created, created)), events, n);
      AcceptedAt(p, true, slot, WithLogin(before, created, events), |before| + 1 + n) <==> anew
  {
    var login := before + [Login(created)];
    assert login[..|before|] == before;
    assert WithLogin(before, created, events)[..|before| + 1 + n] == login + events[..n];
    RunInTwo(p, true, slot, login, events[..n]);
  }

  /**
    In the running program a request is accepted exactly if, since the last
    login, nobody logged the token out, no two uses up to this one are further
    apart than the idle limit, and the login is no longer ago than the maximum age.
   */
  lemma AcceptedIff(p: Policy, slot: Slot, before: seq<Event>, created: int, events: seq<Event>, n: nat)
    requires Ordered([Login(created)] + events) && n < |events| && events[n].Touch?
    requires forall i :: 0 <= i < n ==> !events[i].Login?
    ensures
      var good := SameSession(events, n) && UsedOften(p, created, events, n + 1) && events[n].now - created <= p.maxAge;
      AcceptedAt(p, true, slot, WithLogin(before, created, events), |before| + 1 + n) <==> good
  {
    LoginFirst(created, events);
    LoginStartsAnew(p, slot, before, created, events, n);
    SweepsUnobservable(p, Some(Session(created, created)), events, n);
    SessionIsHistory(p, created, events, n);
    assert events[n].now - created <= p.maxAge ==> StillYoung(p, created, events, n);
  }

  /** A token that was refused once is refused until somebody logs in again. */
  lemma RefusedForever(p: Policy, slot: Slot, before: seq<Event>, created: int, events: seq<Event>, n: nat, m: nat)
    requires Ordered([Login(created)] + events) && n <= m < |events| && events[n].Touch? && events[m].Touch?
    requires forall i :: 0 <= i < m ==> !events[i].Login?
    requires !AcceptedAt(p, true, slot, WithLogin(before, created, events), |before| + 1 + n)
    ensures !AcceptedAt(p, true, slot, WithLogin(before, created, events), |before| + 1 + m)
  {
    AcceptedIff(p, slot, before, created, events, n);
    AcceptedIff(p, slot, before, created, events, m);
    var all := [Login(created)] + events;
    assert all[n + 1] == events[n] && all[m + 1] == events[m];
  }

  /** A token that was never handed out is never accepted, with or without sweeps. */
  lemma {:induction false} UnknownTokenRefused(p: Policy, sweeping: bool, events: seq<Event>)
    requires forall i :: 0 <= i < |events| ==> !events[i].Login?
    ensures After(p, sweeping, None, events).None?
  {
    if events != [] {
      UnknownTokenRefused(p, sweeping, events[..|events| - 1]);
    }
  }
}
