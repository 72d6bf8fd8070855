/**
  What repeated auto-lock sweeps do to one vault that nobody else touches: a
  busy mount defers the lock, and the window stays until the vault is locked.
 */
module AutoLock {
  import opened Wrappers
  import opened Names
  import opened Machine
  import opened Lifecycle
  import opened Registry
  import opened Ownership
  import opened Vaults

  /** One vault as the sweep sees it: device, mount and window. */
  datatype Watched = Watched(open: bool, mounted: bool, since: Option<int>)

  function Watch(os: Os, v: Vault, since: Option<int>): Watched {
    Watched(v.mapperName in os.mappers, IsMounted(os, v), since)
  }

  predicate Due(since: Option<int>, now: int, window: int) {
    window > 0 && since.Some? && now - since.value >= window
  }

  /** autoLockVault for a vault whose window is due. */
  function LockedWatch(w: Watched, a: Answer): Watched {
    if !w.open && !w.mounted then w.(since := None)
    else if w.mounted && !a.umount then w
    else if !w.open || !a.close then w.(mounted := false)
    else Watched(false, false, None)
  }

  /** One sweep at time now. */
  function Swept(w: Watched, now: int, window: int, a: Answer): Watched {
    if Due(w.since, now, window) then LockedWatch(w, a) else w
  }

  /** The same in terms of the machine: LockContext and what autoLockVault makes of its outcome. */
  lemma LockedWatchIsLock(os: Os, v: Vault, since: Option<int>, a: Answer)
    requires StackedFor(os, v)
    ensures
      var ended := LockOutcomeOf(os, v, a).Locked? || LockOutcomeOf(os, v, a).AlreadyLocked?;
      Watch(LockedOs(os, v, a), v, if ended then None else since) == LockedWatch(Watch(os, v, since), a)
  {
  }

  /** A later sweep: when it runs and what the vault's umount and luksClose answer. */
  datatype Visit = Visit(now: int, answer: Answer)

  function AfterVisits(w: Watched, window: int, visits: seq<Visit>): Watched
    decreases |visits|
  {
    if visits == [] then w
    else AfterVisits(Swept(w, visits[0].now, window, visits[0].answer), window, visits[1..])
  }

  /** Some due sweep unmounts, and it or a later one closes. */
  ghost predicate LockedBy(visits: seq<Visit>, start: int, window: int, mounted: bool) {
    exists i, k :: 0 <= k <= i < |visits|
      && visits[i].now - start >= window && visits[i].answer.close
      && (mounted ==> visits[k].now - start >= window && visits[k].answer.umount)
  }

  lemma LockedByTail(visits: seq<Visit>, start: int, window: int, mounted: bool)
    requires visits != []
    ensures
      var v := visits[0];
      var unmounts := v.now - start >= window && v.answer.umount;
      var closes := v.now - start >= window && v.answer.close && (mounted ==> v.answer.umount);
      LockedBy(visits, start, window, mounted) <==> closes || LockedBy(visits[1..], start, window, mounted && !unmounts)
  {
    var v, rest := visits[0], visits[1..];
    var unmounts := v.now - start >= window && v.answer.umount;
    if LockedBy(visits, start, window, mounted) {
      var i, k :| 0 <= k <= i < |visits| && visits[i].now - start >= window && visits[i].answer.close
        && (mounted ==> visits[k].now - start >= window && visits[k].answer.umount);
      if i > 0 {
        assert rest[i - 1] == visits[i];
        if k > 0 { assert rest[k - 1] == visits[k]; }
        var k' := if k > 0 then k - 1 else i - 1;
        assert 0 <= k' <= i - 1 < |rest| && rest[i - 1].now - start >= window && rest[i - 1].answer.close;
      }
    }
    if v.now - start >= window && v.answer.close && (mounted ==> v.answer.umount) {
      assert LockedBy(visits, start, window, mounted);
    }
    if LockedBy(rest, start, window, mounted && !unmounts) {
      var i, k :| 0 <= k <= i < |rest| && rest[i].now - start >= window && rest[i].answer.close
        && (mounted && !unmounts ==> rest[k].now - start >= window && rest[k].answer.umount);
      assert visits[i + 1] == rest[i] && visits[k + 1] == rest[k];
      var k' := if mounted && !unmounts then k + 1 else 0;
      assert 0 <= k' <= i + 1 < |visits|;
      assert mounted ==> visits[k'].now - start >= window && visits[k'].answer.umount;
    }
  }

  /**
    Over any sweeps, a vault unlocked at `start` and not unlocked again is
    locked exactly if some sweep at or after start + window finds it not busy;
    until then its window is untouched.
   */
  lemma {:induction false} FirstFreeSweepLocks(w: Watched, start: int, window: int, visits: seq<Visit>)
    requires w.open && w.since == Some(start) && window > 0
    ensures
      var w' := AfterVisits(w, window, visits);
      && (LockedBy(visits, start, window, w.mounted) <==> !w'.open && !w'.mounted)
      && (w'.open <==> w'.since == Some(start))
      && (!w'.open ==> w' == Watched(false, false, None))
    decreases |visits|
  {
    if visits != [] {
      var v, rest := visits[0], visits[1..];
      var w1 := Swept(w, v.now, window, v.answer);
      LockedByTail(visits, start, window, w.mounted);
      if w1.open {
        FirstFreeSweepLocks(w1, start, window, rest);
      } else {
        StaysLocked(window, rest);
      }
    }
  }

  lemma {:induction false} StaysLocked(window: int, visits: seq<Visit>)
    ensures AfterVisits(Watched(false, false, None), window, visits) == Watched(false, false, None)
    decreases |visits|
  {
    if visits != [] {
      StaysLocked(window, visits[1..]);
    }
  }

  // ---- one visit of a sweep as steps of the transition system -----------

  /** autoLockVault for one expired id, nothing else running. */
  function VisitSteps(s: Sys, id: int, a: Answer): seq<Step> {
    var on := SweepOn(id, true);
    if id !in s.rows then [on, on, on]
    else
      match LockOutcomeOf(s.os, s.rows[id], a)
      case AlreadyLocked => [on, on, on, on]
      case UmountFailed => [on, on, SweepOn(id, false)]
      case CloseFailed => [on, on, on, Continue(a.close)]
      case Locked => [on, on, on, Continue(a.close), on]
  }

  /** The state after it: locked and forgotten, or left for the next sweep. */
  function Visited(s: Sys, id: int, a: Answer): Sys
    requires s.sweep.Visiting?
  {
    var left := s.(sweep := Visiting(s.sweep.rest - {id}));
    if id !in s.rows then Unmark(left, id)
    else
      var locked := left.(os := LockedOs(s.os, s.rows[id], a));
      var outcome := LockOutcomeOf(s.os, s.rows[id], a);
      if outcome.Locked? || outcome.AlreadyLocked? then Unmark(locked, id) else locked
  }

  lemma VisitFindsRow(s: Sys, id: int)
    requires s.sweep.Visiting? && id in s.sweep.rest && s.opMu.Free?
    ensures
      var rest := s.sweep.rest - {id};
      Next(Next(s, SweepOn(id, true)), SweepOn(id, true)) == s.(sweep :=
        if id in s.rows then Found(id, Get(s.unlockedAt, id), s.rows[id], rest) else Clearing(id, rest))
  {
  }

  /** Nothing to close: the vault is found locked, or its mount is busy. */
  lemma FoundAndLeft(s: Sys, id: int, a: Answer, rest: set<int>)
    requires s.opMu.Free? && id in s.rows
    requires s.sweep == Found(id, Get(s.unlockedAt, id), s.rows[id], rest)
    ensures
      var on := SweepOn(id, true);
      var locked := s.(os := LockedOs(s.os, s.rows[id], a), sweep := Visiting(rest));
      match LockOutcomeOf(s.os, s.rows[id], a)
      case AlreadyLocked => Next(Next(s, on), on) == Unmark(locked, id)
      case UmountFailed => Next(s, SweepOn(id, false)) == locked
      case CloseFailed => true
      case Locked => true
  {
  }

  lemma FoundAndUnmounted(s: Sys, id: int, rest: set<int>)
    requires s.opMu.Free? && id in s.rows && IsUnlocked(s.os, s.rows[id])
    requires s.sweep == Found(id, Get(s.unlockedAt, id), s.rows[id], rest)
    ensures
      var v := s.rows[id];
      Next(s, SweepOn(id, true)) == s.(os := Umount(s.os, v.mountPoint),
        opMu := CloseNext(id, v, true), sweep := Locking(id, rest))
  {
    var v := s.rows[id];
    assert !IsMounted(s.os, v) ==> s.os.mounts - {v.mountPoint} == s.os.mounts;
  }

  lemma UnmountedAndClosed(s: Sys, id: int, v: Vault, close: bool)
    requires s.sweep.Locking? && s.sweep.id == id && s.opMu == CloseNext(id, v, true)
    ensures
      var left := s.(opMu := Free, sweep := Visiting(s.sweep.rest));
      if close && CanClose(s.os, v.mapperName) then
        Next(Next(s, Continue(close)), SweepOn(id, true)) == Unmark(left.(os := Close(s.os, v.mapperName)), id)
      else
        Next(s, Continue(close)) == left
  {
  }

  lemma FoundIsVisited(s: Sys, id: int, a: Answer, rest: set<int>)
    requires s.opMu.Free? && id in s.rows
    requires s.sweep == Found(id, Get(s.unlockedAt, id), s.rows[id], rest)
    ensures
      var on := SweepOn(id, true);
      var locked := s.(os := LockedOs(s.os, s.rows[id], a), sweep := Visiting(rest));
      match LockOutcomeOf(s.os, s.rows[id], a)
      case AlreadyLocked => Next(Next(s, on), on) == Unmark(locked, id)
      case UmountFailed => Next(s, SweepOn(id, false)) == locked
      case CloseFailed => Next(Next(s, on), Continue(a.close)) == locked
      case Locked => Next(Next(Next(s, on), Continue(a.close)), on) == Unmark(locked, id)
  {
    var v := s.rows[id];
    if !IsUnlocked(s.os, v) || (IsMounted(s.os, v) && !a.umount) {
      FoundAndLeft(s, id, a, rest);
    } else {
      FoundAndUnmounted(s, id, rest);
      UnmountedAndClosed(Next(s, SweepOn(id, true)), id, v, a.close);
    }
  }

  lemma VisitSection(s: Sys, id: int, a: Answer)
    requires s.sweep.Visiting? && id in s.sweep.rest && s.opMu.Free?
    ensures After(s, VisitSteps(s, id, a)) == Visited(s, id, a)
  {
    var on := SweepOn(id, true);
    var rest := s.sweep.rest - {id};
    VisitFindsRow(s, id);
    if id !in s.rows {
      AfterThree(s, on, on, on);
    } else {
      var found := s.(sweep := Found(id, Get(s.unlockedAt, id), s.rows[id], rest));
      FoundIsVisited(found, id, a, rest);
      match LockOutcomeOf(s.os, s.rows[id], a)
      case AlreadyLocked => AfterFour(s, on, on, on, on);
      case UmountFailed => AfterThree(s, on, on, SweepOn(id, false));
      case CloseFailed => AfterFour(s, on, on, on, Continue(a.close));
      case Locked => AfterFive(s, on, on, on, Continue(a.close), on);
    }
  }

  /** One tick: the time since the last one, and what each vault's commands will answer. */
  datatype Round = Round(elapsed: nat, answers: map<int, Answer>)

  /** What repeated sweeps are to one vault. */
  function VisitsOf(rounds: seq<Round>, clock: int, id: int): seq<Visit>
    requires forall i :: 0 <= i < |rounds| ==> id in rounds[i].answers
    decreases |rounds|
  {
    if rounds == [] then []
    else
      var now := clock + rounds[0].elapsed;
      [Visit(now, rounds[0].answers[id])] + VisitsOf(rounds[1..], now, id)
  }

  lemma FirstRound(rounds: seq<Round>, clock: int, id: int)
    requires rounds != [] && forall i :: 0 <= i < |rounds| ==> id in rounds[i].answers
    ensures
      var visits, now := VisitsOf(rounds, clock, id), clock + rounds[0].elapsed;
      && visits != [] && visits[0] == Visit(now, rounds[0].answers[id])
      && visits[1..] == VisitsOf(rounds[1..], now, id)
  {
  }

  /** One round is one visit of each vault. */
  lemma RoundIsVisit(w: Watched, w': Watched, window: int, rounds: seq<Round>, clock: int, id: int)
    requires rounds != [] && forall i :: 0 <= i < |rounds| ==> id in rounds[i].answers
    requires w' == Swept(w, clock + rounds[0].elapsed, window, rounds[0].answers[id])
    ensures AfterVisits(w', window, VisitsOf(rounds[1..], clock + rounds[0].elapsed, id))
      == AfterVisits(w, window, VisitsOf(rounds, clock, id))
  {
    FirstRound(rounds, clock, id);
  }

  // ---- vaults do not get in each other's way ----------------------------

  ghost predicate RowsApart(rows: map<int, Vault>) {
    && (forall id :: id in rows ==> rows[id].mapperName == rows[id].name)
    && (forall a, b :: a in rows && b in rows && a != b
          ==> rows[a].name != rows[b].name && rows[a].mountPoint != rows[b].mountPoint)
  }

  ghost predicate RowsStacked(os: Os, rows: map<int, Vault>) {
    forall id :: id in rows ==> StackedFor(os, rows[id])
  }

  /** In every state of every orderly run, vaults lock independently of each other. */
  lemma SoundRowsAreApart(s: Sys)
    requires Sound(s)
    ensures RowsApart(s.rows) && RowsStacked(s.os, s.rows)
  {
    var holders := Holders(s.jobs);
    forall id | id in s.rows ensures StackedFor(s.os, s.rows[id]) {
      var v := s.rows[id];
      forall j | j in holders && holders[j].mounts
        ensures holders[j].mountPoint != v.mountPoint && holders[j].name != v.name
      {
        MountPointsApart(s.rows, holders, id, j);
      }
      forall mp | mp in s.os.mounts && (mp == v.mountPoint || s.os.mounts[mp] == v.mapperName)
        ensures mp == v.mountPoint && s.os.mounts[mp] == v.mapperName
      {
        assert RowMounts(s.rows, s.os.mounts[mp], mp);
        var other :| other in s.rows && s.rows[other].name == s.os.mounts[mp] && s.rows[other].mountPoint == mp;
        assert LastSegment(mp) == s.rows[other].name;
        assert other == id;
      }
    }
  }

  function VaultsAt(rows: map<int, Vault>, ids: seq<int>): seq<Vault>
    requires forall i :: 0 <= i < |ids| ==> ids[i] in rows
  {
    seq(|ids|, i requires 0 <= i < |ids| => rows[ids[i]])
  }

  /** So the shutdown, which locks a listing of the table, may be called in any such state. */
  lemma ListedRowsAreIndependent(os: Os, rows: map<int, Vault>, ids: seq<int>)
    requires RowsApart(rows) && RowsStacked(os, rows)
    requires forall i :: 0 <= i < |ids| ==> ids[i] in rows
    requires forall i, j :: 0 <= i < j < |ids| ==> ids[i] != ids[j]
    ensures Independent(VaultsAt(rows, ids)) && AllStacked(os, VaultsAt(rows, ids))
  {
    var vaults := VaultsAt(rows, ids);
    forall i, j | 0 <= i < j < |vaults|
      ensures vaults[i].name != vaults[j].name && vaults[i].mountPoint != vaults[j].mountPoint
    {
      assert vaults[i] == rows[ids[i]] && vaults[j] == rows[ids[j]];
    }
    forall i | 0 <= i < |vaults| ensures StackedFor(os, vaults[i]) {
      var id := ids[i];
      assert id in rows && vaults[i] == rows[id];
    }
  }

  /** Locking one row's vault changes no other row's device or mount. */
  lemma LockWatchesOne(os: Os, rows: map<int, Vault>, id: int, a: Answer)
    requires RowsApart(rows) && RowsStacked(os, rows) && id in rows
    ensures RowsStacked(LockedOs(os, rows[id], a), rows)
    ensures forall other :: other in rows && other != id ==> SameStatus(os, LockedOs(os, rows[id], a), rows[other])
  {
    forall other | other in rows && other != id
      ensures SameStatus(os, LockedOs(os, rows[id], a), rows[other])
      ensures StackedFor(LockedOs(os, rows[id], a), rows[other])
    {
      LockTouchesOne(os, [rows[id], rows[other]], 0, a);
      assert [rows[id], rows[other]][1] == rows[other];
    }
    LockTouchesOne(os, [rows[id]], 0, a);
    assert [rows[id]][0] == rows[id];
  }

  // ---- a sweep over all windows -----------------------------------------

  /** What one visit makes of machine and windows. */
  function VisitedOs(os: Os, rows: map<int, Vault>, id: int, a: Answer): Os {
    if id in rows then LockedOs(os, rows[id], a) else os
  }

  function VisitedWindows(os: Os, rows: map<int, Vault>, windows: map<int, int>, id: int, a: Answer): map<int, int> {
    if id in rows && (LockOutcomeOf(os, rows[id], a).UmountFailed? || LockOutcomeOf(os, rows[id], a).CloseFailed?)
    then windows else windows - {id}
  }

  /** Each vault but those still to be visited has been through its own sweep, and nothing else happened to it. */
  ghost predicate VaultsSwept(
    rows: map<int, Vault>, os0: Os, windows0: map<int, int>, os: Os, windows: map<int, int>,
    left: set<int>, now: int, window: int, answers: map<int, Answer>)
    requires rows.Keys <= answers.Keys
  {
    forall id :: id in rows ==>
      Watch(os, rows[id], Get(windows, id)) ==
        if id in left then Watch(os0, rows[id], Get(windows0, id))
        else Swept(Watch(os0, rows[id], Get(windows0, id)), now, window, answers[id])
  }

  /** Windows without a row are dropped when they are due. */
  ghost predicate StraysSwept(
    rows: map<int, Vault>, windows0: map<int, int>, windows: map<int, int>, left: set<int>, now: int, window: int)
  {
    forall id :: id !in rows ==>
      Get(windows, id) == if id !in left && Due(Get(windows0, id), now, window) then None else Get(windows0, id)
  }

  lemma VisitSweeps(
    rows: map<int, Vault>, os0: Os, windows0: map<int, int>, os: Os, windows: map<int, int>,
    left: set<int>, now: int, window: int, answers: map<int, Answer>, id: int)
    requires rows.Keys <= answers.Keys && id in answers && id in left && Due(Get(windows0, id), now, window)
    requires RowsApart(rows) && RowsStacked(os, rows)
    requires VaultsSwept(rows, os0, windows0, os, windows, left, now, window, answers)
    requires StraysSwept(rows, windows0, windows, left, now, window)
    ensures
      var os', windows' := VisitedOs(os, rows, id, answers[id]), VisitedWindows(os, rows, windows, id, answers[id]);
      && RowsStacked(os', rows)
      && VaultsSwept(rows, os0, windows0, os', windows', left - {id}, now, window, answers)
      && StraysSwept(rows, windows0, windows', left - {id}, now, window)
  {
    var os', windows' := VisitedOs(os, rows, id, answers[id]), VisitedWindows(os, rows, windows, id, answers[id]);
    assert forall other :: other != id ==> Get(windows', other) == Get(windows, other);
    if id in rows {
      LockWatchesOne(os, rows, id, answers[id]);
      LockedWatchIsLock(os, rows[id], Get(windows, id), answers[id]);
      forall other | other in rows
        ensures Watch(os', rows[other], Get(windows', other)) ==
          if other in left - {id} then Watch(os0, rows[other], Get(windows0, other))
          else Swept(Watch(os0, rows[other], Get(windows0, other)), now, window, answers[other])
      {
        if other != id {
          assert SameStatus(os, os', rows[other]);
        }
      }
    }
  }

  /** Before the first visit: nothing has happened, and what is left is what is due. */
  lemma SweepBegins(
    rows: map<int, Vault>, os: Os, windows: map<int, int>, left: set<int>, now: int, window: int,
    answers: map<int, Answer>)
    requires rows.Keys <= answers.Keys
    requires forall id :: id in left <==> Due(Get(windows, id), now, window)
    ensures VaultsSwept(rows, os, windows, os, windows, left, now, window, answers)
    ensures StraysSwept(rows, windows, windows, left, now, window)
  {
  }

  /** What that comes to: a due vault that is not busy is locked and forgotten, one that is not due is left alone. */
  lemma SweepLocksDue(
    rows: map<int, Vault>, os0: Os, windows0: map<int, int>, os: Os, windows: map<int, int>,
    now: int, window: int, answers: map<int, Answer>, id: int)
    requires rows.Keys <= answers.Keys && id in rows && RowsStacked(os0, rows)
    requires VaultsSwept(rows, os0, windows0, os, windows, {}, now, window, answers)
    ensures
      var v := rows[id];
      if id in windows0 && 0 < window <= now - windows0[id] then
        answers[id] == Answer(true, true) ==>
          v.mapperName !in os.mappers && v.mountPoint !in os.mounts && id !in windows
      else
        && (v.mapperName in os.mappers <==> v.mapperName in os0.mappers)
        && (v.mountPoint in os.mounts <==> v.mountPoint in os0.mounts)
        && Get(windows, id) == Get(windows0, id)
  {
    assert StackedFor(os0, rows[id]);
    assert Watch(os, rows[id], Get(windows, id))
      == Swept(Watch(os0, rows[id], Get(windows0, id)), now, window, answers[id]);
  }
}
