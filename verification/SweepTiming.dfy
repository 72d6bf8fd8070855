/**
  autoLockSweep lists the expired windows at one time, reads each window again
  at a later one, and guards the lock with a third look. What the guard is worth
  depends on what happened in between: exactly when it lets a lock through under
  a window that is not due, and under one that was absent.
 */
module SweepTiming {
  import opened Wrappers
  import opened Names
  import opened Machine
  import opened Lifecycle
  import opened Registry
  import opened Ownership
  import opened Soundness
  import opened Tracking
  import opened AutoLock
  import opened AutoLockGuard
  import opened Undisturbed
  import opened AutoLockRuns

  // ---- one sweep --------------------------------------------------------

  /** A sweep has started and does not end within the run. */
  ghost predicate OneSweep(s: Sys, steps: seq<Step>)
    decreases |steps|
  {
    !s.sweep.Idle? && (steps != [] ==> OneSweep(Next(s, steps[0]), steps[1..]))
  }

  lemma SweepLists(s: Sys, k: int, ok: bool)
    requires !s.sweep.Idle?
    ensures OnList(SweepStep(s, k, ok).sweep) <= OnList(s.sweep)
  {
    if s.sweep.Found? { TryLists(s, ok); } else { ReadLists(s, k); }
  }

  lemma TryLists(s: Sys, ok: bool)
    requires s.sweep.Found?
    ensures OnList(SweepTryStep(s, ok).sweep) <= OnList(s.sweep)
  {
  }

  lemma ReadLists(s: Sys, k: int)
    requires !s.sweep.Idle? && !s.sweep.Found?
    ensures OnList(SweepRead(s, k)) <= OnList(s.sweep)
  {
  }

  lemma ContinueLists(s: Sys, ok: bool)
    requires !s.sweep.Idle? && SectionSafe(s)
    ensures OnList(ContinueStep(s, ok).sweep) <= OnList(s.sweep)
  {
    if !(s.opMu.CloseNext? && s.opMu.sweeping) { ContinueKeepsSweep(s, ok); }
  }

  /** A sweep only deals with what it listed when it started. */
  lemma {:induction false} ListOnlyShrinks(s: Sys, steps: seq<Step>)
    requires Sound(s) && OrderlyRun(s, steps) && OneSweep(s, steps)
    ensures OnList(After(s, steps).sweep) <= OnList(s.sweep)
    decreases |steps|
  {
    if steps != [] {
      match steps[0] {
        case SweepOn(k, ok) => SweepLists(s, k, ok);
        case Continue(ok) => ContinueLists(s, ok);
        case Tick(_) => OnlySweepMovesSweep(s, steps[0]);
        case PlaceImage(_) => OnlySweepMovesSweep(s, steps[0]);
        case Reserve(_, _, _, _) => OnlySweepMovesSweep(s, steps[0]);
        case Work(_, _) => OnlySweepMovesSweep(s, steps[0]);
        case Import(_, _, _, _) => OnlySweepMovesSweep(s, steps[0]);
        case Lookup(_, _) => OnlySweepMovesSweep(s, steps[0]);
        case Unlock(_, _) => OnlySweepMovesSweep(s, steps[0]);
        case Lock(_, _) => OnlySweepMovesSweep(s, steps[0]);
        case Remount(_, _) => OnlySweepMovesSweep(s, steps[0]);
        case Delete(_, _) => OnlySweepMovesSweep(s, steps[0]);
      }
      StepKeepsSound(s, steps[0]);
      ListOnlyShrinks(Next(s, steps[0]), steps[1..]);
    }
  }

  // ---- a window that is present when it is read -------------------------

  predicate Touches(s: Sys, s': Sys, id: int) {
    Get(s'.unlockedAt, id) != Get(s.unlockedAt, id)
  }

  /** Somebody cleared or restarted this window. */
  ghost predicate Touched(s: Sys, steps: seq<Step>, id: int)
    decreases |steps|
  {
    steps != [] && (Touches(s, Next(s, steps[0]), id) || Touched(Next(s, steps[0]), steps[1..], id))
  }

  /** The time of the last change of this window. */
  ghost function LastTouch(s: Sys, steps: seq<Step>, id: int): int
    requires Touched(s, steps, id)
    decreases |steps|
  {
    var next := Next(s, steps[0]);
    if Touched(next, steps[1..], id) then LastTouch(next, steps[1..], id) else s.clock
  }

  /** A window that stands at the end stood there all along, or dates from its last change. */
  lemma {:induction false} WindowDates(s: Sys, steps: seq<Step>, id: int)
    ensures !Touched(s, steps, id) ==> Get(After(s, steps).unlockedAt, id) == Get(s.unlockedAt, id)
    ensures Touched(s, steps, id) ==>
      s.clock <= LastTouch(s, steps, id)
      && (id in After(s, steps).unlockedAt ==> After(s, steps).unlockedAt[id] == LastTouch(s, steps, id))
    decreases |steps|
  {
    if steps != [] {
      StepMovesWindows(s, steps[0]);
      WindowDates(Next(s, steps[0]), steps[1..], id);
    }
  }

  /**
    From the start of a sweep to the moment it locks vault id under the window t:
    the window was due when the sweep listed it. It is due now unless somebody
    touched it since, less than a window ago; in a sweep shorter than the window,
    exactly if nobody touched it since.
   */
  lemma LockedWindowDueIff(s: Sys, k: int, steps: seq<Step>, id: int, t: int)
    requires Sound(s) && s.sweep.Idle? && s.window > 0
    requires
      var begun := Next(s, SweepOn(k, true));
      OrderlyRun(begun, steps) && OneSweep(begun, steps) && AboutToLock(After(begun, steps), id, t)
    ensures id in s.unlockedAt && Due(Get(s.unlockedAt, id), s.clock, s.window)
    ensures
      var begun := Next(s, SweepOn(k, true));
      var now := After(begun, steps).clock;
      var late := Touched(begun, steps, id) && now - LastTouch(begun, steps, id) < s.window;
      && (Due(Some(t), now, s.window) <==> !late)
      && (now - s.clock < s.window ==> (Due(Some(t), now, s.window) <==> !Touched(begun, steps, id)))
  {
    var begun := Next(s, SweepOn(k, true));
    StepKeepsSound(s, SweepOn(k, true));
    ListOnlyShrinks(begun, steps);
    WindowDates(begun, steps, id);
    ClockAndIdsGrow(begun, steps);
    assert id in OnList(begun.sweep) && OnList(begun.sweep) == Expired(s);
  }

  // ---- a window that is absent when it is read --------------------------

  /** Vault id, once it has had a window, is unlocked only with one, or while an unlock of it is under way. */
  ghost predicate Followed(s: Sys, id: int) {
    RowOpen(s, id) ==> id in s.unlockedAt || BeingUnlocked(s.opMu, id)
  }

  lemma WorkFollowed(s: Sys, j: int, a: Answers, id: int)
    requires Sound(s) && j in s.jobs && id in s.rows && Followed(s, id)
    ensures Followed(WorkStep(s, j, a), id)
  {
    WorkLeavesVault(s, j, a, id);
  }

  lemma RequestFollowed(s: Sys, r: int, ok: bool, id: int)
    requires Sound(s) && s.opMu.Free? && r in s.requests && s.requests[r].id in s.rows && id in s.rows
    requires Followed(s, id)
    ensures Followed(UnlockStep(s, r, ok), id) && Followed(LockStep(s, r, ok), id)
    ensures Followed(RemountStep(s, r, ok), id) && Followed(DeleteStep(s, r, ok), id)
  {
    if s.requests[r].id != id { RequestLeavesVault(s, r, ok, id); }
  }

  lemma ContinueFollowed(s: Sys, ok: bool, id: int)
    requires Sound(s) && Windowed(s) && id in s.rows && Followed(s, id)
    ensures Followed(ContinueStep(s, ok), id)
  {
    if HeldFor(s.opMu, id) {
      CloseLocks(s, id);
    } else {
      ContinueLeavesVault(s, ok, id);
      ContinueLeavesWindow(s, ok, id);
    }
  }

  lemma SweepFollowed(s: Sys, k: int, ok: bool, id: int)
    requires Sound(s) && Windowed(s) && Orderly(s, SweepOn(k, ok)) && id in s.rows && Followed(s, id)
    ensures Followed(SweepStep(s, k, ok), id)
  {
    if !(s.sweep.Found? && s.sweep.id == id) { SweepLeavesVault(s, k, ok, id); }
    if !BeingCleared(s.sweep, id) { SweepLeavesWindow(s, k, ok, id); }
  }

  lemma StepKeepsFollowed(s: Sys, step: Step, id: int)
    requires Sound(s) && Windowed(s) && Orderly(s, step) && id < s.nextId && Followed(s, id)
    ensures Followed(Next(s, step), id) && id < Next(s, step).nextId
  {
    StepAddsFreshRows(s, step);
    if id in s.rows {
      match step
      case Work(j, a) => if j in s.jobs { WorkFollowed(s, j, a, id); }
      case Unlock(r, ok) => if s.opMu.Free? && r in s.requests { RequestFollowed(s, r, ok, id); }
      case Lock(r, ok) => if s.opMu.Free? && r in s.requests { RequestFollowed(s, r, ok, id); }
      case Remount(r, ok) => if s.opMu.Free? && r in s.requests { RequestFollowed(s, r, ok, id); }
      case Delete(r, ok) => if s.opMu.Free? && r in s.requests { RequestFollowed(s, r, ok, id); }
      case Continue(ok) => ContinueFollowed(s, ok, id);
      case SweepOn(k, ok) => SweepFollowed(s, k, ok, id);
      case Tick(_) => OutsideLeavesVault(s, step, id);
      case PlaceImage(_) => OutsideLeavesVault(s, step, id);
      case Reserve(_, _, _, _) => OutsideLeavesVault(s, step, id);
      case Import(_, _, _, _) => OutsideLeavesVault(s, step, id);
      case Lookup(_, _) => OutsideLeavesVault(s, step, id);
    }
  }

  lemma {:induction false} StaysFollowed(s: Sys, steps: seq<Step>, id: int)
    requires Sound(s) && Windowed(s) && TimelyRun(s, steps) && id < s.nextId && Followed(s, id)
    ensures Followed(After(s, steps), id)
    decreases |steps|
  {
    if steps != [] {
      StepKeepsFollowed(s, steps[0], id);
      StepKeepsSound(s, steps[0]);
      StepKeepsWindowed(s, steps[0]);
      StaysFollowed(Next(s, steps[0]), steps[1..], id);
    }
  }

  /** A mapper of this name is open, for a row or for a create in flight. */
  ghost predicate NameInUse(s: Sys, name: string) {
    || (exists id :: RowOpen(s, id) && s.rows[id].name == name)
    || (exists j :: j in s.jobs && HasMapper(s.jobs[j].pc) && s.jobs[j].name == name)
  }

  /** The sweep is about to lock vault id although it has no window. */
  ghost predicate AboutToLockAbsent(s: Sys, id: int) {
    s.sweep.Found? && s.sweep.id == id && s.sweep.since == None && s.opMu.Free? && id !in s.unlockedAt
  }

  /** A vault without a row looks unlocked exactly if its name is in use again. */
  lemma StaleVaultUnlockedIff(s: Sys, v: Vault)
    requires Sound(s) && WellNamed(v)
    ensures IsUnlocked(s.os, v) <==> NameInUse(s, v.name)
  {
    var holders := Holders(s.jobs);
    assert forall mp :: mp in s.os.mounts ==> LastSegment(mp) == s.os.mounts[mp] && s.os.mounts[mp] in s.os.mappers;
    if v.name in s.os.mappers {
      MapperInUse(s, v.name);
    }
    if j :| j in s.jobs && HasMapper(s.jobs[j].pc) && s.jobs[j].name == v.name {
      assert holders[j].opens;
    }
  }

  lemma MapperInUse(s: Sys, name: string)
    requires Sound(s) && name in s.os.mappers
    ensures NameInUse(s, name)
  {
    var path := s.os.mappers[name];
    if RowOpens(s.rows, name, path) {
      var id :| id in s.rows && s.rows[id].name == name && s.rows[id].path == path;
      assert RowOpen(s, id);
    } else {
      var holders := Holders(s.jobs);
      var j :| j in holders && holders[j].opens && holders[j].name == name && holders[j].imgPath == path;
      assert HasMapper(s.jobs[j].pc);
    }
  }

  /**
    A sweep that read the window of a listed vault as absent, and finds it still
    absent, has an unlocked vault before it exactly if the row has gone and its
    name is in use again. While the row is there, the vault is locked and the
    sweep only forgets it.
   */
  lemma AbsentWindowLocksIff(s: Sys, k: int, steps: seq<Step>, id: int)
    requires Sound(s) && Windowed(s) && s.sweep.Idle? && s.window > 0
    requires
      var begun := Next(s, SweepOn(k, true));
      TimelyRun(begun, steps) && OneSweep(begun, steps) && AboutToLockAbsent(After(begun, steps), id)
    ensures
      var end := After(Next(s, SweepOn(k, true)), steps);
      IsUnlocked(end.os, end.sweep.v) <==> id !in end.rows && NameInUse(end, end.sweep.v.name)
  {
    var begun := Next(s, SweepOn(k, true));
    var end := After(begun, steps);
    StepKeepsSound(s, SweepOn(k, true));
    StepKeepsWindowed(s, SweepOn(k, true));
    TimelyIsOrderly(begun, steps);
    ListOnlyShrinks(begun, steps);
    assert id in OnList(begun.sweep) && OnList(begun.sweep) == Expired(s);
    StaysFollowed(begun, steps, id);
    TimelyRunsStayWindowed(begun, steps);
    StaleVaultUnlockedIff(end, end.sweep.v);
    if id in end.rows { OpenIsUnlocked(end, id); }
  }

  lemma {:induction false} TimelyIsOrderly(s: Sys, steps: seq<Step>)
    requires TimelyRun(s, steps)
    ensures OrderlyRun(s, steps)
    decreases |steps|
  {
    if steps != [] {
      TimelyIsOrderly(Next(s, steps[0]), steps[1..]);
    }
  }
}
