/**
  Auto-lock over whole runs. A vault that has been unlocked and that no request
  touches keeps its window until a sweep has closed it, whatever else happens
  in between; and the first sweep that starts when the window is due and finds
  the vault not busy closes it.
 */
module AutoLockRuns {
  import opened Wrappers
  import opened Names
  import opened Machine
  import opened Lifecycle
  import opened Registry
  import opened Ownership
  import opened Soundness
  import opened Tracking
  import opened AutoLockGuard
  import opened Undisturbed

  /** Unlocked at t and not locked since; at most the sweep is at work on it. */
  ghost predicate Waiting(s: Sys, id: int, t: int) {
    && id in s.rows && s.rows[id].name !in s.pendingNames
    && RowOpen(s, id) && Get(s.unlockedAt, id) == Some(t)
    && (HeldFor(s.opMu, id) ==> s.opMu.CloseNext? && s.opMu.sweeping && s.rows[id].mountPoint !in s.os.mounts)
    && !BeingCleared(s.sweep, id)
  }

  /** Locked, and forgotten or about to be. */
  ghost predicate PutAway(s: Sys, id: int) {
    && id in s.rows && s.rows[id].name !in s.pendingNames
    && !RowOpen(s, id) && !HeldFor(s.opMu, id)
    && (id in s.unlockedAt ==> BeingCleared(s.sweep, id))
  }

  /** The sweep's luksClose of this vault works. */
  predicate ClosesNow(s: Sys, step: Step, id: int) {
    step == Continue(true) && s.opMu.CloseNext? && s.opMu.id == id && s.opMu.sweeping
  }

  ghost predicate ClosedIn(s: Sys, steps: seq<Step>, id: int)
    decreases |steps|
  {
    steps != [] && (ClosesNow(s, steps[0], id) || ClosedIn(Next(s, steps[0]), steps[1..], id))
  }

  lemma OnlySweepMovesSweep(s: Sys, step: Step)
    requires !step.SweepOn? && !step.Continue?
    ensures Next(s, step).sweep == s.sweep
  {
  }

  lemma SweepElsewhere(s: Sys, step: Step, id: int)
    requires Sound(s) && id in s.rows && !ActsOn(s, step, id)
    ensures !BeingCleared(s.sweep, id) ==> !BeingCleared(Next(s, step).sweep, id)
    ensures BeingCleared(s.sweep, id) && !step.SweepOn? ==> Next(s, step).sweep == s.sweep
  {
    if !step.SweepOn? && !step.Continue? {
      OnlySweepMovesSweep(s, step);
    }
  }

  lemma SweepTriesWaiting(s: Sys, k: int, ok: bool, id: int, t: int)
    requires Sound(s) && Waiting(s, id, t) && s.sweep.Found? && s.sweep.id == id
    ensures Waiting(SweepStep(s, k, ok), id, t)
  {
    OpenIsUnlocked(s, id);
  }

  lemma SweepTriesPutAway(s: Sys, k: int, ok: bool, id: int)
    requires Sound(s) && PutAway(s, id) && s.sweep.Found? && s.sweep.id == id
    ensures PutAway(SweepStep(s, k, ok), id)
  {
    OpenIsUnlocked(s, id);
  }

  /** luksClose of a sweep: refused, the vault waits on; else it is put away. */
  lemma SweepCloses(s: Sys, ok: bool, id: int, t: int)
    requires Sound(s) && Waiting(s, id, t) && HeldFor(s.opMu, id)
    ensures if ok then PutAway(ContinueStep(s, ok), id) else Waiting(ContinueStep(s, ok), id, t)
  {
    NothingMounted(s, id);
    assert CanClose(s.os, s.rows[id].mapperName);
  }

  lemma StepKeepsWaiting(s: Sys, step: Step, id: int, t: int)
    requires Sound(s) && Windowed(s) && Orderly(s, step) && Waiting(s, id, t) && !TakesRequest(s, step, id)
    ensures if ClosesNow(s, step, id) then PutAway(Next(s, step), id) else Waiting(Next(s, step), id, t)
  {
    if !ActsOn(s, step, id) {
      OthersLeaveVault(s, step, id);
      OthersLeaveWindow(s, step, id);
      SweepElsewhere(s, step, id);
    } else if step.Continue? {
      SweepCloses(s, step.ok, id, t);
    } else {
      SweepTriesWaiting(s, step.id, step.ok, id, t);
    }
  }

  lemma ClearKeepsPutAway(s: Sys, step: Step, id: int)
    requires PutAway(s, id) && step.SweepOn? && BeingCleared(s.sweep, id)
    ensures PutAway(Next(s, step), id)
  {
  }

  lemma StepKeepsPutAway(s: Sys, step: Step, id: int)
    requires Sound(s) && Windowed(s) && Orderly(s, step) && PutAway(s, id) && !TakesRequest(s, step, id)
    ensures PutAway(Next(s, step), id)
  {
    if step.SweepOn? && BeingCleared(s.sweep, id) {
      ClearKeepsPutAway(s, step, id);
    } else if !ActsOn(s, step, id) {
      OthersLeaveVault(s, step, id);
      OthersLeaveWindow(s, step, id);
      SweepElsewhere(s, step, id);
    } else {
      SweepTriesPutAway(s, step.id, step.ok, id);
    }
  }

  // ---- whole runs -------------------------------------------------------

  /** No request of this vault is taken. */
  ghost predicate HandsOff(s: Sys, steps: seq<Step>, id: int)
    decreases |steps|
  {
    steps != [] ==> !TakesRequest(s, steps[0], id) && HandsOff(Next(s, steps[0]), steps[1..], id)
  }

  lemma {:induction false} StaysPutAway(s: Sys, steps: seq<Step>, id: int)
    requires Sound(s) && Windowed(s) && TimelyRun(s, steps) && HandsOff(s, steps, id) && PutAway(s, id)
    ensures PutAway(After(s, steps), id)
    decreases |steps|
  {
    if steps != [] {
      StepKeepsPutAway(s, steps[0], id);
      StepKeepsSound(s, steps[0]);
      StepKeepsWindowed(s, steps[0]);
      StaysPutAway(Next(s, steps[0]), steps[1..], id);
    }
  }

  /**
    Over any timely run that takes no request of it, an unlocked vault is put
    away exactly if a luksClose of a sweep on it works; until then it stays
    unlocked under the window it has.
   */
  lemma {:induction false} WindowStaysUntilLocked(s: Sys, steps: seq<Step>, id: int, t: int)
    requires Sound(s) && Windowed(s) && TimelyRun(s, steps) && HandsOff(s, steps, id) && Waiting(s, id, t)
    ensures if ClosedIn(s, steps, id) then PutAway(After(s, steps), id) else Waiting(After(s, steps), id, t)
    decreases |steps|
  {
    if steps != [] {
      var next := Next(s, steps[0]);
      StepKeepsWaiting(s, steps[0], id, t);
      StepKeepsSound(s, steps[0]);
      StepKeepsWindowed(s, steps[0]);
      if ClosesNow(s, steps[0], id) {
        StaysPutAway(next, steps[1..], id);
      } else {
        WindowStaysUntilLocked(next, steps[1..], id, t);
      }
    }
  }

  // ---- the first free sweep ---------------------------------------------

  /** The ids a sweep has still to deal with. */
  function OnList(sweep: Sweep): set<int> {
    match sweep
    case Idle => {}
    case Visiting(rest) => rest
    case Seen(id, _, rest) => rest + {id}
    case Found(id, _, _, rest) => rest + {id}
    case Locking(id, rest) => rest + {id}
    case Clearing(_, rest) => rest
  }

  /** This vault is still on the sweep's list, and what was read of it is as it was. */
  ghost predicate Owed(s: Sys, id: int, t: int) {
    && id in OnList(s.sweep)
    && ((s.sweep.Seen? || s.sweep.Found?) && s.sweep.id == id ==> s.sweep.since == Some(t) && id !in s.sweep.rest)
    && (s.sweep.Found? && s.sweep.id == id ==> id in s.rows && s.sweep.v == s.rows[id])
    && (s.sweep.Locking? && s.sweep.id == id ==> id !in s.sweep.rest)
  }

  /** The vault's own umount and luksClose work: it is not busy. */
  predicate NotBusy(s: Sys, step: Step, id: int) {
    && (step.SweepOn? && s.sweep.Found? && s.sweep.id == id ==> step.ok)
    && (step.Continue? && HeldFor(s.opMu, id) ==> step.ok)
  }

  ghost predicate NeverBusy(s: Sys, steps: seq<Step>, id: int)
    decreases |steps|
  {
    steps != [] ==> NotBusy(s, steps[0], id) && NeverBusy(Next(s, steps[0]), steps[1..], id)
  }

  lemma FoundFree(s: Sys, k: int, id: int, t: int)
    requires Sound(s) && Waiting(s, id, t) && s.sweep.Found? && s.sweep.id == id && Owed(s, id, t)
    ensures Owed(SweepStep(s, k, true), id, t)
  {
    OpenIsUnlocked(s, id);
  }

  /** The sweep tries another vault. */
  lemma TryOwed(s: Sys, ok: bool, id: int, t: int)
    requires Owed(s, id, t) && s.sweep.Found? && s.sweep.id != id
    ensures Owed(SweepTryStep(s, ok), id, t)
  {
  }

  /** It reads, or moves on from a vault it has cleared. */
  lemma ReadOwed(s: Sys, k: int, ok: bool, id: int, t: int)
    requires Owed(s, id, t) && Get(s.unlockedAt, id) == Some(t) && id in s.rows && !s.sweep.Found?
    ensures Owed(SweepStep(s, k, ok), id, t)
  {
    match s.sweep
    case Idle =>
    case Visiting(_) =>
    case Seen(_, _, _) =>
    case Locking(_, _) =>
    case Clearing(_, _) =>
  }

  lemma CloseOwed(s: Sys, other: int, v: Vault, ok: bool, id: int, t: int)
    requires Sound(s) && Owed(s, id, t) && s.opMu == CloseNext(other, v, true) && other != id
    ensures Owed(CloseStep(s, other, v, true, ok), id, t)
  {
  }

  lemma ContinueKeepsSweep(s: Sys, ok: bool)
    requires !(s.opMu.CloseNext? && s.opMu.sweeping)
    ensures ContinueStep(s, ok).sweep == s.sweep && ContinueStep(s, ok).rows == s.rows
  {
    match s.opMu
    case CloseNext(id, v, _) => LockKeepsSweep(s, id, v, ok);
    case Free =>
    case MountNext(_, _) =>
    case UndoOpen(_, _) =>
    case MarkNext(_, _) =>
    case ClearNext(_, _) =>
    case ForgetNext(_, _) =>
    case RemoveNext(_, _) =>
  }

  lemma LockKeepsSweep(s: Sys, id: int, v: Vault, ok: bool)
    ensures CloseStep(s, id, v, false, ok).sweep == s.sweep && CloseStep(s, id, v, false, ok).rows == s.rows
  {
  }

  lemma ContinueOwed(s: Sys, ok: bool, id: int, t: int)
    requires Sound(s) && Owed(s, id, t) && !HeldFor(s.opMu, id)
    ensures Owed(ContinueStep(s, ok), id, t)
  {
    if s.opMu.CloseNext? && s.opMu.sweeping {
      CloseOwed(s, s.opMu.id, s.opMu.v, ok, id, t);
    } else {
      ContinueKeepsSweep(s, ok);
    }
  }

  /** A vault on the list stays on it until it is closed. */
  lemma StepKeepsOwed(s: Sys, step: Step, id: int, t: int)
    requires Sound(s) && Orderly(s, step) && Waiting(s, id, t) && Owed(s, id, t)
    requires !TakesRequest(s, step, id) && NotBusy(s, step, id)
    ensures ClosesNow(s, step, id) || Owed(Next(s, step), id, t)
  {
    if step.SweepOn? {
      if s.sweep.Found? && s.sweep.id == id {
        FoundFree(s, step.id, id, t);
      } else if s.sweep.Found? {
        TryOwed(s, step.ok, id, t);
      } else {
        ReadOwed(s, step.id, step.ok, id, t);
      }
    } else if step.Continue? {
      if !HeldFor(s.opMu, id) { ContinueOwed(s, step.ok, id, t); }
    } else {
      OnlySweepMovesSweep(s, step);
      OthersLeaveVault(s, step, id);
    }
  }

  /** A sweep that has a vault on its list and never finds it busy puts it away, or has it still on its list. */
  lemma {:induction false} ListedVaultIsLocked(s: Sys, steps: seq<Step>, id: int, t: int)
    requires Sound(s) && Windowed(s) && TimelyRun(s, steps) && HandsOff(s, steps, id) && NeverBusy(s, steps, id)
    requires Waiting(s, id, t) && Owed(s, id, t)
    ensures PutAway(After(s, steps), id) || (Waiting(After(s, steps), id, t) && Owed(After(s, steps), id, t))
    decreases |steps|
  {
    if steps != [] {
      var next := Next(s, steps[0]);
      StepKeepsWaiting(s, steps[0], id, t);
      StepKeepsOwed(s, steps[0], id, t);
      StepKeepsSound(s, steps[0]);
      StepKeepsWindowed(s, steps[0]);
      if ClosesNow(s, steps[0], id) {
        StaysPutAway(next, steps[1..], id);
      } else {
        ListedVaultIsLocked(next, steps[1..], id, t);
      }
    }
  }

  /** A sweep that starts when the window is due lists the vault. */
  lemma DueSweepPutsAway(mid: Sys, k: int, during: seq<Step>, id: int, t: int)
    requires Sound(mid) && Windowed(mid) && Waiting(mid, id, t)
    requires mid.sweep.Idle? && mid.window > 0 && mid.clock - t >= mid.window
    requires
      var begun := Next(mid, SweepOn(k, true));
      TimelyRun(begun, during) && HandsOff(begun, during, id) && NeverBusy(begun, during, id)
    ensures
      var end := After(Next(mid, SweepOn(k, true)), during);
      id !in OnList(end.sweep) ==> PutAway(end, id)
  {
    var begun := Next(mid, SweepOn(k, true));
    StepKeepsSound(mid, SweepOn(k, true));
    StepKeepsWindowed(mid, SweepOn(k, true));
    StepKeepsWaiting(mid, SweepOn(k, true), id, t);
    ListedVaultIsLocked(begun, during, id, t);
  }

  lemma PutAwayIsLocked(s: Sys, steps: seq<Step>, id: int)
    requires Sound(s) && Windowed(s) && TimelyRun(s, steps) && PutAway(After(s, steps), id)
    ensures !IsUnlocked(After(s, steps).os, After(s, steps).rows[id])
  {
    TimelyRunsStayWindowed(s, steps);
    OpenIsUnlocked(After(s, steps), id);
  }

  /**
    The retry: after any timely run without a request of the vault, busy sweeps
    included, the next sweep that starts at or after t + window and does not
    find it busy leaves it locked by the time it is done with its list.
   */
  lemma FirstFreeSweepPutsAway(s: Sys, before: seq<Step>, k: int, during: seq<Step>, id: int, t: int)
    requires Sound(s) && Windowed(s) && TimelyRun(s, before) && HandsOff(s, before, id) && Waiting(s, id, t)
    requires
      var mid := After(s, before);
      mid.sweep.Idle? && mid.window > 0 && mid.clock - t >= mid.window
    requires
      var begun := Next(After(s, before), SweepOn(k, true));
      TimelyRun(begun, during) && HandsOff(begun, during, id) && NeverBusy(begun, during, id)
    ensures
      var end := After(Next(After(s, before), SweepOn(k, true)), during);
      id !in OnList(end.sweep) ==> PutAway(end, id) && !IsUnlocked(end.os, end.rows[id])
  {
    var mid := After(s, before);
    var begun := Next(mid, SweepOn(k, true));
    WindowStaysUntilLocked(s, before, id, t);
    TimelyRunsStayWindowed(s, before);
    StepKeepsSound(mid, SweepOn(k, true));
    StepKeepsWindowed(mid, SweepOn(k, true));
    if ClosedIn(s, before, id) {
      StepKeepsPutAway(mid, SweepOn(k, true), id);
      StaysPutAway(begun, during, id);
    } else {
      DueSweepPutsAway(mid, k, during, id, t);
    }
    if PutAway(After(begun, during), id) { PutAwayIsLocked(begun, during, id); }
  }
}
