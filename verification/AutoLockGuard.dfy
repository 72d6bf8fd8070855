/**
  autoLockVault re-reads a vault's window under opMu before it locks. Over any
  run, an unchanged timestamp there means the window was never touched since.
 */
module AutoLockGuard {
  import opened Wrappers
  import opened Machine
  import opened Lifecycle
  import opened Registry
  import opened Ownership
  import opened Soundness

  lemma WorkMovesWindows(s: Sys, j: int, a: Answers)
    requires j in s.jobs
    ensures WindowsMoveOn(s, WorkStep(s, j, a))
  {
  }

  lemma SectionsMoveWindows(s: Sys, r: int, ok: bool)
    ensures r in s.requests ==>
      && WindowsMoveOn(s, UnlockStep(s, r, ok)) && WindowsMoveOn(s, LockStep(s, r, ok))
      && WindowsMoveOn(s, RemountStep(s, r, ok)) && WindowsMoveOn(s, DeleteStep(s, r, ok))
  {
  }

  lemma ContinueMovesWindows(s: Sys, ok: bool)
    ensures WindowsMoveOn(s, ContinueStep(s, ok))
  {
  }

  lemma SweepMovesWindows(s: Sys, id: int, ok: bool)
    ensures WindowsMoveOn(s, SweepStep(s, id, ok))
  {
  }

  /** No step puts an old timestamp back. */
  lemma StepMovesWindows(s: Sys, step: Step)
    ensures WindowsMoveOn(s, Next(s, step))
  {
    match step
    case Tick(_) =>
    case PlaceImage(_) =>
    case Reserve(_, _, _, _) =>
    case Work(j, answers) => if j in s.jobs { WorkMovesWindows(s, j, answers); }
    case Import(_, _, _, _) =>
    case Lookup(_, _) =>
    case Unlock(r, ok) => SectionsMoveWindows(s, r, ok);
    case Lock(r, ok) => SectionsMoveWindows(s, r, ok);
    case Remount(r, ok) => SectionsMoveWindows(s, r, ok);
    case Delete(r, ok) => SectionsMoveWindows(s, r, ok);
    case Continue(ok) => ContinueMovesWindows(s, ok);
    case SweepOn(id, ok) => SweepMovesWindows(s, id, ok);
  }

  /** A timestamp that was cleared or replaced never comes back. */
  lemma {:induction false} TimestampsNeverReturn(s: Sys, steps: seq<Step>, id: int, t: int)
    requires t < s.clock && Get(s.unlockedAt, id) != Some(t)
    ensures Get(After(s, steps).unlockedAt, id) != Some(t)
    decreases |steps|
  {
    if steps != [] {
      StepMovesWindows(s, steps[0]);
      TimestampsNeverReturn(Next(s, steps[0]), steps[1..], id, t);
    }
  }

  lemma {:induction false} OrderlyInTwo(s: Sys, first: seq<Step>, second: seq<Step>)
    requires OrderlyRun(s, first + second)
    ensures OrderlyRun(s, first) && OrderlyRun(After(s, first), second)
    decreases |first|
  {
    if first == [] {
      assert first + second == second;
    } else {
      assert (first + second)[0] == first[0] && (first + second)[1..] == first[1..] + second;
      OrderlyInTwo(Next(s, first[0]), first[1..], second);
    }
  }

  /** An id that lost its row never gets one again. */
  lemma {:induction false} RowsNeverReturn(s: Sys, steps: seq<Step>, id: int)
    requires Sound(s) && OrderlyRun(s, steps) && id < s.nextId && id !in s.rows
    ensures id !in After(s, steps).rows
    decreases |steps|
  {
    if steps != [] {
      StepAddsFreshRows(s, steps[0]);
      StepKeepsSound(s, steps[0]);
      RowsNeverReturn(Next(s, steps[0]), steps[1..], id);
    }
  }

  lemma StepAddsFreshRows(s: Sys, step: Step)
    ensures s.nextId <= Next(s, step).nextId
    ensures forall id :: id in Next(s, step).rows ==> id in s.rows || s.nextId <= id
  {
    match step
    case Work(j, answers) => if j in s.jobs { WorkAddsFreshRows(s, j, answers); }
    case Continue(ok) => if !s.opMu.RemoveNext? { ContinueFrame(s, ok); }
    case SweepOn(id, ok) => SweepFrame(s, id, ok);
    case Tick(_) =>
    case PlaceImage(_) =>
    case Reserve(_, _, _, _) =>
    case Import(_, _, _, _) =>
    case Lookup(_, _) =>
    case Unlock(r, ok) => if r in s.requests { RequestFrame(s, r, ok); }
    case Lock(r, ok) => if r in s.requests { RequestFrame(s, r, ok); }
    case Remount(r, ok) => if r in s.requests { RequestFrame(s, r, ok); }
    case Delete(_, _) =>
  }

  lemma WorkAddsFreshRows(s: Sys, j: int, a: Answers)
    requires j in s.jobs
    ensures var s' := WorkStep(s, j, a);
      s.nextId <= s'.nextId && forall id :: id in s'.rows ==> id in s.rows || s.nextId <= id
  {
  }

  /** The sweep is about to lock vault id under the window it read as t. */
  ghost predicate AboutToLock(s: Sys, id: int, t: int) {
    && s.sweep.Found? && s.sweep.id == id && s.sweep.since == Some(t)
    && s.opMu.Free? && Get(s.unlockedAt, id) == Some(t)
  }

  /**
    From any state in which the window stood at t, for instance that of the
    read, up to the lock: the window was never restarted or cleared, and the
    vault was never deleted.
   */
  lemma AutoLockActsOnUntouchedWindow(s: Sys, before: seq<Step>, after: seq<Step>, id: int, t: int)
    requires Sound(s) && OrderlyRun(s, before + after)
    requires Get(s.unlockedAt, id) == Some(t) && id < s.nextId
    requires AboutToLock(After(s, before + after), id, t)
    ensures Get(After(s, before).unlockedAt, id) == Some(t) && id in After(s, before).rows
  {
    var mid := After(s, before);
    AfterInTwo(s, before, after);
    OrderlyInTwo(s, before, after);
    OrderlyRunsStaySound(s, before);
    OrderlyRunsStaySound(mid, after);
    ClockAndIdsGrow(s, before);
    if Get(mid.unlockedAt, id) != Some(t) {
      TimestampsNeverReturn(mid, after, id, t);
    }
    if id !in mid.rows {
      RowsNeverReturn(mid, after, id);
    }
  }

  lemma {:induction false} ClockAndIdsGrow(s: Sys, steps: seq<Step>)
    ensures s.clock <= After(s, steps).clock && s.nextId <= After(s, steps).nextId
    decreases |steps|
  {
    if steps != [] {
      StepMovesWindows(s, steps[0]);
      StepAddsFreshRows(s, steps[0]);
      ClockAndIdsGrow(Next(s, steps[0]), steps[1..]);
    }
  }
}
