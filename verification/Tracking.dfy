/**
  Auto-lock windows over whole runs: which unlocked vaults have a window, and
  which windows the sweep may act on.
 */
module Tracking {
  import opened Wrappers
  import opened Names
  import opened Machine
  import opened Lifecycle
  import opened Registry
  import opened Ownership
  import opened Soundness

  /** opMu is held by an unlock of this row that has not yet marked it. */
  predicate BeingUnlocked(section: Section, id: int) {
    (section.MountNext? || section.UndoOpen? || section.MarkNext?) && section.id == id
  }

  /** The row is there and its mapper is open. */
  predicate RowOpen(s: Sys, id: int) {
    id in s.rows && s.rows[id].name in s.os.mappers
  }

  /** An unlocked vault has a window, or its creation has not ended, or its unlock has not. */
  ghost predicate Tracked(s: Sys) {
    forall id :: RowOpen(s, id) ==>
      id in s.unlockedAt || s.rows[id].name in s.pendingNames || BeingUnlocked(s.opMu, id)
  }

  /** A creation about to end has marked its vault, unless that is locked. */
  ghost predicate ReleaseTracked(s: Sys) {
    forall j, id :: j in s.jobs && s.jobs[j].pc.Releasing? && RowOpen(s, id) ==>
      s.rows[id].name != s.jobs[j].name || id in s.unlockedAt || BeingUnlocked(s.opMu, id)
  }

  /** A creation marks the row of its own name, and no other. */
  ghost predicate MarksOwn(s: Sys) {
    forall j, id :: j in s.jobs && s.jobs[j].pc.Marking? && id in s.rows ==>
      (s.rows[id].name == s.jobs[j].name <==> s.jobs[j].pc.id == id)
  }

  /** A window about to be cleared is that of a locked vault, or of none; a failed mount left none behind. */
  ghost predicate ClearsLocked(s: Sys) {
    && (s.opMu.ClearNext? ==> !RowOpen(s, s.opMu.id))
    && (s.sweep.Clearing? ==> !RowOpen(s, s.sweep.id))
    && (s.opMu.MountNext? || s.opMu.UndoOpen? ==> s.opMu.v.mountPoint !in s.os.mounts)
  }

  /** No window is kept for an id that has not been handed out yet. */
  ghost predicate IdsKnown(s: Sys) {
    && (forall id :: id in s.unlockedAt ==> id < s.nextId)
    && (forall j :: j in s.jobs && s.jobs[j].pc.Marking? ==> s.jobs[j].pc.id < s.nextId)
    && (s.sweep.Visiting? || s.sweep.Seen? || s.sweep.Found? || s.sweep.Locking? || s.sweep.Clearing? ==>
          forall id :: id in s.sweep.rest ==> id < s.nextId)
    && (s.sweep.Seen? || s.sweep.Found? || s.sweep.Locking? || s.sweep.Clearing? ==> s.sweep.id < s.nextId)
  }

  ghost predicate Windowed(s: Sys) {
    Tracked(s) && ReleaseTracked(s) && MarksOwn(s) && ClearsLocked(s) && IdsKnown(s)
  }

  /** No unlock starts between autoLockVault's release of opMu and its clearUnlocked. */
  predicate NotLate(s: Sys, step: Step) {
    step.Unlock? && step.req in s.requests && s.sweep.Clearing? ==> s.requests[step.req].id != s.sweep.id
  }

  /** What is mounted on a row's mount point stands on the row's own mapper. */
  lemma MountedIsMapped(s: Sys, id: int)
    requires Sound(s) && id in s.rows
    ensures s.rows[id].mountPoint in s.os.mounts ==>
      s.os.mounts[s.rows[id].mountPoint] == s.rows[id].name && s.rows[id].name in s.os.mappers
  {
  }

  lemma OpenIsUnlocked(s: Sys, id: int)
    requires Sound(s) && id in s.rows
    ensures RowOpen(s, id) <==> IsUnlocked(s.os, s.rows[id])
  {
    MountedIsMapped(s, id);
  }

  /** A step that opens no row's mapper, takes no open vault's window away and moves no create to its end. */
  lemma QuietStep(s: Sys, s': Sys)
    requires Windowed(s) && s.nextId <= s'.nextId
    requires forall id :: id in s'.rows ==> id in s.rows && s'.rows[id] == s.rows[id]
    requires forall id :: RowOpen(s', id) ==> RowOpen(s, id)
    requires forall id :: RowOpen(s', id) && id in s.unlockedAt ==> id in s'.unlockedAt
    requires s.pendingNames <= s'.pendingNames
    requires forall id :: id in s'.unlockedAt ==> id < s'.nextId
    requires forall j :: j in s'.jobs && (s'.jobs[j].pc.Releasing? || s'.jobs[j].pc.Marking?) ==>
      j in s.jobs && s'.jobs[j] == s.jobs[j]
    requires forall id :: RowOpen(s', id) && BeingUnlocked(s.opMu, id) ==>
      BeingUnlocked(s'.opMu, id) || id in s'.unlockedAt
    requires s'.opMu.ClearNext? ==> !RowOpen(s', s'.opMu.id)
    requires s'.opMu.MountNext? || s'.opMu.UndoOpen? ==> s'.opMu.v.mountPoint !in s'.os.mounts
    requires s'.sweep.Clearing? ==> !RowOpen(s', s'.sweep.id)
    requires IdsKnown(s')
    ensures Windowed(s')
  {
  }

  // ---- the creates ------------------------------------------------------

  lemma CommandOpensNoRow(s: Sys, j: int, a: Answers)
    requires Sound(s) && j in s.jobs && !Shared(s.jobs[j].pc)
    ensures
      var s' := CommandStep(s, j, a);
      && (forall id :: RowOpen(s', id) ==> RowOpen(s, id))
      && (s.opMu.MountNext? || s.opMu.UndoOpen? ==>
            s.opMu.v.mountPoint in s'.os.mounts ==> s.opMu.v.mountPoint in s.os.mounts)
  {
    var job := s.jobs[j];
    var ok := Succeeds(job, s.os, a);
    OpensOwnOnly(job, s.os, ok, Partial(job.pc, a));
    MountsOwnOnly(job, s.os, ok, Partial(job.pc, a));
    assert Holders(s.jobs)[j] == HolderOf(job);
    forall id | id in s.rows && Unfinished(job.pc)
      ensures s.rows[id].name != job.name && s.rows[id].mountPoint != job.mountPoint
    {
      MountPointsApart(s.rows, Holders(s.jobs), id, j);
    }
  }

  lemma MountsOwnOnly(job: Job, os: Os, ok: bool, partial: bool)
    ensures Effect(job, os, ok, partial).mounts.Keys <= os.mounts.Keys + {job.mountPoint}
  {
  }

  lemma CommandPc(pc: Pc, ok: bool)
    requires !Shared(pc)
    ensures !NextPc(pc, ok).Marking? && (NextPc(pc, ok).Releasing? ==> pc.Reserved?)
  {
  }

  /** Only a create that never started goes straight to its release, and no row has its name. */
  lemma NeverStartedWindowed(s: Sys, j: int, a: Answers)
    requires Sound(s) && Windowed(s) && j in s.jobs && s.jobs[j].pc.Reserved?
    ensures Windowed(CommandStep(s, j, a))
  {
    var s' := CommandStep(s, j, a);
    assert Holders(s.jobs)[j].unfinished && !NameTaken(s.rows, s.jobs[j].name);
    assert s'.os == s.os;
    assert forall i :: i in s'.jobs && i != j ==> s'.jobs[i] == s.jobs[i];
  }

  lemma QuietCommandWindowed(s: Sys, s': Sys, j: int, pc: Pc)
    requires Windowed(s) && j in s.jobs && !pc.Releasing? && !pc.Marking?
    requires s' == GotoWith(s, j, s'.os, pc)
    requires forall id :: RowOpen(s', id) ==> RowOpen(s, id)
    requires s.opMu.MountNext? || s.opMu.UndoOpen? ==>
      s.opMu.v.mountPoint in s'.os.mounts ==> s.opMu.v.mountPoint in s.os.mounts
    ensures Windowed(s')
  {
    assert forall i :: i in s'.jobs && i != j ==> s'.jobs[i] == s.jobs[i];
    QuietStep(s, s');
  }

  lemma CommandWindowed(s: Sys, j: int, a: Answers)
    requires Sound(s) && Windowed(s) && j in s.jobs && !Shared(s.jobs[j].pc)
    ensures Windowed(CommandStep(s, j, a))
  {
    if s.jobs[j].pc.Reserved? {
      NeverStartedWindowed(s, j, a);
    } else {
      var s' := CommandStep(s, j, a);
      CommandOpensNoRow(s, j, a);
      CommandPc(s.jobs[j].pc, Succeeds(s.jobs[j], s.os, a));
      QuietCommandWindowed(s, s', j, s'.jobs[j].pc);
    }
  }

  lemma InsertedWindowed(s: Sys, j: int)
    requires PendingExact(s.jobs, s.pendingNames, s.pendingPaths) && JobsDistinct(s.jobs) && IdsUsed(s.rows, s.nextId)
    requires SectionSafe(s) && Windowed(s) && j in s.jobs && s.jobs[j].pc.Insert?
    ensures Windowed(Inserted(s, j))
  {
    var s', name := Inserted(s, j), s.jobs[j].name;
    assert NameInFlight(s.jobs, name);
    assert forall i :: i in s'.jobs && i != j ==> s'.jobs[i] == s.jobs[i] && s.jobs[i].name != name;
    assert forall id :: id in s'.rows && id != s.nextId ==> id in s.rows && s'.rows[id] == s.rows[id];
  }

  /** GetVaultByName finds the one row of that name, if there is one. */
  lemma IdOfFinds(rows: map<int, Vault>, name: string, id: int)
    requires RowsDistinct(rows) && id in rows && rows[id].name == name
    ensures IdOf(rows, name) == Some(id)
  {
  }

  lemma FinishWindowed(s: Sys, j: int)
    requires Sound(s) && Windowed(s) && j in s.jobs && s.jobs[j].pc.Finished?
    ensures Windowed(FinishStep(s, j))
  {
    var s', name := FinishStep(s, j), s.jobs[j].name;
    forall id | id in s.rows && s.rows[id].name == name ensures IdOf(s.rows, name) == Some(id) {
      IdOfFinds(s.rows, name, id);
    }
    if found :| IdOf(s.rows, name) == Some(found) { OpenIsUnlocked(s, found); }
    assert forall i :: i in s'.jobs && i != j ==> s'.jobs[i] == s.jobs[i];
  }

  lemma MarkingWindowed(s: Sys, j: int)
    requires Sound(s) && Windowed(s) && j in s.jobs && s.jobs[j].pc.Marking?
    ensures Windowed(Mark(Goto(s, j, Releasing), s.jobs[j].pc.id))
  {
    var s' := Mark(Goto(s, j, Releasing), s.jobs[j].pc.id);
    assert forall i :: i in s'.jobs && i != j ==> s'.jobs[i] == s.jobs[i];
  }

  lemma ReleaseWindowed(s: Sys, j: int)
    requires Sound(s) && Windowed(s) && j in s.jobs && s.jobs[j].pc.Releasing?
    ensures Windowed(ReleaseStep(s, j))
  {
  }

  lemma WorkWindowed(s: Sys, j: int, a: Answers)
    requires Sound(s) && Windowed(s) && j in s.jobs
    ensures Windowed(WorkStep(s, j, a))
  {
    if s.jobs[j].pc.Insert? {
      InsertedWindowed(s, j);
      QuietCommandWindowed(s, Goto(s, j, UndoUmount), j, UndoUmount);
    } else if s.jobs[j].pc.Finished? {
      FinishWindowed(s, j);
    } else if s.jobs[j].pc.Marking? {
      MarkingWindowed(s, j);
    } else if s.jobs[j].pc.Releasing? {
      ReleaseWindowed(s, j);
    } else {
      CommandWindowed(s, j, a);
    }
  }

  // ---- sections under opMu, and the sweep -------------------------------

  lemma ReserveWindowed(s: Sys, j: int, name: string, imgPath: string, mountDir: string)
    requires Windowed(s)
    ensures Windowed(ReserveStep(s, j, name, imgPath, mountDir))
  {
    QuietStep(s, ReserveStep(s, j, name, imgPath, mountDir));
  }

  lemma ImportWindowed(s: Sys, name: string, path: string, mountDir: string, ok: bool)
    requires Sound(s) && Windowed(s)
    ensures Windowed(ImportStep(s, name, path, mountDir, ok))
  {
    var s' := ImportStep(s, name, path, mountDir, ok);
    if s' != s {
      assert forall j :: j in s.jobs ==> NameInFlight(s.jobs, s.jobs[j].name);
      assert forall id :: id in s'.rows && id != s.nextId ==> id in s.rows && s'.rows[id] == s.rows[id];
      assert !RowOpen(s', s.nextId);
    }
  }

  lemma UnlockWindowed(s: Sys, r: int, ok: bool)
    requires Sound(s) && Windowed(s) && s.opMu.Free? && r in s.requests && s.requests[r].id in s.rows
    requires NotLate(s, Unlock(r, ok))
    ensures Windowed(UnlockStep(s, r, ok))
  {
    var s' := UnlockStep(s, r, ok);
    if s'.opMu.Free? {
      QuietStep(s, s');
    } else {
      OpenedWindowed(s, s', s.requests[r].id, s.requests[r].v);
    }
  }

  /** unlockWith opened one row's mapper and will mark it. */
  lemma OpenedWindowed(s: Sys, s': Sys, id: int, v: Vault)
    requires Windowed(s) && RowsDistinct(s.rows) && s.opMu.Free? && id in s.rows && s.rows[id] == v
    requires s' == s.(requests := s'.requests, os := s'.os, opMu := MountNext(id, v))
    requires s'.os.mappers.Keys == s.os.mappers.Keys + {v.name} && v.mountPoint !in s'.os.mounts
    requires s.sweep.Clearing? ==> s.sweep.id != id
    ensures Windowed(s')
  {
    assert forall i :: i in s.rows && i != id ==> s.rows[i].name != v.name;
  }

  lemma LockWindowed(s: Sys, r: int, ok: bool)
    requires Windowed(s) && s.opMu.Free? && r in s.requests
    ensures Windowed(LockStep(s, r, ok))
  {
    QuietStep(s, LockStep(s, r, ok));
  }

  lemma RemountWindowed(s: Sys, r: int, ok: bool)
    requires Windowed(s) && s.opMu.Free? && r in s.requests
    ensures Windowed(RemountStep(s, r, ok))
  {
    QuietStep(s, RemountStep(s, r, ok));
  }

  lemma DeleteWindowed(s: Sys, r: int, ok: bool)
    requires Windowed(s) && s.opMu.Free? && r in s.requests
    ensures Windowed(DeleteStep(s, r, ok))
  {
    QuietStep(s, DeleteStep(s, r, ok));
  }

  /** After luksClose went through, the vault is locked. */
  lemma CloseLocks(s: Sys, id: int)
    requires Sound(s) && id in s.rows
    ensures
      var os' := Close(s.os, s.rows[id].mapperName);
      && (CanClose(s.os, s.rows[id].mapperName) ==> s.rows[id].name !in os'.mappers)
      && (s.rows[id].mountPoint !in s.os.mounts ==> s.rows[id].name !in os'.mappers)
      && (forall i :: i in s.rows && s.rows[i].name in os'.mappers ==> s.rows[i].name in s.os.mappers)
  {
    if s.rows[id].mountPoint !in s.os.mounts {
      NothingMounted(s, id);
    }
  }

  lemma NothingMounted(s: Sys, id: int)
    requires Sound(s) && id in s.rows && s.rows[id].mountPoint !in s.os.mounts
    ensures forall mp :: mp in s.os.mounts ==> s.os.mounts[mp] != s.rows[id].name
  {
    assert NameTaken(s.rows, s.rows[id].name);
    assert forall mp :: mp in s.os.mounts && s.os.mounts[mp] == s.rows[id].name ==>
      RowMounts(s.rows, s.rows[id].name, mp);
  }

  lemma CloseWindowed(s: Sys, id: int, v: Vault, sweeping: bool, ok: bool)
    requires Sound(s) && Windowed(s) && s.opMu == CloseNext(id, v, sweeping)
    ensures Windowed(CloseStep(s, id, v, sweeping, ok))
  {
    CloseLocks(s, id);
    QuietStep(s, CloseStep(s, id, v, sweeping, ok));
  }

  lemma UnlockingWindowed(s: Sys, ok: bool)
    requires Sound(s) && Windowed(s) && (s.opMu.MountNext? || s.opMu.UndoOpen? || s.opMu.MarkNext?)
    ensures Windowed(ContinueStep(s, ok))
  {
    CloseLocks(s, s.opMu.id);
    QuietStep(s, ContinueStep(s, ok));
  }

  lemma ClosingWindowed(s: Sys, ok: bool)
    requires SectionSafe(s) && Windowed(s) && (s.opMu.ClearNext? || s.opMu.ForgetNext? || s.opMu.RemoveNext?)
    ensures Windowed(ContinueStep(s, ok))
  {
    QuietStep(s, ContinueStep(s, ok));
  }

  lemma ContinueWindowed(s: Sys, ok: bool)
    requires Sound(s) && Windowed(s)
    ensures Windowed(ContinueStep(s, ok))
  {
    match s.opMu
    case Free =>
    case CloseNext(id, v, sweeping) => CloseWindowed(s, id, v, sweeping, ok);
    case MountNext(_, _) => UnlockingWindowed(s, ok);
    case UndoOpen(_, _) => UnlockingWindowed(s, ok);
    case MarkNext(_, _) => UnlockingWindowed(s, ok);
    case ClearNext(_, _) => ClosingWindowed(s, ok);
    case ForgetNext(_, _) => ClosingWindowed(s, ok);
    case RemoveNext(_, _) => ClosingWindowed(s, ok);
  }

  lemma SweepTryWindowed(s: Sys, ok: bool)
    requires Sound(s) && Windowed(s) && s.sweep.Found?
    requires s.opMu.Free? && s.sweep.since.None? && s.sweep.id !in s.unlockedAt ==> s.sweep.id in s.rows
    ensures Windowed(SweepTryStep(s, ok))
  {
    var id := s.sweep.id;
    if id in s.rows { OpenIsUnlocked(s, id); }
    QuietStep(s, SweepTryStep(s, ok));
  }

  lemma SweepReadWindowed(s: Sys, id: int)
    requires Windowed(s) && !s.sweep.Found? && !s.sweep.Clearing?
    ensures Windowed(s.(sweep := SweepRead(s, id)))
  {
    QuietStep(s, s.(sweep := SweepRead(s, id)));
  }

  lemma SweepWindowed(s: Sys, id: int, ok: bool)
    requires Sound(s) && Windowed(s) && Orderly(s, SweepOn(id, ok))
    ensures Windowed(SweepStep(s, id, ok))
  {
    if s.sweep.Found? {
      SweepTryWindowed(s, ok);
    } else if s.sweep.Clearing? {
      QuietStep(s, SweepStep(s, id, ok));
    } else {
      SweepReadWindowed(s, id);
    }
  }

  // ---- whole runs -------------------------------------------------------

  lemma IdleWindowed(s: Sys, step: Step)
    requires Windowed(s) && (step.Tick? || step.PlaceImage? || step.Lookup?)
    ensures Windowed(Next(s, step))
  {
    QuietStep(s, Next(s, step));
  }

  lemma StepKeepsWindowed(s: Sys, step: Step)
    requires Sound(s) && Windowed(s) && Orderly(s, step) && NotLate(s, step)
    ensures Windowed(Next(s, step))
  {
    match step
    case Tick(_) => IdleWindowed(s, step);
    case PlaceImage(_) => IdleWindowed(s, step);
    case Reserve(j, name, imgPath, mountDir) => ReserveWindowed(s, j, name, imgPath, mountDir);
    case Work(j, answers) => if j in s.jobs { WorkWindowed(s, j, answers); }
    case Import(name, path, mountDir, ok) => ImportWindowed(s, name, path, mountDir, ok);
    case Lookup(_, _) => IdleWindowed(s, step);
    case Unlock(r, ok) => if s.opMu.Free? && r in s.requests { UnlockWindowed(s, r, ok); }
    case Lock(r, ok) => if s.opMu.Free? && r in s.requests { LockWindowed(s, r, ok); }
    case Remount(r, ok) => if s.opMu.Free? && r in s.requests { RemountWindowed(s, r, ok); }
    case Delete(r, ok) => if s.opMu.Free? && r in s.requests { DeleteWindowed(s, r, ok); }
    case Continue(ok) => ContinueWindowed(s, ok);
    case SweepOn(id, ok) => SweepWindowed(s, id, ok);
  }

  ghost predicate TimelyRun(s: Sys, steps: seq<Step>)
    decreases |steps|
  {
    steps != [] ==>
      && Orderly(s, steps[0]) && NotLate(s, steps[0])
      && TimelyRun(Next(s, steps[0]), steps[1..])
  }

  lemma {:induction false} TimelyInTwo(s: Sys, first: seq<Step>, second: seq<Step>)
    ensures TimelyRun(s, first + second) <==> TimelyRun(s, first) && TimelyRun(After(s, first), second)
    decreases |first|
  {
    if first == [] {
      assert first + second == second;
    } else {
      assert (first + second)[0] == first[0] && (first + second)[1..] == first[1..] + second;
      TimelyInTwo(Next(s, first[0]), first[1..], second);
    }
  }

  lemma {:induction false} TimelyRunsStayWindowed(s: Sys, steps: seq<Step>)
    requires Sound(s) && Windowed(s) && TimelyRun(s, steps)
    ensures Sound(After(s, steps)) && Windowed(After(s, steps))
    decreases |steps|
  {
    if steps != [] {
      StepKeepsSound(s, steps[0]);
      StepKeepsWindowed(s, steps[0]);
      TimelyRunsStayWindowed(Next(s, steps[0]), steps[1..]);
    }
  }

  /** Whenever opMu is free, every unlocked vault has a window or its creation is not over. */
  lemma UnlockedVaultsAreTracked(s: Sys, steps: seq<Step>, id: int)
    requires Sound(s) && Windowed(s) && TimelyRun(s, steps)
    requires var end := After(s, steps); end.opMu.Free? && id in end.rows && IsUnlocked(end.os, end.rows[id])
    ensures var end := After(s, steps); id in end.unlockedAt || end.rows[id].name in end.pendingNames
  {
    TimelyRunsStayWindowed(s, steps);
    OpenIsUnlocked(After(s, steps), id);
  }

  /** autoLockVault's last clear keeps every vault tracked exactly when no unlock of that vault came before it. */
  lemma LateClearIff(s: Sys, id: int, ok: bool)
    requires Tracked(s) && s.sweep.Clearing?
    ensures
      var cleared := s.sweep.id;
      var accounted := RowOpen(s, cleared) ==> s.rows[cleared].name in s.pendingNames || BeingUnlocked(s.opMu, cleared);
      Tracked(Next(s, SweepOn(id, ok))) <==> accounted
  {
    var s', cleared := Next(s, SweepOn(id, ok)), s.sweep.id;
    assert RowOpen(s', cleared) <==> RowOpen(s, cleared);
    assert forall i :: RowOpen(s', i) ==> RowOpen(s, i);
  }
}
