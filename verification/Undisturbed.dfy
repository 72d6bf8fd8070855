/**
  What a step does to a vault it is not about: nothing. Device, mount, row and
  window of one vault only move by commands of that vault's own requests, of
  the section that holds opMu for it, and of the sweep that has found it.
 */
module Undisturbed {
  import opened Wrappers
  import opened Names
  import opened Machine
  import opened Lifecycle
  import opened Registry
  import opened Ownership
  import opened Soundness
  import opened Tracking

  /** The step takes a request of this vault. */
  predicate TakesRequest(s: Sys, step: Step, id: int) {
    match step
    case Unlock(r, _) => r in s.requests && s.requests[r].id == id
    case Lock(r, _) => r in s.requests && s.requests[r].id == id
    case Remount(r, _) => r in s.requests && s.requests[r].id == id
    case Delete(r, _) => r in s.requests && s.requests[r].id == id
    case Tick(_) => false
    case PlaceImage(_) => false
    case Reserve(_, _, _, _) => false
    case Work(_, _) => false
    case Import(_, _, _, _) => false
    case Lookup(_, _) => false
    case Continue(_) => false
    case SweepOn(_, _) => false
  }

  /** opMu is held for this vault. */
  predicate HeldFor(section: Section, id: int) {
    !section.Free? && section.id == id
  }

  /** The step is a command about this vault. */
  predicate ActsOn(s: Sys, step: Step, id: int) {
    || TakesRequest(s, step, id)
    || (step.Continue? && HeldFor(s.opMu, id))
    || (step.SweepOn? && s.sweep.Found? && s.sweep.id == id)
  }

  /** Mapper and mount of v are there in both machines or in neither. */
  predicate SameDevice(os: Os, os': Os, v: Vault) {
    && (v.name in os.mappers <==> v.name in os'.mappers)
    && (v.mountPoint in os.mounts <==> v.mountPoint in os'.mounts)
  }

  ghost predicate SameVault(s: Sys, s': Sys, id: int)
    requires id in s.rows
  {
    && id in s'.rows && s'.rows[id] == s.rows[id]
    && SameDevice(s.os, s'.os, s.rows[id])
    && (HeldFor(s'.opMu, id) <==> HeldFor(s.opMu, id))
    && (HeldFor(s.opMu, id) ==> s'.opMu == s.opMu)
  }

  predicate Apart(v: Vault, w: Vault) {
    v.name != w.name && v.mapperName != w.name && v.mountPoint != w.mountPoint
  }

  lemma RowsAreApart(s: Sys, id: int, other: int)
    requires Sound(s) && id in s.rows && other in s.rows && id != other
    ensures Apart(s.rows[other], s.rows[id])
  {
    assert WellNamed(s.rows[id]) && WellNamed(s.rows[other]);
  }

  /** What requests and sections do to the machine touches the vault they are for. */
  lemma VaultCommandsApart(os: Os, v: Vault, w: Vault)
    requires Apart(v, w)
    ensures SameDevice(os, Open(os, v.path, v.mapperName), w)
    ensures SameDevice(os, Close(os, v.mapperName), w)
    ensures SameDevice(os, Mount(os, v.mapperName, v.mountPoint), w)
    ensures SameDevice(os, Umount(os, v.mountPoint), w)
  {
  }

  lemma RequestLeavesVault(s: Sys, r: int, ok: bool, id: int)
    requires Sound(s) && s.opMu.Free? && r in s.requests && s.requests[r].id in s.rows
    requires id in s.rows && s.requests[r].id != id
    ensures SameVault(s, UnlockStep(s, r, ok), id) && SameVault(s, LockStep(s, r, ok), id)
    ensures SameVault(s, RemountStep(s, r, ok), id) && SameVault(s, DeleteStep(s, r, ok), id)
  {
    RowsAreApart(s, id, s.requests[r].id);
    VaultCommandsApart(s.os, s.requests[r].v, s.rows[id]);
  }

  lemma ContinueLeavesVault(s: Sys, ok: bool, id: int)
    requires Sound(s) && id in s.rows && !HeldFor(s.opMu, id)
    ensures SameVault(s, ContinueStep(s, ok), id)
  {
    if !s.opMu.Free? && s.opMu.id in s.rows {
      RowsAreApart(s, id, s.opMu.id);
      VaultCommandsApart(s.os, s.opMu.v, s.rows[id]);
    }
  }

  lemma SweepLeavesVault(s: Sys, k: int, ok: bool, id: int)
    requires Sound(s) && Orderly(s, SweepOn(k, ok)) && id in s.rows && !(s.sweep.Found? && s.sweep.id == id)
    ensures SameVault(s, SweepStep(s, k, ok), id)
  {
    if s.sweep.Found? && s.opMu.Free? && Get(s.unlockedAt, s.sweep.id) == s.sweep.since {
      assert s.sweep.id in s.rows && s.sweep.v == s.rows[s.sweep.id];
      RowsAreApart(s, id, s.sweep.id);
      VaultCommandsApart(s.os, s.sweep.v, s.rows[id]);
    }
  }

  lemma EffectApart(job: Job, os: Os, ok: bool, partial: bool, v: Vault)
    requires job.name != v.name && job.mountPoint != v.mountPoint
    ensures SameDevice(os, Effect(job, os, ok, partial), v)
  {
  }

  lemma WorkLeavesVault(s: Sys, j: int, a: Answers, id: int)
    requires Sound(s) && j in s.jobs && id in s.rows
    ensures SameVault(s, WorkStep(s, j, a), id)
  {
    var job := s.jobs[j];
    if !Shared(job.pc) {
      assert Holders(s.jobs)[j] == HolderOf(job);
      MountPointsApart(s.rows, Holders(s.jobs), id, j);
      var ok := Succeeds(job, s.os, a);
      EffectApart(job, s.os, ok, Partial(job.pc, a), s.rows[id]);
    }
  }

  lemma OutsideLeavesVault(s: Sys, step: Step, id: int)
    requires Sound(s) && id in s.rows
    requires step.Tick? || step.PlaceImage? || step.Reserve? || step.Import? || step.Lookup?
    ensures SameVault(s, Next(s, step), id)
  {
  }

  /** Row, mapper, mount and lock of a vault are left alone by every step that is not about it. */
  lemma OthersLeaveVault(s: Sys, step: Step, id: int)
    requires Sound(s) && Orderly(s, step) && id in s.rows && !ActsOn(s, step, id)
    ensures SameVault(s, Next(s, step), id)
  {
    match step
    case Work(j, a) => if j in s.jobs { WorkLeavesVault(s, j, a, id); }
    case Unlock(r, ok) => if s.opMu.Free? && r in s.requests { RequestLeavesVault(s, r, ok, id); }
    case Lock(r, ok) => if s.opMu.Free? && r in s.requests { RequestLeavesVault(s, r, ok, id); }
    case Remount(r, ok) => if s.opMu.Free? && r in s.requests { RequestLeavesVault(s, r, ok, id); }
    case Delete(r, ok) => if s.opMu.Free? && r in s.requests { RequestLeavesVault(s, r, ok, id); }
    case Continue(ok) => ContinueLeavesVault(s, ok, id);
    case SweepOn(k, ok) => SweepLeavesVault(s, k, ok, id);
    case Tick(_) => OutsideLeavesVault(s, step, id);
    case PlaceImage(_) => OutsideLeavesVault(s, step, id);
    case Reserve(_, _, _, _) => OutsideLeavesVault(s, step, id);
    case Import(_, _, _, _) => OutsideLeavesVault(s, step, id);
    case Lookup(_, _) => OutsideLeavesVault(s, step, id);
  }

  // ---- its window -------------------------------------------------------

  /** The sweep is about to clear this vault's window. */
  predicate BeingCleared(sweep: Sweep, id: int) {
    sweep.Clearing? && sweep.id == id
  }

  lemma UnmarkedWork(s: Sys, j: int, a: Answers)
    requires j in s.jobs && !s.jobs[j].pc.Marking?
    ensures WorkStep(s, j, a).unlockedAt == s.unlockedAt && WorkStep(s, j, a).pendingNames <= s.pendingNames
  {
  }

  lemma WorkLeavesWindow(s: Sys, j: int, a: Answers, id: int)
    requires Sound(s) && MarksOwn(s) && j in s.jobs && id in s.rows && s.rows[id].name !in s.pendingNames
    ensures Get(WorkStep(s, j, a).unlockedAt, id) == Get(s.unlockedAt, id)
    ensures WorkStep(s, j, a).pendingNames <= s.pendingNames
  {
    assert NameInFlight(s.jobs, s.jobs[j].name);
    if !s.jobs[j].pc.Marking? { UnmarkedWork(s, j, a); }
  }

  /** luksClose of a lock or of a sweep: windows, rows and reservations stay, and opMu is on its way out. */
  lemma CloseLeavesWindows(s: Sys, id: int, v: Vault, sweeping: bool, ok: bool)
    ensures
      var s' := CloseStep(s, id, v, sweeping, ok);
      && s'.unlockedAt == s.unlockedAt && s'.pendingNames == s.pendingNames && s'.rows == s.rows && s'.jobs == s.jobs
      && (s'.opMu.Free? || s'.opMu == ClearNext(id, v))
  {
  }

  lemma ContinueLeavesWindow(s: Sys, ok: bool, id: int)
    requires !HeldFor(s.opMu, id)
    ensures Get(ContinueStep(s, ok).unlockedAt, id) == Get(s.unlockedAt, id)
    ensures ContinueStep(s, ok).pendingNames == s.pendingNames
  {
    match s.opMu
    case CloseNext(k, v, sweeping) => CloseLeavesWindows(s, k, v, sweeping, ok);
    case Free =>
    case MountNext(_, _) =>
    case UndoOpen(_, _) =>
    case MarkNext(_, _) =>
    case ClearNext(_, _) =>
    case ForgetNext(_, _) =>
    case RemoveNext(_, _) =>
  }

  lemma SweepLeavesWindow(s: Sys, k: int, ok: bool, id: int)
    requires !BeingCleared(s.sweep, id)
    ensures Get(SweepStep(s, k, ok).unlockedAt, id) == Get(s.unlockedAt, id)
    ensures SweepStep(s, k, ok).pendingNames == s.pendingNames
  {
  }

  lemma RequestLeavesWindow(s: Sys, r: int, ok: bool)
    requires r in s.requests
    ensures UnlockStep(s, r, ok).unlockedAt == s.unlockedAt && UnlockStep(s, r, ok).pendingNames == s.pendingNames
    ensures LockStep(s, r, ok).unlockedAt == s.unlockedAt && LockStep(s, r, ok).pendingNames == s.pendingNames
    ensures RemountStep(s, r, ok).unlockedAt == s.unlockedAt && RemountStep(s, r, ok).pendingNames == s.pendingNames
    ensures DeleteStep(s, r, ok).unlockedAt == s.unlockedAt && DeleteStep(s, r, ok).pendingNames == s.pendingNames
  {
  }

  /** So is its window, once its creation is over and unless the sweep is about to clear it. */
  lemma OthersLeaveWindow(s: Sys, step: Step, id: int)
    requires Sound(s) && MarksOwn(s) && Orderly(s, step) && id in s.rows && s.rows[id].name !in s.pendingNames
    requires !ActsOn(s, step, id) && !(step.SweepOn? && BeingCleared(s.sweep, id))
    ensures Get(Next(s, step).unlockedAt, id) == Get(s.unlockedAt, id)
    ensures s.rows[id].name !in Next(s, step).pendingNames
  {
    match step
    case Work(j, a) => if j in s.jobs { WorkLeavesWindow(s, j, a, id); }
    case Reserve(_, name, _, _) => assert NameTaken(s.rows, s.rows[id].name);
    case Unlock(r, ok) => if r in s.requests { RequestLeavesWindow(s, r, ok); }
    case Lock(r, ok) => if r in s.requests { RequestLeavesWindow(s, r, ok); }
    case Remount(r, ok) => if r in s.requests { RequestLeavesWindow(s, r, ok); }
    case Delete(r, ok) => if r in s.requests { RequestLeavesWindow(s, r, ok); }
    case Continue(ok) => ContinueLeavesWindow(s, ok, id);
    case SweepOn(k, ok) => SweepLeavesWindow(s, k, ok, id);
    case Tick(_) =>
    case PlaceImage(_) =>
    case Import(_, _, _, _) =>
    case Lookup(_, _) =>
  }
}
