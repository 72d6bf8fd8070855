/**
  mkfs runs on /dev/mapper/<name>, so a create formats whatever that name leads
  to. Other creates may use taken names: what matters is this create's own.
 */
module FreshNames {
  import opened Wrappers
  import opened Names
  import opened Machine
  import opened Lifecycle
  import opened Registry
  import opened Ownership
  import opened Soundness
  import opened AutoLockGuard
  import opened Undisturbed

  // ---- at the moment of mkfs --------------------------------------------

  /** mkfs hits a registered vault exactly if the mapper is not that of the create's own image. */
  lemma MkfsHitsVaultIff(s: Sys, j: int)
    requires Registered(s) && MappersOwned(s.os.mappers, s.rows, Holders(s.jobs))
    requires j in s.jobs && s.jobs[j].pc.MakeFs? && s.jobs[j].name in s.os.mappers
    ensures
      var job := s.jobs[j];
      PathTaken(s.rows, s.os.mappers[job.name]) <==> s.os.mappers[job.name] != job.imgPath
    ensures s.os.mappers[s.jobs[j].name] != s.jobs[j].imgPath ==> NameTaken(s.rows, s.jobs[j].name)
  {
    var job, holders := s.jobs[j], Holders(s.jobs);
    var path := s.os.mappers[job.name];
    if path != job.imgPath {
      assert !HolderOpens(holders, job.name, path) by {
        forall i | i in holders && holders[i].opens && holders[i].name == job.name ensures holders[i].imgPath != path {
          assert i == j;
        }
      }
      assert RowOpens(s.rows, job.name, path);
      var id :| id in s.rows && s.rows[id].name == job.name && s.rows[id].path == path;
      assert PathTaken(s.rows, path) && NameTaken(s.rows, job.name);
    }
  }

  // ---- over runs in which names may be taken ----------------------------

  /** Orderly, but that creates may use any name. */
  ghost predicate Findable(s: Sys, step: Step) {
    step.Reserve? || Orderly(s, step)
  }

  ghost predicate FindableRun(s: Sys, steps: seq<Step>)
    decreases |steps|
  {
    steps != [] ==> Findable(s, steps[0]) && FindableRun(Next(s, steps[0]), steps[1..])
  }

  /** opMu's holder works on a row that is there, but for the rest of a delete. */
  ghost predicate SectionHasRow(s: Sys) {
    match s.opMu
    case Free => true
    case ForgetNext(id, _) => id !in s.rows && id < s.nextId
    case RemoveNext(_, _) => true
    case MountNext(id, v) => id in s.rows && s.rows[id] == v
    case UndoOpen(id, v) => id in s.rows && s.rows[id] == v
    case MarkNext(id, v) => id in s.rows && s.rows[id] == v
    case CloseNext(id, v, sweeping) =>
      id in s.rows && s.rows[id] == v && (sweeping ==> s.sweep.Locking? && s.sweep.id == id)
    case ClearNext(id, v) => id in s.rows && s.rows[id] == v
  }

  ghost predicate NamesAgree(s: Sys) {
    && (forall id :: id in s.rows ==> WellNamed(s.rows[id]))
    && (forall j :: j in s.jobs ==> LastSegment(s.jobs[j].mountPoint) == s.jobs[j].name)
  }

  /** What does not depend on the names creates use. */
  ghost predicate Steady(s: Sys) {
    SectionHasRow(s) && SweepSafe(s) && Timestamped(s.unlockedAt, s.clock) && NamesAgree(s)
  }

  lemma SoundIsSteady(s: Sys)
    requires Sound(s)
    ensures Steady(s)
  {
    assert forall j :: j in s.jobs ==> Holders(s.jobs)[j].mountPoint == s.jobs[j].mountPoint;
  }

  lemma SteadyFrame(s: Sys, s': Sys)
    requires Steady(s) && s'.opMu == s.opMu && s'.sweep == s.sweep && RowsExtend(s, s') && WindowsMoveOn(s, s')
    requires NamesAgree(s')
    ensures Steady(s')
  {
  }

  /** A create's commands leave rows, opMu and the sweep alone, and no create changes its name. */
  predicate JobsKept(jobs: map<int, Job>, jobs': map<int, Job>) {
    forall i :: i in jobs' ==> i in jobs && jobs'[i].name == jobs[i].name && jobs'[i].mountPoint == jobs[i].mountPoint
  }

  lemma PipelineKeeps(s: Sys, j: int, a: Answers)
    requires j in s.jobs && !Shared(s.jobs[j].pc)
    ensures
      var s' := CommandStep(s, j, a);
      && s'.rows == s.rows && s'.nextId == s.nextId && s'.opMu == s.opMu && s'.sweep == s.sweep
      && s'.unlockedAt == s.unlockedAt && s'.clock == s.clock && JobsKept(s.jobs, s'.jobs)
  {
  }

  lemma WindDownKeeps(s: Sys, j: int, a: Answers)
    requires j in s.jobs && Shared(s.jobs[j].pc) && !s.jobs[j].pc.Insert?
    ensures
      var s' := WorkStep(s, j, a);
      && s'.rows == s.rows && s'.nextId == s.nextId && s'.opMu == s.opMu && s'.sweep == s.sweep
      && JobsKept(s.jobs, s'.jobs)
  {
  }

  lemma CommandSteady(s: Sys, j: int, a: Answers)
    requires Steady(s) && j in s.jobs && !s.jobs[j].pc.Insert?
    ensures Steady(WorkStep(s, j, a))
  {
    WorkMovesWindows(s, j, a);
    if Shared(s.jobs[j].pc) { WindDownKeeps(s, j, a); } else { PipelineKeeps(s, j, a); }
    SteadyFrame(s, WorkStep(s, j, a));
  }

  lemma InsertSteady(s: Sys, j: int, a: Answers)
    requires Steady(s) && IdsUsed(s.rows, s.nextId) && j in s.jobs && s.jobs[j].pc.Insert?
    ensures Steady(WorkStep(s, j, a))
  {
    SteadyFrame(s, WorkStep(s, j, a));
  }

  lemma ReserveSteady(s: Sys, j: int, name: string, imgPath: string, mountDir: string)
    requires Steady(s)
    ensures Steady(ReserveStep(s, j, name, imgPath, mountDir))
  {
    if IsValidName(name) { MountPointNamesVault(mountDir, name); }
    SteadyFrame(s, ReserveStep(s, j, name, imgPath, mountDir));
  }

  lemma ImportSteady(s: Sys, name: string, path: string, mountDir: string, ok: bool)
    requires Steady(s) && IdsUsed(s.rows, s.nextId)
    ensures Steady(ImportStep(s, name, path, mountDir, ok))
  {
    if IsValidName(name) { MountPointNamesVault(mountDir, name); }
    SteadyFrame(s, ImportStep(s, name, path, mountDir, ok));
  }

  lemma OutsideSteady(s: Sys, step: Step)
    requires Steady(s) && (step.Tick? || step.PlaceImage? || step.Lookup?)
    ensures Steady(Next(s, step))
  {
    SteadyFrame(s, Next(s, step));
  }

  /** opMu changes hands or its holder moves on; rows and creates stay. */
  lemma SteadyMoves(s: Sys, s': Sys)
    requires Steady(s) && s'.sweep == s.sweep && s'.rows == s.rows && s'.nextId == s.nextId && s'.jobs == s.jobs
    requires WindowsMoveOn(s, s') && SectionHasRow(s')
    requires s.sweep.Locking? ==> s'.opMu == s.opMu
    requires s.opMu.ForgetNext? ==> s'.opMu == s.opMu || s.opMu.id !in s'.unlockedAt
    ensures Steady(s')
  {
  }

  lemma RequestSteady(s: Sys, r: int, ok: bool)
    requires Registered(s) && Steady(s) && s.opMu.Free? && r in s.requests && s.requests[r].id in s.rows
    ensures Steady(UnlockStep(s, r, ok)) && Steady(LockStep(s, r, ok)) && Steady(RemountStep(s, r, ok))
  {
    SteadyMoves(s, UnlockStep(s, r, ok));
    SteadyMoves(s, LockStep(s, r, ok));
    SteadyMoves(s, RemountStep(s, r, ok));
  }

  lemma DeleteSteady(s: Sys, r: int, ok: bool)
    requires Registered(s) && Steady(s) && s.opMu.Free? && r in s.requests && s.requests[r].id in s.rows
    ensures Steady(DeleteStep(s, r, ok))
  {
  }

  lemma CloseSteady(s: Sys, id: int, v: Vault, sweeping: bool, ok: bool)
    requires Steady(s) && s.opMu == CloseNext(id, v, sweeping)
    ensures Steady(CloseStep(s, id, v, sweeping, ok))
  {
    var s' := CloseStep(s, id, v, sweeping, ok);
    CloseLeavesWindows(s, id, v, sweeping, ok);
    assert SectionHasRow(s') && SweepSafe(s');
  }

  lemma ContinueSteady(s: Sys, ok: bool)
    requires Steady(s)
    ensures Steady(ContinueStep(s, ok))
  {
    ContinueMovesWindows(s, ok);
    if s.opMu.CloseNext? {
      CloseSteady(s, s.opMu.id, s.opMu.v, s.opMu.sweeping, ok);
    } else if s.opMu.Free? {
    } else {
      SteadyMoves(s, ContinueStep(s, ok));
    }
  }

  lemma SweepLockSteady(s: Sys, ok: bool)
    requires Steady(s) && s.sweep.Found? && s.opMu.Free? && Get(s.unlockedAt, s.sweep.id) == s.sweep.since
    requires s.sweep.since.None? ==> s.sweep.id in s.rows
    ensures Steady(SweepLockStep(s, ok))
  {
    assert s.sweep.id in s.rows && s.rows[s.sweep.id] == s.sweep.v;
  }

  lemma SweepReadSteady(s: Sys, k: int)
    requires Steady(s) && IdsUsed(s.rows, s.nextId) && !s.sweep.Found? && !s.sweep.Clearing?
    ensures Steady(s.(sweep := SweepRead(s, k)))
  {
  }

  lemma SweepClearSteady(s: Sys)
    requires Steady(s) && s.sweep.Clearing?
    ensures Steady(Unmark(s, s.sweep.id).(sweep := Visiting(s.sweep.rest)))
  {
  }

  lemma SweepSteady(s: Sys, k: int, ok: bool)
    requires Registered(s) && Steady(s) && Orderly(s, SweepOn(k, ok))
    ensures Steady(SweepStep(s, k, ok))
  {
    if s.sweep.Found? {
      if s.opMu.Free? && Get(s.unlockedAt, s.sweep.id) == s.sweep.since { SweepLockSteady(s, ok); }
    } else if s.sweep.Clearing? {
      SweepClearSteady(s);
    } else {
      SweepReadSteady(s, k);
    }
  }

  lemma StepKeepsSteady(s: Sys, step: Step)
    requires Registered(s) && Steady(s) && Findable(s, step)
    ensures Steady(Next(s, step))
  {
    match step
    case Work(j, a) =>
      if j in s.jobs { if s.jobs[j].pc.Insert? { InsertSteady(s, j, a); } else { CommandSteady(s, j, a); } }
    case Unlock(r, ok) => if s.opMu.Free? && r in s.requests { RequestSteady(s, r, ok); }
    case Lock(r, ok) => if s.opMu.Free? && r in s.requests { RequestSteady(s, r, ok); }
    case Remount(r, ok) => if s.opMu.Free? && r in s.requests { RequestSteady(s, r, ok); }
    case Delete(r, ok) => if s.opMu.Free? && r in s.requests { DeleteSteady(s, r, ok); }
    case Continue(ok) => ContinueSteady(s, ok);
    case SweepOn(k, ok) => SweepSteady(s, k, ok);
    case Tick(_) => OutsideSteady(s, step);
    case PlaceImage(_) => OutsideSteady(s, step);
    case Reserve(j, name, imgPath, mountDir) => ReserveSteady(s, j, name, imgPath, mountDir);
    case Import(name, path, mountDir, ok) => ImportSteady(s, name, path, mountDir, ok);
    case Lookup(_, _) => OutsideSteady(s, step);
  }

  // ---- one create and its mapper ----------------------------------------

  /** No row has the create's name, and its mapper is its own. */
  ghost predicate OwnName(s: Sys, j: int) {
    && j in s.jobs
    && (Unfinished(s.jobs[j].pc) ==> !NameTaken(s.rows, s.jobs[j].name))
    && (HasMapper(s.jobs[j].pc) ==> Get(s.os.mappers, s.jobs[j].name) == Some(s.jobs[j].imgPath))
  }

  /** Create j goes on, with its name and image, and nobody moves the mapper of its name. */
  ghost predicate LeavesCreate(s: Sys, s': Sys, j: int)
    requires j in s.jobs
  {
    && j in s'.jobs && s'.jobs[j] == s.jobs[j]
    && Get(s'.os.mappers, s.jobs[j].name) == Get(s.os.mappers, s.jobs[j].name)
    && (!NameTaken(s.rows, s.jobs[j].name) ==> !NameTaken(s'.rows, s.jobs[j].name))
  }

  lemma OtherWorkLeaves(s: Sys, i: int, a: Answers, j: int)
    requires Registered(s) && i in s.jobs && j in s.jobs && i != j
    ensures LeavesCreate(s, WorkStep(s, i, a), j)
  {
    assert s.jobs[i].name != s.jobs[j].name;
    if !Shared(s.jobs[i].pc) {
      var ok := Succeeds(s.jobs[i], s.os, a);
      EffectElsewhere(s.jobs[i], s.os, ok, Partial(s.jobs[i].pc, a), s.jobs[j].name);
    }
  }

  lemma EffectElsewhere(job: Job, os: Os, ok: bool, partial: bool, name: string)
    requires job.name != name
    ensures Get(Effect(job, os, ok, partial).mappers, name) == Get(os.mappers, name)
  {
  }

  lemma OutsideLeaves(s: Sys, step: Step, j: int)
    requires Registered(s) && j in s.jobs
    requires step.Tick? || step.PlaceImage? || step.Reserve? || step.Import? || step.Lookup?
    ensures LeavesCreate(s, Next(s, step), j)
  {
    assert NameInFlight(s.jobs, s.jobs[j].name);
  }

  lemma RequestLeaves(s: Sys, r: int, ok: bool, j: int)
    requires Registered(s) && Steady(s) && s.opMu.Free? && r in s.requests && s.requests[r].id in s.rows
    requires j in s.jobs && !NameTaken(s.rows, s.jobs[j].name)
    ensures LeavesCreate(s, UnlockStep(s, r, ok), j) && LeavesCreate(s, LockStep(s, r, ok), j)
    ensures LeavesCreate(s, RemountStep(s, r, ok), j) && LeavesCreate(s, DeleteStep(s, r, ok), j)
  {
    assert s.requests[r].v.mapperName != s.jobs[j].name;
  }

  lemma CloseLeaves(s: Sys, id: int, v: Vault, sweeping: bool, ok: bool, j: int)
    requires j in s.jobs && v.mapperName != s.jobs[j].name
    ensures LeavesCreate(s, CloseStep(s, id, v, sweeping, ok), j)
  {
  }

  lemma ContinueLeaves(s: Sys, ok: bool, j: int)
    requires Steady(s) && j in s.jobs && !NameTaken(s.rows, s.jobs[j].name)
    ensures LeavesCreate(s, ContinueStep(s, ok), j)
  {
    match s.opMu
    case CloseNext(id, v, sweeping) => CloseLeaves(s, id, v, sweeping, ok, j);
    case Free =>
    case MountNext(_, _) =>
    case UndoOpen(_, _) =>
    case MarkNext(_, _) =>
    case ClearNext(_, _) =>
    case ForgetNext(_, _) =>
    case RemoveNext(_, _) =>
  }

  lemma SweepLeaves(s: Sys, k: int, ok: bool, j: int)
    requires j in s.jobs
    ensures LeavesCreate(s, SweepStep(s, k, ok), j)
  {
  }

  /** While the create has not returned, only its own commands matter to it. */
  lemma OthersLeaveCreate(s: Sys, step: Step, j: int)
    requires Registered(s) && Steady(s) && Findable(s, step) && OwnName(s, j) && Unfinished(s.jobs[j].pc)
    requires !(step.Work? && step.job == j)
    ensures LeavesCreate(s, Next(s, step), j)
  {
    match step
    case Work(i, a) => if i in s.jobs { OtherWorkLeaves(s, i, a, j); }
    case Unlock(r, ok) => if s.opMu.Free? && r in s.requests { RequestLeaves(s, r, ok, j); }
    case Lock(r, ok) => if s.opMu.Free? && r in s.requests { RequestLeaves(s, r, ok, j); }
    case Remount(r, ok) => if s.opMu.Free? && r in s.requests { RequestLeaves(s, r, ok, j); }
    case Delete(r, ok) => if s.opMu.Free? && r in s.requests { RequestLeaves(s, r, ok, j); }
    case Continue(ok) => ContinueLeaves(s, ok, j);
    case SweepOn(k, ok) => SweepLeaves(s, k, ok, j);
    case Tick(_) => OutsideLeaves(s, step, j);
    case PlaceImage(_) => OutsideLeaves(s, step, j);
    case Reserve(_, _, _, _) => OutsideLeaves(s, step, j);
    case Import(_, _, _, _) => OutsideLeaves(s, step, j);
    case Lookup(_, _) => OutsideLeaves(s, step, j);
  }

  lemma OwnEffect(job: Job, os: Os, ok: bool, partial: bool)
    requires !Shared(job.pc) && (job.pc.OpenDevice? && ok ==> CanOpen(os, job.imgPath, job.name))
    requires HasMapper(job.pc) ==> Get(os.mappers, job.name) == Some(job.imgPath)
    ensures
      HasMapper(NextPc(job.pc, ok)) ==> Get(Effect(job, os, ok, partial).mappers, job.name) == Some(job.imgPath)
  {
  }

  lemma OwnCommandKeepsName(s: Sys, j: int, a: Answers)
    requires OwnName(s, j) && Unfinished(s.jobs[j].pc)
    ensures OwnName(WorkStep(s, j, a), j)
  {
    var job := s.jobs[j];
    if job.pc.Insert? {
      OwnInsertKeepsName(s, j, a.insert);
    } else {
      var ok := Succeeds(job, s.os, a);
      OwnEffect(job, s.os, ok, Partial(job.pc, a));
      PipelineKeeps(s, j, a);
      StaysFinished(job.pc, ok);
    }
  }

  lemma OwnInsertKeepsName(s: Sys, j: int, ok: bool)
    requires OwnName(s, j) && s.jobs[j].pc.Insert?
    ensures OwnName(InsertStep(s, j, ok), j)
  {
  }

  lemma StepKeepsName(s: Sys, step: Step, j: int)
    requires Registered(s) && Steady(s) && Findable(s, step) && OwnName(s, j) && Unfinished(s.jobs[j].pc)
    ensures OwnName(Next(s, step), j)
  {
    if step.Work? && step.job == j {
      OwnCommandKeepsName(s, j, step.answers);
    } else {
      OthersLeaveCreate(s, step, j);
    }
  }

  /** In every state of the run, create j has not returned from vault.Create. */
  ghost predicate StillCreating(s: Sys, steps: seq<Step>, j: int)
    decreases |steps|
  {
    j in s.jobs && Unfinished(s.jobs[j].pc) && (steps != [] ==> StillCreating(Next(s, steps[0]), steps[1..], j))
  }

  lemma {:induction false} NameStaysOwn(s: Sys, steps: seq<Step>, j: int)
    requires Registered(s) && Steady(s) && FindableRun(s, steps) && OwnName(s, j) && StillCreating(s, steps, j)
    ensures Registered(After(s, steps)) && OwnName(After(s, steps), j)
    decreases |steps|
  {
    if steps != [] {
      OrderlyDeletesOf(s, steps[0]);
      StepKeepsRegistry(s, steps[0]);
      StepKeepsSteady(s, steps[0]);
      StepKeepsName(s, steps[0], j);
      NameStaysOwn(Next(s, steps[0]), steps[1..], j);
    }
  }

  lemma OrderlyDeletesOf(s: Sys, step: Step)
    requires Findable(s, step)
    ensures DeletePresent(s, step)
  {
  }

  /**
    Whatever names other creates use: a create whose name had no row when it was
    reserved formats its own image and no other, in every run.
   */
  lemma FreshCreateFormatsItsOwn(s: Sys, steps: seq<Step>, j: int)
    requires Registered(s) && Steady(s) && FindableRun(s, steps)
    requires j in s.jobs && s.jobs[j].pc.Reserved? && !NameTaken(s.rows, s.jobs[j].name) && StillCreating(s, steps, j)
    ensures
      var end := After(s, steps);
      j in end.jobs &&
      var job := end.jobs[j];
      && (job.pc.MakeFs? ==> Get(end.os.mappers, job.name) == Some(job.imgPath))
      && (job.pc.Format? || job.pc.MakeFs? ==> job.imgPath in end.os.files && !PathTaken(end.rows, job.imgPath))
  {
    NameStaysOwn(s, steps, j);
  }

  /** From a sound state, for instance one in which the server starts, by way of the reservation. */
  lemma ReservedCreateFormatsItsOwn(s: Sys, j: int, name: string, imgPath: string, mountDir: string, steps: seq<Step>)
    requires Sound(s) && !NameTaken(s.rows, name) && j !in s.jobs
    requires
      var reserved := ReserveStep(s, j, name, imgPath, mountDir);
      j in reserved.jobs && FindableRun(reserved, steps) && StillCreating(reserved, steps, j)
    ensures
      var end := After(ReserveStep(s, j, name, imgPath, mountDir), steps);
      j in end.jobs &&
      var job := end.jobs[j];
      && (job.pc.MakeFs? ==> Get(end.os.mappers, job.name) == Some(job.imgPath))
      && (job.pc.Format? || job.pc.MakeFs? ==> job.imgPath in end.os.files && !PathTaken(end.rows, job.imgPath))
  {
    SoundIsSteady(s);
    ReserveSteady(s, j, name, imgPath, mountDir);
    ReserveKeeps(s, j, name, imgPath, mountDir);
    FreshCreateFormatsItsOwn(ReserveStep(s, j, name, imgPath, mountDir), steps, j);
  }
}
