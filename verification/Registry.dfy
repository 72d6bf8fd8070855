/**
  What every run keeps about identities: reservations are exactly those of the
  creates in flight, no two vaults share an image, and no row is a ghost.
 */
module Registry {
  import opened Wrappers
  import opened Machine
  import opened Lifecycle

  /** From its stat check until its insert or its rollback, a create owns its image path. */
  predicate Claims(pc: Pc) {
    || pc.StatMapper? || pc.Fallocate? || pc.ClearPartial? || pc.Dd? || pc.Format? || pc.OpenDevice?
    || pc.MakeFs? || pc.MakeMountDir? || pc.MountFs? || pc.Chmod? || pc.Insert?
    || pc.UndoUmount? || pc.UndoClose? || pc.UndoRemove?
  }

  ghost predicate NameInFlight(jobs: map<int, Job>, name: string) {
    exists j :: j in jobs && jobs[j].name == name
  }

  ghost predicate PathInFlight(jobs: map<int, Job>, path: string) {
    exists j :: j in jobs && jobs[j].imgPath == path
  }

  /** pendingNames and pendingPaths are exactly the identities of the creates in flight. */
  ghost predicate PendingExact(jobs: map<int, Job>, names: set<string>, paths: set<string>) {
    && (forall name :: name in names <==> NameInFlight(jobs, name))
    && (forall path :: path in paths <==> PathInFlight(jobs, path))
  }

  ghost predicate JobsDistinct(jobs: map<int, Job>) {
    forall i, j :: i in jobs && j in jobs && i != j
      ==> jobs[i].name != jobs[j].name && jobs[i].imgPath != jobs[j].imgPath
  }

  ghost predicate RowsDistinct(rows: map<int, Vault>) {
    forall a, b :: a in rows && b in rows && a != b ==> rows[a].name != rows[b].name && rows[a].path != rows[b].path
  }

  /** Row ids stay below the AUTOINCREMENT counter, so no id is handed out twice. */
  ghost predicate IdsUsed(rows: map<int, Vault>, nextId: int) {
    forall id :: id in rows ==> id < nextId
  }

  /** What a request looked up is what its id still stands for, if the row is there at all. */
  ghost predicate RequestsAgree(requests: map<int, Request>, rows: map<int, Vault>, nextId: int) {
    forall r :: r in requests
      ==> requests[r].id < nextId && (requests[r].id in rows ==> rows[requests[r].id] == requests[r].v)
  }

  /** No ghosts: the image of every row exists. */
  ghost predicate NoGhosts(rows: map<int, Vault>, files: set<string>) {
    forall id :: id in rows ==> rows[id].path in files
  }

  /** A create that may still remove its image path owns it alone. */
  ghost predicate ClaimsExclusive(jobs: map<int, Job>, rows: map<int, Vault>) {
    forall j :: j in jobs && Claims(jobs[j].pc) ==> !PathTaken(rows, jobs[j].imgPath)
  }

  /** From the end of its allocation until its rollback removes it, a create's image exists. */
  predicate HasFile(pc: Pc) {
    || pc.Format? || pc.OpenDevice? || pc.MakeFs? || pc.MakeMountDir? || pc.MountFs? || pc.Chmod? || pc.Insert?
    || pc.UndoUmount? || pc.UndoClose?
  }

  ghost predicate ImagesBuilt(jobs: map<int, Job>, files: set<string>) {
    forall j :: j in jobs && HasFile(jobs[j].pc) ==> jobs[j].imgPath in files
  }

  /** An image no row and no create refers to. */
  ghost predicate Unclaimed(path: string, jobs: map<int, Job>, rows: map<int, Vault>, files: set<string>) {
    && path in files
    && !PathTaken(rows, path)
    && forall j :: j in jobs && Claims(jobs[j].pc) ==> jobs[j].imgPath != path
  }

  predicate Deleting(section: Section) {
    section.ForgetNext? || section.RemoveNext?
  }

  ghost predicate Registered(s: Sys) {
    && PendingExact(s.jobs, s.pendingNames, s.pendingPaths)
    && JobsDistinct(s.jobs)
    && RowsDistinct(s.rows)
    && IdsUsed(s.rows, s.nextId)
    && RequestsAgree(s.requests, s.rows, s.nextId)
    && NoGhosts(s.rows, s.os.files)
    && ClaimsExclusive(s.jobs, s.rows)
    && ImagesBuilt(s.jobs, s.os.files)
    && (Deleting(s.opMu) ==> Unclaimed(s.opMu.v.path, s.jobs, s.rows, s.os.files))
  }

  /** The row a delete acts on is still there when it takes opMu. */
  predicate DeletePresent(s: Sys, step: Step) {
    step.Delete? && step.req in s.requests ==> s.requests[step.req].id in s.rows
  }

  ghost predicate Fewer(requests': map<int, Request>, requests: map<int, Request>) {
    forall r :: r in requests' ==> r in requests && requests'[r] == requests[r]
  }

  /** s' has the identities of s: only mappers, mounts, windows and finished requests may differ. */
  ghost predicate SameIdentities(s: Sys, s': Sys) {
    && s'.jobs == s.jobs && s'.rows == s.rows && s'.nextId == s.nextId
    && s'.pendingNames == s.pendingNames && s'.pendingPaths == s.pendingPaths
    && s.os.files <= s'.os.files
    && Fewer(s'.requests, s.requests)
    && (Deleting(s'.opMu) ==> Deleting(s.opMu) && s'.opMu.v == s.opMu.v)
  }

  lemma FrameKeeps(s: Sys, s': Sys)
    requires Registered(s) && SameIdentities(s, s')
    ensures Registered(s')
  {
  }

  // ---- the creates ------------------------------------------------------

  lemma AddJobKeepsIdentities(jobs: map<int, Job>, j: int, job: Job, names: set<string>, paths: set<string>)
    requires PendingExact(jobs, names, paths) && JobsDistinct(jobs)
    requires j !in jobs && job.name !in names && job.imgPath !in paths
    ensures PendingExact(jobs[j := job], names + {job.name}, paths + {job.imgPath})
    ensures JobsDistinct(jobs[j := job])
  {
    var jobs' := jobs[j := job];
    assert jobs'[j] == job;
    forall n ensures n in names + {job.name} <==> NameInFlight(jobs', n) {
      if i :| i in jobs && jobs[i].name == n { assert jobs'[i].name == n; }
    }
    forall p ensures p in paths + {job.imgPath} <==> PathInFlight(jobs', p) {
      if i :| i in jobs && jobs[i].imgPath == p { assert jobs'[i].imgPath == p; }
    }
    assert forall i :: i in jobs ==> NameInFlight(jobs, jobs[i].name) && PathInFlight(jobs, jobs[i].imgPath);
  }

  lemma DropJobKeepsIdentities(jobs: map<int, Job>, j: int, names: set<string>, paths: set<string>)
    requires j in jobs && PendingExact(jobs, names, paths) && JobsDistinct(jobs)
    ensures PendingExact(jobs - {j}, names - {jobs[j].name}, paths - {jobs[j].imgPath})
    ensures JobsDistinct(jobs - {j})
  {
    var jobs' := jobs - {j};
    forall n ensures n in names - {jobs[j].name} <==> NameInFlight(jobs', n) {
      if i :| i in jobs && i != j && jobs[i].name == n { assert jobs'[i].name == n; }
      if i :| i in jobs' && jobs'[i].name == n { assert jobs[i].name == n; }
    }
    forall p ensures p in paths - {jobs[j].imgPath} <==> PathInFlight(jobs', p) {
      if i :| i in jobs && i != j && jobs[i].imgPath == p { assert jobs'[i].imgPath == p; }
      if i :| i in jobs' && jobs'[i].imgPath == p { assert jobs[i].imgPath == p; }
    }
  }

  lemma ReserveKeeps(s: Sys, j: int, name: string, imgPath: string, mountDir: string)
    requires Registered(s)
    ensures Registered(ReserveStep(s, j, name, imgPath, mountDir))
  {
    var s' := ReserveStep(s, j, name, imgPath, mountDir);
    if s' != s {
      AddJobKeepsIdentities(s.jobs, j, s'.jobs[j], s.pendingNames, s.pendingPaths);
      assert ClaimsExclusive(s'.jobs, s'.rows) && ImagesBuilt(s'.jobs, s'.os.files);
    }
  }

  lemma ReleaseKeeps(s: Sys, j: int)
    requires Registered(s) && j in s.jobs
    ensures Registered(ReleaseStep(s, j))
  {
    DropJobKeepsIdentities(s.jobs, j, s.pendingNames, s.pendingPaths);
  }

  /** Moving one program counter changes nobody's identity. */
  lemma GotoKeepsIdentities(jobs: map<int, Job>, j: int, pc: Pc, names: set<string>, paths: set<string>)
    requires j in jobs && PendingExact(jobs, names, paths) && JobsDistinct(jobs)
    ensures PendingExact(jobs[j := jobs[j].(pc := pc)], names, paths)
    ensures JobsDistinct(jobs[j := jobs[j].(pc := pc)])
  {
    var jobs' := jobs[j := jobs[j].(pc := pc)];
    assert forall i :: i in jobs' <==> i in jobs;
    assert forall i :: i in jobs ==> jobs'[i].name == jobs[i].name && jobs'[i].imgPath == jobs[i].imgPath;
    forall n ensures NameInFlight(jobs, n) <==> NameInFlight(jobs', n) {
      if i :| i in jobs && jobs[i].name == n { assert jobs'[i].name == n; }
    }
    forall p ensures PathInFlight(jobs, p) <==> PathInFlight(jobs', p) {
      if i :| i in jobs && jobs[i].imgPath == p { assert jobs'[i].imgPath == p; }
    }
  }

  /** Rows and creates keep their images. */
  lemma CommandKeepsImages(
    rows: map<int, Vault>, jobs: map<int, Job>, files: set<string>, files': set<string>, j: int, pc: Pc)
    requires j in jobs && JobsDistinct(jobs) && NoGhosts(rows, files) && ClaimsExclusive(jobs, rows)
    requires ImagesBuilt(jobs, files)
    requires files <= files' || (Claims(jobs[j].pc) && files - {jobs[j].imgPath} <= files')
    requires Claims(pc) ==> Claims(jobs[j].pc) || jobs[j].imgPath !in files
    requires HasFile(pc) ==> jobs[j].imgPath in files'
    ensures NoGhosts(rows, files') && ClaimsExclusive(jobs[j := jobs[j].(pc := pc)], rows)
    ensures ImagesBuilt(jobs[j := jobs[j].(pc := pc)], files')
  {
    assert forall id :: id in rows ==> PathTaken(rows, rows[id].path);
  }

  /** A command of create j that leaves the table alone and removes at most j's own, claimed image. */
  lemma CommandKeeps(s: Sys, j: int, os: Os, pc: Pc)
    requires Registered(s) && j in s.jobs
    requires s.os.files <= os.files || (Claims(s.jobs[j].pc) && s.os.files - {s.jobs[j].imgPath} <= os.files)
    requires Claims(pc) ==> Claims(s.jobs[j].pc) || s.jobs[j].imgPath !in s.os.files
    requires HasFile(pc) ==> s.jobs[j].imgPath in os.files
    ensures Registered(GotoWith(s, j, os, pc))
  {
    GotoKeepsIdentities(s.jobs, j, pc, s.pendingNames, s.pendingPaths);
    CommandKeepsImages(s.rows, s.jobs, s.os.files, os.files, j, pc);
  }

  lemma AddRowKeeps(rows: map<int, Vault>, nextId: int, v: Vault, requests: map<int, Request>, files: set<string>)
    requires RowsDistinct(rows) && IdsUsed(rows, nextId) && RequestsAgree(requests, rows, nextId)
    requires NoGhosts(rows, files)
    requires !NameTaken(rows, v.name) && !PathTaken(rows, v.path) && v.path in files
    ensures
      var rows' := rows[nextId := v];
      && RowsDistinct(rows') && IdsUsed(rows', nextId + 1)
      && RequestsAgree(requests, rows', nextId + 1) && NoGhosts(rows', files)
      && forall path :: PathTaken(rows', path) ==> PathTaken(rows, path) || path == v.path
  {
    assert forall id :: id in rows ==> NameTaken(rows, rows[id].name) && PathTaken(rows, rows[id].path);
  }

  lemma InsertKeeps(s: Sys, j: int, a: Answers)
    requires Registered(s) && j in s.jobs && s.jobs[j].pc.Insert?
    ensures Registered(WorkStep(s, j, a))
  {
    var s', job := WorkStep(s, j, a), s.jobs[j];
    GotoKeepsIdentities(s.jobs, j, s'.jobs[j].pc, s.pendingNames, s.pendingPaths);
    if s'.rows != s.rows {
      AddRowKeeps(s.rows, s.nextId, NewVault(job), s.requests, s.os.files);
    }
  }

  /** A command of a create touches no image but its own, and that only while it has claimed it. */
  lemma CommandOwn(job: Job, os: Os, ok: bool, partial: bool)
    requires !Shared(job.pc)
    requires job.pc.StatImage? && ok ==> job.imgPath !in os.files
    ensures
      var os', pc := Effect(job, os, ok, partial), NextPc(job.pc, ok);
      && (os.files <= os'.files || (Claims(job.pc) && os.files - {job.imgPath} <= os'.files))
      && (Claims(pc) ==> Claims(job.pc) || job.imgPath !in os.files)
      && (HasFile(pc) ==> os.files <= os'.files && (HasFile(job.pc) || job.imgPath in os'.files))
  {
  }

  lemma WorkKeeps(s: Sys, j: int, a: Answers)
    requires Registered(s) && j in s.jobs
    ensures Registered(WorkStep(s, j, a))
  {
    var job := s.jobs[j];
    if job.pc.Insert? {
      InsertKeeps(s, j, a);
    } else if job.pc.Finished? {
      CommandKeeps(s, j, s.os, FinishStep(s, j).jobs[j].pc);
    } else if job.pc.Marking? {
      CommandKeeps(s, j, s.os, Releasing);
      FrameKeeps(GotoWith(s, j, s.os, Releasing), WorkStep(s, j, a));
    } else if job.pc.Releasing? {
      ReleaseKeeps(s, j);
    } else {
      var ok := Succeeds(job, s.os, a);
      CommandOwn(job, s.os, ok, Partial(job.pc, a));
      CommandKeeps(s, j, Effect(job, s.os, ok, Partial(job.pc, a)), NextPc(job.pc, ok));
    }
  }

  // ---- the sections under opMu ------------------------------------------

  lemma ImportKeeps(s: Sys, name: string, path: string, mountDir: string, ok: bool)
    requires Registered(s)
    ensures Registered(ImportStep(s, name, path, mountDir, ok))
  {
    var s' := ImportStep(s, name, path, mountDir, ok);
    if s' != s {
      AddRowKeeps(s.rows, s.nextId, s'.rows[s.nextId], s.requests, s.os.files);
      assert forall j :: j in s.jobs ==> PathInFlight(s.jobs, s.jobs[j].imgPath);
    }
  }

  lemma DeleteKeeps(s: Sys, r: int, ok: bool)
    requires Registered(s) && r in s.requests && s.opMu.Free? && s.requests[r].id in s.rows
    ensures Registered(DeleteStep(s, r, ok))
  {
    assert PathTaken(s.rows, s.requests[r].v.path);
  }

  lemma RemoveKeeps(s: Sys, ok: bool)
    requires Registered(s) && s.opMu.RemoveNext?
    ensures Registered(ContinueStep(s, ok))
  {
    assert forall id :: id in s.rows ==> PathTaken(s.rows, s.rows[id].path);
  }

  lemma CloseFrame(s: Sys, id: int, v: Vault, sweeping: bool, ok: bool)
    ensures SameIdentities(s, CloseStep(s, id, v, sweeping, ok))
  {
  }

  lemma ContinueFrame(s: Sys, ok: bool)
    requires !s.opMu.RemoveNext?
    ensures SameIdentities(s, ContinueStep(s, ok))
  {
    if s.opMu.CloseNext? { CloseFrame(s, s.opMu.id, s.opMu.v, s.opMu.sweeping, ok); }
  }

  lemma ContinueKeeps(s: Sys, ok: bool)
    requires Registered(s)
    ensures Registered(ContinueStep(s, ok))
  {
    if s.opMu.RemoveNext? {
      RemoveKeeps(s, ok);
    } else {
      ContinueFrame(s, ok);
      FrameKeeps(s, ContinueStep(s, ok));
    }
  }

  lemma LookupKeeps(s: Sys, r: int, id: int)
    requires Registered(s)
    ensures Registered(LookupStep(s, r, id))
  {
  }

  /** Unlock, lock, mount and auto-lock sections change no identity. */
  predicate Plain(step: Step) {
    || step.Tick? || step.PlaceImage? || step.Unlock? || step.Lock? || step.Remount? || step.SweepOn?
  }

  lemma RequestFrame(s: Sys, r: int, ok: bool)
    requires r in s.requests
    ensures SameIdentities(s, UnlockStep(s, r, ok))
    ensures SameIdentities(s, LockStep(s, r, ok))
    ensures SameIdentities(s, RemountStep(s, r, ok))
  {
  }

  lemma SweepLockFrame(s: Sys, ok: bool)
    requires s.sweep.Found?
    ensures SameIdentities(s, SweepLockStep(s, ok))
  {
  }

  lemma SweepFrame(s: Sys, id: int, ok: bool)
    ensures SameIdentities(s, SweepStep(s, id, ok))
  {
    if s.sweep.Found? { SweepLockFrame(s, ok); }
  }

  lemma PlainFrame(s: Sys, step: Step)
    requires Plain(step)
    ensures SameIdentities(s, Next(s, step))
  {
    match step
    case Unlock(r, ok) => if r in s.requests { RequestFrame(s, r, ok); }
    case Lock(r, ok) => if r in s.requests { RequestFrame(s, r, ok); }
    case Remount(r, ok) => if r in s.requests { RequestFrame(s, r, ok); }
    case SweepOn(id, ok) => SweepFrame(s, id, ok);
    case _ =>
  }

  lemma StepKeepsRegistry(s: Sys, step: Step)
    requires Registered(s) && DeletePresent(s, step)
    ensures Registered(Next(s, step))
  {
    match step
    case Reserve(j, name, imgPath, mountDir) => ReserveKeeps(s, j, name, imgPath, mountDir);
    case Work(j, answers) => if j in s.jobs { WorkKeeps(s, j, answers); }
    case Import(name, path, mountDir, ok) => ImportKeeps(s, name, path, mountDir, ok);
    case Lookup(r, id) => LookupKeeps(s, r, id);
    case Delete(r, ok) => if s.opMu.Free? && r in s.requests { DeleteKeeps(s, r, ok); }
    case Continue(ok) => ContinueKeeps(s, ok);
    case _ =>
      PlainFrame(s, step);
      FrameKeeps(s, Next(s, step));
  }

  // ---- whole runs -------------------------------------------------------

  ghost predicate DeletesPresent(s: Sys, steps: seq<Step>)
    decreases |steps|
  {
    steps != [] ==> DeletePresent(s, steps[0]) && DeletesPresent(Next(s, steps[0]), steps[1..])
  }

  lemma {:induction false} RunsKeepRegistry(s: Sys, steps: seq<Step>)
    requires Registered(s) && DeletesPresent(s, steps)
    ensures Registered(After(s, steps))
    decreases |steps|
  {
    if steps != [] {
      StepKeepsRegistry(s, steps[0]);
      RunsKeepRegistry(Next(s, steps[0]), steps[1..]);
    }
  }
}
