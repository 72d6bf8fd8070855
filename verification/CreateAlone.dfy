/**
  A create's goroutine from start to end with nothing else running: the exact
  machine, rows and windows it leaves.
 */
module CreateAlone {
  import opened Wrappers
  import opened Machine
  import opened Lifecycle
  import opened Registry
  import opened Ownership

  /** How many commands a create still has to run at most. */
  function Rank(pc: Pc): nat {
    match pc
    case Reserved => 22
    case MakeStorage => 21
    case CheckSpace => 20
    case CheckLoop => 19
    case StatImage => 18
    case StatMapper => 17
    case Fallocate => 16
    case ClearPartial => 15
    case Dd => 14
    case Format => 13
    case OpenDevice => 12
    case MakeFs => 11
    case MakeMountDir => 10
    case MountFs => 9
    case Chmod => 8
    case Insert => 7
    case UndoUmount => 6
    case UndoClose => 5
    case UndoRemove => 4
    case Finished => 3
    case Marking(_) => 2
    case Releasing => 1
  }

  /** The commands a create may still have to run; none once its goroutine has ended. */
  function Left(jobs: map<int, Job>, j: int): nat {
    if j in jobs then Rank(jobs[j].pc) else 0
  }

  lemma CommandsDown(pc: Pc, ok: bool)
    requires !Shared(pc)
    ensures Rank(NextPc(pc, ok)) < Rank(pc)
    ensures !pc.Reserved? ==> NextPc(pc, ok).Finished? || Unfinished(NextPc(pc, ok))
  {
  }

  lemma StepsDown(s: Sys, j: int, a: Answers)
    requires j in s.jobs && s.opMu.Free?
    ensures WorkStep(s, j, a).opMu.Free? && Left(WorkStep(s, j, a).jobs, j) < Left(s.jobs, j)
  {
    var pc := s.jobs[j].pc;
    if !Shared(pc) {
      CommandsDown(pc, Succeeds(s.jobs[j], s.os, a));
    }
  }

  /** The whole goroutine, nothing else running. */
  ghost function Alone(s: Sys, j: int, a: Answers): Sys
    decreases Left(s.jobs, j)
  {
    if j in s.jobs && s.opMu.Free? then
      StepsDown(s, j, a);
      Alone(WorkStep(s, j, a), j, a)
    else
      s
  }

  function Works(j: int, a: Answers, n: nat): seq<Step> {
    if n == 0 then [] else [Work(j, a)] + Works(j, a, n - 1)
  }

  /** It is a run of the transition system: its Work steps, one after another. */
  lemma {:induction false} AloneIsRun(s: Sys, j: int, a: Answers, n: nat)
    requires s.opMu.Free? && Left(s.jobs, j) <= n
    ensures Alone(s, j, a) == After(s, Works(j, a, n))
    decreases n
  {
    if n > 0 {
      var steps := Works(j, a, n);
      assert steps[0] == Work(j, a) && steps[1..] == Works(j, a, n - 1);
      if j in s.jobs {
        StepsDown(s, j, a);
        AloneIsRun(WorkStep(s, j, a), j, a, n - 1);
      } else {
        AloneIsRun(s, j, a, n - 1);
      }
    }
  }

  // ---- all or nothing ---------------------------------------------------

  /** The machine of a create that began on os0 and now stands at pc. */
  predicate BuiltFrom(os0: Os, os: Os, job: Job) {
    var pc := job.pc;
    && (if Claims(pc) then job.imgPath !in os0.files && os.files - {job.imgPath} == os0.files
      else os.files == os0.files)
    && (pc.StatMapper? ==> os.files == os0.files)
    && (HasFile(pc) ==> job.imgPath in os.files)
    && (Claims(pc) && !pc.StatMapper? ==> job.name !in os0.mappers)
    && os.mappers == (if HasMapper(pc) then os0.mappers[job.name := job.imgPath] else os0.mappers)
    && (HasMount(pc) ==> job.mountPoint !in os0.mounts)
    && os.mounts == (if HasMount(pc) then os0.mounts[job.mountPoint := job.name] else os0.mounts)
  }

  /** The one way a create succeeds: every check passes and every command works. */
  predicate Accepted(os0: Os, job: Job, a: Answers, nameFree: bool) {
    && a.jobId && a.storage && a.space && a.loop
    && job.imgPath !in os0.files && job.name !in os0.mappers
    && (a.fallocate || a.dd) && a.format && a.open && a.mkfs
    && a.mountDir && a.mount && job.mountPoint !in os0.mounts && a.chmod
    && a.insert && nameFree
  }

  /** What a create that stands at pc has come through. */
  predicate CameThrough(os0: Os, job: Job, a: Answers) {
    var left := Rank(job.pc);
    && (left < 22 ==> a.jobId) && (left < 21 ==> a.storage) && (left < 20 ==> a.space) && (left < 19 ==> a.loop)
    && (left < 18 ==> job.imgPath !in os0.files) && (left < 17 ==> job.name !in os0.mappers)
    && (left < 16 && 13 < left ==> !a.fallocate) && (left < 14 ==> a.fallocate || a.dd)
    && (left < 13 ==> a.format) && (left < 12 ==> a.open) && (left < 11 ==> a.mkfs)
    && (left < 10 ==> a.mountDir) && (left < 9 ==> a.mount && job.mountPoint !in os0.mounts) && (left < 8 ==> a.chmod)
  }

  predicate RollingBack(pc: Pc) {
    pc.UndoUmount? || pc.UndoClose? || pc.UndoRemove?
  }

  /** On the way up it has come through so far; on the way back it was bound to fail. */
  predicate Explained(os0: Os, job: Job, a: Answers, nameFree: bool) {
    if RollingBack(job.pc) then !Accepted(os0, job, a, nameFree) else CameThrough(os0, job, a)
  }

  predicate OnCourse(os0: Os, os: Os, job: Job, a: Answers, nameFree: bool) {
    BuiltFrom(os0, os, job) && Explained(os0, job, a, nameFree)
  }

  /** One command on: still on course, or returned with nothing changed. */
  predicate StaysOnCourse(os0: Os, os: Os, job: Job, a: Answers, nameFree: bool) {
    var ok := Succeeds(job, os, a);
    var job' := job.(pc := NextPc(job.pc, ok));
    var os' := Effect(job, os, ok, Partial(job.pc, a));
    if job'.pc.Finished? then os' == os0 && !Accepted(os0, job, a, nameFree) else OnCourse(os0, os', job', a, nameFree)
  }

  lemma ChecksBuild(os0: Os, os: Os, job: Job, a: Answers, nameFree: bool)
    requires OnCourse(os0, os, job, a, nameFree)
    requires
      var pc := job.pc;
      pc.MakeStorage? || pc.CheckSpace? || pc.CheckLoop? || pc.StatImage? || pc.StatMapper?
    ensures StaysOnCourse(os0, os, job, a, nameFree)
  {
    if job.imgPath !in os.files {
      assert os.files - {job.imgPath} == os.files;
    }
  }

  lemma AllocationBuilds(os0: Os, os: Os, job: Job, a: Answers, nameFree: bool)
    requires OnCourse(os0, os, job, a, nameFree)
    requires job.pc.Fallocate? || job.pc.ClearPartial? || job.pc.Dd? || job.pc.Format?
    ensures StaysOnCourse(os0, os, job, a, nameFree)
  {
    assert (os.files + {job.imgPath}) - {job.imgPath} == os.files - {job.imgPath};
  }

  lemma OpenBuilds(os0: Os, os: Os, job: Job, a: Answers, nameFree: bool)
    requires OnCourse(os0, os, job, a, nameFree) && (job.pc.OpenDevice? || job.pc.MakeFs?)
    ensures StaysOnCourse(os0, os, job, a, nameFree)
  {
  }

  lemma MountBuilds(os0: Os, os: Os, job: Job, a: Answers, nameFree: bool)
    requires OnCourse(os0, os, job, a, nameFree) && (job.pc.MakeMountDir? || job.pc.MountFs? || job.pc.Chmod?)
    ensures StaysOnCourse(os0, os, job, a, nameFree)
  {
  }

  lemma UndoUmountUnbuilds(os0: Os, os: Os, job: Job, a: Answers, nameFree: bool)
    requires OnCourse(os0, os, job, a, nameFree) && job.pc.UndoUmount?
    ensures StaysOnCourse(os0, os, job, a, nameFree)
  {
    assert os.mounts - {job.mountPoint} == os0.mounts;
  }

  lemma UndoCloseUnbuilds(os0: Os, os: Os, job: Job, a: Answers, nameFree: bool)
    requires Stacked(os0) && OnCourse(os0, os, job, a, nameFree) && job.pc.UndoClose?
    ensures StaysOnCourse(os0, os, job, a, nameFree)
  {
    assert CanClose(os, job.name);
    assert os.mappers - {job.name} == os0.mappers;
  }

  lemma UndoRemoveUnbuilds(os0: Os, os: Os, job: Job, a: Answers, nameFree: bool)
    requires OnCourse(os0, os, job, a, nameFree) && job.pc.UndoRemove?
    ensures StaysOnCourse(os0, os, job, a, nameFree)
  {
  }

  /** Each command either builds the next layer or takes the last one away again. */
  lemma CommandBuilds(os0: Os, os: Os, job: Job, a: Answers, nameFree: bool)
    requires Stacked(os0) && Unfinished(job.pc) && !job.pc.Insert? && !job.pc.Reserved?
    requires OnCourse(os0, os, job, a, nameFree)
    ensures StaysOnCourse(os0, os, job, a, nameFree)
  {
    match job.pc
    case MakeStorage => ChecksBuild(os0, os, job, a, nameFree);
    case CheckSpace => ChecksBuild(os0, os, job, a, nameFree);
    case CheckLoop => ChecksBuild(os0, os, job, a, nameFree);
    case StatImage => ChecksBuild(os0, os, job, a, nameFree);
    case StatMapper => ChecksBuild(os0, os, job, a, nameFree);
    case Fallocate => AllocationBuilds(os0, os, job, a, nameFree);
    case ClearPartial => AllocationBuilds(os0, os, job, a, nameFree);
    case Dd => AllocationBuilds(os0, os, job, a, nameFree);
    case Format => AllocationBuilds(os0, os, job, a, nameFree);
    case OpenDevice => OpenBuilds(os0, os, job, a, nameFree);
    case MakeFs => OpenBuilds(os0, os, job, a, nameFree);
    case MakeMountDir => MountBuilds(os0, os, job, a, nameFree);
    case MountFs => MountBuilds(os0, os, job, a, nameFree);
    case Chmod => MountBuilds(os0, os, job, a, nameFree);
    case UndoUmount => UndoUmountUnbuilds(os0, os, job, a, nameFree);
    case UndoClose => UndoCloseUnbuilds(os0, os, job, a, nameFree);
    case UndoRemove => UndoRemoveUnbuilds(os0, os, job, a, nameFree);
  }

  /** The machine with everything a create makes on it. */
  function Built(os0: Os, job: Job): Os {
    Os(os0.files + {job.imgPath}, os0.mappers[job.name := job.imgPath], os0.mounts[job.mountPoint := job.name])
  }

  /** The state in which vault.Create returns. */
  ghost function Returned(s: Sys, j: int, a: Answers, os0: Os): Sys
    requires j in s.jobs
  {
    var job := s.jobs[j];
    if Accepted(os0, job, a, !NameTaken(s.rows, job.name)) then Inserted(s, j).(os := Built(os0, job))
    else GotoWith(s, j, os0, Finished)
  }

  lemma ReturnedFrom(s: Sys, j: int, a: Answers, os0: Os, os: Os, pc: Pc)
    requires j in s.jobs
    ensures Returned(GotoWith(s, j, os, pc), j, a, os0) == Returned(s, j, a, os0)
  {
    assert s.jobs[j := s.jobs[j].(pc := pc)][j := s.jobs[j].(pc := Finished)]
      == s.jobs[j := s.jobs[j].(pc := Finished)];
  }

  lemma InsertReturns(s: Sys, j: int, a: Answers, os0: Os)
    requires j in s.jobs && s.jobs[j].pc.Insert?
    requires OnCourse(os0, s.os, s.jobs[j], a, !NameTaken(s.rows, s.jobs[j].name))
    ensures
      var nameFree := !NameTaken(s.rows, s.jobs[j].name);
      if Accepted(os0, s.jobs[j], a, nameFree) then WorkStep(s, j, a) == Returned(s, j, a, os0)
      else
        && WorkStep(s, j, a) == GotoWith(s, j, s.os, UndoUmount)
        && OnCourse(os0, s.os, s.jobs[j].(pc := UndoUmount), a, nameFree)
  {
    assert s.os.files == os0.files + {s.jobs[j].imgPath};
  }

  lemma CommandReturns(s: Sys, j: int, a: Answers, os0: Os)
    requires j in s.jobs && Stacked(os0)
    requires Unfinished(s.jobs[j].pc) && !s.jobs[j].pc.Reserved? && !s.jobs[j].pc.Insert?
    requires OnCourse(os0, s.os, s.jobs[j], a, !NameTaken(s.rows, s.jobs[j].name))
    ensures
      var s', job := WorkStep(s, j, a), s.jobs[j];
      && j in s'.jobs && s' == GotoWith(s, j, s'.os, s'.jobs[j].pc) && !s'.jobs[j].pc.Reserved?
      && if s'.jobs[j].pc.Finished? then s' == Returned(s, j, a, os0)
         else Unfinished(s'.jobs[j].pc) && OnCourse(os0, s'.os, s'.jobs[j], a, !NameTaken(s.rows, job.name))
  {
    var job, nameFree := s.jobs[j], !NameTaken(s.rows, s.jobs[j].name);
    var ok := Succeeds(job, s.os, a);
    var os, job' := Effect(job, s.os, ok, Partial(job.pc, a)), job.(pc := NextPc(job.pc, ok));
    CommandsDown(job.pc, ok);
    assert WorkStep(s, j, a) == GotoWith(s, j, os, job'.pc);
    CommandBuilds(os0, s.os, job, a, nameFree);
    assert if job'.pc.Finished? then os == os0 && !Accepted(os0, job, a, nameFree)
      else OnCourse(os0, os, job', a, nameFree);
  }

  /** From anywhere in vault.Create to its return. */
  lemma {:induction false} AloneReturns(s: Sys, j: int, a: Answers, os0: Os)
    requires j in s.jobs && s.opMu.Free? && Stacked(os0)
    requires Unfinished(s.jobs[j].pc) && !s.jobs[j].pc.Reserved?
    requires OnCourse(os0, s.os, s.jobs[j], a, !NameTaken(s.rows, s.jobs[j].name))
    ensures Alone(s, j, a) == Alone(Returned(s, j, a, os0), j, a)
    decreases Left(s.jobs, j)
  {
    var s' := WorkStep(s, j, a);
    StepsDown(s, j, a);
    assert Alone(s, j, a) == Alone(s', j, a);
    if s.jobs[j].pc.Insert? {
      InsertReturns(s, j, a, os0);
    } else {
      CommandReturns(s, j, a, os0);
    }
    if s' != Returned(s, j, a, os0) {
      ReturnedFrom(s, j, a, os0, s'.os, s'.jobs[j].pc);
      AloneReturns(s', j, a, os0);
    }
  }

  /** A returning create starts the window of an unlocked vault of its name, its own or not. */
  ghost function Marked(s: Sys, name: string): Sys {
    var found := IdOf(s.rows, name);
    if found.Some? && IsUnlocked(s.os, s.rows[found.value]) then Mark(s, found.value) else s
  }

  lemma ReleasingEnds(s: Sys, j: int, a: Answers)
    requires j in s.jobs && s.opMu.Free? && s.jobs[j].pc.Releasing?
    ensures Alone(s, j, a) == ReleaseStep(s, j)
  {
    assert Alone(s, j, a) == Alone(ReleaseStep(s, j), j, a);
  }

  lemma MarkingEnds(s: Sys, j: int, a: Answers)
    requires j in s.jobs && s.opMu.Free? && s.jobs[j].pc.Marking?
    ensures Alone(s, j, a) == ReleaseStep(Mark(s, s.jobs[j].pc.id), j)
  {
    var t := WorkStep(s, j, a);
    assert t.jobs - {j} == s.jobs - {j};
    ReleasingEnds(t, j, a);
  }

  lemma AloneEnds(s: Sys, j: int, a: Answers)
    requires j in s.jobs && s.opMu.Free? && s.jobs[j].pc.Finished?
    ensures Alone(s, j, a) == ReleaseStep(Marked(s, s.jobs[j].name), j)
  {
    var t := WorkStep(s, j, a);
    assert t.jobs - {j} == s.jobs - {j};
    if t.jobs[j].pc.Marking? { MarkingEnds(t, j, a); } else { ReleasingEnds(t, j, a); }
  }

  /** The state a create that runs alone leaves, but for its own reservation. */
  ghost function Outcome(s: Sys, j: int, a: Answers): Sys
    requires j in s.jobs
  {
    var job := s.jobs[j];
    if Accepted(s.os, job, a, !NameTaken(s.rows, job.name)) then
      Mark(s.(os := Built(s.os, job), rows := s.rows[s.nextId := NewVault(job)], nextId := s.nextId + 1), s.nextId)
    else if a.jobId then
      Marked(s, job.name)
    else
      s
  }

  /** What the goroutine does after vault.Create returned. */
  lemma ReturnedEnds(s: Sys, j: int, a: Answers)
    requires j in s.jobs && s.opMu.Free? && a.jobId
    ensures Alone(Returned(s, j, a, s.os), j, a) == ReleaseStep(Outcome(s, j, a), j)
  {
    var job, r := s.jobs[j], Returned(s, j, a, s.os);
    assert r.jobs - {j} == s.jobs - {j};
    AloneEnds(r, j, a);
    if Accepted(s.os, job, a, !NameTaken(s.rows, job.name)) {
      assert r.rows[s.nextId] == NewVault(job);
      var id := IdOf(r.rows, job.name).value;
      assert id == s.nextId;
    }
  }

  /**
    A create that runs alone: if every check passes and every command works,
    image, mapper, mount, row and window are there together; otherwise machine
    and rows are exactly what they were.
   */
  lemma AloneIsAllOrNothing(s: Sys, j: int, a: Answers)
    requires j in s.jobs && s.opMu.Free? && s.jobs[j].pc.Reserved? && Stacked(s.os)
    ensures Alone(s, j, a) == ReleaseStep(Outcome(s, j, a), j)
  {
    var t := WorkStep(s, j, a);
    assert t.jobs - {j} == s.jobs - {j};
    if a.jobId {
      assert t == GotoWith(s, j, s.os, MakeStorage);
      ReturnedFrom(s, j, a, s.os, s.os, MakeStorage);
      AloneReturns(t, j, a, s.os);
      ReturnedEnds(s, j, a);
    } else {
      assert t == GotoWith(s, j, s.os, Releasing);
      ReleasingEnds(t, j, a);
    }
  }

  /** A row of this name whose vault is unlocked. */
  ghost predicate UnlockedUnder(s: Sys, name: string, id: int) {
    id in s.rows && s.rows[id].name == name && IsUnlocked(s.os, s.rows[id])
  }

  /**
    A create that fails after its goroutine has started changes a window exactly
    if an unlocked vault already has its name: that vault's window starts again.
   */
  lemma FailedCreateRestartsWindowIff(s: Sys, j: int, a: Answers)
    requires j in s.jobs && s.opMu.Free? && s.jobs[j].pc.Reserved? && Stacked(s.os)
    requires RowsDistinct(s.rows) && Timestamped(s.unlockedAt, s.clock)
    requires !Accepted(s.os, s.jobs[j], a, !NameTaken(s.rows, s.jobs[j].name))
    ensures Alone(s, j, a).os == s.os && Alone(s, j, a).rows == s.rows
    ensures Alone(s, j, a).unlockedAt != s.unlockedAt <==> a.jobId && exists id :: UnlockedUnder(s, s.jobs[j].name, id)
    ensures forall id :: a.jobId && UnlockedUnder(s, s.jobs[j].name, id) ==>
      Alone(s, j, a).unlockedAt == s.unlockedAt[id := s.clock]
  {
    AloneIsAllOrNothing(s, j, a);
    MarkedIff(s, s.jobs[j].name);
  }

  lemma MarkedIff(s: Sys, name: string)
    requires RowsDistinct(s.rows) && Timestamped(s.unlockedAt, s.clock)
    ensures Marked(s, name).unlockedAt != s.unlockedAt <==> exists id :: UnlockedUnder(s, name, id)
    ensures forall id :: UnlockedUnder(s, name, id) ==> Marked(s, name).unlockedAt == s.unlockedAt[id := s.clock]
  {
    if NameTaken(s.rows, name) {
      var found := IdOf(s.rows, name).value;
      assert forall id :: UnlockedUnder(s, name, id) ==> id == found;
      if IsUnlocked(s.os, s.rows[found]) {
        assert UnlockedUnder(s, name, found);
        assert s.unlockedAt[found := s.clock][found] == s.clock;
      }
    }
  }
}
