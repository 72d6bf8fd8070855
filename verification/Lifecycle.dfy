/**
  The vault lifecycle as a transition system. A state holds the vaults table,
  the operating system, the handler's in-memory maps, and a program counter
  for every activity that can be under way: the create goroutines, the holder
  of opMu, and the auto-lock sweep. A step is one command of one of them.
  `Next` is total: a step that is not enabled changes nothing.
 */
module Lifecycle {
  import opened Wrappers
  import opened Machine
  import opened Names

  /** Where a create goroutine stands: the command it runs next. */
  datatype Pc =
    // createVault, identity reserved
    | Reserved
    // vault.Create, checks
    | MakeStorage | CheckSpace | CheckLoop | StatImage | StatMapper
    // vault.Create, pipeline
    | Fallocate | ClearPartial | Dd | Format | OpenDevice | MakeFs | MakeMountDir | MountFs | Chmod | Insert
    // vault.Create, rollback
    | UndoUmount | UndoClose | UndoRemove
    // createVault's goroutine after vault.Create returned
    | Finished | Marking(id: int) | Releasing

  datatype Job = Job(name: string, imgPath: string, mountPoint: string, pc: Pc)

  /** What the operating system answers to each command of one create. */
  datatype Answers = Answers(
    jobId: bool, storage: bool, space: bool, loop: bool,
    fallocate: bool, fallocatePartial: bool, dd: bool, ddPartial: bool,
    format: bool, open: bool, mkfs: bool, mountDir: bool, mount: bool, chmod: bool, insert: bool)

  /** Who holds opMu across several commands, and the command that comes next. */
  datatype Section =
    | Free
    | MountNext(id: int, v: Vault)                    // unlock: device open
    | UndoOpen(id: int, v: Vault)                     // unlock: mount failed
    | MarkNext(id: int, v: Vault)                     // unlock: mounted
    | CloseNext(id: int, v: Vault, sweeping: bool)    // lock or auto-lock: unmounted
    | ClearNext(id: int, v: Vault)                    // lock: closed
    | ForgetNext(id: int, v: Vault)                   // delete: row gone
    | RemoveNext(id: int, v: Vault)                   // delete: window cleared

  /** The auto-lock goroutine; `rest` are the expired ids not yet visited. */
  datatype Sweep =
    | Idle
    | Visiting(rest: set<int>)
    | Seen(id: int, since: Option<int>, rest: set<int>)
    | Found(id: int, since: Option<int>, v: Vault, rest: set<int>)
    | Locking(id: int, rest: set<int>)
    | Clearing(id: int, rest: set<int>)

  /** A request that has looked its vault up but not yet taken opMu. */
  datatype Request = Request(id: int, v: Vault)

  datatype Sys = Sys(
    rows: map<int, Vault>, nextId: int,
    os: Os,
    pendingNames: set<string>, pendingPaths: set<string>,
    unlockedAt: map<int, int>, clock: int, window: int,
    jobs: map<int, Job>, requests: map<int, Request>,
    opMu: Section, sweep: Sweep)

  datatype Step =
    | Tick(elapsed: nat)
    | PlaceImage(path: string)
    | Reserve(job: int, name: string, imgPath: string, mountDir: string)
    | Work(job: int, answers: Answers)
    | Import(name: string, path: string, mountDir: string, ok: bool)
    | Lookup(req: int, id: int)
    | Unlock(req: int, ok: bool)
    | Lock(req: int, ok: bool)
    | Remount(req: int, ok: bool)
    | Delete(req: int, ok: bool)
    | Continue(ok: bool)
    | SweepOn(id: int, ok: bool)

  // ---- the vaults table -------------------------------------------------

  ghost predicate NameTaken(rows: map<int, Vault>, name: string) {
    exists id :: id in rows && rows[id].name == name
  }

  ghost predicate PathTaken(rows: map<int, Vault>, path: string) {
    exists id :: id in rows && rows[id].path == path
  }

  /** GetVaultByName. */
  ghost function IdOf(rows: map<int, Vault>, name: string): Option<int> {
    if NameTaken(rows, name) then
      var id :| id in rows && rows[id].name == name;
      Some(id)
    else
      None
  }

  // ---- createVault and vault.Create -------------------------------------

  function Goto(s: Sys, j: int, pc: Pc): Sys
    requires j in s.jobs
  {
    s.(jobs := s.jobs[j := s.jobs[j].(pc := pc)])
  }

  function GotoWith(s: Sys, j: int, os: Os, pc: Pc): Sys
    requires j in s.jobs
  {
    Goto(s, j, pc).(os := os)
  }

  /** createVault's opMu section: both reservations, or a 409. */
  ghost function ReserveStep(s: Sys, j: int, name: string, imgPath: string, mountDir: string): Sys {
    if s.opMu.Free? && j !in s.jobs && IsValidName(name)
       && name !in s.pendingNames && imgPath !in s.pendingPaths
    then
      s.(pendingNames := s.pendingNames + {name},
         pendingPaths := s.pendingPaths + {imgPath},
         jobs := s.jobs[j := Job(name, imgPath, MountPointOf(mountDir, name), Reserved)])
    else
      s
  }

  function NewVault(job: Job): Vault {
    Vault(job.name, job.imgPath, job.mountPoint, job.name)
  }

  /** releasePending, at the end of the goroutine; needs opMu. */
  function ReleaseStep(s: Sys, j: int): Sys
    requires j in s.jobs
  {
    if s.opMu.Free? then
      s.(jobs := s.jobs - {j},
         pendingNames := s.pendingNames - {s.jobs[j].name},
         pendingPaths := s.pendingPaths - {s.jobs[j].imgPath})
    else
      s
  }

  /** Whether the command a create runs next succeeds, given what the system answers. */
  predicate Succeeds(job: Job, os: Os, a: Answers) {
    match job.pc
    case Reserved => a.jobId
    case MakeStorage => a.storage
    case CheckSpace => a.space
    case CheckLoop => a.loop
    case StatImage => job.imgPath !in os.files
    case StatMapper => job.name !in os.mappers
    case Fallocate => a.fallocate
    case Dd => a.dd
    case Format => a.format
    case OpenDevice => a.open && CanOpen(os, job.imgPath, job.name)
    case MakeFs => a.mkfs && job.name in os.mappers
    case MakeMountDir => a.mountDir
    case MountFs => a.mount && CanMount(os, job.name, job.mountPoint)
    case Chmod => a.chmod
    case Insert => a.insert
    // Cleanup commands are run for their effect only.
    case ClearPartial => true
    case UndoUmount => true
    case UndoClose => true
    case UndoRemove => true
    case Finished => true
    case Marking(_) => true
    case Releasing => true
  }

  /** A failed fallocate or dd may leave part of the file behind. */
  predicate Partial(pc: Pc, a: Answers) {
    (pc.Fallocate? && a.fallocatePartial) || (pc.Dd? && a.ddPartial)
  }

  /** What the command does to the machine. */
  function Effect(job: Job, os: Os, ok: bool, partial: bool): Os {
    var pc := job.pc;
    if pc.Fallocate? || pc.Dd? then if ok || partial then AddFile(os, job.imgPath) else os
    else if pc.ClearPartial? || pc.UndoRemove? then RemoveFile(os, job.imgPath)
    else if pc.OpenDevice? then if ok then Open(os, job.imgPath, job.name) else os
    else if pc.MountFs? then if ok then Mount(os, job.name, job.mountPoint) else os
    else if pc.UndoUmount? then Umount(os, job.mountPoint)
    else if pc.UndoClose? then Close(os, job.name)
    else os
  }

  /** The order of the commands; a failure goes to the rollback of what has been done so far. */
  function NextPc(pc: Pc, ok: bool): Pc {
    match pc
    case Reserved => if ok then MakeStorage else Releasing
    case MakeStorage => if ok then CheckSpace else Finished
    case CheckSpace => if ok then CheckLoop else Finished
    case CheckLoop => if ok then StatImage else Finished
    case StatImage => if ok then StatMapper else Finished
    case StatMapper => if ok then Fallocate else Finished
    case Fallocate => if ok then Format else ClearPartial
    case ClearPartial => Dd
    case Dd => if ok then Format else UndoRemove
    case Format => if ok then OpenDevice else UndoRemove
    case OpenDevice => if ok then MakeFs else UndoRemove
    case MakeFs => if ok then MakeMountDir else UndoClose
    case MakeMountDir => if ok then MountFs else UndoClose
    case MountFs => if ok then Chmod else UndoClose
    case Chmod => if ok then Insert else UndoUmount
    case UndoUmount => UndoClose
    case UndoClose => UndoRemove
    case UndoRemove => Finished
    // Not commands on the machine: see WorkStep.
    case Insert => Insert
    case Finished => Finished
    case Marking(_) => pc
    case Releasing => Releasing
  }

  /** Commands that go beyond the machine: the insert and what follows vault.Create. */
  predicate Shared(pc: Pc) {
    pc.Insert? || pc.Finished? || pc.Marking? || pc.Releasing?
  }

  /** A command on the machine alone. */
  function CommandStep(s: Sys, j: int, a: Answers): Sys
    requires j in s.jobs
  {
    var job := s.jobs[j];
    var ok := Succeeds(job, s.os, a);
    GotoWith(s, j, Effect(job, s.os, ok, Partial(job.pc, a)), NextPc(job.pc, ok))
  }

  /** The row database.CreateVault inserts. */
  function Inserted(s: Sys, j: int): Sys
    requires j in s.jobs
  {
    Goto(s, j, Finished).(rows := s.rows[s.nextId := NewVault(s.jobs[j])], nextId := s.nextId + 1)
  }

  /** database.CreateVault: the row is inserted unless its name is taken. */
  ghost function InsertStep(s: Sys, j: int, ok: bool): Sys
    requires j in s.jobs
  {
    if ok && !NameTaken(s.rows, s.jobs[j].name) then Inserted(s, j) else Goto(s, j, UndoUmount)
  }

  /** After vault.Create returned: is there an unlocked vault of this name whose window must start? */
  ghost function FinishStep(s: Sys, j: int): Sys
    requires j in s.jobs
  {
    var found := IdOf(s.rows, s.jobs[j].name);
    Goto(s, j, if found.Some? && IsUnlocked(s.os, s.rows[found.value]) then Marking(found.value) else Releasing)
  }

  ghost function WorkStep(s: Sys, j: int, a: Answers): Sys
    requires j in s.jobs
  {
    var pc := s.jobs[j].pc;
    if pc.Insert? then InsertStep(s, j, a.insert)
    else if pc.Finished? then FinishStep(s, j)
    else if pc.Marking? then Mark(Goto(s, j, Releasing), pc.id)
    else if pc.Releasing? then ReleaseStep(s, j)
    else CommandStep(s, j, a)
  }

  // ---- auto-lock windows ------------------------------------------------

  /** markUnlocked: every mark gets a timestamp of its own. */
  function Mark(s: Sys, id: int): Sys {
    s.(unlockedAt := s.unlockedAt[id := s.clock], clock := s.clock + 1)
  }

  /** clearUnlocked. */
  function Unmark(s: Sys, id: int): Sys {
    s.(unlockedAt := s.unlockedAt - {id})
  }

  // ---- sections under opMu ----------------------------------------------

  ghost function ImportStep(s: Sys, name: string, path: string, mountDir: string, ok: bool): Sys {
    if s.opMu.Free? && IsValidName(name)
       && name !in s.pendingNames && path !in s.pendingPaths
       && !NameTaken(s.rows, name) && !PathTaken(s.rows, path)
       && name !in s.os.mappers && path in s.os.files && ok
    then
      s.(rows := s.rows[s.nextId := Vault(name, path, MountPointOf(mountDir, name), name)],
         nextId := s.nextId + 1)
    else
      s
  }

  function LookupStep(s: Sys, r: int, id: int): Sys {
    if id in s.rows && r !in s.requests then s.(requests := s.requests[r := Request(id, s.rows[id])]) else s
  }

  function Done(s: Sys, r: int): Sys {
    s.(requests := s.requests - {r})
  }

  function Hold(s: Sys, r: int, section: Section): Sys {
    Done(s, r).(opMu := section)
  }

  function UnlockStep(s: Sys, r: int, ok: bool): Sys
    requires r in s.requests
  {
    var Request(id, v) := s.requests[r];
    if !IsUnlocked(s.os, v) && ok && CanOpen(s.os, v.path, v.mapperName)
    then Hold(s, r, MountNext(id, v)).(os := Open(s.os, v.path, v.mapperName))
    else Done(s, r)
  }

  function LockStep(s: Sys, r: int, ok: bool): Sys
    requires r in s.requests
  {
    var Request(id, v) := s.requests[r];
    if !IsUnlocked(s.os, v) then Done(s, r)
    else if !IsMounted(s.os, v) then Hold(s, r, CloseNext(id, v, false))
    else if ok then Hold(s, r, CloseNext(id, v, false)).(os := Umount(s.os, v.mountPoint))
    else Done(s, r)
  }

  function RemountStep(s: Sys, r: int, ok: bool): Sys
    requires r in s.requests
  {
    var v := s.requests[r].v;
    if IsUnlocked(s.os, v) && !IsMounted(s.os, v) && ok
    then Done(s, r).(os := Mount(s.os, v.mapperName, v.mountPoint))
    else Done(s, r)
  }

  function DeleteStep(s: Sys, r: int, ok: bool): Sys
    requires r in s.requests
  {
    var Request(id, v) := s.requests[r];
    if !IsUnlocked(s.os, v) && ok
    then Hold(s, r, ForgetNext(id, v)).(rows := s.rows - {id})
    else Done(s, r)
  }

  /** luksClose of a lock, or of an auto-lock, which then leaves opMu before it clears the window. */
  function CloseStep(s: Sys, id: int, v: Vault, sweeping: bool, ok: bool): Sys {
    if ok && CanClose(s.os, v.mapperName) then
      var s' := s.(os := Close(s.os, v.mapperName));
      if !sweeping then s'.(opMu := ClearNext(id, v)) else s'.(opMu := Free, sweep := Clearing(id, Rest(s.sweep)))
    else if !sweeping then s.(opMu := Free)
    else s.(opMu := Free, sweep := Visiting(Rest(s.sweep)))
  }

  function Rest(sweep: Sweep): set<int> {
    if sweep.Locking? then sweep.rest else {}
  }

  /** The next command of whoever holds opMu. */
  function ContinueStep(s: Sys, ok: bool): Sys {
    match s.opMu
    case Free => s
    case MountNext(id, v) =>
      if ok && CanMount(s.os, v.mapperName, v.mountPoint)
      then s.(os := Mount(s.os, v.mapperName, v.mountPoint), opMu := MarkNext(id, v))
      else s.(opMu := UndoOpen(id, v))
    case UndoOpen(id, v) => s.(os := Close(s.os, v.mapperName), opMu := Free)
    case MarkNext(id, v) => Mark(s, id).(opMu := Free)
    case CloseNext(id, v, sweeping) => CloseStep(s, id, v, sweeping, ok)
    case ClearNext(id, v) => Unmark(s, id).(opMu := Free)
    case ForgetNext(id, v) => Unmark(s, id).(opMu := RemoveNext(id, v))
    case RemoveNext(id, v) =>
      s.(os := if !IsUnlocked(s.os, v) && ok then RemoveFile(s.os, v.path) else s.os, opMu := Free)
  }

  // ---- autoLockSweep and autoLockVault ----------------------------------

  function Expired(s: Sys): set<int> {
    set id | id in s.unlockedAt && s.clock - s.unlockedAt[id] >= s.window
  }

  /** vaultAutoLock, once the window was found unchanged under opMu. */
  function SweepLockStep(s: Sys, ok: bool): Sys
    requires s.sweep.Found?
  {
    var Found(id, since, v, rest) := s.sweep;
    if !IsUnlocked(s.os, v) then s.(sweep := Clearing(id, rest))
    else if !IsMounted(s.os, v) then s.(sweep := Locking(id, rest), opMu := CloseNext(id, v, true))
    else if ok then
      s.(sweep := Locking(id, rest), opMu := CloseNext(id, v, true), os := Umount(s.os, v.mountPoint))
    else s.(sweep := Visiting(rest))
  }

  /** autoLockVault under opMu: only if the window is the one read before. */
  function SweepTryStep(s: Sys, ok: bool): Sys
    requires s.sweep.Found?
  {
    if !s.opMu.Free? then s
    else if Get(s.unlockedAt, s.sweep.id) != s.sweep.since then s.(sweep := Visiting(s.sweep.rest))
    else SweepLockStep(s, ok)
  }

  /** What the sweep does without opMu: take its snapshot, read a window and a row. */
  function SweepRead(s: Sys, id: int): Sweep {
    match s.sweep
    case Idle => if s.window > 0 then Visiting(Expired(s)) else Idle
    case Visiting(rest) =>
      if rest == {} then Idle
      else if id in rest then Seen(id, Get(s.unlockedAt, id), rest - {id})
      else s.sweep
    case Seen(seen, since, rest) => if seen in s.rows then Found(seen, since, s.rows[seen], rest)
      else Clearing(seen, rest)
    case Found(_, _, _, _) => s.sweep
    case Locking(_, _) => s.sweep
    case Clearing(_, rest) => Visiting(rest)
  }

  function SweepStep(s: Sys, id: int, ok: bool): Sys {
    if s.sweep.Found? then SweepTryStep(s, ok)
    else if s.sweep.Clearing? then Unmark(s, s.sweep.id).(sweep := SweepRead(s, id))
    else s.(sweep := SweepRead(s, id))
  }

  // ---- runs -------------------------------------------------------------

  ghost function Next(s: Sys, step: Step): Sys {
    match step
    case Tick(elapsed) => s.(clock := s.clock + elapsed)
    case PlaceImage(path) => s.(os := AddFile(s.os, path))
    case Reserve(j, name, imgPath, mountDir) => ReserveStep(s, j, name, imgPath, mountDir)
    case Work(j, answers) => if j in s.jobs then WorkStep(s, j, answers) else s
    case Import(name, path, mountDir, ok) => ImportStep(s, name, path, mountDir, ok)
    case Lookup(r, id) => LookupStep(s, r, id)
    case Unlock(r, ok) => if s.opMu.Free? && r in s.requests then UnlockStep(s, r, ok) else s
    case Lock(r, ok) => if s.opMu.Free? && r in s.requests then LockStep(s, r, ok) else s
    case Remount(r, ok) => if s.opMu.Free? && r in s.requests then RemountStep(s, r, ok) else s
    case Delete(r, ok) => if s.opMu.Free? && r in s.requests then DeleteStep(s, r, ok) else s
    case Continue(ok) => ContinueStep(s, ok)
    case SweepOn(id, ok) => SweepStep(s, id, ok)
  }

  ghost function After(s: Sys, steps: seq<Step>): Sys
    decreases |steps|
  {
    if steps == [] then s else After(Next(s, steps[0]), steps[1..])
  }

  /** A run in two parts is the second after the first. */
  lemma {:induction false} AfterInTwo(s: Sys, first: seq<Step>, second: seq<Step>)
    ensures After(s, first + second) == After(After(s, first), second)
    decreases |first|
  {
    if first == [] {
      assert first + second == second;
    } else {
      assert (first + second)[0] == first[0] && (first + second)[1..] == first[1..] + second;
      AfterInTwo(Next(s, first[0]), first[1..], second);
    }
  }

  lemma AfterTwo(s: Sys, a: Step, b: Step)
    ensures After(s, [a, b]) == Next(Next(s, a), b)
  {
    assert [a, b][1..] == [b] && [b][1..] == [];
    assert After(s, [a, b]) == After(Next(s, a), [b]);
  }

  lemma AfterThree(s: Sys, a: Step, b: Step, c: Step)
    ensures After(s, [a, b, c]) == Next(Next(Next(s, a), b), c)
  {
    assert [a, b, c][1..] == [b, c] && [b, c][1..] == [c] && [c][1..] == [];
    assert After(s, [a, b, c]) == After(Next(s, a), [b, c]);
    assert After(Next(s, a), [b, c]) == After(Next(Next(s, a), b), [c]);
  }

  lemma AfterFour(s: Sys, a: Step, b: Step, c: Step, d: Step)
    ensures After(s, [a, b, c, d]) == Next(Next(Next(Next(s, a), b), c), d)
  {
    assert [a, b, c, d][1..] == [b, c, d];
    AfterThree(Next(s, a), b, c, d);
  }

  lemma AfterFive(s: Sys, a: Step, b: Step, c: Step, d: Step, e: Step)
    ensures After(s, [a, b, c, d, e]) == Next(Next(Next(Next(Next(s, a), b), c), d), e)
  {
    assert [a, b, c, d, e][1..] == [b, c, d, e];
    AfterFour(Next(s, a), b, c, d, e);
  }
}
