/**
  The request handlers in the form they have in the program: methods of one
  object that update its maps. Each is proved equal to the steps of the
  transition system that it performs when nothing else runs in between.
 */
module Handlers {
  import opened Wrappers
  import opened Names
  import opened Machine
  import opened Lifecycle
  import opened Registry
  import opened Ownership
  import opened Vaults
  import opened CreateAlone
  import opened AutoLock

  // ---- each section as one change ---------------------------------------

  /** Unlock: the device and the window change together, or nothing does. */
  lemma UnlockSection(s: Sys, r: int, openOk: bool, mountOk: bool)
    requires s.opMu.Free? && r in s.requests
    ensures
      var Request(id, v) := s.requests[r];
      var s' := Done(s, r).(os := UnlockedOs(s.os, v, openOk, mountOk));
      After(s, [Step.Unlock(r, openOk), Continue(mountOk), Continue(true)])
        == if Unlocks(s.os, v, openOk, mountOk) then Mark(s', id) else s'
  {
    var Request(id, v) := s.requests[r];
    var steps := [Step.Unlock(r, openOk), Continue(mountOk), Continue(true)];
    AfterThree(s, Step.Unlock(r, openOk), Continue(mountOk), Continue(true));
    var opening := Next(s, Step.Unlock(r, openOk));
    if IsUnlocked(s.os, v) || !openOk || !CanOpen(s.os, v.path, v.mapperName) {
      assert opening == Done(s, r);
    } else {
      assert opening == Hold(s, r, MountNext(id, v)).(os := Open(s.os, v.path, v.mapperName));
    }
  }

  /** Lock: the window is cleared exactly if the vault was locked. */
  lemma LockSection(s: Sys, r: int, a: Answer)
    requires s.opMu.Free? && r in s.requests
    ensures
      var Request(id, v) := s.requests[r];
      var s' := Done(s, r).(os := LockedOs(s.os, v, a));
      After(s, [Step.Lock(r, a.umount), Continue(a.close), Continue(true)])
        == if LockOutcomeOf(s.os, v, a).Locked? then Unmark(s', id) else s'
  {
    var Request(id, v) := s.requests[r];
    AfterThree(s, Step.Lock(r, a.umount), Continue(a.close), Continue(true));
    var next := Next(s, Step.Lock(r, a.umount));
    if !IsUnlocked(s.os, v) || (IsMounted(s.os, v) && !a.umount) {
      assert next == Done(s, r);
    } else {
      assert !IsMounted(s.os, v) ==> s.os.mounts - {v.mountPoint} == s.os.mounts;
      assert next == Hold(s, r, CloseNext(id, v, false)).(os := Umount(s.os, v.mountPoint));
    }
  }

  /** Delete: row and window go together; the image goes if the removal succeeds. */
  lemma DeleteSection(s: Sys, r: int, dbOk: bool, removeOk: bool)
    requires s.opMu.Free? && r in s.requests
    ensures
      var Request(id, v) := s.requests[r];
      After(s, [Step.Delete(r, dbOk), Continue(true), Continue(removeOk)])
        == if IsUnlocked(s.os, v) || !dbOk then Done(s, r)
           else Unmark(Done(s, r), id).(rows := s.rows - {id},
             os := if removeOk then RemoveFile(s.os, v.path) else s.os)
  {
    var Request(id, v) := s.requests[r];
    AfterThree(s, Step.Delete(r, dbOk), Continue(true), Continue(removeOk));
    var next := Next(s, Step.Delete(r, dbOk));
    if IsUnlocked(s.os, v) || !dbOk {
      assert next == Done(s, r);
    } else {
      assert next == Hold(s, r, ForgetNext(id, v)).(rows := s.rows - {id});
    }
  }

  /** Some key of a map that a loop still has to visit: Go's range order is arbitrary. */
  method Pick(ids: set<int>) returns (id: int)
    requires ids != {}
    ensures id in ids
  {
    assert (forall x: int :: x !in ids) ==> ids == {};
    id :| id in ids;
  }

  class Handler {
    // internal/db and the machine
    var rows: map<int, Vault>
    var nextId: int
    const host: Host
    // the handler's own maps
    var pendingNames: set<string>
    var pendingPaths: set<string>
    var unlockedAt: map<int, int>
    var clock: int
    const window: int
    // where the activities under way stand
    ghost var jobs: map<int, Job>
    ghost var requests: map<int, Request>
    ghost var opMu: Section
    ghost var sweep: Sweep

    ghost function State(): Sys
      reads this, host
    {
      Sys(rows, nextId, host.os, pendingNames, pendingPaths, unlockedAt, clock, window, jobs, requests, opMu, sweep)
    }

    /** NewMux and autoLockLoop's startup scan: vaults found unlocked get a window. */
    constructor (rows: map<int, Vault>, nextId: int, host: Host, clock: int, window: int)
      ensures this.host == host && this.rows == rows && this.nextId == nextId && this.window == window
      ensures pendingNames == {} && pendingPaths == {} && jobs == map[] && requests == map[]
      ensures opMu == Free && sweep == Idle
      ensures unlockedAt.Keys == set id | id in rows && IsUnlocked(host.os, rows[id])
      ensures forall id :: id in unlockedAt ==> unlockedAt[id] < this.clock
    {
      this.rows, this.nextId, this.host, this.clock, this.window := rows, nextId, host, clock, window;
      pendingNames, pendingPaths, unlockedAt := {}, {}, map[];
      jobs, requests, opMu, sweep := map[], map[], Free, Idle;
      new;
      var ids := rows.Keys;
      while ids != {}
        invariant ids <= rows.Keys
        invariant unlockedAt.Keys == set id | id in rows.Keys - ids && IsUnlocked(host.os, rows[id])
        invariant forall id :: id in unlockedAt ==> unlockedAt[id] < this.clock
        invariant this.rows == rows && this.nextId == nextId && pendingNames == {} && pendingPaths == {}
        invariant jobs == map[] && requests == map[] && opMu == Free && sweep == Idle
        decreases |ids|
      {
        var id := Pick(ids);
        ids := ids - {id};
        if IsUnlocked(host.os, rows[id]) {
          MarkUnlocked(id);
        }
      }
    }

    method MarkUnlocked(id: int)
      modifies this`unlockedAt, this`clock
      ensures unlockedAt == old(unlockedAt)[id := old(clock)] && clock == old(clock) + 1
    {
      unlockedAt := unlockedAt[id := clock];
      clock := clock + 1;
    }

    method ClearUnlocked(id: int)
      modifies this`unlockedAt
      ensures unlockedAt == old(unlockedAt) - {id}
    {
      unlockedAt := unlockedAt - {id};
    }

    /** createVault up to the start of its goroutine; false is the 409 answer. */
    method CreateVault(ghost j: int, name: string, imgPath: string, mountDir: string) returns (accepted: bool)
      requires opMu == Free && j !in jobs && IsValidName(name)
      modifies this
      ensures State() == ReserveStep(old(State()), j, name, imgPath, mountDir)
      ensures accepted <==> name !in old(pendingNames) && imgPath !in old(pendingPaths)
      ensures pendingNames == if accepted then old(pendingNames) + {name} else old(pendingNames)
      ensures pendingPaths == if accepted then old(pendingPaths) + {imgPath} else old(pendingPaths)
      ensures accepted ==> jobs == old(jobs)[j := Job(name, imgPath, mountDir + "/" + name, Reserved)]
      ensures !accepted ==> jobs == old(jobs)
      ensures rows == old(rows) && nextId == old(nextId) && unlockedAt == old(unlockedAt)
    {
      if name in pendingNames {
        return false;
      }
      if imgPath in pendingPaths {
        return false;
      }
      pendingNames := pendingNames + {name};
      pendingPaths := pendingPaths + {imgPath};
      jobs := jobs[j := Job(name, imgPath, MountPointOf(mountDir, name), Reserved)];
      return true;
    }

    /** releasePending of a goroutine that is done. */
    method ReleasePending(ghost j: int, name: string, imgPath: string)
      requires opMu == Free && j in jobs && jobs[j].name == name && jobs[j].imgPath == imgPath
      modifies this
      ensures State() == ReleaseStep(old(State()), j)
      ensures pendingNames == old(pendingNames) - {name} && pendingPaths == old(pendingPaths) - {imgPath}
      ensures jobs == old(jobs) - {j} && rows == old(rows) && unlockedAt == old(unlockedAt)
    {
      pendingNames := pendingNames - {name};
      pendingPaths := pendingPaths - {imgPath};
      jobs := jobs - {j};
    }

    /** importVault under opMu; probeOk stands for the LUKS probe, the stat and the insert. */
    method ImportVault(name: string, path: string, mountDir: string, probeOk: bool) returns (accepted: bool)
      requires opMu == Free && IsValidName(name)
      modifies this
      ensures State() == ImportStep(old(State()), name, path, mountDir, probeOk)
      ensures accepted <==>
        && name !in old(pendingNames) && path !in old(pendingPaths)
        && (forall id :: id in old(rows) ==> old(rows)[id].name != name && old(rows)[id].path != path)
        && name !in host.os.mappers && path in host.os.files && probeOk
      ensures accepted ==> rows == old(rows)[old(nextId) := Vault(name, path, mountDir + "/" + name, name)]
      ensures accepted ==> nextId == old(nextId) + 1
      ensures !accepted ==> rows == old(rows) && nextId == old(nextId)
      ensures pendingNames == old(pendingNames) && pendingPaths == old(pendingPaths)
      ensures unlockedAt == old(unlockedAt) && clock == old(clock)
    {
      if name in pendingNames || path in pendingPaths {
        return false;
      }
      var existing := rows.Keys;
      while existing != {}
        invariant existing <= rows.Keys
        invariant forall id :: id in rows.Keys - existing ==> rows[id].name != name && rows[id].path != path
        invariant State() == old(State())
        decreases |existing|
      {
        var id := Pick(existing);
        existing := existing - {id};
        if rows[id].name == name || rows[id].path == path {
          return false;
        }
      }
      if name in host.os.mappers || path !in host.os.files || !probeOk {
        return false;
      }
      rows := rows[nextId := Vault(name, path, MountPointOf(mountDir, name), name)];
      nextId := nextId + 1;
      return true;
    }

    /** unlockVault, once the request has looked its vault up. */
    method UnlockVault(ghost r: int, id: int, v: Vault, openOk: bool, mountOk: bool) returns (ok: bool)
      requires opMu == Free && r in requests && requests[r] == Request(id, v)
      modifies this, host
      ensures State() == After(old(State()), [Unlock(r, openOk), Continue(mountOk), Continue(true)])
      ensures ok <==>
        && v.mapperName !in old(host.os).mappers && v.mountPoint !in old(host.os).mounts
        && openOk && mountOk && v.path in old(host.os).files
      ensures ok ==> host.os.mappers == old(host.os).mappers[v.mapperName := v.path]
      ensures ok ==> host.os.mounts == old(host.os).mounts[v.mountPoint := v.mapperName]
      ensures unlockedAt == if ok then old(unlockedAt)[id := old(clock)] else old(unlockedAt)
      ensures rows == old(rows) && host.os.files == old(host.os).files
    {
      ghost var s := State();
      ok := host.Unlock(v, openOk, mountOk);
      requests := requests - {r};
      if ok {
        MarkUnlocked(id);
      }
      UnlockSection(s, r, openOk, mountOk);
    }

    /** lockVault. */
    method LockVault(ghost r: int, id: int, v: Vault, a: Answer) returns (outcome: LockOutcome)
      requires opMu == Free && r in requests && requests[r] == Request(id, v)
      modifies this, host
      ensures State() == After(old(State()), [Lock(r, a.umount), Continue(a.close), Continue(true)])
      ensures outcome == LockOutcomeOf(old(host.os), v, a)
      ensures unlockedAt == if outcome == Locked then old(unlockedAt) - {id} else old(unlockedAt)
      ensures outcome == Locked ==> v.mapperName !in host.os.mappers && v.mountPoint !in host.os.mounts
      ensures rows == old(rows) && host.os.files == old(host.os).files
    {
      ghost var s := State();
      outcome := host.Lock(v, a);
      requests := requests - {r};
      if outcome == Locked {
        ClearUnlocked(id);
      }
      LockSection(s, r, a);
    }

    /** mountVault. */
    method MountVault(ghost r: int, id: int, v: Vault, mountOk: bool) returns (ok: bool)
      requires opMu == Free && r in requests && requests[r] == Request(id, v)
      modifies this, host
      ensures State() == Next(old(State()), Remount(r, mountOk))
      ensures ok <==> v.mapperName in old(host.os).mappers && v.mountPoint !in old(host.os).mounts && mountOk
      ensures host.os.mounts ==
        if ok then old(host.os).mounts[v.mountPoint := v.mapperName] else old(host.os).mounts
      ensures rows == old(rows) && unlockedAt == old(unlockedAt)
    {
      ok := host.Mount(v, mountOk);
      requests := requests - {r};
    }

    /** deleteVault: the row first, then the window, then the image. */
    method DeleteVault(ghost r: int, id: int, v: Vault, dbOk: bool, removeOk: bool) returns (ok: bool)
      requires opMu == Free && r in requests && requests[r] == Request(id, v)
      modifies this, host
      ensures State() == After(old(State()), [Delete(r, dbOk), Continue(true), Continue(removeOk)])
      ensures ok <==> v.mapperName !in old(host.os).mappers && v.mountPoint !in old(host.os).mounts && dbOk
      ensures rows == if ok then old(rows) - {id} else old(rows)
      ensures unlockedAt == if ok then old(unlockedAt) - {id} else old(unlockedAt)
      ensures host.os == old(host.os).(files :=
        if ok && removeOk then old(host.os).files - {v.path} else old(host.os).files)
    {
      ghost var s := State();
      ok := !IsUnlocked(host.os, v) && dbOk;
      requests := requests - {r};
      if ok {
        rows := rows - {id};
        ClearUnlocked(id);
        var _ := host.Delete(v, removeOk);
      }
      DeleteSection(s, r, dbOk, removeOk);
    }

    // ---- auto-lock ------------------------------------------------------

    /** autoLockVault for an expired id; Visited is its run in the transition system (VisitSection). */
    method AutoLockVault(id: int, a: Answer)
      requires opMu.Free? && sweep.Visiting? && id in sweep.rest
      modifies this`unlockedAt, this`sweep, host
      ensures State() == Visited(old(State()), id, a)
      ensures sweep == Visiting(old(sweep).rest - {id})
      ensures host.os == VisitedOs(old(host.os), rows, id, a)
      ensures unlockedAt == VisitedWindows(old(host.os), rows, old(unlockedAt), id, a)
    {
      sweep := Visiting(sweep.rest - {id});
      var since := Get(unlockedAt, id);
      if id !in rows {
        ClearUnlocked(id);
        return;
      }
      // Under opMu: has the window been restarted since it was read?
      if Get(unlockedAt, id) != since {
        return;
      }
      var outcome := host.Lock(rows[id], a);
      match outcome
      case AlreadyLocked => ClearUnlocked(id);
      case UmountFailed => // busy: the next sweep tries again
      case CloseFailed =>
      case Locked => ClearUnlocked(id);
    }

    /** autoLockSweep: every due vault is visited once, and no other vault changes. */
    method AutoLockSweep(answers: map<int, Answer>)
      requires opMu.Free? && sweep.Idle? && rows.Keys <= answers.Keys && unlockedAt.Keys <= answers.Keys
      requires RowsApart(rows) && RowsStacked(host.os, rows)
      modifies this`unlockedAt, this`sweep, host
      ensures sweep.Idle? && RowsStacked(host.os, rows)
      ensures VaultsSwept(rows, old(host.os), old(unlockedAt), host.os, unlockedAt, {}, clock, window, answers)
      ensures StraysSwept(rows, old(unlockedAt), unlockedAt, {}, clock, window)
      ensures unlockedAt.Keys <= old(unlockedAt).Keys
      ensures forall id :: id in rows && id in old(unlockedAt) && 0 < window <= clock - old(unlockedAt)[id] ==>
        answers[id] == Answer(true, true) ==>
          rows[id].mapperName !in host.os.mappers && rows[id].mountPoint !in host.os.mounts && id !in unlockedAt
      ensures forall id :: id in rows && !(id in old(unlockedAt) && 0 < window <= clock - old(unlockedAt)[id]) ==>
        && (rows[id].mapperName in host.os.mappers <==> rows[id].mapperName in old(host.os).mappers)
        && (rows[id].mountPoint in host.os.mounts <==> rows[id].mountPoint in old(host.os).mounts)
        && Get(unlockedAt, id) == Get(old(unlockedAt), id)
    {
      if window <= 0 {
        return;
      }
      var expired := set id | id in unlockedAt && clock - unlockedAt[id] >= window;
      ghost var os0, windows0 := host.os, unlockedAt;
      sweep := Visiting(expired);
      SweepBegins(rows, os0, windows0, expired, clock, window, answers);
      while expired != {}
        invariant opMu.Free? && sweep == Visiting(expired) && expired <= answers.Keys
        invariant forall id :: id in expired ==> Due(Get(windows0, id), clock, window)
        invariant RowsStacked(host.os, rows) && unlockedAt.Keys <= windows0.Keys
        invariant VaultsSwept(rows, os0, windows0, host.os, unlockedAt, expired, clock, window, answers)
        invariant StraysSwept(rows, windows0, unlockedAt, expired, clock, window)
        decreases |expired|
      {
        var id := Pick(expired);
        VisitSweeps(rows, os0, windows0, host.os, unlockedAt, expired, clock, window, answers, id);
        AutoLockVault(id, answers[id]);
        expired := expired - {id};
      }
      sweep := Idle;
      forall id | id in rows {
        SweepLocksDue(rows, os0, windows0, host.os, unlockedAt, clock, window, answers, id);
      }
    }

    /** What one tick of the loop does to each vault. */
    method AutoLockTick(round: Round)
      requires opMu.Free? && sweep.Idle? && RowsApart(rows) && RowsStacked(host.os, rows)
      requires rows.Keys <= round.answers.Keys && unlockedAt.Keys <= round.answers.Keys
      modifies this`unlockedAt, this`sweep, this`clock, host
      ensures sweep.Idle? && RowsStacked(host.os, rows) && unlockedAt.Keys <= old(unlockedAt).Keys
      ensures clock == old(clock) + round.elapsed
      ensures forall id :: id in rows ==>
        Watch(host.os, rows[id], Get(unlockedAt, id))
          == Swept(old(Watch(host.os, rows[id], Get(unlockedAt, id))), clock, window, round.answers[id])
    {
      clock := clock + round.elapsed;
      AutoLockSweep(round.answers);
    }

    /** autoLockLoop: one sweep per tick; each vault goes through its own visits, one after another. */
    method AutoLockLoop(rounds: seq<Round>)
      requires opMu.Free? && sweep.Idle? && RowsApart(rows) && RowsStacked(host.os, rows)
      requires forall i :: 0 <= i < |rounds| ==> rows.Keys + unlockedAt.Keys <= rounds[i].answers.Keys
      modifies this`unlockedAt, this`sweep, this`clock, host
      ensures sweep.Idle? && RowsStacked(host.os, rows)
      ensures forall id :: id in rows ==>
        Watch(host.os, rows[id], Get(unlockedAt, id))
          == AfterVisits(old(Watch(host.os, rows[id], Get(unlockedAt, id))), window, VisitsOf(rounds, old(clock), id))
    {
      ghost var os0, windows0, clock0 := host.os, unlockedAt, clock;
      for i := 0 to |rounds|
        invariant opMu.Free? && sweep.Idle? && RowsStacked(host.os, rows) && unlockedAt.Keys <= windows0.Keys
        invariant forall id :: id in rows ==>
          AfterVisits(Watch(host.os, rows[id], Get(unlockedAt, id)), window, VisitsOf(rounds[i..], clock, id))
            == AfterVisits(Watch(os0, rows[id], Get(windows0, id)), window, VisitsOf(rounds, clock0, id))
      {
        ghost var os, windows, left := host.os, unlockedAt, rounds[i..];
        assert left[1..] == rounds[i + 1..];
        AutoLockTick(rounds[i]);
        forall id | id in rows
          ensures AfterVisits(Watch(host.os, rows[id], Get(unlockedAt, id)),
            window, VisitsOf(rounds[i + 1..], clock, id))
            == AfterVisits(Watch(os, rows[id], Get(windows, id)),
              window, VisitsOf(left, clock - rounds[i].elapsed, id))
        {
          RoundIsVisit(Watch(os, rows[id], Get(windows, id)), Watch(host.os, rows[id], Get(unlockedAt, id)),
            window, left, clock - rounds[i].elapsed, id);
        }
      }
    }

    // ---- the goroutine of a create --------------------------------------

    /** createFile: fallocate, or failing that dd over a cleared path. */
    method AllocateFile(imgPath: string, a: Answers) returns (ok: bool)
      modifies host
      ensures ok <==> a.fallocate || a.dd
      ensures ok ==> host.os == AddFile(old(host.os), imgPath)
      ensures RemoveFile(host.os, imgPath) == RemoveFile(old(host.os), imgPath)
    {
      if a.fallocate || a.fallocatePartial { host.os := AddFile(host.os, imgPath); }
      if a.fallocate { return true; }
      host.os := RemoveFile(host.os, imgPath);
      if a.dd || a.ddPartial { host.os := AddFile(host.os, imgPath); }
      return a.dd;
    }

    /** vault.Create: everything is built, or everything built is taken away again. */
    method Create(job: Job, a: Answers) returns (ok: bool)
      requires Stacked(host.os) && a.jobId
      modifies this`rows, this`nextId, host
      ensures ok <==> Accepted(old(host.os), job, a, !NameTaken(old(rows), job.name))
      ensures ok <==>
        && a.storage && a.space && a.loop && (a.fallocate || a.dd) && a.format && a.open && a.mkfs
        && a.mountDir && a.mount && a.chmod && a.insert
        && job.imgPath !in old(host.os).files && job.name !in old(host.os).mappers
        && job.mountPoint !in old(host.os).mounts
        && forall id :: id in old(rows) ==> old(rows)[id].name != job.name
      ensures ok ==> host.os == Os(old(host.os).files + {job.imgPath},
        old(host.os).mappers[job.name := job.imgPath], old(host.os).mounts[job.mountPoint := job.name])
      ensures ok ==> rows == old(rows)[old(nextId) := Vault(job.name, job.imgPath, job.mountPoint, job.name)]
      ensures host.os == if ok then Built(old(host.os), job) else old(host.os)
      ensures rows == if ok then old(rows)[old(nextId) := NewVault(job)] else old(rows)
      ensures nextId == if ok then old(nextId) + 1 else old(nextId)
    {
      if !a.storage || !a.space || !a.loop {
        return false;
      }
      if job.imgPath in host.os.files || job.name in host.os.mappers {
        return false;
      }
      ghost var os0 := host.os;
      assert RemoveFile(AddFile(os0, job.imgPath), job.imgPath) == os0 == RemoveFile(os0, job.imgPath);
      ok := AllocateFile(job.imgPath, a);
      if !ok || !a.format || !a.open {
        host.os := RemoveFile(host.os, job.imgPath);
        return false;
      }
      host.os := Open(host.os, job.imgPath, job.name);
      if !a.mkfs || !a.mountDir || !a.mount || job.mountPoint in host.os.mounts {
        Undo(job, false, os0);
        return false;
      }
      host.os := Mount(host.os, job.name, job.mountPoint);
      if !a.chmod {
        Undo(job, true, os0);
        return false;
      }
      ok := InsertRow(NewVault(job), a.insert);
      if !ok {
        Undo(job, true, os0);
      }
    }

    /** database.CreateVault: refused if the name is taken. */
    method InsertRow(v: Vault, dbOk: bool) returns (ok: bool)
      modifies this`rows, this`nextId
      ensures ok <==> dbOk && !NameTaken(old(rows), v.name)
      ensures rows == if ok then old(rows)[old(nextId) := v] else old(rows)
      ensures nextId == if ok then old(nextId) + 1 else old(nextId)
    {
      ok := dbOk && forall id :: id in rows ==> rows[id].name != v.name;
      if ok {
        rows := rows[nextId := v];
        nextId := nextId + 1;
      }
    }

    /** The failure branches: umount before luksClose before the image goes. */
    method Undo(job: Job, mounted: bool, ghost os0: Os)
      requires Stacked(os0) && job.imgPath !in os0.files && job.name !in os0.mappers
      requires mounted ==> job.mountPoint !in os0.mounts
      requires host.os == (if mounted then Built(os0, job) else Built(os0, job).(mounts := os0.mounts))
      modifies host
      ensures host.os == os0
    {
      if mounted {
        host.os := Umount(host.os, job.mountPoint);
        assert host.os.mounts == os0.mounts;
      }
      host.os := Close(host.os, job.name);
      assert host.os.mappers == os0.mappers;
      host.os := RemoveFile(host.os, job.imgPath);
    }

    /** The goroutine of createVault: vault.Create, then the window, then the release. */
    method RunCreate(ghost j: int, job: Job, a: Answers)
      requires opMu.Free? && j in jobs && jobs[j] == job && job.pc == Reserved && Stacked(host.os)
      requires NamesDistinct(rows) && forall id :: id in rows ==> id < nextId
      modifies this, host
      ensures State() == Alone(old(State()), j, a)
    {
      AloneIsAllOrNothing(State(), j, a);
      if a.jobId {
        CreateAndMark(j, job, a);
      }
      ReleasePending(j, job.name, job.imgPath);
    }

    method CreateAndMark(ghost j: int, job: Job, a: Answers)
      requires j in jobs && jobs[j] == job && a.jobId && Stacked(host.os)
      requires NamesDistinct(rows) && forall id :: id in rows ==> id < nextId
      modifies this, host
      ensures State() == Outcome(old(State()), j, a)
    {
      ghost var s := State();
      var ok := Create(job, a);
      if ok {
        OwnRowFound(s.rows, s.nextId, NewVault(job));
        assert IsUnlocked(host.os, rows[s.nextId]);
      }
      MarkCreated(job.name);
    }

    /** A created vault is unlocked and mounted: its window starts now. */
    method MarkCreated(name: string)
      requires NamesDistinct(rows)
      modifies this`unlockedAt, this`clock
      ensures State() == Marked(old(State()), name)
      ensures forall id :: id in rows && rows[id].name == name ==>
        var v := rows[id];
        var unlocked := v.mapperName in host.os.mappers || v.mountPoint in host.os.mounts;
        unlockedAt == if unlocked then old(unlockedAt)[id := old(clock)] else old(unlockedAt)
      ensures (forall id :: id in rows ==> rows[id].name != name) ==> unlockedAt == old(unlockedAt)
    {
      var found := GetVaultByName(name);
      if found.Some? && IsUnlocked(host.os, rows[found.value]) {
        MarkUnlocked(found.value);
      }
    }

    method GetVaultByName(name: string) returns (found: Option<int>)
      requires NamesDistinct(rows)
      ensures found == IdOf(rows, name)
      ensures found.Some? <==> exists id :: id in rows && rows[id].name == name
      ensures found.Some? ==> found.value in rows && rows[found.value].name == name
    {
      if exists id :: id in rows && rows[id].name == name {
        var id :| id in rows && rows[id].name == name;
        return Some(id);
      }
      return None;
    }
  }

  /** The UNIQUE constraint on names. */
  ghost predicate NamesDistinct(rows: map<int, Vault>) {
    forall a, b :: a in rows && b in rows && a != b ==> rows[a].name != rows[b].name
  }

  lemma OwnRowFound(rows: map<int, Vault>, id: int, v: Vault)
    requires id !in rows && !NameTaken(rows, v.name) && NamesDistinct(rows)
    ensures NamesDistinct(rows[id := v]) && IdOf(rows[id := v], v.name) == Some(id)
  {
    var rows' := rows[id := v];
    assert rows'[id].name == v.name;
    var found := IdOf(rows', v.name).value;
    assert found == id;
  }
}
