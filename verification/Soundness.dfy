/** Every step of an orderly run keeps Sound; so whole orderly runs do. */
module Soundness {
  import opened Wrappers
  import opened Names
  import opened Machine
  import opened Lifecycle
  import opened Registry
  import opened Ownership

  // ---- devices of creates -----------------------------------------------

  ghost predicate HoldersDistinct(holders: map<int, Holder>) {
    forall i, j :: i in holders && j in holders && i != j ==> holders[i].name != holders[j].name
  }

  /** holders' is holders with create j put in, changed or taken out. */
  ghost predicate OnlyMoved(holders: map<int, Holder>, holders': map<int, Holder>, j: int) {
    && (forall i :: i in holders && i != j ==> i in holders' && holders'[i] == holders[i])
    && (forall i :: i in holders' && i != j ==> i in holders)
  }

  /** Each mapper left was there before and not create j's, or is create j's now. */
  lemma MappersStillOwned(
    mappers: map<string, string>, mappers': map<string, string>, rows: map<int, Vault>,
    holders: map<int, Holder>, holders': map<int, Holder>, j: int)
    requires MappersOwned(mappers, rows, holders) && OnlyMoved(holders, holders', j)
    requires forall m :: m in mappers' ==>
      || (m in mappers && mappers'[m] == mappers[m] && !(j in holders && holders[j].opens && holders[j].name == m))
      || (j in holders' && holders'[j].opens && holders'[j].name == m && holders'[j].imgPath == mappers'[m])
      || RowOpens(rows, m, mappers'[m])
    ensures MappersOwned(mappers', rows, holders')
  {
    forall m | m in mappers' && m in mappers && HolderOpens(holders, m, mappers[m])
               && !(j in holders && holders[j].opens && holders[j].name == m)
      ensures HolderOpens(holders', m, mappers[m])
    {
      var i :| i in holders && holders[i].opens && holders[i].name == m && holders[i].imgPath == mappers[m];
      assert i in holders';
    }
  }

  /** Likewise for mounts, whose mappers must stay open. */
  lemma MountsStillOwned(
    os: Os, os': Os, rows: map<int, Vault>, holders: map<int, Holder>, holders': map<int, Holder>, j: int)
    requires MountsOwned(os, rows, holders) && OnlyMoved(holders, holders', j)
    requires forall mp :: mp in os'.mounts ==> os'.mounts[mp] in os'.mappers
    requires forall mp :: mp in os'.mounts ==>
      || (mp in os.mounts && os'.mounts[mp] == os.mounts[mp]
          && !(j in holders && holders[j].mounts && holders[j].name == os.mounts[mp]))
      || (j in holders' && holders'[j].mounts && holders'[j].name == os'.mounts[mp] && holders'[j].mountPoint == mp)
      || RowMounts(rows, os'.mounts[mp], mp)
    ensures MountsOwned(os', rows, holders')
  {
    forall mp | mp in os'.mounts && mp in os.mounts && HolderMounts(holders, os.mounts[mp], mp)
                && !(j in holders && holders[j].mounts && holders[j].name == os.mounts[mp])
      ensures HolderMounts(holders', os.mounts[mp], mp)
    {
      var i :| i in holders && holders[i].mounts && holders[i].name == os.mounts[mp] && holders[i].mountPoint == mp;
      assert i in holders';
    }
  }

  lemma HoldersStillHold(os: Os, os': Os, holders: map<int, Holder>, holders': map<int, Holder>, j: int)
    requires HoldersHold(holders, os) && OnlyMoved(holders, holders', j)
    requires forall i :: i in holders && i != j && holders[i].opens ==>
      holders[i].name in os'.mappers && os'.mappers[holders[i].name] == os.mappers[holders[i].name]
    requires forall i :: i in holders && i != j && holders[i].mounts ==>
      holders[i].mountPoint in os'.mounts && os'.mounts[holders[i].mountPoint] == os.mounts[holders[i].mountPoint]
    requires j in holders' && holders'[j].opens ==>
      holders'[j].name in os'.mappers && os'.mappers[holders'[j].name] == holders'[j].imgPath
    requires j in holders' && holders'[j].mounts ==>
      holders'[j].mountPoint in os'.mounts && os'.mounts[holders'[j].mountPoint] == holders'[j].name
    ensures HoldersHold(holders', os')
  {
  }

  lemma HoldersStillNamed(rows: map<int, Vault>, holders: map<int, Holder>, holders': map<int, Holder>, j: int)
    requires HoldersFresh(holders, rows) && AllWellNamed(rows, holders) && OnlyMoved(holders, holders', j)
    requires j in holders' ==>
      && LastSegment(holders'[j].mountPoint) == holders'[j].name
      && (holders'[j].unfinished ==> !NameTaken(rows, holders'[j].name))
      && (holders'[j].opens ==> holders'[j].unfinished)
      && (holders'[j].mounts ==> holders'[j].opens)
    ensures HoldersFresh(holders', rows) && AllWellNamed(rows, holders')
  {
  }

  /** Create j comes, goes, or stops being unfinished without touching a device. */
  lemma NoDeviceMoved(os: Os, rows: map<int, Vault>, holders: map<int, Holder>, holders': map<int, Holder>, j: int)
    requires Devices(os, rows, holders) && OnlyMoved(holders, holders', j)
    requires j in holders ==> !holders[j].opens && !holders[j].mounts
    requires j in holders' ==>
      && !holders'[j].opens && !holders'[j].mounts
      && LastSegment(holders'[j].mountPoint) == holders'[j].name
      && (holders'[j].unfinished ==> !NameTaken(rows, holders'[j].name))
    ensures Devices(os, rows, holders')
  {
    MappersStillOwned(os.mappers, os.mappers, rows, holders, holders', j);
    MountsStillOwned(os, os, rows, holders, holders', j);
    HoldersStillHold(os, os, holders, holders', j);
    HoldersStillNamed(rows, holders, holders', j);
  }

  lemma NoRowNoDevice(rows: map<int, Vault>, name: string)
    requires !NameTaken(rows, name)
    ensures forall p :: !RowOpens(rows, name, p) && !RowMounts(rows, name, p)
  {
    forall p ensures !RowOpens(rows, name, p) && !RowMounts(rows, name, p) {
      if id :| id in rows && rows[id].name == name && (rows[id].path == p || rows[id].mountPoint == p) {
        assert NameTaken(rows, name);
      }
    }
  }

  /** An unfinished create is the only one that can open its name or mount under it. */
  lemma OwnDevices(os: Os, rows: map<int, Vault>, holders: map<int, Holder>, j: int)
    requires Devices(os, rows, holders) && HoldersDistinct(holders) && j in holders && holders[j].unfinished
    ensures holders[j].name in os.mappers ==> holders[j].opens
    ensures forall mp :: mp in os.mounts && os.mounts[mp] == holders[j].name
              ==> holders[j].mounts && mp == holders[j].mountPoint
    ensures holders[j].mountPoint in os.mounts ==> os.mounts[holders[j].mountPoint] == holders[j].name
  {
    NoRowNoDevice(rows, holders[j].name);
  }

  lemma OpenHolder(os: Os, rows: map<int, Vault>, holders: map<int, Holder>, j: int)
    requires Devices(os, rows, holders) && HoldersDistinct(holders) && j in holders && holders[j].unfinished
    requires !holders[j].opens && !holders[j].mounts && CanOpen(os, holders[j].imgPath, holders[j].name)
    ensures Devices(Open(os, holders[j].imgPath, holders[j].name), rows, holders[j := holders[j].(opens := true)])
  {
    var os' := Open(os, holders[j].imgPath, holders[j].name);
    var holders' := holders[j := holders[j].(opens := true)];
    OwnDevices(os, rows, holders, j);
    MappersStillOwned(os.mappers, os'.mappers, rows, holders, holders', j);
    MountsStillOwned(os, os', rows, holders, holders', j);
    HoldersStillHold(os, os', holders, holders', j);
    HoldersStillNamed(rows, holders, holders', j);
  }

  lemma MountHolder(os: Os, rows: map<int, Vault>, holders: map<int, Holder>, j: int)
    requires Devices(os, rows, holders) && HoldersDistinct(holders) && j in holders && holders[j].unfinished
    requires holders[j].opens && !holders[j].mounts && CanMount(os, holders[j].name, holders[j].mountPoint)
    ensures Devices(Mount(os, holders[j].name, holders[j].mountPoint), rows, holders[j := holders[j].(mounts := true)])
  {
    var os' := Mount(os, holders[j].name, holders[j].mountPoint);
    var holders' := holders[j := holders[j].(mounts := true)];
    OwnDevices(os, rows, holders, j);
    MappersStillOwned(os.mappers, os'.mappers, rows, holders, holders', j);
    MountsStillOwned(os, os', rows, holders, holders', j);
    HoldersStillHold(os, os', holders, holders', j);
    HoldersStillNamed(rows, holders, holders', j);
  }

  lemma UmountHolder(os: Os, rows: map<int, Vault>, holders: map<int, Holder>, j: int)
    requires Devices(os, rows, holders) && HoldersDistinct(holders) && j in holders && holders[j].unfinished
    requires holders[j].mounts
    ensures Devices(Umount(os, holders[j].mountPoint), rows, holders[j := holders[j].(mounts := false)])
  {
    var os' := Umount(os, holders[j].mountPoint);
    var holders' := holders[j := holders[j].(mounts := false)];
    OwnDevices(os, rows, holders, j);
    MappersStillOwned(os.mappers, os'.mappers, rows, holders, holders', j);
    MountsStillOwned(os, os', rows, holders, holders', j);
    HoldersStillHold(os, os', holders, holders', j);
    HoldersStillNamed(rows, holders, holders', j);
  }

  /** Nothing is mounted on the mapper any more, so the rollback's luksClose cannot be refused. */
  lemma CloseHolder(os: Os, rows: map<int, Vault>, holders: map<int, Holder>, j: int)
    requires Devices(os, rows, holders) && HoldersDistinct(holders) && j in holders && holders[j].unfinished
    requires holders[j].opens && !holders[j].mounts
    ensures CanClose(os, holders[j].name)
    ensures Devices(Close(os, holders[j].name), rows, holders[j := holders[j].(opens := false)])
  {
    var os' := Close(os, holders[j].name);
    var holders' := holders[j := holders[j].(opens := false)];
    OwnDevices(os, rows, holders, j);
    MappersStillOwned(os.mappers, os'.mappers, rows, holders, holders', j);
    MountsStillOwned(os, os', rows, holders, holders', j);
    HoldersStillHold(os, os', holders, holders', j);
    HoldersStillNamed(rows, holders, holders', j);
  }

  lemma FreshAfterInsert(
    rows: map<int, Vault>, holders: map<int, Holder>, holders': map<int, Holder>, j: int, id: int, v: Vault)
    requires HoldersFresh(holders, rows) && AllWellNamed(rows, holders) && OnlyMoved(holders, holders', j)
    requires HoldersDistinct(holders) && j in holders && id !in rows && WellNamed(v) && v.name == holders[j].name
    requires j in holders' && holders'[j] == holders[j].(opens := false, mounts := false, unfinished := false)
    ensures HoldersFresh(holders', rows[id := v]) && AllWellNamed(rows[id := v], holders')
  {
  }

  /** The insert hands the create's devices over to its row. */
  lemma InsertHolder(os: Os, rows: map<int, Vault>, holders: map<int, Holder>, j: int, id: int)
    requires Devices(os, rows, holders) && HoldersDistinct(holders) && j in holders && holders[j].unfinished
    requires holders[j].opens && holders[j].mounts && id !in rows
    ensures
      var h := holders[j];
      Devices(os, rows[id := Vault(h.name, h.imgPath, h.mountPoint, h.name)],
              holders[j := h.(opens := false, mounts := false, unfinished := false)])
  {
    var h := holders[j];
    var v := Vault(h.name, h.imgPath, h.mountPoint, h.name);
    var rows' := rows[id := v];
    var holders' := holders[j := h.(opens := false, mounts := false, unfinished := false)];
    OwnDevices(os, rows, holders, j);
    RowsGrow(os, rows, holders, id, v);
    MappersStillOwned(os.mappers, os.mappers, rows', holders, holders', j);
    MountsStillOwned(os, os, rows', holders, holders', j);
    HoldersStillHold(os, os, holders, holders', j);
    FreshAfterInsert(rows, holders, holders', j, id, v);
  }

  // ---- steps of creates -------------------------------------------------

  lemma HoldersAt(jobs: map<int, Job>, j: int, job: Job)
    ensures Holders(jobs[j := job]) == Holders(jobs)[j := HolderOf(job)]
  {
  }

  lemma HoldersWithout(jobs: map<int, Job>, j: int)
    ensures Holders(jobs - {j}) == Holders(jobs) - {j}
  {
  }

  lemma OpenCommand(
    os: Os, os': Os, rows: map<int, Vault>, holders: map<int, Holder>, holders': map<int, Holder>,
    j: int, job: Job, next: Pc)
    requires Devices(os, rows, holders) && HoldersDistinct(holders) && j in holders && holders[j] == HolderOf(job)
    requires job.pc == OpenDevice && CanOpen(os, job.imgPath, job.name)
    requires os' == Open(os, job.imgPath, job.name) && next == MakeFs
    requires holders' == holders[j := HolderOf(job.(pc := next))]
    ensures Devices(os', rows, holders')
  {
    assert HolderOf(job.(pc := next)) == HolderOf(job).(opens := true);
    OpenHolder(os, rows, holders, j);
  }

  lemma MountCommand(
    os: Os, os': Os, rows: map<int, Vault>, holders: map<int, Holder>, holders': map<int, Holder>,
    j: int, job: Job, next: Pc)
    requires Devices(os, rows, holders) && HoldersDistinct(holders) && j in holders && holders[j] == HolderOf(job)
    requires job.pc == MountFs && CanMount(os, job.name, job.mountPoint)
    requires os' == Mount(os, job.name, job.mountPoint) && next == Chmod
    requires holders' == holders[j := HolderOf(job.(pc := next))]
    ensures Devices(os', rows, holders')
  {
    assert HolderOf(job.(pc := next)) == HolderOf(job).(mounts := true);
    MountHolder(os, rows, holders, j);
  }

  lemma UmountCommand(
    os: Os, os': Os, rows: map<int, Vault>, holders: map<int, Holder>, holders': map<int, Holder>,
    j: int, job: Job, next: Pc)
    requires Devices(os, rows, holders) && HoldersDistinct(holders) && j in holders && holders[j] == HolderOf(job)
    requires job.pc == UndoUmount
    requires os' == Umount(os, job.mountPoint) && next == UndoClose
    requires holders' == holders[j := HolderOf(job.(pc := next))]
    ensures Devices(os', rows, holders')
  {
    assert HolderOf(job.(pc := next)) == HolderOf(job).(mounts := false);
    UmountHolder(os, rows, holders, j);
  }

  lemma CloseCommand(
    os: Os, os': Os, rows: map<int, Vault>, holders: map<int, Holder>, holders': map<int, Holder>,
    j: int, job: Job, next: Pc)
    requires Devices(os, rows, holders) && HoldersDistinct(holders) && j in holders && holders[j] == HolderOf(job)
    requires job.pc == UndoClose
    requires os' == Close(os, job.name) && next == UndoRemove
    requires holders' == holders[j := HolderOf(job.(pc := next))]
    ensures Devices(os', rows, holders')
  {
    assert HolderOf(job.(pc := next)) == HolderOf(job).(opens := false);
    CloseHolder(os, rows, holders, j);
  }

  /** Any other command leaves the devices alone, and ends a create only when it holds none. */
  lemma QuietCommand(
    os: Os, os': Os, rows: map<int, Vault>, holders: map<int, Holder>, holders': map<int, Holder>,
    j: int, job: Job, next: Pc)
    requires Devices(os, rows, holders) && j in holders && holders[j] == HolderOf(job)
    requires os'.mappers == os.mappers && os'.mounts == os.mounts
    requires HasMapper(next) == HasMapper(job.pc) && HasMount(next) == HasMount(job.pc)
    requires Unfinished(next) ==> Unfinished(job.pc)
    requires HasMapper(job.pc) ==> Unfinished(next)
    requires holders' == holders[j := HolderOf(job.(pc := next))]
    ensures Devices(os', rows, holders')
  {
    if Unfinished(next) {
      assert holders' == holders;
    } else {
      NoDeviceMoved(os, rows, holders, holders', j);
    }
    SameDevices(os, os', rows, holders');
  }

  predicate MovesDevice(pc: Pc, ok: bool) {
    (pc.OpenDevice? && ok) || (pc.MountFs? && ok) || pc.UndoUmount? || pc.UndoClose?
  }

  /** How a command's effect and its next program counter bear on devices. */
  predicate DeviceMove(os: Os, os': Os, job: Job, ok: bool, next: Pc) {
    var pc := job.pc;
    && (pc.OpenDevice? && ok ==>
          CanOpen(os, job.imgPath, job.name) && os' == Open(os, job.imgPath, job.name) && next == MakeFs)
    && (pc.MountFs? && ok ==>
          CanMount(os, job.name, job.mountPoint) && os' == Mount(os, job.name, job.mountPoint) && next == Chmod)
    && (pc.UndoUmount? ==> os' == Umount(os, job.mountPoint) && next == UndoClose)
    && (pc.UndoClose? ==> os' == Close(os, job.name) && next == UndoRemove)
    && (!MovesDevice(pc, ok) ==>
          && os'.mappers == os.mappers && os'.mounts == os.mounts
          && HasMapper(next) == HasMapper(pc) && HasMount(next) == HasMount(pc)
          && (Unfinished(next) ==> Unfinished(pc)) && (HasMapper(pc) ==> Unfinished(next)))
  }

  lemma QuietPc(pc: Pc, ok: bool)
    requires !Shared(pc) && !MovesDevice(pc, ok)
    ensures
      var next := NextPc(pc, ok);
      && HasMapper(next) == HasMapper(pc) && HasMount(next) == HasMount(pc)
      && (Unfinished(next) ==> Unfinished(pc)) && (HasMapper(pc) ==> Unfinished(next))
  {
  }

  lemma CommandMoves(job: Job, os: Os, a: Answers)
    requires !Shared(job.pc)
    ensures
      var ok := Succeeds(job, os, a);
      DeviceMove(os, Effect(job, os, ok, Partial(job.pc, a)), job, ok, NextPc(job.pc, ok))
  {
    var ok := Succeeds(job, os, a);
    if !MovesDevice(job.pc, ok) { QuietPc(job.pc, ok); }
  }

  /** The devices after one command of create j. */
  lemma CommandDevices(
    os: Os, os': Os, rows: map<int, Vault>, holders: map<int, Holder>, holders': map<int, Holder>,
    j: int, job: Job, ok: bool, next: Pc)
    requires Devices(os, rows, holders) && HoldersDistinct(holders) && j in holders && holders[j] == HolderOf(job)
    requires DeviceMove(os, os', job, ok, next)
    requires holders' == holders[j := HolderOf(job.(pc := next))]
    ensures Devices(os', rows, holders')
  {
    if !MovesDevice(job.pc, ok) {
      QuietCommand(os, os', rows, holders, holders', j, job, next);
    } else if job.pc.OpenDevice? {
      OpenCommand(os, os', rows, holders, holders', j, job, next);
    } else if job.pc.MountFs? {
      MountCommand(os, os', rows, holders, holders', j, job, next);
    } else if job.pc.UndoUmount? {
      UmountCommand(os, os', rows, holders, holders', j, job, next);
    } else {
      CloseCommand(os, os', rows, holders, holders', j, job, next);
    }
  }

  lemma SameDevices(os: Os, os': Os, rows: map<int, Vault>, holders: map<int, Holder>)
    requires Devices(os, rows, holders) && os'.mappers == os.mappers && os'.mounts == os.mounts
    ensures Devices(os', rows, holders)
  {
  }

  // ---- frames for opMu's holder and the sweep ---------------------------

  /** Rows only come in under fresh ids. */
  ghost predicate RowsExtend(s: Sys, s': Sys) {
    && s.nextId <= s'.nextId
    && (forall id :: id in s.rows ==> id in s'.rows && s'.rows[id] == s.rows[id])
    && (forall id :: id in s'.rows ==> id in s.rows || s.nextId <= id)
  }

  /** Windows are only cleared, or restarted with a timestamp never used before. */
  ghost predicate WindowsMoveOn(s: Sys, s': Sys) {
    && s.clock <= s'.clock
    && forall id :: id in s'.unlockedAt ==>
         (id in s.unlockedAt && s'.unlockedAt[id] == s.unlockedAt[id]) || s.clock == s'.unlockedAt[id] < s'.clock
  }

  /** A step that leaves opMu's holder and the sweep where they are. */
  lemma GuardsFrame(s: Sys, s': Sys)
    requires Guarded(s) && s'.opMu == s.opMu && s'.sweep == s.sweep
    requires RowsExtend(s, s') && WindowsMoveOn(s, s')
    requires Deleting(s.opMu) ==> Abandoned(s', s.opMu.v)
    ensures Guarded(s')
  {
  }

  /** Create j moved on or ended; an abandoned vault stays abandoned. */
  lemma StillAbandoned(s: Sys, s': Sys, j: int, pc: Pc, v: Vault)
    requires Abandoned(s, v) && j in s.jobs && s'.jobs == s.jobs[j := s.jobs[j].(pc := pc)]
    requires Unfinished(pc) ==> Unfinished(s.jobs[j].pc)
    requires v.name !in s'.os.mappers && !NameTaken(s'.rows, v.name)
    ensures Abandoned(s', v)
  {
  }

  // ---- steps of creates, on the whole state -----------------------------

  lemma DistinctHolders(jobs: map<int, Job>)
    requires JobsDistinct(jobs)
    ensures HoldersDistinct(Holders(jobs))
  {
  }

  /** A create opens no mapper but its own. */
  lemma OpensOwnOnly(job: Job, os: Os, ok: bool, partial: bool)
    ensures Effect(job, os, ok, partial).mappers.Keys <= os.mappers.Keys + {job.name}
  {
  }

  lemma StaysFinished(pc: Pc, ok: bool)
    ensures Unfinished(NextPc(pc, ok)) ==> Unfinished(pc)
  {
  }

  lemma CommandDevicesKept(s: Sys, j: int, a: Answers)
    requires Devices(s.os, s.rows, Holders(s.jobs)) && JobsDistinct(s.jobs)
    requires j in s.jobs && !Shared(s.jobs[j].pc)
    ensures var s' := CommandStep(s, j, a); Devices(s'.os, s'.rows, Holders(s'.jobs))
  {
    var s', job := CommandStep(s, j, a), s.jobs[j];
    CommandMoves(job, s.os, a);
    DistinctHolders(s.jobs);
    HoldersAt(s.jobs, j, s'.jobs[j]);
    CommandDevices(s.os, s'.os, s.rows, Holders(s.jobs), Holders(s'.jobs), j, job,
      Succeeds(job, s.os, a), s'.jobs[j].pc);
  }

  lemma CommandGuarded(s: Sys, j: int, a: Answers)
    requires Guarded(s) && j in s.jobs && !Shared(s.jobs[j].pc)
    ensures Guarded(CommandStep(s, j, a))
  {
    var s', job := CommandStep(s, j, a), s.jobs[j];
    if Deleting(s.opMu) {
      var ok := Succeeds(job, s.os, a);
      OpensOwnOnly(job, s.os, ok, Partial(job.pc, a));
      StaysFinished(job.pc, ok);
      StillAbandoned(s, s', j, NextPc(job.pc, ok), s.opMu.v);
    }
    GuardsFrame(s, s');
  }

  lemma InsertCommand(
    os: Os, rows: map<int, Vault>, holders: map<int, Holder>, holders': map<int, Holder>, j: int, job: Job, id: int)
    requires Devices(os, rows, holders) && HoldersDistinct(holders) && j in holders && holders[j] == HolderOf(job)
    requires job.pc == Insert && id !in rows
    requires holders' == holders[j := HolderOf(job.(pc := Finished))]
    ensures Devices(os, rows[id := NewVault(job)], holders')
  {
    assert HolderOf(job.(pc := Finished)) == HolderOf(job).(opens := false, mounts := false, unfinished := false);
    InsertHolder(os, rows, holders, j, id);
  }

  lemma InsertedOwned(s: Sys, j: int)
    requires Owned(s) && JobsDistinct(s.jobs) && IdsUsed(s.rows, s.nextId)
    requires j in s.jobs && s.jobs[j].pc.Insert?
    ensures Owned(Inserted(s, j))
  {
    var s' := Inserted(s, j);
    DistinctHolders(s.jobs);
    HoldersAt(s.jobs, j, s.jobs[j].(pc := Finished));
    InsertCommand(s.os, s.rows, Holders(s.jobs), Holders(s'.jobs), j, s.jobs[j], s.nextId);
    InsertedGuarded(s, j);
  }

  lemma InsertedGuarded(s: Sys, j: int)
    requires Guarded(s) && IdsUsed(s.rows, s.nextId) && j in s.jobs && s.jobs[j].pc.Insert?
    ensures Guarded(Inserted(s, j))
  {
    var s' := Inserted(s, j);
    if Deleting(s.opMu) {
      assert forall name :: NameTaken(s'.rows, name) ==> NameTaken(s.rows, name) || name == s.jobs[j].name;
      StillAbandoned(s, s', j, Finished, s.opMu.v);
    }
    GuardsFrame(s, s');
  }

  lemma InsertRefusedGuarded(s: Sys, j: int)
    requires Guarded(s) && j in s.jobs && s.jobs[j].pc.Insert?
    ensures Guarded(Goto(s, j, UndoUmount))
  {
    var s' := Goto(s, j, UndoUmount);
    if Deleting(s.opMu) {
      StillAbandoned(s, s', j, UndoUmount, s.opMu.v);
    }
    GuardsFrame(s, s');
  }

  lemma InsertRefusedOwned(s: Sys, j: int)
    requires Owned(s) && j in s.jobs && s.jobs[j].pc.Insert?
    ensures Owned(Goto(s, j, UndoUmount))
  {
    var s' := Goto(s, j, UndoUmount);
    HoldersAt(s.jobs, j, s.jobs[j].(pc := UndoUmount));
    QuietCommand(s.os, s.os, s.rows, Holders(s.jobs), Holders(s'.jobs), j, s.jobs[j], UndoUmount);
    InsertRefusedGuarded(s, j);
  }

  lemma WindDownDevicesKept(s: Sys, j: int, pc: Pc)
    requires Devices(s.os, s.rows, Holders(s.jobs)) && j in s.jobs && !Unfinished(s.jobs[j].pc) && !Unfinished(pc)
    ensures Devices(s.os, s.rows, Holders(s.jobs[j := s.jobs[j].(pc := pc)]))
  {
    HoldersAt(s.jobs, j, s.jobs[j].(pc := pc));
    assert Holders(s.jobs[j := s.jobs[j].(pc := pc)]) == Holders(s.jobs);
  }

  lemma WindDownGuarded(s: Sys, j: int, a: Answers)
    requires Guarded(s) && j in s.jobs && !Unfinished(s.jobs[j].pc) && !s.jobs[j].pc.Releasing?
    ensures Guarded(WorkStep(s, j, a))
  {
    var s' := WorkStep(s, j, a);
    if Deleting(s.opMu) {
      StillAbandoned(s, s', j, s'.jobs[j].pc, s.opMu.v);
    }
    GuardsFrame(s, s');
  }

  lemma ReleaseOwned(s: Sys, j: int)
    requires Owned(s) && j in s.jobs && s.jobs[j].pc.Releasing?
    ensures Owned(ReleaseStep(s, j))
  {
    var s' := ReleaseStep(s, j);
    if s' != s {
      HoldersWithout(s.jobs, j);
      NoDeviceMoved(s.os, s.rows, Holders(s.jobs), Holders(s'.jobs), j);
      GuardsFrame(s, s');
    }
  }

  lemma ReserveOwned(s: Sys, j: int, name: string, imgPath: string, mountDir: string)
    requires Owned(s) && !NameTaken(s.rows, name)
    ensures Owned(ReserveStep(s, j, name, imgPath, mountDir))
  {
    var s' := ReserveStep(s, j, name, imgPath, mountDir);
    if s' != s {
      MountPointNamesVault(mountDir, name);
      HoldersAt(s.jobs, j, s'.jobs[j]);
      NoDeviceMoved(s.os, s.rows, Holders(s.jobs), Holders(s'.jobs), j);
      GuardsFrame(s, s');
    }
  }

  lemma WindDownOwned(s: Sys, j: int, a: Answers)
    requires Owned(s) && j in s.jobs && !Unfinished(s.jobs[j].pc) && !s.jobs[j].pc.Releasing?
    ensures Owned(WorkStep(s, j, a))
  {
    var pc := WorkStep(s, j, a).jobs[j].pc;
    WindDownGuarded(s, j, a);
    WindDownDevicesKept(s, j, pc);
    assert WorkStep(s, j, a).jobs == s.jobs[j := s.jobs[j].(pc := pc)];
  }

  lemma WorkOwned(s: Sys, j: int, a: Answers)
    requires Sound(s) && j in s.jobs
    ensures Owned(WorkStep(s, j, a))
  {
    if !Shared(s.jobs[j].pc) {
      CommandDevicesKept(s, j, a);
      CommandGuarded(s, j, a);
    } else if s.jobs[j].pc.Insert? {
      InsertedOwned(s, j);
      InsertRefusedOwned(s, j);
    } else if s.jobs[j].pc.Releasing? {
      ReleaseOwned(s, j);
    } else {
      WindDownOwned(s, j, a);
    }
  }

  // ---- sections under opMu ----------------------------------------------

  lemma ImportOwned(s: Sys, name: string, path: string, mountDir: string, ok: bool)
    requires Sound(s)
    ensures Owned(ImportStep(s, name, path, mountDir, ok))
  {
    var s' := ImportStep(s, name, path, mountDir, ok);
    if s' != s {
      MountPointNamesVault(mountDir, name);
      forall j | j in Holders(s.jobs) && Holders(s.jobs)[j].unfinished ensures Holders(s.jobs)[j].name != name {
        assert NameInFlight(s.jobs, s.jobs[j].name);
      }
      AddRow(s.os, s.rows, Holders(s.jobs), s.nextId, s'.rows[s.nextId]);
      GuardsFrame(s, s');
    }
  }

  /** opMu changes hands, or its holder moves on, and no row and no create changes. */
  lemma SectionMoves(s: Sys, s': Sys)
    requires Guarded(s) && s'.sweep == s.sweep && RowsExtend(s, s') && WindowsMoveOn(s, s')
    requires SectionSafe(s')
    requires s.sweep.Locking? ==> s'.opMu == s.opMu
    requires s.opMu.ForgetNext? ==> s'.opMu == s.opMu || s.opMu.id !in s'.unlockedAt
    ensures Guarded(s')
  {
  }

  lemma UnlockOwned(s: Sys, r: int, ok: bool)
    requires Sound(s) && s.opMu.Free? && r in s.requests && s.requests[r].id in s.rows
    ensures Owned(UnlockStep(s, r, ok))
  {
    var s' := UnlockStep(s, r, ok);
    OpenRow(s.os, s.rows, Holders(s.jobs), s.requests[r].id);
    SectionMoves(s, s');
  }

  lemma LockOwned(s: Sys, r: int, ok: bool)
    requires Sound(s) && s.opMu.Free? && r in s.requests && s.requests[r].id in s.rows
    ensures Owned(LockStep(s, r, ok))
  {
    var s' := LockStep(s, r, ok);
    UmountRow(s.os, s.rows, Holders(s.jobs), s.requests[r].id);
    SectionMoves(s, s');
  }

  lemma RemountOwned(s: Sys, r: int, ok: bool)
    requires Sound(s) && s.opMu.Free? && r in s.requests && s.requests[r].id in s.rows
    ensures Owned(RemountStep(s, r, ok))
  {
    var s' := RemountStep(s, r, ok);
    MountRow(s.os, s.rows, Holders(s.jobs), s.requests[r].id);
    SectionMoves(s, s');
  }

  lemma DeleteAbandons(s: Sys, id: int)
    requires Sound(s) && id in s.rows && !IsUnlocked(s.os, s.rows[id])
    ensures Abandoned(s.(rows := s.rows - {id}), s.rows[id])
  {
    var holders := Holders(s.jobs);
    forall j | j in s.jobs && Unfinished(s.jobs[j].pc) ensures s.jobs[j].name != s.rows[id].name {
      assert holders[j].unfinished && !NameTaken(s.rows, holders[j].name);
    }
  }

  lemma DeleteOwned(s: Sys, r: int, ok: bool)
    requires Sound(s) && s.opMu.Free? && r in s.requests && s.requests[r].id in s.rows
    ensures Owned(DeleteStep(s, r, ok))
  {
    var s' := DeleteStep(s, r, ok);
    var Request(id, v) := s.requests[r];
    if s'.rows != s.rows {
      DropRow(s.os, s.rows, Holders(s.jobs), id);
      DeleteAbandons(s, id);
      assert Abandoned(s', v);
      assert SectionSafe(s') && SweepSafe(s');
    } else {
      SectionMoves(s, s');
    }
  }

  lemma CloseOwned(s: Sys, id: int, v: Vault, sweeping: bool, ok: bool)
    requires Sound(s) && s.opMu == CloseNext(id, v, sweeping)
    ensures Owned(CloseStep(s, id, v, sweeping, ok))
  {
    var s' := CloseStep(s, id, v, sweeping, ok);
    CloseRow(s.os, s.rows, Holders(s.jobs), id);
    if !sweeping {
      SectionMoves(s, s');
    } else {
      assert SectionSafe(s') && SweepSafe(s');
    }
  }

  /** unlockWith and markUnlocked, after luksOpen. */
  lemma UnlockingOwned(s: Sys, ok: bool)
    requires Sound(s) && (s.opMu.MountNext? || s.opMu.UndoOpen? || s.opMu.MarkNext?)
    ensures Owned(ContinueStep(s, ok))
  {
    var s' := ContinueStep(s, ok);
    MountRow(s.os, s.rows, Holders(s.jobs), s.opMu.id);
    CloseRow(s.os, s.rows, Holders(s.jobs), s.opMu.id);
    SectionMoves(s, s');
  }

  /** clearUnlocked of a lock, and the rest of a delete. */
  lemma ClosingOwned(s: Sys, ok: bool)
    requires Sound(s) && (s.opMu.ClearNext? || s.opMu.ForgetNext? || s.opMu.RemoveNext?)
    ensures Owned(ContinueStep(s, ok))
  {
    var s' := ContinueStep(s, ok);
    SameDevices(s.os, s'.os, s.rows, Holders(s.jobs));
    SectionMoves(s, s');
  }

  lemma ContinueOwned(s: Sys, ok: bool)
    requires Sound(s)
    ensures Owned(ContinueStep(s, ok))
  {
    match s.opMu
    case Free =>
    case CloseNext(id, v, sweeping) => CloseOwned(s, id, v, sweeping, ok);
    case MountNext(_, _) => UnlockingOwned(s, ok);
    case UndoOpen(_, _) => UnlockingOwned(s, ok);
    case MarkNext(_, _) => UnlockingOwned(s, ok);
    case ClearNext(_, _) => ClosingOwned(s, ok);
    case ForgetNext(_, _) => ClosingOwned(s, ok);
    case RemoveNext(_, _) => ClosingOwned(s, ok);
  }

  // ---- the auto-lock sweep ----------------------------------------------

  /** The guard of autoLockVault: a window that is still the one read belongs to a row. */
  lemma SweepLockOwned(s: Sys, ok: bool)
    requires Sound(s) && s.sweep.Found? && s.opMu.Free? && Get(s.unlockedAt, s.sweep.id) == s.sweep.since
    requires s.sweep.since.None? ==> s.sweep.id in s.rows
    ensures Owned(SweepLockStep(s, ok))
  {
    var s' := SweepLockStep(s, ok);
    var id := s.sweep.id;
    assert id in s.rows && s.rows[id] == s.sweep.v;
    UmountRow(s.os, s.rows, Holders(s.jobs), id);
    assert SectionSafe(s') && SweepSafe(s');
  }

  lemma SweepReadGuarded(s: Sys, id: int)
    requires Guarded(s) && !s.sweep.Found? && !s.sweep.Clearing? && IdsUsed(s.rows, s.nextId)
    requires forall i :: i in s.rows ==> WellNamed(s.rows[i])
    ensures Guarded(s.(sweep := SweepRead(s, id)))
  {
  }

  lemma SweepClearGuarded(s: Sys)
    requires Guarded(s) && s.sweep.Clearing?
    ensures Guarded(Unmark(s, s.sweep.id).(sweep := Visiting(s.sweep.rest)))
  {
  }

  lemma SweepTryOwned(s: Sys, ok: bool)
    requires Sound(s) && s.sweep.Found?
    requires s.opMu.Free? && s.sweep.since.None? && s.sweep.id !in s.unlockedAt ==> s.sweep.id in s.rows
    ensures Owned(SweepTryStep(s, ok))
  {
    if s.opMu.Free? && Get(s.unlockedAt, s.sweep.id) == s.sweep.since {
      SweepLockOwned(s, ok);
    }
  }

  lemma SweepOwned(s: Sys, id: int, ok: bool)
    requires Sound(s) && Orderly(s, SweepOn(id, ok))
    ensures Owned(SweepStep(s, id, ok))
  {
    if s.sweep.Found? {
      SweepTryOwned(s, ok);
    } else if s.sweep.Clearing? {
      SweepClearGuarded(s);
    } else {
      SweepReadGuarded(s, id);
    }
  }

  // ---- whole runs -------------------------------------------------------

  lemma OrderlyDeletes(s: Sys, step: Step)
    requires Orderly(s, step)
    ensures DeletePresent(s, step)
  {
  }

  /** Steps that take no command of the program. */
  lemma OutsideOwned(s: Sys, step: Step)
    requires Sound(s) && (step.Tick? || step.PlaceImage? || step.Lookup?)
    ensures Owned(Next(s, step))
  {
    match step
    case Tick(_) => GuardsFrame(s, Next(s, step));
    case PlaceImage(path) =>
      SameDevices(s.os, AddFile(s.os, path), s.rows, Holders(s.jobs));
      SectionMoves(s, Next(s, step));
    case Lookup(_, _) => SectionMoves(s, Next(s, step));
  }

  lemma StepKeepsOwned(s: Sys, step: Step)
    requires Sound(s) && Orderly(s, step)
    ensures Owned(Next(s, step))
  {
    match step
    case Tick(_) => OutsideOwned(s, step);
    case PlaceImage(_) => OutsideOwned(s, step);
    case Reserve(j, name, imgPath, mountDir) => ReserveOwned(s, j, name, imgPath, mountDir);
    case Work(j, answers) => if j in s.jobs { WorkOwned(s, j, answers); }
    case Import(name, path, mountDir, ok) => ImportOwned(s, name, path, mountDir, ok);
    case Lookup(_, _) => OutsideOwned(s, step);
    case Unlock(r, ok) => if s.opMu.Free? && r in s.requests { UnlockOwned(s, r, ok); }
    case Lock(r, ok) => if s.opMu.Free? && r in s.requests { LockOwned(s, r, ok); }
    case Remount(r, ok) => if s.opMu.Free? && r in s.requests { RemountOwned(s, r, ok); }
    case Delete(r, ok) => if s.opMu.Free? && r in s.requests { DeleteOwned(s, r, ok); }
    case Continue(ok) => ContinueOwned(s, ok);
    case SweepOn(id, ok) => SweepOwned(s, id, ok);
  }

  lemma StepKeepsSound(s: Sys, step: Step)
    requires Sound(s) && Orderly(s, step)
    ensures Sound(Next(s, step))
  {
    OrderlyDeletes(s, step);
    StepKeepsRegistry(s, step);
    StepKeepsOwned(s, step);
  }

  ghost predicate OrderlyRun(s: Sys, steps: seq<Step>)
    decreases |steps|
  {
    steps != [] ==> Orderly(s, steps[0]) && OrderlyRun(Next(s, steps[0]), steps[1..])
  }

  /** The resource stack holds after every prefix of every orderly run, rollbacks and deletes included. */
  lemma {:induction false} OrderlyRunsStaySound(s: Sys, steps: seq<Step>)
    requires Sound(s) && OrderlyRun(s, steps)
    ensures Sound(After(s, steps)) && Stacked(After(s, steps).os)
    decreases |steps|
  {
    if steps == [] {
      SoundIsStacked(s);
    } else {
      StepKeepsSound(s, steps[0]);
      OrderlyRunsStaySound(Next(s, steps[0]), steps[1..]);
    }
  }
}
