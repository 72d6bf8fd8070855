/**
  Who holds which device. As long as creates use names without a row and
  requests act on rows that are still there, every open mapper and every mount
  belongs to one row or to one create in flight, in every state of every run.
 */
module Ownership {
  import opened Wrappers
  import opened Names
  import opened Machine
  import opened Lifecycle
  import opened Registry

  /** A create that has not returned from vault.Create. */
  predicate Unfinished(pc: Pc) {
    !pc.Finished? && !pc.Marking? && !pc.Releasing?
  }

  predicate HasMapper(pc: Pc) {
    || pc.MakeFs? || pc.MakeMountDir? || pc.MountFs? || pc.Chmod? || pc.Insert?
    || pc.UndoUmount? || pc.UndoClose?
  }

  predicate HasMount(pc: Pc) {
    pc.Chmod? || pc.Insert? || pc.UndoUmount?
  }

  ghost predicate WellNamed(v: Vault) {
    v.mapperName == v.name && LastSegment(v.mountPoint) == v.name
  }

  ghost predicate RowOpens(rows: map<int, Vault>, name: string, path: string) {
    exists id :: id in rows && rows[id].name == name && rows[id].path == path
  }

  /** What a create holds, read off its program counter. */
  datatype Holder = Holder(name: string, imgPath: string, mountPoint: string,
    opens: bool, mounts: bool, unfinished: bool)

  function HolderOf(job: Job): Holder {
    Holder(job.name, job.imgPath, job.mountPoint, HasMapper(job.pc), HasMount(job.pc), Unfinished(job.pc))
  }

  function Holders(jobs: map<int, Job>): map<int, Holder> {
    map j | j in jobs :: HolderOf(jobs[j])
  }

  ghost predicate HolderOpens(holders: map<int, Holder>, name: string, path: string) {
    exists j :: j in holders && holders[j].opens && holders[j].name == name && holders[j].imgPath == path
  }

  ghost predicate RowMounts(rows: map<int, Vault>, name: string, mountPoint: string) {
    exists id :: id in rows && rows[id].name == name && rows[id].mountPoint == mountPoint
  }

  ghost predicate HolderMounts(holders: map<int, Holder>, name: string, mountPoint: string) {
    exists j :: j in holders && holders[j].mounts && holders[j].name == name && holders[j].mountPoint == mountPoint
  }

  /** Every open mapper is that of a row, or of a create between luksOpen and its end. */
  ghost predicate MappersOwned(mappers: map<string, string>, rows: map<int, Vault>, holders: map<int, Holder>) {
    forall m :: m in mappers ==> RowOpens(rows, m, mappers[m]) || HolderOpens(holders, m, mappers[m])
  }

  /** Every mount is that of a row or of a create, and its mapper is open. */
  ghost predicate MountsOwned(os: Os, rows: map<int, Vault>, holders: map<int, Holder>) {
    forall mp :: mp in os.mounts ==>
      && os.mounts[mp] in os.mappers
      && (RowMounts(rows, os.mounts[mp], mp) || HolderMounts(holders, os.mounts[mp], mp))
  }

  /** A create in flight really has the devices its program counter says it has. */
  ghost predicate HoldersHold(holders: map<int, Holder>, os: Os) {
    && (forall j :: j in holders && holders[j].opens ==>
          holders[j].name in os.mappers && os.mappers[holders[j].name] == holders[j].imgPath)
    && (forall j :: j in holders && holders[j].mounts ==>
          holders[j].mountPoint in os.mounts && os.mounts[holders[j].mountPoint] == holders[j].name)
  }

  /** No row has the name of a create that is not finished. */
  ghost predicate HoldersFresh(holders: map<int, Holder>, rows: map<int, Vault>) {
    forall j :: j in holders && holders[j].unfinished ==> !NameTaken(rows, holders[j].name)
  }

  ghost predicate AllWellNamed(rows: map<int, Vault>, holders: map<int, Holder>) {
    && (forall id :: id in rows ==> WellNamed(rows[id]))
    && (forall j :: j in holders ==> LastSegment(holders[j].mountPoint) == holders[j].name)
    && (forall j :: j in holders && holders[j].opens ==> holders[j].unfinished)
    && (forall j :: j in holders && holders[j].mounts ==> holders[j].opens)
  }

  /** What opMu's holder relies on between two of its commands. */
  ghost predicate SectionSafe(s: Sys) {
    match s.opMu
    case Free => true
    case ForgetNext(id, v) => id !in s.rows && id < s.nextId && Abandoned(s, v)
    case RemoveNext(id, v) => id !in s.rows && id < s.nextId && Abandoned(s, v)
    case MountNext(id, v) => id in s.rows && s.rows[id] == v
    case UndoOpen(id, v) => id in s.rows && s.rows[id] == v
    case MarkNext(id, v) => id in s.rows && s.rows[id] == v
    case CloseNext(id, v, sweeping) =>
      id in s.rows && s.rows[id] == v && (sweeping ==> s.sweep.Locking? && s.sweep.id == id)
    case ClearNext(id, v) => id in s.rows && s.rows[id] == v
  }

  /** v has no row, no mapper, and no create that could open one. */
  ghost predicate Abandoned(s: Sys, v: Vault) {
    && v.mapperName == v.name
    && v.name !in s.os.mappers
    && !NameTaken(s.rows, v.name)
    && forall j :: j in s.jobs && Unfinished(s.jobs[j].pc) ==> s.jobs[j].name != v.name
  }

  ghost predicate Past(since: Option<int>, clock: int) {
    since.Some? ==> since.value < clock
  }

  /** The auto-lock goroutine: a window still running under its timestamp is that of a row. */
  ghost predicate SweepSafe(s: Sys) {
    match s.sweep
    case Idle => true
    case Visiting(_) => true
    case Seen(_, since, _) => Past(since, s.clock)
    case Found(id, since, v, _) =>
      && WellNamed(v)
      && Past(since, s.clock)
      && id < s.nextId
      && (id in s.rows ==> s.rows[id] == v)
      && (since.Some? && Get(s.unlockedAt, id) == since
          ==> id in s.rows || (s.opMu.ForgetNext? && s.opMu.id == id))
    case Locking(id, _) => s.opMu.CloseNext? && s.opMu.sweeping && s.opMu.id == id
    case Clearing(_, _) => true
  }

  ghost predicate Timestamped(unlockedAt: map<int, int>, clock: int) {
    forall id :: id in unlockedAt ==> unlockedAt[id] < clock
  }

  ghost predicate Devices(os: Os, rows: map<int, Vault>, holders: map<int, Holder>) {
    && MappersOwned(os.mappers, rows, holders)
    && MountsOwned(os, rows, holders)
    && HoldersHold(holders, os)
    && HoldersFresh(holders, rows)
    && AllWellNamed(rows, holders)
  }

  ghost predicate Guarded(s: Sys) {
    && SectionSafe(s)
    && SweepSafe(s)
    && Timestamped(s.unlockedAt, s.clock)
  }

  ghost predicate Owned(s: Sys) {
    && Devices(s.os, s.rows, Holders(s.jobs))
    && Guarded(s)
  }

  ghost predicate Sound(s: Sys) {
    Registered(s) && Owned(s)
  }

  /** Creates use a name without a row, and whoever takes opMu finds its row still there. */
  ghost predicate Orderly(s: Sys, step: Step) {
    match step
    case Reserve(_, name, _, _) => !NameTaken(s.rows, name)
    case Unlock(r, _) => r in s.requests ==> s.requests[r].id in s.rows
    case Lock(r, _) => r in s.requests ==> s.requests[r].id in s.rows
    case Remount(r, _) => r in s.requests ==> s.requests[r].id in s.rows
    case Delete(r, _) => r in s.requests ==> s.requests[r].id in s.rows
    case SweepOn(_, _) =>
      s.sweep.Found? && s.opMu.Free? && s.sweep.since.None? && s.sweep.id !in s.unlockedAt ==> s.sweep.id in s.rows
    case Tick(_) => true
    case PlaceImage(_) => true
    case Work(_, _) => true
    case Import(_, _, _, _) => true
    case Lookup(_, _) => true
    case Continue(_) => true
  }

  /** The resource stack: mounts stand on mappers, mappers stand on images. */
  lemma SoundIsStacked(s: Sys)
    requires Sound(s)
    ensures Stacked(s.os)
  {
    forall m | m in s.os.mappers ensures s.os.mappers[m] in s.os.files {
      if RowOpens(s.rows, m, s.os.mappers[m]) {
        var id :| id in s.rows && s.rows[id].name == m && s.rows[id].path == s.os.mappers[m];
      } else {
        var holders := Holders(s.jobs);
        var j :| j in holders && holders[j].opens && holders[j].name == m && holders[j].imgPath == s.os.mappers[m];
        assert HasFile(s.jobs[j].pc);
      }
    }
  }

  // ---- devices of rows --------------------------------------------------

  lemma OpenRow(os: Os, rows: map<int, Vault>, holders: map<int, Holder>, id: int)
    requires Devices(os, rows, holders) && id in rows
    ensures Devices(Open(os, rows[id].path, rows[id].mapperName), rows, holders)
  {
  }

  lemma MountRow(os: Os, rows: map<int, Vault>, holders: map<int, Holder>, id: int)
    requires Devices(os, rows, holders) && id in rows
    ensures Devices(Mount(os, rows[id].mapperName, rows[id].mountPoint), rows, holders)
  {
  }

  /** No unfinished create shares the mount point of a row: it would share the name. */
  lemma MountPointsApart(rows: map<int, Vault>, holders: map<int, Holder>, id: int, j: int)
    requires HoldersFresh(holders, rows) && AllWellNamed(rows, holders) && id in rows && j in holders
    requires holders[j].unfinished
    ensures rows[id].mountPoint != holders[j].mountPoint && rows[id].name != holders[j].name
  {
  }

  lemma UmountRow(os: Os, rows: map<int, Vault>, holders: map<int, Holder>, id: int)
    requires Devices(os, rows, holders) && id in rows
    ensures Devices(Umount(os, rows[id].mountPoint), rows, holders)
  {
    forall j | j in holders && holders[j].mounts ensures holders[j].mountPoint != rows[id].mountPoint {
      MountPointsApart(rows, holders, id, j);
    }
  }

  lemma CloseRow(os: Os, rows: map<int, Vault>, holders: map<int, Holder>, id: int)
    requires Devices(os, rows, holders) && id in rows
    ensures Devices(Close(os, rows[id].mapperName), rows, holders)
  {
    forall j | j in holders && holders[j].opens ensures holders[j].name != rows[id].mapperName {
      MountPointsApart(rows, holders, id, j);
    }
  }

  /** A row whose vault is locked can go: nothing open or mounted was its own. */
  lemma DropRow(os: Os, rows: map<int, Vault>, holders: map<int, Holder>, id: int)
    requires Devices(os, rows, holders) && id in rows && !IsUnlocked(os, rows[id])
    ensures Devices(os, rows - {id}, holders)
  {
    var rows' := rows - {id};
    forall m, p | m in os.mappers && RowOpens(rows, m, p) ensures RowOpens(rows', m, p) {
      var i :| i in rows && rows[i].name == m && rows[i].path == p;
      assert i in rows';
    }
    forall mp | mp in os.mounts && RowMounts(rows, os.mounts[mp], mp) ensures RowMounts(rows', os.mounts[mp], mp) {
      var i :| i in rows && rows[i].name == os.mounts[mp] && rows[i].mountPoint == mp;
      assert i in rows';
    }
    forall name | NameTaken(rows', name) ensures NameTaken(rows, name) {
      var i :| i in rows' && rows'[i].name == name;
      assert i in rows;
    }
  }

  lemma RowsGrow(os: Os, rows: map<int, Vault>, holders: map<int, Holder>, id: int, v: Vault)
    requires MappersOwned(os.mappers, rows, holders) && MountsOwned(os, rows, holders) && id !in rows
    ensures MappersOwned(os.mappers, rows[id := v], holders) && MountsOwned(os, rows[id := v], holders)
    ensures RowOpens(rows[id := v], v.name, v.path) && RowMounts(rows[id := v], v.name, v.mountPoint)
  {
    var rows' := rows[id := v];
    assert rows'[id] == v;
    forall m, p | RowOpens(rows, m, p) ensures RowOpens(rows', m, p) {
      var i :| i in rows && rows[i].name == m && rows[i].path == p;
      assert rows'[i] == rows[i];
    }
    forall m, p | RowMounts(rows, m, p) ensures RowMounts(rows', m, p) {
      var i :| i in rows && rows[i].name == m && rows[i].mountPoint == p;
      assert rows'[i] == rows[i];
    }
  }

  /** A new row takes nothing away from anyone. */
  lemma AddRow(os: Os, rows: map<int, Vault>, holders: map<int, Holder>, id: int, v: Vault)
    requires Devices(os, rows, holders) && id !in rows && WellNamed(v)
    requires forall j :: j in holders && holders[j].unfinished ==> holders[j].name != v.name
    ensures Devices(os, rows[id := v], holders)
  {
    RowsGrow(os, rows, holders, id, v);
  }
}
