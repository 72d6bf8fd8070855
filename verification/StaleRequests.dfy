/**
  Requests work on the row they looked up before they took opMu. If it has gone,
  they act on a vault that is no longer registered: exactly when that costs
  another vault its window, or takes or leaves a device that is nobody's.
 */
module StaleRequests {
  import opened Wrappers
  import opened Names
  import opened Machine
  import opened Lifecycle
  import opened Registry
  import opened Ownership
  import opened Soundness
  import opened Tracking
  import opened Vaults
  import opened StaleDeletes
  import Handlers

  function WholeUnlock(r: int, openOk: bool, mountOk: bool): seq<Step> {
    [Step.Unlock(r, openOk), Continue(mountOk), Continue(true)]
  }

  /** Mapper and mount of an unlocked vault. */
  function Opened(os: Os, v: Vault): Os {
    os.(mappers := os.mappers[v.mapperName := v.path], mounts := os.mounts[v.mountPoint := v.mapperName])
  }

  /** A whole unlock opens, mounts and marks, or leaves everything but the request. */
  lemma UnlockEnds(s: Sys, r: int, openOk: bool, mountOk: bool)
    requires Sound(s) && s.opMu.Free? && r in s.requests && s.requests[r].v.mapperName == s.requests[r].v.name
    ensures
      var Request(id, v) := s.requests[r];
      After(s, WholeUnlock(r, openOk, mountOk))
        == if Unlocks(s.os, v, openOk, mountOk) then Mark(Done(s, r).(os := Opened(s.os, v)), id) else Done(s, r)
  {
    var Request(id, v) := s.requests[r];
    Handlers.UnlockSection(s, r, openOk, mountOk);
    if !IsUnlocked(s.os, v) && openOk && CanOpen(s.os, v.path, v.mapperName) && !mountOk {
      assert s.os.mappers[v.mapperName := v.path] - {v.mapperName} == s.os.mappers;
    }
  }

  /** Vault o is marked, or its creation will mark it, and the sweep is not about to clear it. */
  ghost predicate KeepsWindow(s: Sys, o: int)
    requires o in s.rows
  {
    && (o in s.unlockedAt || exists j :: j in s.jobs && s.jobs[j].name == s.rows[o].name && !s.jobs[j].pc.Releasing?)
    && !(s.sweep.Clearing? && s.sweep.id == o)
  }

  /** The rows that have the name of a vault that is unlocked without one. */
  ghost predicate NamesakesKeepWindows(s: Sys, v: Vault) {
    forall o :: o in s.rows && s.rows[o].name == v.name ==> KeepsWindow(s, o)
  }

  /** What a stale unlock opens are the rows that have its vault's name. */
  lemma OpensNamesakes(s: Sys, r: int, o: int)
    requires r in s.requests && s.requests[r].v.mapperName == s.requests[r].v.name
    ensures
      var Request(id, v) := s.requests[r];
      var end := Mark(Done(s, r).(os := Opened(s.os, v)), id);
      RowOpen(end, o) <==> RowOpen(s, o) || (o in s.rows && s.rows[o].name == v.name)
  {
  }

  lemma StaleTrackedIff(s: Sys, r: int)
    requires Tracked(s) && s.opMu.Free? && r in s.requests && s.requests[r].v.mapperName == s.requests[r].v.name
    requires s.requests[r].id !in s.rows && !(s.requests[r].v.name in s.os.mappers)
    ensures
      var Request(id, v) := s.requests[r];
      var end := Mark(Done(s, r).(os := Opened(s.os, v)), id);
      Tracked(end) <==>
        forall o :: o in s.rows && s.rows[o].name == v.name ==> o in s.unlockedAt || v.name in s.pendingNames
  {
    var Request(id, v) := s.requests[r];
    var end := Mark(Done(s, r).(os := Opened(s.os, v)), id);
    forall o ensures RowOpen(end, o) <==> RowOpen(s, o) || (o in s.rows && s.rows[o].name == v.name) {
      OpensNamesakes(s, r, o);
    }
  }

  lemma StaleWindowedIff(s: Sys, r: int)
    requires Registered(s) && Windowed(s) && s.opMu.Free? && r in s.requests
    requires s.requests[r].v.mapperName == s.requests[r].v.name
    requires s.requests[r].id !in s.rows && !(s.requests[r].v.name in s.os.mappers)
    ensures
      var Request(id, v) := s.requests[r];
      var end := Mark(Done(s, r).(os := Opened(s.os, v)), id);
      Windowed(end) <==> NamesakesKeepWindows(s, v)
  {
    var Request(id, v) := s.requests[r];
    var end := Mark(Done(s, r).(os := Opened(s.os, v)), id);
    forall o ensures RowOpen(end, o) <==> RowOpen(s, o) || (o in s.rows && s.rows[o].name == v.name) {
      OpensNamesakes(s, r, o);
    }
    StaleTrackedIff(s, r);
    forall o | o in s.rows && s.rows[o].name == v.name && v.name in s.pendingNames
      ensures exists j :: j in s.jobs && s.jobs[j].name == s.rows[o].name
    {
      assert NameInFlight(s.jobs, v.name);
    }
    assert forall j :: j in s.jobs ==> NameInFlight(s.jobs, s.jobs[j].name);
  }

  /** A new mapper is owned exactly if a row opens it. */
  lemma OneMoreMapperIff(
    mappers: map<string, string>, rows: map<int, Vault>, holders: map<int, Holder>, name: string, path: string)
    requires MappersOwned(mappers, rows, holders) && name !in mappers && !HolderOpens(holders, name, path)
    ensures MappersOwned(mappers[name := path], rows, holders) <==> RowOpens(rows, name, path)
  {
    var mappers' := mappers[name := path];
    assert mappers'[name] == path;
  }

  /** A new mount is owned exactly if a row mounts it. */
  lemma OneMoreMountIff(
    os: Os, os': Os, rows: map<int, Vault>, holders: map<int, Holder>, name: string, mountPoint: string)
    requires MountsOwned(os, rows, holders) && mountPoint !in os.mounts && !HolderMounts(holders, name, mountPoint)
    requires os'.mounts == os.mounts[mountPoint := name]
    requires os.mappers.Keys <= os'.mappers.Keys && name in os'.mappers
    ensures MountsOwned(os', rows, holders) <==> RowMounts(rows, name, mountPoint)
  {
    assert os'.mounts[mountPoint] == name;
  }

  /** No create in flight has what is not there. */
  lemma NoHolderHas(os: Os, holders: map<int, Holder>, name: string, path: string, mountPoint: string)
    requires HoldersHold(holders, os)
    ensures name !in os.mappers ==> !HolderOpens(holders, name, path)
    ensures mountPoint !in os.mounts ==> !HolderMounts(holders, name, mountPoint)
  {
  }

  lemma OpenedHoldersHold(os: Os, holders: map<int, Holder>, v: Vault)
    requires HoldersHold(holders, os) && v.mapperName !in os.mappers && v.mountPoint !in os.mounts
    ensures HoldersHold(holders, Opened(os, v))
  {
  }

  lemma OpenedDevicesIff(os: Os, rows: map<int, Vault>, holders: map<int, Holder>, v: Vault)
    requires Devices(os, rows, holders) && v.mapperName == v.name && !IsUnlocked(os, v)
    ensures
      var owned := RowOpens(rows, v.name, v.path) && RowMounts(rows, v.name, v.mountPoint);
      Devices(Opened(os, v), rows, holders) <==> owned
  {
    NoHolderHas(os, holders, v.name, v.path, v.mountPoint);
    OneMoreMapperIff(os.mappers, rows, holders, v.name, v.path);
    OneMoreMountIff(os, Opened(os, v), rows, holders, v.name, v.mountPoint);
    OpenedHoldersHold(os, holders, v);
  }

  lemma OpenedOtherwiseSound(s: Sys, r: int)
    requires Sound(s) && s.opMu.Free? && r in s.requests
    ensures
      var end := Mark(Done(s, r).(os := Opened(s.os, s.requests[r].v)), s.requests[r].id);
      Registered(end) && Guarded(end)
  {
    var end := Mark(Done(s, r).(os := Opened(s.os, s.requests[r].v)), s.requests[r].id);
    FrameKeeps(s, end);
    GuardsFrame(s, end);
  }

  lemma StaleSoundIff(s: Sys, r: int)
    requires Sound(s) && s.opMu.Free? && r in s.requests
    requires s.requests[r].v.mapperName == s.requests[r].v.name && !IsUnlocked(s.os, s.requests[r].v)
    ensures
      var Request(id, v) := s.requests[r];
      var end := Mark(Done(s, r).(os := Opened(s.os, v)), id);
      Sound(end) <==> RowOpens(s.rows, v.name, v.path) && RowMounts(s.rows, v.name, v.mountPoint)
  {
    OpenedDevicesIff(s.os, s.rows, Holders(s.jobs), s.requests[r].v);
    OpenedOtherwiseSound(s, r);
  }

  /**
    A whole unlock keeps every unlocked vault tracked, exactly if its row is
    there, or it fails, or no row of its vault's name is left without a window
    or a reservation; and keeps the bookkeeping of windows for whatever comes
    after, exactly if those rows keep a window of their own.
   */
  lemma UnlockKeepsWindowsIff(s: Sys, r: int, openOk: bool, mountOk: bool)
    requires Sound(s) && Windowed(s) && s.opMu.Free? && r in s.requests && WellNamed(s.requests[r].v)
    requires NotLate(s, Step.Unlock(r, openOk))
    ensures
      var Request(id, v) := s.requests[r];
      var end := After(s, WholeUnlock(r, openOk, mountOk));
      var good := id in s.rows || !Unlocks(s.os, v, openOk, mountOk);
      var spared := forall o :: o in s.rows && s.rows[o].name == v.name ==>
        o in s.unlockedAt || v.name in s.pendingNames;
      && (Tracked(end) <==> good || spared)
      && (Windowed(end) <==> good || NamesakesKeepWindows(s, v))
      && (Sound(end) <==> good || (RowOpens(s.rows, v.name, v.path) && RowMounts(s.rows, v.name, v.mountPoint)))
  {
    var Request(id, v) := s.requests[r];
    UnlockEnds(s, r, openOk, mountOk);
    if id in s.rows {
      FoundUnlockKeeps(s, r, openOk, mountOk);
    } else if Unlocks(s.os, v, openOk, mountOk) {
      StaleTrackedIff(s, r);
      StaleWindowedIff(s, r);
      StaleSoundIff(s, r);
    } else {
      RefusedUnlockKeeps(s, r);
    }
  }

  lemma RefusedUnlockKeeps(s: Sys, r: int)
    requires Sound(s) && Windowed(s)
    ensures Sound(Done(s, r)) && Windowed(Done(s, r))
  {
  }

  lemma FoundUnlockKeeps(s: Sys, r: int, openOk: bool, mountOk: bool)
    requires Sound(s) && Windowed(s) && s.opMu.Free? && r in s.requests && s.requests[r].id in s.rows
    requires NotLate(s, Step.Unlock(r, openOk))
    ensures var end := After(s, WholeUnlock(r, openOk, mountOk)); Sound(end) && Windowed(end)
  {
    var s1 := Next(s, Step.Unlock(r, openOk));
    var s2 := Next(s1, Continue(mountOk));
    AfterThree(s, Step.Unlock(r, openOk), Continue(mountOk), Continue(true));
    StepKeepsSound(s, Step.Unlock(r, openOk));
    StepKeepsWindowed(s, Step.Unlock(r, openOk));
    StepKeepsSound(s1, Continue(mountOk));
    StepKeepsWindowed(s1, Continue(mountOk));
    StepKeepsSound(s2, Continue(true));
    StepKeepsWindowed(s2, Continue(true));
  }

  // ---- lock -------------------------------------------------------------

  function WholeLock(r: int, a: Answer): seq<Step> {
    [Step.Lock(r, a.umount), Continue(a.close), Continue(true)]
  }

  predicate TakesMount(s: Sys, job: Job, v: Vault, a: Answer) {
    HasMount(job.pc) && job.mountPoint == v.mountPoint && v.mountPoint !in LockedOs(s.os, v, a).mounts
  }

  predicate TakesMapper(s: Sys, job: Job, v: Vault, a: Answer) {
    HasMapper(job.pc) && job.name == v.name && LockOutcomeOf(s.os, v, a).Locked?
  }

  /** Locking v takes a mount or a mapper from a create in flight. */
  ghost predicate TakesFromCreate(s: Sys, v: Vault, a: Answer) {
    exists j :: j in s.jobs && (TakesMount(s, s.jobs[j], v, a) || TakesMapper(s, s.jobs[j], v, a))
  }

  /** A lock only takes away, and never a mapper under a mount. */
  lemma LockedShrinks(os: Os, rows: map<int, Vault>, holders: map<int, Holder>, v: Vault, a: Answer)
    requires MappersOwned(os.mappers, rows, holders) && MountsOwned(os, rows, holders)
    ensures MappersOwned(LockedOs(os, v, a).mappers, rows, holders) && MountsOwned(LockedOs(os, v, a), rows, holders)
  {
    var os' := LockedOs(os, v, a);
    assert forall m :: m in os'.mappers ==> m in os.mappers && os'.mappers[m] == os.mappers[m];
    assert forall mp :: mp in os'.mounts ==> mp in os.mounts && os'.mounts[mp] == os.mounts[mp];
  }

  lemma LockedGone(os: Os, v: Vault, a: Answer)
    requires v.mapperName == v.name
    ensures
      var os' := LockedOs(os, v, a);
      && (forall m :: m in os.mappers && m !in os'.mappers ==> m == v.name && LockOutcomeOf(os, v, a).Locked?)
      && (forall mp :: mp in os.mounts && mp !in os'.mounts ==> mp == v.mountPoint)
      && (LockOutcomeOf(os, v, a).Locked? ==> v.name !in os'.mappers)
      && (forall m :: m in os'.mappers ==> m in os.mappers && os'.mappers[m] == os.mappers[m])
      && (forall mp :: mp in os'.mounts ==> mp in os.mounts && os'.mounts[mp] == os.mounts[mp])
  {
  }

  lemma LockedHoldersIff(s: Sys, v: Vault, a: Answer)
    requires HoldersHold(Holders(s.jobs), s.os) && v.mapperName == v.name
    ensures HoldersHold(Holders(s.jobs), LockedOs(s.os, v, a)) <==> !TakesFromCreate(s, v, a)
  {
    var holders := Holders(s.jobs);
    LockedGone(s.os, v, a);
    assert forall j :: j in s.jobs ==> holders[j] == HolderOf(s.jobs[j]);
  }

  lemma LockedDevicesIff(s: Sys, v: Vault, a: Answer)
    requires Devices(s.os, s.rows, Holders(s.jobs)) && v.mapperName == v.name
    ensures Devices(LockedOs(s.os, v, a), s.rows, Holders(s.jobs)) <==> !TakesFromCreate(s, v, a)
  {
    LockedShrinks(s.os, s.rows, Holders(s.jobs), v, a);
    LockedHoldersIff(s, v, a);
  }

  lemma LockedOtherwiseSound(s: Sys, r: int, os': Os, forget: bool)
    requires Sound(s) && s.opMu.Free? && r in s.requests && os'.files == s.os.files
    ensures
      var end := Done(s, r).(os := os');
      var end' := if forget then Unmark(end, s.requests[r].id) else end;
      Registered(end') && Guarded(end')
  {
    var end := Done(s, r).(os := os');
    var end' := if forget then Unmark(end, s.requests[r].id) else end;
    FrameKeeps(s, end');
    GuardsFrame(s, end');
  }

  /** A whole lock leaves every device to its owner exactly if it takes none from a create in flight. */
  lemma LockKeepsSoundIff(s: Sys, r: int, a: Answer)
    requires Sound(s) && s.opMu.Free? && r in s.requests && WellNamed(s.requests[r].v)
    ensures Sound(After(s, WholeLock(r, a))) <==> !TakesFromCreate(s, s.requests[r].v, a)
    ensures s.requests[r].id in s.rows ==> !TakesFromCreate(s, s.requests[r].v, a)
  {
    var Request(id, v) := s.requests[r];
    Handlers.LockSection(s, r, a);
    LockedDevicesIff(s, v, a);
    LockedOtherwiseSound(s, r, LockedOs(s.os, v, a), LockOutcomeOf(s.os, v, a).Locked?);
    if id in s.rows {
      forall j | j in s.jobs && HasMapper(s.jobs[j].pc)
        ensures s.jobs[j].name != v.name && s.jobs[j].mountPoint != v.mountPoint
      {
        assert Holders(s.jobs)[j].opens;
        MountPointsApart(s.rows, Holders(s.jobs), id, j);
      }
    }
  }

  // ---- mount and delete -------------------------------------------------

  lemma RemountedHoldersHold(os: Os, holders: map<int, Holder>, v: Vault)
    requires HoldersHold(holders, os) && CanMount(os, v.mapperName, v.mountPoint)
    ensures HoldersHold(holders, Mount(os, v.mapperName, v.mountPoint))
  {
  }

  lemma RemountedDevicesIff(os: Os, rows: map<int, Vault>, holders: map<int, Holder>, v: Vault)
    requires Devices(os, rows, holders) && v.mapperName == v.name && CanMount(os, v.mapperName, v.mountPoint)
    ensures Devices(Mount(os, v.mapperName, v.mountPoint), rows, holders) <==> RowMounts(rows, v.name, v.mountPoint)
  {
    NoHolderHas(os, holders, v.name, v.path, v.mountPoint);
    OneMoreMountIff(os, Mount(os, v.mapperName, v.mountPoint), rows, holders, v.name, v.mountPoint);
    RemountedHoldersHold(os, holders, v);
  }

  /** A mount leaves none without an owner exactly if it fails, or a row has this name and mount point. */
  lemma RemountKeepsSoundIff(s: Sys, r: int, ok: bool)
    requires Sound(s) && s.opMu.Free? && r in s.requests && WellNamed(s.requests[r].v)
    ensures
      var v := s.requests[r].v;
      var mounts := ok && CanMount(s.os, v.mapperName, v.mountPoint);
      Sound(Next(s, Remount(r, ok))) <==> !mounts || RowMounts(s.rows, v.name, v.mountPoint)
  {
    var v := s.requests[r].v;
    LockedOtherwiseSound(s, r, RemountStep(s, r, ok).os, false);
    if ok && CanMount(s.os, v.mapperName, v.mountPoint) {
      RemountedDevicesIff(s.os, s.rows, Holders(s.jobs), v);
    }
  }

  /** A whole delete of a row that has gone keeps every invariant exactly if its image is not in use. */
  lemma StaleDeleteKeepsSoundIff(s: Sys, r: int)
    requires Sound(s) && s.opMu.Free? && r in s.requests && s.requests[r].id !in s.rows
    ensures
      var v := s.requests[r].v;
      Sound(After(s, WholeDelete(r))) <==> IsUnlocked(s.os, v) || !InUse(s.rows, s.jobs, v.path)
  {
    var Request(id, v) := s.requests[r];
    var end := After(s, WholeDelete(r));
    DeleteKeepsRegistryIff(s, r);
    Handlers.DeleteSection(s, r, true, true);
    assert s.rows - {id} == s.rows;
    SameDevices(s.os, end.os, s.rows, Holders(s.jobs));
    GuardsFrame(s, end);
  }
}
