/**
  The vault package's operations on an existing vault, run one after another
  on the machine: unlock, lock, mount, delete, and the shutdown that locks
  every vault. What the commands answer comes in as parameters.
 */
module Vaults {
  import opened Machine

  datatype LockOutcome = Locked | AlreadyLocked | UmountFailed | CloseFailed

  /** What one vault's umount and luksClose answer. */
  datatype Answer = Answer(umount: bool, close: bool)

  function LockOutcomeOf(os: Os, v: Vault, a: Answer): LockOutcome {
    if !IsUnlocked(os, v) then AlreadyLocked
    else if IsMounted(os, v) && !a.umount then UmountFailed
    else if !a.close || !CanClose(Umount(os, v.mountPoint), v.mapperName) then CloseFailed
    else Locked
  }

  /** The machine after LockContext: what was mounted is unmounted first, and stays so if luksClose fails. */
  function LockedOs(os: Os, v: Vault, a: Answer): Os {
    match LockOutcomeOf(os, v, a)
    case AlreadyLocked => os
    case UmountFailed => os
    case CloseFailed => Umount(os, v.mountPoint)
    case Locked => Close(Umount(os, v.mountPoint), v.mapperName)
  }

  /** An unlocked vault one of whose commands fails: a busy mount, or a failing luksClose. */
  predicate StaysUnlocked(os: Os, v: Vault, a: Answer) {
    IsUnlocked(os, v) && !((IsMounted(os, v) ==> a.umount) && a.close)
  }

  /** The machine after unlockWith: a failed mount closes the device again. */
  function UnlockedOs(os: Os, v: Vault, openOk: bool, mountOk: bool): Os {
    if IsUnlocked(os, v) || !openOk || !CanOpen(os, v.path, v.mapperName) then os
    else
      var next := Open(os, v.path, v.mapperName);
      if mountOk && CanMount(next, v.mapperName, v.mountPoint) then Mount(next, v.mapperName, v.mountPoint)
      else Close(next, v.mapperName)
  }

  predicate Unlocks(os: Os, v: Vault, openOk: bool, mountOk: bool) {
    !IsUnlocked(os, v) && openOk && mountOk && v.path in os.files
  }

  class Host {
    var os: Os

    constructor (os: Os)
      ensures this.os == os
    {
      this.os := os;
    }

    /** unlockWith: afterwards the vault is open and mounted, or nothing has changed. */
    method Unlock(v: Vault, openOk: bool, mountOk: bool) returns (ok: bool)
      modifies this
      ensures os == UnlockedOs(old(os), v, openOk, mountOk)
      ensures ok <==> Unlocks(old(os), v, openOk, mountOk)
      ensures ok <==>
        && v.mapperName !in old(os).mappers && v.mountPoint !in old(os).mounts
        && openOk && mountOk && v.path in old(os).files
      ensures ok ==> v.mapperName in os.mappers && os.mappers[v.mapperName] == v.path
      ensures ok ==> v.mountPoint in os.mounts && os.mounts[v.mountPoint] == v.mapperName
      ensures !ok && StackedFor(old(os), v) ==> os == old(os)
    {
      if IsUnlocked(os, v) {
        return false;
      }
      if !openOk || !CanOpen(os, v.path, v.mapperName) {
        return false;
      }
      os := Open(os, v.path, v.mapperName);
      if !mountOk || !CanMount(os, v.mapperName, v.mountPoint) {
        assert os.mappers - {v.mapperName} == old(os).mappers;
        os := Close(os, v.mapperName);
        return false;
      }
      os := Machine.Mount(os, v.mapperName, v.mountPoint);
      return true;
    }

    /** LockContext. */
    method Lock(v: Vault, a: Answer) returns (outcome: LockOutcome)
      modifies this
      ensures outcome == LockOutcomeOf(old(os), v, a) && os == LockedOs(old(os), v, a)
      ensures outcome == AlreadyLocked <==> v.mapperName !in old(os).mappers && v.mountPoint !in old(os).mounts
      ensures outcome == UmountFailed <==> v.mountPoint in old(os).mounts && !a.umount
      ensures outcome == Locked <==>
        && (v.mountPoint in old(os).mounts ==> a.umount) && a.close && v.mapperName in old(os).mappers
        && forall mp :: mp in old(os).mounts && mp != v.mountPoint ==> old(os).mounts[mp] != v.mapperName
      ensures os.files == old(os).files
      ensures os.mappers == if outcome == Locked then old(os).mappers - {v.mapperName} else old(os).mappers
      ensures os.mounts == if outcome == UmountFailed then old(os).mounts else old(os).mounts - {v.mountPoint}
    {
      var mounted := IsMounted(os, v);
      if !IsUnlocked(os, v) {
        return AlreadyLocked;
      }
      if mounted {
        if !a.umount {
          return UmountFailed;
        }
        os := Umount(os, v.mountPoint);
      }
      assert os == Umount(old(os), v.mountPoint) by {
        assert !mounted ==> old(os).mounts - {v.mountPoint} == old(os).mounts;
      }
      assert forall mp :: mp in os.mounts <==> mp in old(os).mounts && mp != v.mountPoint;
      assert forall mp :: mp in os.mounts ==> os.mounts[mp] == old(os).mounts[mp];
      if !a.close || !CanClose(os, v.mapperName) {
        return CloseFailed;
      }
      os := Close(os, v.mapperName);
      return Locked;
    }

    /** Mount of a vault that is unlocked but not mounted. */
    method Mount(v: Vault, mountOk: bool) returns (ok: bool)
      modifies this
      ensures ok <==> v.mapperName in old(os).mappers && !IsMounted(old(os), v) && mountOk
      ensures os == if ok then old(os).(mounts := old(os).mounts[v.mountPoint := v.mapperName]) else old(os)
    {
      if !IsUnlocked(os, v) || IsMounted(os, v) || !mountOk {
        return false;
      }
      os := Machine.Mount(os, v.mapperName, v.mountPoint);
      return v.mapperName in os.mappers;
    }

    /** Delete of the backing image; refused while the vault is unlocked. */
    method Delete(v: Vault, removeOk: bool) returns (ok: bool)
      modifies this
      ensures ok <==> !IsUnlocked(old(os), v) && removeOk
      ensures os == if ok then old(os).(files := old(os).files - {v.path}) else old(os)
    {
      if IsUnlocked(os, v) || !removeOk {
        return false;
      }
      os := RemoveFile(os, v.path);
      return true;
    }

    /** LockAllUnlocked: every vault that is unlocked is locked or reported. */
    method LockAllUnlocked(vaults: seq<Vault>, answers: seq<Answer>) returns (failures: seq<string>)
      requires |answers| == |vaults|
      requires Independent(vaults) && AllStacked(os, vaults)
      modifies this
      ensures AllStacked(os, vaults)
      ensures forall i :: 0 <= i < |vaults| ==> (IsUnlocked(os, vaults[i]) <==> vaults[i].name in failures)
      ensures forall name :: name in failures ==> exists i :: 0 <= i < |vaults| && vaults[i].name == name
      ensures forall i :: 0 <= i < |vaults| ==>
        (IsUnlocked(os, vaults[i]) <==> StaysUnlocked(old(os), vaults[i], answers[i]))
      ensures os.files == old(os).files
    {
      failures := [];
      for i := 0 to |vaults|
        invariant AllStacked(os, vaults) && os.files == old(os).files
        invariant forall k :: 0 <= k < i ==> (IsUnlocked(os, vaults[k]) <==> vaults[k].name in failures)
        invariant forall name :: name in failures ==> exists k :: 0 <= k < i && vaults[k].name == name
        invariant forall k :: i <= k < |vaults| ==> SameStatus(old(os), os, vaults[k])
        invariant forall k :: 0 <= k < i ==>
          (IsUnlocked(os, vaults[k]) <==> StaysUnlocked(old(os), vaults[k], answers[k]))
      {
        var v := vaults[i];
        if IsUnlocked(os, v) {
          ghost var before := os;
          var outcome := Lock(v, answers[i]);
          LockTouchesOne(before, vaults, i, answers[i]);
          OutcomeOfStatus(before, v, answers[i]);
          if outcome != Locked {
            failures := failures + [v.name];
          }
        }
      }
    }
  }

  /** Vaults with different names, mappers and mount points; each mapper named after its vault. */
  predicate Independent(vaults: seq<Vault>) {
    && (forall i :: 0 <= i < |vaults| ==> vaults[i].mapperName == vaults[i].name)
    && (forall i, j :: 0 <= i < j < |vaults| ==>
          vaults[i].name != vaults[j].name && vaults[i].mountPoint != vaults[j].mountPoint)
  }

  /** What is mounted for a vault stands on its open mapper, and its mapper is mounted nowhere else. */
  predicate StackedFor(os: Os, v: Vault) {
    && (v.mountPoint in os.mounts ==> os.mounts[v.mountPoint] == v.mapperName && v.mapperName in os.mappers)
    && (forall mp :: mp in os.mounts && os.mounts[mp] == v.mapperName ==> mp == v.mountPoint)
  }

  predicate AllStacked(os: Os, vaults: seq<Vault>) {
    forall i :: 0 <= i < |vaults| ==> StackedFor(os, vaults[i])
  }

  predicate SameStatus(os: Os, os': Os, v: Vault) {
    && (v.mapperName in os.mappers <==> v.mapperName in os'.mappers)
    && (v.mountPoint in os.mounts <==> v.mountPoint in os'.mounts)
  }

  /** Locking one vault of an independent list leaves the others' status alone. */
  lemma LockTouchesOne(os: Os, vaults: seq<Vault>, i: nat, a: Answer)
    requires i < |vaults| && Independent(vaults) && AllStacked(os, vaults)
    ensures AllStacked(LockedOs(os, vaults[i], a), vaults)
    ensures forall k :: 0 <= k < |vaults| && k != i ==> SameStatus(os, LockedOs(os, vaults[i], a), vaults[k])
    ensures LockOutcomeOf(os, vaults[i], a).Locked? || LockOutcomeOf(os, vaults[i], a).AlreadyLocked?
      <==> !IsUnlocked(LockedOs(os, vaults[i], a), vaults[i])
  {
  }

  /** Whether a lock goes through depends on the vault's own status and the answers alone. */
  lemma OutcomeOfStatus(os: Os, v: Vault, a: Answer)
    requires StackedFor(os, v)
    ensures LockOutcomeOf(os, v, a).Locked? <==> IsUnlocked(os, v) && (IsMounted(os, v) ==> a.umount) && a.close
  {
  }
}
