/**
  Where the hypotheses of the run theorems come from: for each, a run of the
  code that breaks the property without it, and what exactly goes wrong.
 */
module Counterexamples {
  import opened Wrappers
  import opened Names
  import opened Machine
  import opened Lifecycle
  import opened Registry
  import opened Ownership
  import opened Soundness
  import opened Tracking
  import opened AutoLockGuard
  import opened CreateAlone
  import opened StaleDeletes

  // ---- a state to start from --------------------------------------------

  /** A freshly started process over a table whose vaults may still be open. */
  ghost predicate Started(s: Sys) {
    && s.jobs == map[] && s.requests == map[] && s.pendingNames == {} && s.pendingPaths == {}
    && s.opMu == Free && s.sweep == Idle
    && RowsDistinct(s.rows) && IdsUsed(s.rows, s.nextId) && NoGhosts(s.rows, s.os.files)
    && (forall id :: id in s.rows ==> WellNamed(s.rows[id]))
    && (forall m :: m in s.os.mappers ==> RowOpens(s.rows, m, s.os.mappers[m]))
    && (forall mp :: mp in s.os.mounts ==> s.os.mounts[mp] in s.os.mappers && RowMounts(s.rows, s.os.mounts[mp], mp))
    && Timestamped(s.unlockedAt, s.clock)
    // autoLockLoop's startup scan: every vault found unlocked gets a window.
    && (forall id :: id in s.unlockedAt ==> id < s.nextId)
    && (forall id :: RowOpen(s, id) ==> id in s.unlockedAt)
  }

  lemma StartIsSound(s: Sys)
    requires Started(s)
    ensures Sound(s) && Windowed(s)
  {
  }

  const IMAGE := "/v/a.img"
  const OTHER := "/w/a.img"
  const VAULT := Vault("a", IMAGE, "/m/a", "a")

  const ROWS := map[1 := VAULT]

  /** One vault, locked or unlocked, and nothing going on. */
  ghost function OneVault(os: Os, unlockedAt: map<int, int>): Sys {
    Sys(ROWS, 2, os, {}, {}, unlockedAt, 10, 5, map[], map[], Free, Idle)
  }

  const LOCKED := Os({IMAGE}, map[], map[])
  const MOUNTED := Os({IMAGE}, map["a" := IMAGE], map["/m/a" := "a"])

  lemma VaultIsWellNamed()
    ensures WellNamed(VAULT) && IsValidName("a") && MountPointOf("/m", "a") == "/m/a"
  {
    MountPointNamesVault("/m", "a");
    assert "/m" + "/" + "a" == "/m/a";
  }

  lemma TableStarts(files: set<string>)
    requires IMAGE in files
    ensures RowsDistinct(ROWS) && IdsUsed(ROWS, 2) && NoGhosts(ROWS, files)
    ensures forall id :: id in ROWS ==> WellNamed(ROWS[id])
  {
    VaultIsWellNamed();
  }

  lemma DevicesStart()
    ensures RowOpens(ROWS, "a", IMAGE) && RowMounts(ROWS, "a", "/m/a")
  {
    assert ROWS[1] == VAULT;
  }

  /** Whatever is open or mounted is the vault's own, and an open vault has a window. */
  lemma OneVaultStarts(os: Os, unlockedAt: map<int, int>)
    requires IMAGE in os.files
    requires forall m :: m in os.mappers ==> m == "a" && os.mappers[m] == IMAGE
    requires forall mp :: mp in os.mounts ==> mp == "/m/a" && os.mounts[mp] == "a" && "a" in os.mappers
    requires forall id :: id in unlockedAt ==> id == 1 && unlockedAt[id] < 10
    requires "a" in os.mappers ==> 1 in unlockedAt
    ensures Started(OneVault(os, unlockedAt))
  {
    TableStarts(os.files);
    DevicesStart();
  }

  lemma LockedVaultStarts()
    ensures Started(OneVault(LOCKED, map[]))
  {
    OneVaultStarts(LOCKED, map[]);
  }

  lemma MountedVaultStarts()
    ensures Started(OneVault(MOUNTED, map[1 := 0]))
  {
    OneVaultStarts(MOUNTED, map[1 := 0]);
  }

  // ---- a delete that looked its row up before another delete ------------

  /**
    The rows alone: at its end a whole delete leaves a ghost exactly if its row
    is gone, the vault it remembers is not unlocked, and a newer row has its
    image. A create in flight may still insert one: DeleteKeepsRegistryIff.
   */
  lemma DeleteLeavesNoGhostIff(s: Sys, r: int)
    requires Registered(s) && s.opMu.Free? && r in s.requests
    ensures
      var Request(id, v) := s.requests[r];
      var end := After(s, WholeDelete(r));
      NoGhosts(end.rows, end.os.files) <==> id in s.rows || IsUnlocked(s.os, v) || !PathTaken(s.rows, v.path)
  {
    var Request(id, v) := s.requests[r];
    var end := After(s, WholeDelete(r));
    AfterThree(s, Delete(r, true), Continue(true), Continue(true));
    if IsUnlocked(s.os, v) {
      assert end == Done(s, r);
    } else {
      assert end.rows == s.rows - {id} && end.os.files == s.os.files - {v.path};
      if id in s.rows {
        assert s.rows[id] == v;
      } else if other :| other in s.rows && s.rows[other].path == v.path {
        assert other in end.rows && end.rows[other].path !in end.os.files;
      }
    }
  }

  /** A run one step at a time. */
  lemma Unroll(s: Sys, step: Step, rest: seq<Step>)
    ensures After(s, [step] + rest) == After(Next(s, step), rest)
    ensures OrderlyRun(s, [step] + rest) <==> Orderly(s, step) && OrderlyRun(Next(s, step), rest)
  {
    assert ([step] + rest)[1..] == rest;
  }

  /** Two deletes look vault 1 up; the first removes it, its image is restored and imported, the second goes on. */
  function GhostRun(): seq<Step> {
    [Lookup(1, 1)] + ([Lookup(2, 1)] + (WholeDelete(1)
      + ([PlaceImage(IMAGE)] + ([Import("a", IMAGE, "/m", true)] + WholeDelete(2)))))
  }

  const BOTH_LOOKED_UP := map[1 := Request(1, VAULT), 2 := Request(1, VAULT)]
  const SECOND_LEFT := map[2 := Request(1, VAULT)]

  lemma BothLookUp()
    ensures
      var s := OneVault(LOCKED, map[]);
      Next(Next(s, Lookup(1, 1)), Lookup(2, 1)) == s.(requests := BOTH_LOOKED_UP)
  {
    var s := OneVault(LOCKED, map[]);
    assert Next(s, Lookup(1, 1)).requests == map[1 := Request(1, VAULT)];
  }

  lemma FirstDeletes()
    ensures
      var s := OneVault(LOCKED, map[]);
      After(s.(requests := BOTH_LOOKED_UP), WholeDelete(1))
        == s.(rows := map[], os := Os({}, map[], map[]), requests := SECOND_LEFT)
  {
    var s := OneVault(LOCKED, map[]).(requests := BOTH_LOOKED_UP);
    AfterThree(s, Delete(1, true), Continue(true), Continue(true));
    assert BOTH_LOOKED_UP - {1} == SECOND_LEFT;
    assert s.rows - {1} == map[];
    assert s.unlockedAt - {1} == map[];
    assert s.os.files - {IMAGE} == {};
  }

  lemma RestoredAndImported(s: Sys)
    requires s.rows == map[] && s.opMu.Free? && s.pendingNames == {} && s.pendingPaths == {} && s.nextId == 2
    requires s.os == Os({}, map[], map[])
    ensures
      Next(Next(s, PlaceImage(IMAGE)), Import("a", IMAGE, "/m", true))
        == s.(rows := map[2 := VAULT], nextId := 3, os := LOCKED)
  {
    VaultIsWellNamed();
  }

  lemma SecondDeletes(s: Sys)
    requires s.rows == map[2 := VAULT] && s.opMu.Free? && s.os == LOCKED && s.requests == SECOND_LEFT
    ensures After(s, WholeDelete(2)).rows == map[2 := VAULT]
    ensures After(s, WholeDelete(2)).os.files == {}
  {
    AfterThree(s, Delete(2, true), Continue(true), Continue(true));
    assert s.rows - {1} == s.rows;
    assert s.os.files - {IMAGE} == {};
  }

  lemma StaleDeleteLeavesGhost()
    ensures
      var s := OneVault(LOCKED, map[]);
      var end := After(s, GhostRun());
      Started(s) && end.rows == map[2 := VAULT] && end.os.files == {} && !NoGhosts(end.rows, end.os.files)
  {
    var s0 := OneVault(LOCKED, map[]);
    var s2 := s0.(requests := BOTH_LOOKED_UP);
    var s3 := s0.(rows := map[], os := Os({}, map[], map[]), requests := SECOND_LEFT);
    var restored := [PlaceImage(IMAGE)] + ([Import("a", IMAGE, "/m", true)] + WholeDelete(2));
    LockedVaultStarts();
    Unroll(s0, Lookup(1, 1), [Lookup(2, 1)] + (WholeDelete(1) + restored));
    Unroll(Next(s0, Lookup(1, 1)), Lookup(2, 1), WholeDelete(1) + restored);
    BothLookUp();
    AfterInTwo(s2, WholeDelete(1), restored);
    FirstDeletes();
    Unroll(s3, PlaceImage(IMAGE), [Import("a", IMAGE, "/m", true)] + WholeDelete(2));
    Unroll(Next(s3, PlaceImage(IMAGE)), Import("a", IMAGE, "/m", true), WholeDelete(2));
    RestoredAndImported(s3);
    SecondDeletes(s3.(rows := map[2 := VAULT], nextId := 3, os := LOCKED));
    assert 2 in map[2 := VAULT];
  }

  // ---- an unlock between the sweep's release of opMu and its clear ------

  /** The sweep locks vault 1; before it clears the window, the vault is unlocked again. */
  function LateUnlockRun(): seq<Step> {
    [SweepOn(0, true)] + ([SweepOn(1, true)] + ([SweepOn(1, true)] + ([SweepOn(1, true)] + ([Continue(true)]
      + ([Lookup(1, 1)] + ([Unlock(1, true)] + ([Continue(true)] + ([Continue(true)] + [SweepOn(1, true)]))))))))
  }

  lemma SweepFindsVault(s: Sys)
    requires s == OneVault(MOUNTED, map[1 := 0])
    ensures Next(s, SweepOn(0, true)) == s.(sweep := Visiting({1}))
    ensures Next(s.(sweep := Visiting({1})), SweepOn(1, true)) == s.(sweep := Seen(1, Some(0), {}))
    ensures Next(s.(sweep := Seen(1, Some(0), {})), SweepOn(1, true)) == s.(sweep := Found(1, Some(0), VAULT, {}))
  {
    assert Expired(s) == {1};
    assert {1} - {1} == {};
  }

  lemma SweepLocksVault(s: Sys)
    requires s == OneVault(MOUNTED, map[1 := 0]).(sweep := Found(1, Some(0), VAULT, {}))
    ensures Next(Next(s, SweepOn(1, true)), Continue(true)) == s.(sweep := Clearing(1, {}), os := LOCKED)
  {
    var s1 := Next(s, SweepOn(1, true));
    assert s.os.mounts - {"/m/a"} == map[];
    assert s1 == s.(sweep := Locking(1, {}), opMu := CloseNext(1, VAULT, true), os := s.os.(mounts := map[]));
    assert s1.os.mappers - {"a"} == map[];
  }

  lemma VaultUnlockedAgain(s: Sys)
    requires s == OneVault(LOCKED, map[1 := 0]).(sweep := Clearing(1, {}))
    ensures Next(Next(Next(Next(s, Lookup(1, 1)), Unlock(1, true)), Continue(true)), Continue(true))
         == s.(os := MOUNTED, unlockedAt := map[1 := 10], clock := 11)
  {
    var s1 := Next(s, Lookup(1, 1));
    assert s1 == s.(requests := map[1 := Request(1, VAULT)]);
    var s2 := Next(s1, Unlock(1, true));
    assert s1.requests - {1} == map[];
    assert s2 == s.(os := s.os.(mappers := map["a" := IMAGE]), opMu := MountNext(1, VAULT));
    var s3 := Next(s2, Continue(true));
    assert s3 == s.(os := MOUNTED, opMu := MarkNext(1, VAULT));
  }

  /** Every step is orderly, yet the vault ends unlocked without a window. */
  lemma LateUnlockLosesWindow()
    ensures
      var s := OneVault(MOUNTED, map[1 := 0]);
      var end := After(s, LateUnlockRun());
      && Started(s) && OrderlyRun(s, LateUnlockRun())
      && end.opMu.Free? && RowOpen(end, 1) && end.unlockedAt == map[] && end.pendingNames == {} && !Tracked(end)
  {
    var s := OneVault(MOUNTED, map[1 := 0]);
    MountedVaultStarts();
    var tail := [Lookup(1, 1)] + ([Unlock(1, true)] + ([Continue(true)] + ([Continue(true)] + [SweepOn(1, true)])));
    LateUnlockHead(s, tail);
    LateUnlockTail(s.(sweep := Clearing(1, {}), os := LOCKED));
  }

  lemma LateUnlockHead(s: Sys, tail: seq<Step>)
    requires s == OneVault(MOUNTED, map[1 := 0])
    ensures
      var run := [SweepOn(0, true)] + ([SweepOn(1, true)] + ([SweepOn(1, true)] +
        ([SweepOn(1, true)] + ([Continue(true)] + tail))));
      var s' := s.(sweep := Clearing(1, {}), os := LOCKED);
      After(s, run) == After(s', tail) && (OrderlyRun(s', tail) ==> OrderlyRun(s, run))
  {
    SweepFindsVault(s);
    var locking := [SweepOn(1, true)] + ([Continue(true)] + tail);
    Unroll(s, SweepOn(0, true), [SweepOn(1, true)] + ([SweepOn(1, true)] + locking));
    Unroll(s.(sweep := Visiting({1})), SweepOn(1, true), [SweepOn(1, true)] + locking);
    Unroll(s.(sweep := Seen(1, Some(0), {})), SweepOn(1, true), locking);
    var found := s.(sweep := Found(1, Some(0), VAULT, {}));
    SweepLocksVault(found);
    Unroll(found, SweepOn(1, true), [Continue(true)] + tail);
    Unroll(Next(found, SweepOn(1, true)), Continue(true), tail);
  }

  lemma LateUnlockTail(s: Sys)
    requires s == OneVault(LOCKED, map[1 := 0]).(sweep := Clearing(1, {}))
    ensures
      var run := [Lookup(1, 1)] + ([Unlock(1, true)] + ([Continue(true)] + ([Continue(true)] + [SweepOn(1, true)])));
      && After(s, run) == s.(os := MOUNTED, unlockedAt := map[], clock := 11, sweep := Visiting({}))
      && OrderlyRun(s, run)
  {
    var s1 := Next(s, Lookup(1, 1));
    var s2 := Next(s1, Unlock(1, true));
    var s3 := Next(s2, Continue(true));
    var s4 := Next(s3, Continue(true));
    VaultUnlockedAgain(s);
    Unroll(s, Lookup(1, 1), [Unlock(1, true)] + ([Continue(true)] + ([Continue(true)] + [SweepOn(1, true)])));
    Unroll(s1, Unlock(1, true), [Continue(true)] + ([Continue(true)] + [SweepOn(1, true)]));
    Unroll(s2, Continue(true), [Continue(true)] + [SweepOn(1, true)]);
    Unroll(s3, Continue(true), [SweepOn(1, true)]);
    assert [SweepOn(1, true)] + [] == [SweepOn(1, true)];
    Unroll(s4, SweepOn(1, true), []);
    assert map[1 := 10] - {1} == map[];
  }

  // ---- a window read as absent, for a vault that is deleted meanwhile ----

  /** The vault under the next id: deleted, restored and imported again. */
  const ROWS_AGAIN := map[2 := VAULT]

  ghost function Resting(
    rows: map<int, Vault>, nextId: int, os: Os, unlockedAt: map<int, int>, clock: int, sweep: Sweep): Sys
  {
    OneVault(os, unlockedAt).(rows := rows, nextId := nextId, clock := clock, sweep := sweep)
  }

  function LockRequest(): seq<Step> {
    [Lookup(1, 1), Lock(1, true), Continue(true), Continue(true)]
  }

  function DeleteRequest(): seq<Step> {
    [Lookup(1, 1), Delete(1, true), Continue(true), Continue(true)]
  }

  function UnlockRequest(id: int): seq<Step> {
    [Lookup(1, id), Unlock(1, true), Continue(true), Continue(true)]
  }

  /** One step after another, each of them timely. */
  lemma TimelyTwo(s: Sys, a: Step, b: Step)
    requires Orderly(s, a) && NotLate(s, a) && Orderly(Next(s, a), b) && NotLate(Next(s, a), b)
    ensures TimelyRun(s, [a, b])
  {
    assert [a, b][1..] == [b] && [b][1..] == [];
    assert TimelyRun(Next(s, a), [b]);
  }

  lemma TimelyFour(s: Sys, a: Step, b: Step, c: Step, d: Step)
    requires Orderly(s, a) && NotLate(s, a) && Orderly(Next(s, a), b) && NotLate(Next(s, a), b)
    requires
      var s2 := Next(Next(s, a), b);
      Orderly(s2, c) && NotLate(s2, c) && Orderly(Next(s2, c), d) && NotLate(Next(s2, c), d)
    ensures TimelyRun(s, [a, b, c, d])
  {
    assert [a, b] + [c, d] == [a, b, c, d];
    AfterTwo(s, a, b);
    TimelyTwo(s, a, b);
    TimelyTwo(Next(Next(s, a), b), c, d);
    TimelyInTwo(s, [a, b], [c, d]);
  }

  /** The vault is locked after the sweep listed it as expired. */
  lemma LockedMeanwhile()
    ensures
      After(Resting(ROWS, 2, MOUNTED, map[1 := 0], 10, Visiting({1})), LockRequest())
        == Resting(ROWS, 2, LOCKED, map[], 10, Visiting({1}))
    ensures TimelyRun(Resting(ROWS, 2, MOUNTED, map[1 := 0], 10, Visiting({1})), LockRequest())
  {
    var s := Resting(ROWS, 2, MOUNTED, map[1 := 0], 10, Visiting({1}));
    AfterFour(s, Lookup(1, 1), Lock(1, true), Continue(true), Continue(true));
    var s1 := Next(s, Lookup(1, 1));
    assert s1 == s.(requests := map[1 := Request(1, VAULT)]);
    assert s1.requests - {1} == map[];
    assert MOUNTED.mounts - {"/m/a"} == map[] && MOUNTED.mappers - {"a"} == map[];
    var s2 := Next(s1, Lock(1, true));
    assert s2 == s.(os := MOUNTED.(mounts := map[]), opMu := CloseNext(1, VAULT, false));
    var s3 := Next(s2, Continue(true));
    assert s3 == s.(os := LOCKED, opMu := ClearNext(1, VAULT));
    assert map[1 := 0] - {1} == map[];
    TimelyFour(s, Lookup(1, 1), Lock(1, true), Continue(true), Continue(true));
  }

  lemma AbsentWindowRead()
    ensures
      After(Resting(ROWS, 2, LOCKED, map[], 10, Visiting({1})), [SweepOn(1, true), SweepOn(1, true)])
        == Resting(ROWS, 2, LOCKED, map[], 10, Found(1, None, VAULT, {}))
  {
    var s := Resting(ROWS, 2, LOCKED, map[], 10, Visiting({1}));
    AfterTwo(s, SweepOn(1, true), SweepOn(1, true));
    assert {1} - {1} == {};
    assert Next(s, SweepOn(1, true)) == s.(sweep := Seen(1, None, {}));
  }

  lemma DeletedMeanwhile(sweep: Sweep)
    ensures
      After(Resting(ROWS, 2, LOCKED, map[], 10, sweep), DeleteRequest())
        == Resting(map[], 2, Os({}, map[], map[]), map[], 10, sweep)
  {
    var s := Resting(ROWS, 2, LOCKED, map[], 10, sweep);
    AfterFour(s, Lookup(1, 1), Delete(1, true), Continue(true), Continue(true));
    var s1 := Next(s, Lookup(1, 1));
    assert s1 == s.(requests := map[1 := Request(1, VAULT)]);
    assert s1.requests - {1} == map[] && ROWS - {1} == map[];
    var s2 := Next(s1, Delete(1, true));
    assert s2 == s.(rows := map[], opMu := ForgetNext(1, VAULT));
    assert s.unlockedAt - {1} == map[] && LOCKED.files - {IMAGE} == {};
    assert Next(s2, Continue(true)) == s.(rows := map[], opMu := RemoveNext(1, VAULT));
  }

  lemma ImportedMeanwhile(sweep: Sweep)
    ensures
      After(Resting(map[], 2, Os({}, map[], map[]), map[], 10, sweep),
        [PlaceImage(IMAGE), Import("a", IMAGE, "/m", true)])
        == Resting(ROWS_AGAIN, 3, LOCKED, map[], 10, sweep)
  {
    var s := Resting(map[], 2, Os({}, map[], map[]), map[], 10, sweep);
    AfterTwo(s, PlaceImage(IMAGE), Import("a", IMAGE, "/m", true));
    RestoredAndImported(s);
  }

  lemma UnlockedMeanwhile(rows: map<int, Vault>, nextId: int, id: int, sweep: Sweep)
    requires id in rows && rows[id] == VAULT && !sweep.Locking? && !sweep.Clearing?
    ensures
      After(Resting(rows, nextId, LOCKED, map[], 10, sweep), UnlockRequest(id))
        == Resting(rows, nextId, MOUNTED, map[id := 10], 11, sweep)
    ensures TimelyRun(Resting(rows, nextId, LOCKED, map[], 10, sweep), UnlockRequest(id))
  {
    var s := Resting(rows, nextId, LOCKED, map[], 10, sweep);
    AfterFour(s, Lookup(1, id), Unlock(1, true), Continue(true), Continue(true));
    var s1 := Next(s, Lookup(1, id));
    assert s1 == s.(requests := map[1 := Request(id, VAULT)]);
    assert s1.requests - {1} == map[];
    var s2 := Next(s1, Unlock(1, true));
    assert s2 == s.(os := LOCKED.(mappers := map["a" := IMAGE]), opMu := MountNext(id, VAULT));
    assert Next(s2, Continue(true)) == s.(os := MOUNTED, opMu := MarkNext(id, VAULT));
    TimelyFour(s, Lookup(1, id), Unlock(1, true), Continue(true), Continue(true));
  }

  /** The guard finds what was read, and the open vault of that name is locked. */
  lemma SweepLocksFound(rows: map<int, Vault>, nextId: int, windows: map<int, int>, since: Option<int>)
    requires Get(windows, 1) == since
    ensures
      After(Resting(rows, nextId, MOUNTED, windows, 11, Found(1, since, VAULT, {})), [SweepOn(1, true), Continue(true)])
        == Resting(rows, nextId, LOCKED, windows, 11, Clearing(1, {}))
  {
    var s := Resting(rows, nextId, MOUNTED, windows, 11, Found(1, since, VAULT, {}));
    AfterTwo(s, SweepOn(1, true), Continue(true));
    assert MOUNTED.mounts - {"/m/a"} == map[] && MOUNTED.mappers - {"a"} == map[];
    assert Next(s, SweepOn(1, true))
      == s.(os := MOUNTED.(mounts := map[]), opMu := CloseNext(1, VAULT, true), sweep := Locking(1, {}));
  }

  /** The sweep lists vault 1 as expired; it is locked and unlocked again before the sweep reads its window. */
  function RemarkedWindowRun(): seq<Step> {
    LockRequest() + (UnlockRequest(1) + [SweepOn(1, true), SweepOn(1, true)])
  }

  lemma FreshWindowRead()
    ensures
      After(Resting(ROWS, 2, MOUNTED, map[1 := 10], 11, Visiting({1})), [SweepOn(1, true), SweepOn(1, true)])
        == Resting(ROWS, 2, MOUNTED, map[1 := 10], 11, Found(1, Some(10), VAULT, {}))
    ensures TimelyRun(Resting(ROWS, 2, MOUNTED, map[1 := 10], 11, Visiting({1})), [SweepOn(1, true), SweepOn(1, true)])
  {
    var s := Resting(ROWS, 2, MOUNTED, map[1 := 10], 11, Visiting({1}));
    AfterTwo(s, SweepOn(1, true), SweepOn(1, true));
    assert {1} - {1} == {};
    assert Next(s, SweepOn(1, true)) == s.(sweep := Seen(1, Some(10), {}));
    TimelyTwo(s, SweepOn(1, true), SweepOn(1, true));
  }

  lemma RemarkedWindowFound()
    ensures
      var listed := Resting(ROWS, 2, MOUNTED, map[1 := 0], 10, Visiting({1}));
      && After(listed, RemarkedWindowRun())
        == Resting(ROWS, 2, MOUNTED, map[1 := 10], 11, Found(1, Some(10), VAULT, {}))
      && TimelyRun(listed, RemarkedWindowRun())
  {
    var listed := Resting(ROWS, 2, MOUNTED, map[1 := 0], 10, Visiting({1}));
    var locked := Resting(ROWS, 2, LOCKED, map[], 10, Visiting({1}));
    var read := [SweepOn(1, true), SweepOn(1, true)];
    LockedMeanwhile();
    UnlockedMeanwhile(ROWS, 2, 1, Visiting({1}));
    FreshWindowRead();
    AfterInTwo(locked, UnlockRequest(1), read);
    TimelyInTwo(locked, UnlockRequest(1), read);
    AfterInTwo(listed, LockRequest(), UnlockRequest(1) + read);
    TimelyInTwo(listed, LockRequest(), UnlockRequest(1) + read);
  }

  /**
    Every step is timely, and the guard compares the new timestamp with itself:
    the sweep locks a vault that was unlocked at 10 and is not due before 15.
   */
  lemma RemarkedWindowLocksFresh()
    ensures
      var s := OneVault(MOUNTED, map[1 := 0]);
      var found := After(Next(s, SweepOn(0, true)), RemarkedWindowRun());
      var end := After(found, [SweepOn(1, true), Continue(true)]);
      && Started(s) && TimelyRun(Next(s, SweepOn(0, true)), RemarkedWindowRun())
      && AboutToLock(found, 1, 10) && found.clock - 10 < found.window
      && end.rows == ROWS && !IsUnlocked(end.os, VAULT)
  {
    var s := OneVault(MOUNTED, map[1 := 0]);
    MountedVaultStarts();
    SweepFindsVault(s);
    assert Next(s, SweepOn(0, true)) == Resting(ROWS, 2, MOUNTED, map[1 := 0], 10, Visiting({1}));
    RemarkedWindowFound();
    SweepLocksFound(ROWS, 2, map[1 := 10], Some(10));
  }

  function AbsentWindowRun(): seq<Step> {
    [SweepOn(0, true)] + (LockRequest() + ([SweepOn(1, true), SweepOn(1, true)] + (DeleteRequest()
      + ([PlaceImage(IMAGE), Import("a", IMAGE, "/m", true)]
        + (UnlockRequest(2) + [SweepOn(1, true), Continue(true)])))))
  }

  /**
    The run ends with the sweep having locked vault 2, which was unlocked at 10
    and is not due before 15: an absent window looks unchanged.
   */
  lemma AbsentWindowLocksAnother()
    ensures
      var s := OneVault(MOUNTED, map[1 := 0]);
      var end := After(s, AbsentWindowRun());
      && Started(s) && end.rows == ROWS_AGAIN && end.clock == 11
      && end.unlockedAt == map[2 := 10] && !IsUnlocked(end.os, VAULT) && end.clock - end.unlockedAt[2] < end.window
  {
    var s := OneVault(MOUNTED, map[1 := 0]);
    var found := Found(1, None, VAULT, {});
    var last := [SweepOn(1, true), Continue(true)];
    var unlocked := UnlockRequest(2) + last;
    var imported := [PlaceImage(IMAGE), Import("a", IMAGE, "/m", true)] + unlocked;
    var removed := DeleteRequest() + imported;
    var read := [SweepOn(1, true), SweepOn(1, true)] + removed;
    MountedVaultStarts();
    SweepFindsVault(s);
    Unroll(s, SweepOn(0, true), LockRequest() + read);
    AfterInTwo(Resting(ROWS, 2, MOUNTED, map[1 := 0], 10, Visiting({1})), LockRequest(), read);
    LockedMeanwhile();
    AfterInTwo(Resting(ROWS, 2, LOCKED, map[], 10, Visiting({1})), [SweepOn(1, true), SweepOn(1, true)], removed);
    AbsentWindowRead();
    AfterInTwo(Resting(ROWS, 2, LOCKED, map[], 10, found), DeleteRequest(), imported);
    DeletedMeanwhile(found);
    AfterInTwo(Resting(map[], 2, Os({}, map[], map[]), map[], 10, found),
      [PlaceImage(IMAGE), Import("a", IMAGE, "/m", true)], unlocked);
    ImportedMeanwhile(found);
    AfterInTwo(Resting(ROWS_AGAIN, 3, LOCKED, map[], 10, found), UnlockRequest(2), last);
    UnlockedMeanwhile(ROWS_AGAIN, 3, 2, found);
    SweepLocksFound(ROWS_AGAIN, 3, map[2 := 10], None);
  }

  // ---- a create under the name of an existing vault ----------------------

  const YES := Answers(true, true, true, true, true, false, true, false, true, true, true, true, true, true, true)

  /** Vault 1 is there; a create of the same name in another storage directory stands at pc. */
  ghost function Creating(os: Os, pc: Pc): Sys {
    OneVault(os, map[]).(
      pendingNames := {"a"}, pendingPaths := {OTHER}, jobs := map[0 := Job("a", OTHER, "/m/a", pc)])
  }

  const BOTH_IMAGES := Os({IMAGE, OTHER}, map[], map[])
  const OTHER_OPEN := Os({IMAGE, OTHER}, map["a" := OTHER], map[])
  const VAULT_OPEN := Os({IMAGE, OTHER}, map["a" := IMAGE], map[])

  function Commands(n: nat): seq<Step> {
    if n == 0 then [] else [Work(0, YES)] + Commands(n - 1)
  }

  lemma CreateMoves(os: Os, pc: Pc, os': Os, pc': Pc, n: nat)
    requires !Shared(pc) && n > 0
    requires
      var job := Job("a", OTHER, "/m/a", pc);
      Succeeds(job, os, YES) && os' == Effect(job, os, true, false) && pc' == NextPc(pc, true)
    ensures After(Creating(os, pc), Commands(n)) == After(Creating(os', pc'), Commands(n - 1))
  {
    Unroll(Creating(os, pc), Work(0, YES), Commands(n - 1));
    assert Next(Creating(os, pc), Work(0, YES)) == Creating(os', pc');
  }

  lemma CheckMoves(pc: Pc, n: nat)
    requires n > 0 && (pc.Reserved? || pc.MakeStorage? || pc.CheckSpace? || pc.CheckLoop?)
    ensures After(Creating(LOCKED, pc), Commands(n)) == After(Creating(LOCKED, NextPc(pc, true)), Commands(n - 1))
  {
    CreateMoves(LOCKED, pc, LOCKED, NextPc(pc, true), n);
  }

  lemma PreparationPasses(n: nat)
    requires n > 4
    ensures After(Creating(LOCKED, Reserved), Commands(n)) == After(Creating(LOCKED, StatImage), Commands(n - 4))
  {
    CheckMoves(Reserved, n);
    CheckMoves(MakeStorage, n - 1);
    CheckMoves(CheckSpace, n - 2);
    CheckMoves(CheckLoop, n - 3);
  }

  /** The checks see no image and, the vault being locked, no mapper. */
  lemma ChecksPass(n: nat)
    requires n > 6
    ensures After(Creating(LOCKED, Reserved), Commands(n)) == After(Creating(LOCKED, Fallocate), Commands(n - 6))
  {
    PreparationPasses(n);
    assert IMAGE[1] != OTHER[1];
    CreateMoves(LOCKED, StatImage, LOCKED, StatMapper, n - 4);
    CreateMoves(LOCKED, StatMapper, LOCKED, Fallocate, n - 5);
  }

  /** So the create allocates, formats and opens an image of its own. */
  lemma PipelineOpens(n: nat)
    requires n == 3
    ensures After(Creating(LOCKED, Fallocate), Commands(n)) == Creating(OTHER_OPEN, MakeFs)
  {
    CreateMoves(LOCKED, Fallocate, BOTH_IMAGES, Format, n);
    CreateMoves(BOTH_IMAGES, Format, BOTH_IMAGES, OpenDevice, n - 1);
    CreateMoves(BOTH_IMAGES, OpenDevice, OTHER_OPEN, MakeFs, n - 2);
  }

  lemma ReservesTakenName()
    ensures Next(OneVault(LOCKED, map[]), Reserve(0, "a", OTHER, "/m")) == Creating(LOCKED, Reserved)
  {
    VaultIsWellNamed();
  }

  /** Meanwhile the existing vault is locked and unlocked: the mapper name now leads to its image. */
  lemma VaultTakesMapperOver()
    ensures
      var s := Creating(OTHER_OPEN, MakeFs);
      var closed := After(s, [Lookup(1, 1), Lock(1, true)] + [Continue(true), Continue(true)]);
      && closed == Creating(BOTH_IMAGES, MakeFs)
      && After(closed, [Lookup(1, 1), Unlock(1, true)]).os == VAULT_OPEN
      && After(closed, [Lookup(1, 1), Unlock(1, true)]).jobs == s.jobs
      && After(closed, [Lookup(1, 1), Unlock(1, true)]).rows == s.rows
  {
    var s, closed := Creating(OTHER_OPEN, MakeFs), Creating(BOTH_IMAGES, MakeFs);
    AfterInTwo(s, [Lookup(1, 1), Lock(1, true)], [Continue(true), Continue(true)]);
    AfterTwo(s, Lookup(1, 1), Lock(1, true));
    var asked := Next(s, Lookup(1, 1));
    assert asked == s.(requests := map[1 := Request(1, VAULT)]);
    assert asked.requests - {1} == map[];
    var locking := Next(asked, Lock(1, true));
    assert locking == s.(opMu := CloseNext(1, VAULT, false));
    AfterTwo(locking, Continue(true), Continue(true));
    assert OTHER_OPEN.mappers - {"a"} == map[];
    assert closed.unlockedAt - {1} == map[];
    AfterTwo(closed, Lookup(1, 1), Unlock(1, true));
  }

  /** The run: a reservation under a taken name, nine commands, a lock and an unlock of the vault. */
  function TakenNameRun(): seq<Step> {
    [Reserve(0, "a", OTHER, "/m")] + (Commands(9)
      + (([Lookup(1, 1), Lock(1, true)] + [Continue(true), Continue(true)]) + [Lookup(1, 1), Unlock(1, true)]))
  }

  lemma TakenNameEnds(n: nat, locks: seq<Step>, unlocks: seq<Step>)
    requires n == 9
    requires locks == [Lookup(1, 1), Lock(1, true)] + [Continue(true), Continue(true)]
    requires unlocks == [Lookup(1, 1), Unlock(1, true)]
    ensures
      var end := After(OneVault(LOCKED, map[]), [Reserve(0, "a", OTHER, "/m")] + (Commands(n) + (locks + unlocks)));
      end.os == VAULT_OPEN && end.rows == map[1 := VAULT] && end.jobs == map[0 := Job("a", OTHER, "/m/a", MakeFs)]
  {
    Unroll(OneVault(LOCKED, map[]), Reserve(0, "a", OTHER, "/m"), Commands(n) + (locks + unlocks));
    ReservesTakenName();
    AfterInTwo(Creating(LOCKED, Reserved), Commands(n), locks + unlocks);
    ChecksPass(n);
    PipelineOpens(n - 6);
    AfterInTwo(Creating(OTHER_OPEN, MakeFs), locks, unlocks);
    VaultTakesMapperOver();
  }

  /** The create's next command is mkfs, and its mapper is that of the existing vault's image. */
  lemma TakenNameFormatsVault()
    ensures
      var s := OneVault(LOCKED, map[]);
      var end := After(s, TakenNameRun());
      && Started(s) && NameTaken(s.rows, "a")
      && 0 in end.jobs && end.jobs[0].pc.MakeFs? && end.jobs[0].name in end.os.mappers
      && PathTaken(end.rows, end.os.mappers[end.jobs[0].name])
  {
    LockedVaultStarts();
    TakenNameEnds(9, [Lookup(1, 1), Lock(1, true)] + [Continue(true), Continue(true)], [Lookup(1, 1), Unlock(1, true)]);
    var rows := map[1 := VAULT];
    assert 1 in rows && rows[1].name == "a" && rows[1].path == IMAGE;
  }

  // ---- a failed create under the name of an unlocked vault ---------------

  ghost function ReservedOver(): Sys {
    OneVault(MOUNTED, map[1 := 0]).(
      pendingNames := {"a"}, pendingPaths := {OTHER}, jobs := map[0 := Job("a", OTHER, "/m/a", Reserved)])
  }

  lemma ReservesOverUnlocked()
    ensures Next(OneVault(MOUNTED, map[1 := 0]), Reserve(0, "a", OTHER, "/m")) == ReservedOver()
  {
    VaultIsWellNamed();
    var s := OneVault(MOUNTED, map[1 := 0]);
    assert s.pendingNames + {"a"} == {"a"} && s.pendingPaths + {OTHER} == {OTHER};
    assert ReserveStep(s, 0, "a", OTHER, "/m") == ReservedOver();
  }

  lemma ReservedOverFacts()
    ensures
      var s := ReservedOver();
      && RowsDistinct(s.rows) && Timestamped(s.unlockedAt, s.clock) && Stacked(s.os) && "a" in s.os.mappers
      && UnlockedUnder(s, "a", 1)
  {
    TableStarts(MOUNTED.files);
    assert ROWS[1] == VAULT;
  }

  /**
    Every command would work, but the vault's mapper is there: the create fails, and the vault's
    window starts again.
   */
  lemma FailedCreateRestartsWindow()
    ensures
      var s := OneVault(MOUNTED, map[1 := 0]);
      var end := Alone(Next(s, Reserve(0, "a", OTHER, "/m")), 0, YES);
      Started(s) && end.unlockedAt == map[1 := 10] && end.os == MOUNTED && end.rows == ROWS
  {
    MountedVaultStarts();
    ReservesOverUnlocked();
    ReservedOverFacts();
    FailedCreateRestartsWindowIff(ReservedOver(), 0, YES);
    assert map[1 := 0][1 := 10] == map[1 := 10];
  }
}
