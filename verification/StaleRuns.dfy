/**
  Runs of the program that end badly because an activity acted late: a delete
  or an unlock on a row that had gone, and a clear after a create had passed its
  mark. When exactly such steps do harm is the subject of StaleDeletes,
  StaleRequests and LateClears.
 */
module StaleRuns {
  import opened Wrappers
  import opened Names
  import opened Machine
  import opened Lifecycle
  import opened Registry
  import opened Ownership
  import opened Soundness
  import opened Tracking
  import opened StaleDeletes
  import opened Counterexamples

  const EMPTY := Os({}, map[], map[])

  function CreateAt(pc: Pc): Job {
    Job("a", IMAGE, "/m/a", pc)
  }

  // ---- a create from its reservation to its insert ----------------------

  lemma CreateSteps(s: Sys, os': Os, pc: Pc, pc': Pc, n: nat)
    requires s.jobs == map[0 := CreateAt(pc)] && !Shared(pc) && n > 0
    requires Succeeds(CreateAt(pc), s.os, YES) && os' == Effect(CreateAt(pc), s.os, true, false)
    requires pc' == NextPc(pc, true)
    ensures After(s, Commands(n)) == After(s.(os := os', jobs := map[0 := CreateAt(pc')]), Commands(n - 1))
  {
    Unroll(s, Work(0, YES), Commands(n - 1));
    assert s.jobs[0 := CreateAt(pc')] == map[0 := CreateAt(pc')];
    assert Next(s, Work(0, YES)) == s.(os := os', jobs := map[0 := CreateAt(pc')]);
  }

  /** The same for commands that do nothing to the machine. */
  lemma CreateChecks(s: Sys, pc: Pc, n: nat)
    requires s.jobs == map[0 := CreateAt(pc)] && s.os == EMPTY && n > 0
    requires pc.Reserved? || pc.MakeStorage? || pc.CheckSpace? || pc.CheckLoop? || pc.StatImage? || pc.StatMapper?
    ensures After(s, Commands(n)) == After(s.(jobs := map[0 := CreateAt(NextPc(pc, true))]), Commands(n - 1))
  {
    CreateSteps(s, EMPTY, pc, NextPc(pc, true), n);
    assert s.(os := EMPTY) == s;
  }

  lemma ChecksDone(s: Sys, n: nat)
    requires s.jobs == map[0 := CreateAt(Reserved)] && s.os == EMPTY && n >= 6
    ensures After(s, Commands(n)) == After(s.(jobs := map[0 := CreateAt(Fallocate)]), Commands(n - 6))
  {
    CreateChecks(s, Reserved, n);
    CreateChecks(s.(jobs := map[0 := CreateAt(MakeStorage)]), MakeStorage, n - 1);
    CreateChecks(s.(jobs := map[0 := CreateAt(CheckSpace)]), CheckSpace, n - 2);
    CreateChecks(s.(jobs := map[0 := CreateAt(CheckLoop)]), CheckLoop, n - 3);
    CreateChecks(s.(jobs := map[0 := CreateAt(StatImage)]), StatImage, n - 4);
    CreateChecks(s.(jobs := map[0 := CreateAt(StatMapper)]), StatMapper, n - 5);
  }

  const MAPPED := Os({IMAGE}, map["a" := IMAGE], map[])

  lemma BuildSteps(s: Sys, n: nat)
    requires s.jobs == map[0 := CreateAt(Fallocate)] && s.os == EMPTY && n >= 3
    ensures After(s, Commands(n)) == After(s.(os := MAPPED, jobs := map[0 := CreateAt(MakeFs)]), Commands(n - 3))
  {
    CreateSteps(s, LOCKED, Fallocate, Format, n);
    CreateSteps(s.(os := LOCKED, jobs := map[0 := CreateAt(Format)]), LOCKED, Format, OpenDevice, n - 1);
    CreateSteps(s.(os := LOCKED, jobs := map[0 := CreateAt(OpenDevice)]), MAPPED, OpenDevice, MakeFs, n - 2);
  }

  lemma MountSteps(s: Sys, n: nat)
    requires s.jobs == map[0 := CreateAt(MakeFs)] && s.os == MAPPED && n >= 4
    ensures After(s, Commands(n)) == After(s.(os := MOUNTED, jobs := map[0 := CreateAt(Insert)]), Commands(n - 4))
  {
    CreateSteps(s, MAPPED, MakeFs, MakeMountDir, n);
    CreateSteps(s.(jobs := map[0 := CreateAt(MakeMountDir)]), MAPPED, MakeMountDir, MountFs, n - 1);
    CreateSteps(s.(jobs := map[0 := CreateAt(MountFs)]), MOUNTED, MountFs, Chmod, n - 2);
    CreateSteps(s.(os := MOUNTED, jobs := map[0 := CreateAt(Chmod)]), MOUNTED, Chmod, Insert, n - 3);
  }

  lemma CreateReachesInsert(s: Sys, n: nat)
    requires s.jobs == map[0 := CreateAt(Reserved)] && s.os == EMPTY && n == 13
    ensures After(s, Commands(n)) == s.(os := MOUNTED, jobs := map[0 := CreateAt(Insert)])
  {
    ChecksDone(s, n);
    BuildSteps(s.(jobs := map[0 := CreateAt(Fallocate)]), n - 6);
    MountSteps(s.(os := MAPPED, jobs := map[0 := CreateAt(MakeFs)]), n - 9);
  }

  lemma ReserveOnEmpty(s: Sys)
    requires s.opMu.Free? && s.jobs == map[] && s.pendingNames == {} && s.pendingPaths == {}
    ensures Next(s, Reserve(0, "a", IMAGE, "/m"))
      == s.(pendingNames := {"a"}, pendingPaths := {IMAGE}, jobs := map[0 := CreateAt(Reserved)])
  {
    VaultIsWellNamed();
    assert s.pendingNames + {"a"} == {"a"} && s.pendingPaths + {IMAGE} == {IMAGE};
    assert s.jobs[0 := CreateAt(Reserved)] == map[0 := CreateAt(Reserved)];
  }

  // ---- a stale delete against a create in flight ------------------------

  /** The same image, imported under another name. */
  const OTHER_VAULT := Vault("x", IMAGE, "/m/x", "x")
  const OTHER_ROWS := map[1 := OTHER_VAULT]
  const BOTH_ASK := map[1 := Request(1, OTHER_VAULT), 2 := Request(1, OTHER_VAULT)]
  const SECOND_ASKS := map[2 := Request(1, OTHER_VAULT)]

  ghost function Imported(): Sys {
    OneVault(LOCKED, map[]).(rows := OTHER_ROWS)
  }

  lemma OtherIsWellNamed()
    ensures WellNamed(OTHER_VAULT)
  {
    MountPointNamesVault("/m", "x");
    assert "/m" + "/" + "x" == "/m/x";
  }

  lemma OtherTableStarts()
    ensures RowsDistinct(OTHER_ROWS) && IdsUsed(OTHER_ROWS, 2) && NoGhosts(OTHER_ROWS, LOCKED.files)
    ensures forall id :: id in OTHER_ROWS ==> WellNamed(OTHER_ROWS[id])
  {
    OtherIsWellNamed();
  }

  lemma ImportedStarts()
    ensures Started(Imported())
  {
    OtherTableStarts();
  }

  lemma BothAsk()
    ensures After(Imported(), [Lookup(1, 1), Lookup(2, 1)]) == Imported().(requests := BOTH_ASK)
  {
    AfterTwo(Imported(), Lookup(1, 1), Lookup(2, 1));
    assert Next(Imported(), Lookup(1, 1)).requests == map[1 := Request(1, OTHER_VAULT)];
  }

  lemma FirstFinishes()
    ensures After(Imported().(requests := BOTH_ASK), WholeDelete(1))
      == Imported().(requests := SECOND_ASKS, rows := map[], os := EMPTY)
  {
    var s := Imported().(requests := BOTH_ASK);
    AfterThree(s, Delete(1, true), Continue(true), Continue(true));
    assert BOTH_ASK - {1} == SECOND_ASKS && OTHER_ROWS - {1} == map[];
    var s1 := Next(s, Delete(1, true));
    assert s1 == Imported().(requests := SECOND_ASKS, rows := map[], opMu := ForgetNext(1, OTHER_VAULT));
    assert s.unlockedAt - {1} == map[] && LOCKED.files - {IMAGE} == {};
    var s2 := Next(s1, Continue(true));
    assert s2 == s1.(opMu := RemoveNext(1, OTHER_VAULT));
  }

  /** The second delete finds its vault locked and no row, and removes the create's image. */
  lemma SecondRemovesImage(s: Sys)
    requires s.opMu.Free? && s.requests == SECOND_ASKS && s.os == MOUNTED && s.unlockedAt == map[] && s.rows == map[]
    ensures After(s, WholeDelete(2)) == s.(requests := map[], os := MOUNTED.(files := {}))
  {
    AfterThree(s, Delete(2, true), Continue(true), Continue(true));
    assert SECOND_ASKS - {2} == map[] && s.rows - {1} == s.rows && s.unlockedAt - {1} == s.unlockedAt;
    assert "/m/x"[3] != "/m/a"[3] && !IsUnlocked(MOUNTED, OTHER_VAULT);
    var s1 := Next(s, Delete(2, true));
    assert s1 == s.(requests := map[], opMu := ForgetNext(1, OTHER_VAULT));
    var s2 := Next(s1, Continue(true));
    assert s2 == s1.(opMu := RemoveNext(1, OTHER_VAULT));
    assert MOUNTED.files - {IMAGE} == {};
  }

  lemma InsertsGhost(s: Sys)
    requires s.jobs == map[0 := CreateAt(Insert)] && s.rows == map[] && s.nextId == 2
    ensures Next(s, Work(0, YES)) == s.(rows := ROWS_AGAIN, nextId := 3, jobs := map[0 := CreateAt(Finished)])
  {
    assert s.rows[2 := NewVault(CreateAt(Insert))] == ROWS_AGAIN;
    assert s.jobs[0 := CreateAt(Finished)] == map[0 := CreateAt(Finished)];
  }

  function RemovedUnderCreateRun(): seq<Step> {
    [Lookup(1, 1), Lookup(2, 1)] + (WholeDelete(1) + ([Reserve(0, "a", IMAGE, "/m")]
      + (Commands(13) + (WholeDelete(2) + [Work(0, YES)]))))
  }

  /** Two deletes of one vault and a create of the same image: the second delete makes the new row a ghost. */
  lemma StaleDeleteRobsCreate(n: nat)
    requires n == 13
    ensures
      var end := After(Imported(), RemovedUnderCreateRun());
      Started(Imported()) && end.rows == ROWS_AGAIN && end.os.files == {} && !NoGhosts(end.rows, end.os.files)
  {
    var s0 := Imported();
    var insert := [Work(0, YES)];
    var second := WholeDelete(2) + insert;
    var create := Commands(n) + second;
    var reserve := [Reserve(0, "a", IMAGE, "/m")] + create;
    ImportedStarts();
    AfterInTwo(s0, [Lookup(1, 1), Lookup(2, 1)], WholeDelete(1) + reserve);
    BothAsk();
    AfterInTwo(s0.(requests := BOTH_ASK), WholeDelete(1), reserve);
    FirstFinishes();
    var s1 := s0.(requests := SECOND_ASKS, rows := map[], os := EMPTY);
    Unroll(s1, Reserve(0, "a", IMAGE, "/m"), create);
    ReserveOnEmpty(s1);
    var s2 := Next(s1, Reserve(0, "a", IMAGE, "/m"));
    AfterInTwo(s2, Commands(n), second);
    CreateReachesInsert(s2, n);
    var s3 := s2.(os := MOUNTED, jobs := map[0 := CreateAt(Insert)]);
    AfterInTwo(s3, WholeDelete(2), insert);
    SecondRemovesImage(s3);
    var s4 := s3.(requests := map[], os := MOUNTED.(files := {}));
    assert insert + [] == insert;
    Unroll(s4, Work(0, YES), []);
    InsertsGhost(s4);
    assert 2 in ROWS_AGAIN;
  }

  // ---- a stale unlock ---------------------------------------------------

  /**
    Vault 1 is looked up for an unlock and a delete; deleted, restored and imported as vault 2;
    then the unlock goes on.
   */
  function StaleUnlockRun(): seq<Step> {
    [Lookup(1, 1), Lookup(2, 1)] + (WholeDelete(1) + ([PlaceImage(IMAGE), Import("a", IMAGE, "/m", true)]
      + [Unlock(2, true), Continue(true), Continue(true)]))
  }

  lemma StaleUnlockOpens(s: Sys)
    requires s.opMu.Free? && s.requests == SECOND_LEFT && s.os == LOCKED && s.unlockedAt == map[] && s.clock == 10
    ensures After(s, [Unlock(2, true), Continue(true), Continue(true)])
      == s.(requests := map[], os := MOUNTED, unlockedAt := map[1 := 10], clock := 11)
  {
    AfterThree(s, Unlock(2, true), Continue(true), Continue(true));
    assert SECOND_LEFT - {2} == map[];
    var s1 := Next(s, Unlock(2, true));
    assert s1 == s.(requests := map[], os := LOCKED.(mappers := map["a" := IMAGE]), opMu := MountNext(1, VAULT));
    assert Next(s1, Continue(true)) == s1.(os := MOUNTED, opMu := MarkNext(1, VAULT));
  }

  /** Vault 2 ends unlocked, and the window is kept under the id that has gone. */
  lemma StaleUnlockLosesWindow()
    ensures
      var s := OneVault(LOCKED, map[]);
      var end := After(s, StaleUnlockRun());
      && Started(s) && end.opMu.Free? && end.rows == ROWS_AGAIN && RowOpen(end, 2)
      && end.unlockedAt == map[1 := 10] && end.pendingNames == {} && !Tracked(end)
  {
    var s0 := OneVault(LOCKED, map[]);
    var unlock := [Unlock(2, true), Continue(true), Continue(true)];
    var restore := [PlaceImage(IMAGE), Import("a", IMAGE, "/m", true)];
    var s1 := s0.(requests := BOTH_LOOKED_UP);
    var s2 := s0.(rows := map[], os := EMPTY, requests := SECOND_LEFT);
    var s3 := s2.(rows := ROWS_AGAIN, nextId := 3, os := LOCKED);
    LockedVaultStarts();
    AfterInTwo(s0, [Lookup(1, 1), Lookup(2, 1)], WholeDelete(1) + (restore + unlock));
    AfterTwo(s0, Lookup(1, 1), Lookup(2, 1));
    BothLookUp();
    AfterInTwo(s1, WholeDelete(1), restore + unlock);
    FirstDeletes();
    AfterInTwo(s2, restore, unlock);
    AfterTwo(s2, PlaceImage(IMAGE), Import("a", IMAGE, "/m", true));
    RestoredAndImported(s2);
    StaleUnlockOpens(s3);
    assert 2 in ROWS_AGAIN;
  }

  // ---- a clear after a create has passed its mark -----------------------

  ghost function NoVaults(): Sys {
    OneVault(EMPTY, map[]).(rows := map[])
  }

  lemma NoVaultsStart()
    ensures Started(NoVaults())
  {
  }

  ghost function Created(pc: Pc): Sys {
    NoVaults().(pendingNames := {"a"}, pendingPaths := {IMAGE}, jobs := map[0 := CreateAt(pc)],
                rows := ROWS_AGAIN, nextId := 3, os := MOUNTED)
  }

  /** The create has marked its vault and waits for opMu to release its name. */
  ghost function Releasable(os: Os, unlockedAt: map<int, int>, clock: int, sweep: Sweep): Sys {
    Created(Releasing).(os := os, unlockedAt := unlockedAt, clock := clock, sweep := sweep)
  }

  lemma InsertedAndMarked(s: Sys)
    requires s == NoVaults().(
      pendingNames := {"a"}, pendingPaths := {IMAGE}, jobs := map[0 := CreateAt(Insert)], os := MOUNTED)
    ensures After(s, Commands(3)) == Releasable(MOUNTED, map[2 := 10], 11, Idle)
  {
    InsertsGhost(s);
    Unroll(s, Work(0, YES), Commands(2));
    assert ROWS_AGAIN[2] == VAULT;
    assert IdOf(ROWS_AGAIN, "a") == Some(2);
    Unroll(Created(Finished), Work(0, YES), Commands(1));
    assert Created(Finished).jobs[0 := CreateAt(Marking(2))] == map[0 := CreateAt(Marking(2))];
    assert Next(Created(Finished), Work(0, YES)) == Created(Marking(2));
    assert Commands(1) == [Work(0, YES)] + Commands(0);
    Unroll(Created(Marking(2)), Work(0, YES), Commands(0));
    assert Created(Marking(2)).jobs[0 := CreateAt(Releasing)] == map[0 := CreateAt(Releasing)];
  }

  function AgedSweep(): seq<Step> {
    [Tick(5), SweepOn(0, true), SweepOn(2, true), SweepOn(2, true)]
  }

  lemma SweepFindsCreated()
    ensures After(Releasable(MOUNTED, map[2 := 10], 11, Idle), AgedSweep())
      == Releasable(MOUNTED, map[2 := 10], 16, Found(2, Some(10), VAULT, {}))
  {
    var s := Releasable(MOUNTED, map[2 := 10], 11, Idle);
    AfterFour(s, Tick(5), SweepOn(0, true), SweepOn(2, true), SweepOn(2, true));
    var s1 := s.(clock := 16);
    assert Expired(s1) == {2} && {2} - {2} == {};
    assert Next(s1, SweepOn(0, true)) == s1.(sweep := Visiting({2}));
    assert Next(s1.(sweep := Visiting({2})), SweepOn(2, true)) == s1.(sweep := Seen(2, Some(10), {}));
  }

  lemma SweepLocksCreated()
    ensures After(Releasable(MOUNTED, map[2 := 10], 16, Found(2, Some(10), VAULT, {})),
      [SweepOn(2, true), Continue(true)])
      == Releasable(LOCKED, map[2 := 10], 16, Clearing(2, {}))
  {
    var s := Releasable(MOUNTED, map[2 := 10], 16, Found(2, Some(10), VAULT, {}));
    AfterTwo(s, SweepOn(2, true), Continue(true));
    assert MOUNTED.mounts - {"/m/a"} == map[] && MOUNTED.mappers - {"a"} == map[];
    assert Next(s, SweepOn(2, true))
      == s.(os := MOUNTED.(mounts := map[]), opMu := CloseNext(2, VAULT, true), sweep := Locking(2, {}));
  }

  lemma CreatedUnlockedAgain()
    ensures After(Releasable(LOCKED, map[2 := 10], 16, Clearing(2, {})), UnlockRequest(2))
      == Releasable(MOUNTED, map[2 := 16], 17, Clearing(2, {}))
  {
    var s := Releasable(LOCKED, map[2 := 10], 16, Clearing(2, {}));
    AfterFour(s, Lookup(1, 2), Unlock(1, true), Continue(true), Continue(true));
    var s1 := Next(s, Lookup(1, 2));
    assert s1 == s.(requests := map[1 := Request(2, VAULT)]);
    assert s1.requests - {1} == map[];
    var s2 := Next(s1, Unlock(1, true));
    assert s2 == s.(os := LOCKED.(mappers := map["a" := IMAGE]), opMu := MountNext(2, VAULT));
    assert Next(s2, Continue(true)) == s.(os := MOUNTED, opMu := MarkNext(2, VAULT));
  }

  /** The clear: the vault still counts as tracked, by the name its create holds. */
  lemma ClearedUnderReservation()
    ensures
      var cleared := Releasable(MOUNTED, map[], 17, Visiting({}));
      && Next(Releasable(MOUNTED, map[2 := 16], 17, Clearing(2, {})), SweepOn(2, true)) == cleared
      && Tracked(cleared)
  {
    assert map[2 := 16] - {2} == map[];
    assert "a" in Releasable(MOUNTED, map[], 17, Visiting({})).pendingNames;
    assert forall id :: id in ROWS_AGAIN ==> ROWS_AGAIN[id].name == "a";
  }

  lemma ReleaseUncovers()
    ensures
      var end := Next(Releasable(MOUNTED, map[], 17, Visiting({})), Work(0, YES));
      end.opMu.Free? && RowOpen(end, 2) && end.unlockedAt == map[] && end.pendingNames == {} && !Tracked(end)
  {
    var s := Releasable(MOUNTED, map[], 17, Visiting({}));
    assert s.pendingNames - {"a"} == {};
    assert 2 in ROWS_AGAIN && ROWS_AGAIN[2] == VAULT;
  }

  /** A create up to its release, an auto-lock, an unlock before the clear, the clear, and then the release. */
  function PassedMarkRun(): seq<Step> {
    [Reserve(0, "a", IMAGE, "/m")] + (Commands(13) + (Commands(3) + (AgedSweep()
      + ([SweepOn(2, true), Continue(true)] + (UnlockRequest(2) + ([SweepOn(2, true)] + [Work(0, YES)]))))))
  }

  /** Tracked until the create, which has passed its mark, releases the name; then unlocked without a window. */
  lemma ClearAfterMarkLosesWindow(n: nat, m: nat)
    requires n == 13 && m == 3
    ensures
      var end := After(NoVaults(), PassedMarkRun());
      && Started(NoVaults()) && end.opMu.Free? && RowOpen(end, 2)
      && end.unlockedAt == map[] && end.pendingNames == {} && !Tracked(end)
  {
    var release := [Work(0, YES)];
    var clear := [SweepOn(2, true)] + release;
    var unlock := UnlockRequest(2) + clear;
    var lock := [SweepOn(2, true), Continue(true)] + unlock;
    var find := AgedSweep() + lock;
    var mark := Commands(m) + find;
    var s0 := NoVaults();
    NoVaultsStart();
    Unroll(s0, Reserve(0, "a", IMAGE, "/m"), Commands(n) + mark);
    ReserveOnEmpty(s0);
    var s1 := Next(s0, Reserve(0, "a", IMAGE, "/m"));
    AfterInTwo(s1, Commands(n), mark);
    CreateReachesInsert(s1, n);
    var s2 := s1.(os := MOUNTED, jobs := map[0 := CreateAt(Insert)]);
    AfterInTwo(s2, Commands(m), find);
    InsertedAndMarked(s2);
    AfterInTwo(Releasable(MOUNTED, map[2 := 10], 11, Idle), AgedSweep(), lock);
    SweepFindsCreated();
    AfterInTwo(Releasable(MOUNTED, map[2 := 10], 16, Found(2, Some(10), VAULT, {})),
      [SweepOn(2, true), Continue(true)], unlock);
    SweepLocksCreated();
    AfterInTwo(Releasable(LOCKED, map[2 := 10], 16, Clearing(2, {})), UnlockRequest(2), clear);
    CreatedUnlockedAgain();
    Unroll(Releasable(MOUNTED, map[2 := 16], 17, Clearing(2, {})), SweepOn(2, true), release);
    ClearedUnderReservation();
    assert release + [] == release;
    Unroll(Releasable(MOUNTED, map[], 17, Visiting({})), Work(0, YES), []);
    ReleaseUncovers();
  }
}
