# LUKSCrypt: a verified model

LUKSCrypt keeps encrypted vaults: an image file, a dm-crypt mapper opened on
it, and a filesystem mounted from the mapper, with a row per vault in a
database. HTTP handlers, create goroutines and an auto-lock sweep act on all of
this at once; some of their commands run outside the lock, and any command can
fail. This project models that program in Dafny and proves what it keeps.

Start at `Lifecycle.dfy`. A state (`Sys`) holds the vaults table, the machine,
the reservations, the auto-lock windows, and where every activity stands: a
program counter per create goroutine, the holder of `opMu` between two of its
commands, and the sweep. A step is one command of one activity with whatever
the operating system answers; a run is any sequence of steps. The invariants
and the results about all runs are built on it:

- `Registry`: reservations are exactly those of the creates in flight, no two
  rows share a name or an image, no row is a ghost, and a create that may still
  remove its image path owns it alone.
- `StaleDeletes`: without any hypothesis, every command keeps the registry except
  exactly one, the removal of an image in use by a delete whose row had gone.
- `Ownership`, `Soundness`: every mapper and mount belongs to one row or one
  create, hence mounts stand on mappers and mappers on images in every state.
- `CreateOutcome`, `CreateAlone`: a create is all-or-nothing, with other requests
  interleaved, and down to the exact machine and table when it runs alone.
- `FreshNames`: a create whose own name was free formats its own image, whatever
  names other creates use.
- `Tracking`, `LateClears`: unlocked vaults have a window, and when exactly the
  sweep's last clear takes one away from an unlocked vault.
- `AutoLockGuard`, `SweepTiming`: the sweep only locks under the timestamp it
  read; when exactly that window is due, and what an absent one lets through.
- `Undisturbed`, `AutoLock`, `AutoLockRuns`: a busy mount only defers the lock;
  the first sweep that finds the vault free locks it.
- `StaleRequests`: what requests do on a row that has gone, and exactly when an
  unlock, lock, mount or delete then breaks an invariant.
- `Counterexamples`, `StaleRuns`: runs on which a property fails.
- `Vaults`, `Handler`: the operations as methods of objects that update their
  fields, each proved equal to the steps above or to the machine they leave.

Next to it stand `Limiters` and `LimiterHistory`, `Sessions`, `ProcMounts`,
`Growing`, `Decimal`, `Luks`, `Keyslots`, `Progress`, `Paths` and `CleanLaws`,
one mechanism of the program each. `Machine`, `Names`, `Texts` and `Wrappers`
hold what several of them share.

## What is assumed

- A command of the operating system takes effect or fails and changes nothing
  (a failing `fallocate` or `dd` may leave part of a file). `luksClose` is
  refused while something is mounted from the mapper; cleanup commands that are
  not refused succeed.
- Nothing outside the program opens, closes, mounts or removes anything;
  images may appear at any time (`PlaceImage`). Mounting over an occupied
  mount point counts as a failure.
- Every mark of a window gets a timestamp of its own, and the clock does not
  run backwards.
- `Orderly` names three things that the code does not enforce: a create uses a
  name without a row, whoever takes `opMu` finds the row it looked up still
  there, and the sweep does not act on a window it read as absent for a row
  that is gone. `NotLate` names a fourth: no unlock of a vault between the
  sweep's release of `opMu` and its clear. `Counterexamples` and `StaleRuns`
  show for each of the four a run on which things go wrong without it.

## Where the code and its comments differ

- `internal/api/api.go:971-974` says a delete leaves no ghost entry. A delete
  that looked its row up before another delete of the same vault removes an
  image that has been imported again in between (`StaleDeleteLeavesGhost`), or
  that a create has built and is about to register (`StaleDeleteRobsCreate`).
  Exactly when a delete breaks the registry: `DeleteKeepsRegistryIff`; and which
  single command does in any run: `StepKeepsConsistentIff`.
- `internal/api/api.go:469-470` marks the vault it has unlocked. An unlock whose
  row was deleted and imported again in between opens the new vault and marks
  the old id, so the new one has no window (`StaleUnlockLosesWindow`; exactly
  when: `UnlockKeepsWindowsIff`).
- `internal/api/api.go:1105-1107` says a sweep never races a user's unlock. An
  unlock between the sweep's release of `opMu` and its clear loses its window
  (`LateUnlockLosesWindow`), at once or, if the vault's create has passed its
  mark but not yet released the name, with that release
  (`ClearAfterMarkLosesWindow`). Exactly when: `ClearKeepsWindowsIff`.
- `internal/api/api.go:1137-1141` says the sweep does not lock a freshly
  unlocked vault. It does if the vault was locked and unlocked again between
  the listing of expired windows and the second read: the guard compares the
  new timestamp with itself (`RemarkedWindowLocksFresh`; exactly when:
  `LockedWindowDueIff`). And a window that was already cleared when it was read
  looks unchanged: if the vault was deleted and imported again meanwhile, the
  sweep locks the new one long before it is due (`AbsentWindowLocksAnother`;
  exactly when: `AbsentWindowLocksIff`).
- `internal/vault/resize.go:29-33` says every failed grow is repaired by
  running it again. A success by `fallocate` does so exactly if no earlier
  attempt reached beyond its target (`FallocateRepairsIff`). With the `dd`
  fallback the retry appends a second time (`RetryOvershoots`), and repairs
  everything exactly if no failed attempt wrote as much as a MiB
  (`DdRetryRepairsIff`).
- `internal/vault/resize.go:71-72` says `dd` appends after the current content.
  It starts at the last whole MiB, and an image that does not end there loses
  what lies behind it (`AppendKeepsContentIff`, `UnalignedContentCanBeLost`).
- `internal/api/api.go:340-347` starts the window of a created vault. It looks
  the vault up by name even if the create failed, so a failed create under the
  name of an unlocked vault restarts that vault's window
  (`FailedCreateRestartsWindow`, `FailedCreateRestartsWindowIff`).
- `internal/vault/keys.go:122-127` says the guard refuses to remove the last
  valid slot. It counts list entries, so a header whose keys "1" and "01" are
  both read as slot 1 passes (`AliasedHeaderFoolsGuard`, `GuardFooledIff`).

## Model

| member | source | states |
|---|---|---|
| Registry.StepKeepsRegistry | internal/api/api.go:296-362 | one command of any activity keeps reservations exact, identities distinct, rows without ghosts, and claimed image paths out of the table |
| Registry.RunsKeepRegistry | internal/api/api.go:729-785 | the same over every run of creates, imports, deletes, locks and sweeps, provided a delete finds the row it looked up |
| StaleDeletes.StepKeepsConsistentIff | internal/api/api.go:952-986 | every command of every activity, stale requests included, keeps the registry except exactly a delete's removal of an image that a row or a create in flight uses |
| StaleDeletes.RunsStayConsistentIff | internal/api/api.go:952-986 | over any run whatever the registry holds throughout exactly if no delete removes an image in use |
| StaleDeletes.DeleteKeepsRegistryIff | internal/api/api.go:952-986 | a whole delete keeps the registry exactly if its row is there, the remembered vault is unlocked, or no row and no create uses the image |
| Soundness.StepKeepsSound | internal/vault/vault.go:119-182 | every command keeps each mapper and mount with exactly one row or one create in flight, and what each activity relies on between its commands |
| Soundness.OrderlyRunsStaySound | internal/vault/vault.go:119-182 | in every state of every orderly run a mount has its mapper open and an open mapper has its image, also inside rollbacks and deletes |
| Ownership.SoundIsStacked | internal/vault/vault.go:317-341 | device ownership and existing images give the resource stack |
| CreateOutcome.ClaimFindsNothing | internal/vault/vault.go:88-106 | the stat check that lets a create go on finds no image, mapper, mount or row of it |
| CreateOutcome.ReturnsAllOrNothing | internal/vault/vault.go:119-182 | the command with which a create returns leaves all four things and one new row, or none and the same table |
| CreateOutcome.CreateIsAllOrNothing | internal/vault/vault.go:64-192 | between stat check and return, with any orderly steps of others interleaved, a create leaves image, mapper, mount and row together or exactly what it found |
| CreateOutcome.FormatsOnlyItsOwnImage | internal/vault/vault.go:119-148 | in orderly runs luksFormat and mkfs of a create write to an image no row refers to |
| FreshNames.MkfsHitsVaultIff | internal/vault/vault.go:141-146 | taken names included, as long as every open mapper is a row's or a create's: mkfs hits a registered vault exactly if the mapper of the name is not that of the create's own image, and that takes a row of the same name |
| FreshNames.FreshCreateFormatsItsOwn | internal/vault/vault.go:119-148 | over all runs in which other creates may use taken names, a create whose own name had no row at its reservation formats its own, unregistered image |
| FreshNames.ReservedCreateFormatsItsOwn | internal/api/api.go:296-315 | the same from any sound state, by way of the reservation |
| CreateAlone.AloneIsRun | internal/api/api.go:329-348 | the uninterrupted goroutine is a run of the transition system |
| CreateAlone.AloneReturns | internal/vault/vault.go:64-192 | from any command on, with any answers, the goroutine reaches the state in which everything is built or the machine it started on |
| CreateAlone.AloneIsAllOrNothing | internal/vault/vault.go:64-192 | it succeeds exactly if all checks pass and all commands work and then adds one image, mapper, mount, row and window; otherwise machine and table end exactly as they began |
| CreateAlone.FailedCreateRestartsWindowIff | internal/api/api.go:344-347 | a failed create changes a window exactly if an unlocked vault has its name, and then it restarts that vault's |
| Tracking.TimelyRunsStayWindowed | internal/api/api.go:1065-1075 | over runs without a late unlock the bookkeeping of windows, marks and clears is kept |
| Tracking.UnlockedVaultsAreTracked | internal/api/api.go:458-491 | whenever opMu is free, every registered unlocked vault has a window or its name is still reserved |
| LateClears.ClearKeepsWindowsIff | internal/api/api.go:1147-1161 | over any orderly steps between the release of opMu and the clear, the clear keeps the bookkeeping that keeps unlocked vaults tracked exactly if no unlock of its vault was completed in between, or a lock was after it, or the vault's creation has still to mark it |
| StaleRequests.UnlockKeepsWindowsIff | internal/api/api.go:453-471 | a whole unlock keeps tracking, the bookkeeping of windows, and the ownership of devices, each exactly if its row is there, it fails, or a stated condition on the rows of the same name holds |
| StaleRequests.LockKeepsSoundIff | internal/api/api.go:480-492 | a whole lock, its row there or not, leaves every device to its owner exactly if it takes no mount or mapper from a create in flight; with its row there it never does |
| StaleRequests.RemountKeepsSoundIff | internal/api/api.go:495-514 | a mount leaves none without an owner exactly if it fails or a row has this name and mount point |
| StaleRequests.StaleDeleteKeepsSoundIff | internal/api/api.go:958-986 | a whole delete of a row that has gone keeps every invariant exactly if its vault is unlocked or its image is not in use |
| AutoLockGuard.TimestampsNeverReturn | internal/api/api.go:1169-1180 | a timestamp that was cleared or replaced never comes back in any run |
| AutoLockGuard.AutoLockActsOnUntouchedWindow | internal/api/api.go:1126-1147 | when the sweep locks under a timestamp, the window stood at it and the row was there in every state since it was read |
| SweepTiming.LockedWindowDueIff | internal/api/api.go:1113-1147 | from the listing to the lock, in any orderly run: the window was due when listed, and the one locked under is due unless somebody restarted it less than a window ago; in a sweep shorter than the window, exactly if nobody touched it since the listing |
| SweepTiming.AbsentWindowLocksIff | internal/api/api.go:1126-1147 | under a window read as absent the sweep has an unlocked vault before it exactly if the row has gone and its name is in use again |
| Undisturbed.OthersLeaveVault | internal/api/api.go:458-491 | a step that is not about a vault leaves its row, mapper, mount and section alone |
| AutoLock.VisitSection | internal/api/api.go:1126-1167 | autoLockVault run alone locks and forgets the vault, forgets a missing or already locked one, or leaves window and vault for the next sweep |
| AutoLock.FirstFreeSweepLocks | internal/api/api.go:1108-1167 | over any uninterrupted sweeps a vault not unlocked again is locked exactly if some due sweep unmounts it and that or a later one closes it; until then its window is untouched |
| AutoLockRuns.WindowStaysUntilLocked | internal/api/api.go:1126-1167 | over any timely run of the system without a request of a vault whose creation is over, it is locked and forgotten exactly if a luksClose of a sweep on it works, and until then it stays unlocked under the same window |
| AutoLockRuns.FirstFreeSweepPutsAway | internal/api/api.go:1108-1167 | after any such run, busy sweeps included, the next sweep that starts at or after start + window and does not find the vault busy leaves it locked by the end of its list, whatever else runs meanwhile |
| AutoLock.SoundRowsAreApart | internal/vault/vault.go:353-368 | in every sound state rows have different names, mappers and mount points, and nothing is mounted for a vault but from its own mapper |
| AutoLock.LockWatchesOne | internal/vault/vault.go:353-368 | locking one vault leaves the status of all others alone |
| AutoLock.VisitSweeps | internal/api/api.go:1108-1124 | one visit of a sweep moves one vault on and no other |
| AutoLock.SweepLocksDue | internal/api/api.go:1108-1124 | what a whole sweep leaves of one vault: locked and forgotten if due and not busy, as it was if not due |
| AutoLock.ListedRowsAreIndependent | internal/vault/vault.go:388-392 | any listing of the rows of such a state satisfies what the shutdown needs |
| Counterexamples.StartIsSound | internal/api/api.go:1081-1093 | the states from which the server starts satisfy every invariant |
| Counterexamples.StaleDeleteLeavesGhost | internal/api/api.go:958-986 | a run of two deletes and an import after which a row has no image |
| StaleRuns.StaleDeleteRobsCreate | internal/api/api.go:958-986 | a run of two deletes and a create of the same image, after which the created row has no image |
| StaleRuns.StaleUnlockLosesWindow | internal/api/api.go:453-471 | a run after which the vault imported again is unlocked and the window kept under the old id |
| StaleRuns.ClearAfterMarkLosesWindow | internal/api/api.go:344-362 | a run in which a create has passed its mark, a late clear takes the window, and the release of the name leaves the vault untracked |
| Counterexamples.LateUnlockLosesWindow | internal/api/api.go:1147-1161 | an orderly run after which a vault is unlocked and has no window |
| Counterexamples.RemarkedWindowLocksFresh | internal/api/api.go:1113-1147 | a timely run in which a vault is locked and unlocked between listing and read, and the sweep locks it a tick after its unlock |
| Counterexamples.FailedCreateRestartsWindow | internal/api/api.go:344-347 | a failed create under the name of an unlocked vault after which that vault's window starts again |
| Counterexamples.AbsentWindowLocksAnother | internal/api/api.go:1126-1147 | a run in which the sweep read an absent window and locks another vault that was unlocked just before |
| Counterexamples.TakenNameFormatsVault | internal/vault/vault.go:99-141 | a run of a create under a taken name whose next command would format the existing vault |
| Vaults.Host.Unlock | internal/vault/vault.go:317-341 | opens and mounts, or on any failure leaves the machine as it was |
| Vaults.Host.Lock | internal/vault/vault.go:353-368 | the outcome and the exact machine, including the unmounted vault a failing luksClose leaves |
| Vaults.Host.Mount | internal/vault/vault.go:410-427 | mounts exactly an open, unmounted vault |
| Vaults.Host.Delete | internal/vault/vault.go:432-443 | removes the image exactly if the vault is locked |
| Vaults.Host.LockAllUnlocked | internal/vault/vault.go:388-406 | a listed vault is unlocked afterwards exactly if its name is reported, which is exactly if one of its own commands failed |
| Handlers.UnlockSection | internal/api/api.go:458-471 | the steps of an unlock under opMu amount to device and window changing together or not at all |
| Handlers.LockSection | internal/api/api.go:484-492 | the steps of a lock clear the window exactly if the vault was locked |
| Handlers.DeleteSection | internal/api/api.go:962-986 | the steps of a delete remove row and window together, and the image if its removal succeeds |
| Handlers.Handler.CreateVault | internal/api/api.go:296-315 | accepted exactly if neither the name nor the image path is reserved; then both are, and nothing else; the state is that of the transition system's step |
| Handlers.Handler.ImportVault | internal/api/api.go:729-785 | accepted exactly if name and path are not reserved, no row has either, no mapper of this name is open, the image exists and the probe succeeds; then exactly one row is added, mounted at mount dir / name; the state is that of the transition system's step |
| Handlers.Handler.ReleasePending | internal/api/api.go:354-362 | drops exactly the two reservations |
| Handlers.Handler.UnlockVault | internal/api/api.go:458-471 | succeeds exactly if mapper and mount point are free, the image exists and both commands work; then device, mount and window are there, otherwise no window changes; equals the run of its steps |
| Handlers.Handler.LockVault | internal/api/api.go:484-492 | the outcome of LockContext, and the window goes exactly if the vault was locked; equals the run of its steps |
| Handlers.Handler.MountVault | internal/api/api.go:495-514 | mounts exactly an open, unmounted vault; equals its step |
| Handlers.Handler.DeleteVault | internal/api/api.go:962-986 | refused exactly while mapper or mount is there or if the database fails; otherwise row and window go, and the image if its removal works; equals the run of its steps |
| Handlers.Handler.AllocateFile | internal/vault/vault.go:221-235 | the image is there exactly if one of fallocate and dd worked, and nothing else changed |
| Handlers.Handler.Create | internal/vault/vault.go:36-192 | succeeds exactly if every check and command does, each listed; then adds one image, mapper, mount and row; otherwise ends on the machine and table it began with |
| Handlers.Handler.Undo | internal/vault/vault.go:173-182 | umount, luksClose and removal in this order take everything built away again |
| Handlers.Handler.RunCreate | internal/api/api.go:329-348 | the goroutine ends in the state of the uninterrupted run |
| Handlers.Handler.AutoLockVault | internal/api/api.go:1126-1167 | ends in the state of its visit in the transition system |
| Handlers.Handler.AutoLockSweep | internal/api/api.go:1108-1124 | a vault whose window is due and whose commands work is locked and forgotten; one whose window is not due, or any under a disabled policy, keeps device, mount and window; each vault is visited once |
| Handlers.Handler.AutoLockLoop | internal/api/api.go:1094-1103 | over all its ticks every vault goes through exactly its own visits, so FirstFreeSweepLocks is about the machine it leaves |
| Names.MountPointNamesVault | internal/api/api.go:293-294 | the last segment of a mount point is the vault's name, so different names never share one |
| Names.NameCharIff | internal/api/api.go:1712-1722 | the alphabet of names, letter by letter |
| Limiters.Table.Allow | internal/api/api.go:1043-1055 | answers by the bucket of the IP, a new one being full, notes the attempt, and touches no other entry; what the answers are in terms of times alone is LimiterHistory.AllowedIff |
| LimiterHistory.AllowedIff | internal/api/api.go:1043-1055 | in any run of the whole table from its start, cleanups and clears included, an attempt is allowed exactly if in every window that ends with it and starts at an earlier attempt of the same IP since its last clear, the attempts allowed so far and this one are at most burst + length / period |
| LimiterHistory.UnlockAllowedIff | internal/api/api.go:1047-1049 | the same with five attempts and one every 30 seconds |
| LimiterHistory.AuthAllowedIff | internal/api/api.go:1690-1701 | the same with five attempts and one every minute |
| LimiterHistory.LevelIsHistory | internal/api/api.go:1043-1055 | before every event the bucket of an IP holds the least of what it would hold had it been full at any of the attempts since the last clear |
| LimiterHistory.LeftoversAreKept | internal/api/api.go:1047-1049 | after four attempts at once, of three more after 30 seconds exactly the first two are allowed |
| Limiters.Table.Cleanup | internal/api/api.go:1207-1228 | drops exactly the entries idle for longer than ten minutes |
| Limiters.SweepsUnobservable | internal/api/api.go:1207-1228 | every decision of every run equals that of a bucket that is never dropped |
| Limiters.EvictionUnobservableIff | internal/api/api.go:1207-1228 | eviction is unobservable over all runs exactly if the idle time covers a full refill |
| Limiters.BothLimitersForget | internal/api/api.go:1690-1701 | it does for both limiters |
| Limiters.RateBound | internal/api/api.go:1043-1055 | in any window of any run at most burst plus length by period attempts of one IP are allowed, across evictions |
| Limiters.EveryIpIsBounded | internal/api/api.go:1043-1055 | the same for every IP in any run of the whole table from its start |
| Limiters.IpsAreIndependent | internal/api/api.go:1690-1710 | in a run of the whole table each IP gets the answers of its own events alone |
| Limiters.CleanupsUnobservable | internal/api/api.go:1207-1228 | no client can tell whether the cleanup ever runs |
| Sessions.Table.ValidSession | internal/api/api.go:1568-1586 | accepts exactly a live session, refreshes it, and drops a dead one |
| Sessions.Table.Login | internal/api/api.go:1626-1630 | the token has a session created and last seen now, and every other is as before |
| Sessions.Table.Logout | internal/api/api.go:1651-1656 | the token has none, and every other is as before |
| Sessions.Table.Cleanup | internal/api/api.go:1667-1685 | drops exactly the dead sessions |
| Sessions.SweepsUnobservable | internal/api/api.go:1667-1685 | for every run, whether cleanups ran makes no difference to any request |
| Sessions.AcceptedIff | internal/api/api.go:1568-1586 | over any run from any state whose last login before the request is given: accepted exactly if since then there was no logout, no gap between uses exceeds the idle limit, and the login is not too old |
| Sessions.RefusedForever | internal/api/api.go:1651-1656 | after any login, a token refused once is refused until the next login |
| Sessions.UnknownTokenRefused | internal/api/api.go:1574-1577 | a token that was never handed out has no session after any run |
| ProcMounts.UnescapeInvertsEscape | internal/vault/vault.go:501-508 | decoding the octal escapes gives the mount point back |
| ProcMounts.EscapeIsInjective | internal/vault/vault.go:501-508 | different mount points are escaped differently |
| ProcMounts.EscapedIsField | internal/vault/vault.go:501-508 | an escaped mount point has no space or line end |
| ProcMounts.EscapeIsRendering | internal/vault/vault.go:501-508 | the program's escape is exactly the kernel's rendering, given character by character with the codes 134, 040, 011 and 012 |
| ProcMounts.OrdinaryIsKept | internal/vault/vault.go:501-508 | a string is left alone exactly if it has none of the four characters |
| ProcMounts.SearchIsFieldMatch | internal/vault/vault.go:488-496 | for every string and table, the search succeeds exactly if a field behind the first equals the escaped string |
| ProcMounts.MountedInIsMembership | internal/vault/vault.go:488-496 | on every text whose mount points are rendered as the kernel does, and for every absolute mount point, the search is membership in the mount table, if types and options do not start with a slash |
| ProcMounts.StatusAgrees | internal/vault/vault.go:456-486 | the status read from such a text is the status of the machine the lifecycle is modelled on |
| ProcMounts.PathLikeFieldsMislead | internal/vault/vault.go:494-496 | the condition on the other fields cannot be dropped |
| Growing.Volume.Extend | internal/vault/resize.go:43-53 | zeros up to the target by fallocate, or the bytes that dd wrote from the last whole MiB on, or nothing |
| Growing.Volume.AppendFile | internal/vault/resize.go:73-92 | zeros from the last whole MiB on, every other old byte in place; after a full run the old content is intact exactly if it ended in zeros from there on |
| Growing.Volume.Grow | internal/vault/resize.go:34-69 | layer by layer: the image after each way of extending it, the device as large as the image allows exactly if the extension and the resize worked, the filesystem as large as the device exactly if resize2fs did too |
| Growing.Volume.GrowVault | internal/api/api.go:848-881 | the record moves exactly if every step succeeded |
| Growing.LayersStayStacked | internal/vault/resize.go:29-69 | over all runs of grows and lock cycles the filesystem fits its device and the device its image, and nothing shrinks |
| Growing.SuccessReachesIff | internal/vault/resize.go:44-69 | a success by fallocate brings every layer and the record to the target exactly if the image was not larger |
| Growing.OneSuccessRecovers | internal/vault/resize.go:29-33 | after any failures with no larger targets, one success repairs every layer |
| Growing.CycleResizesDevice | internal/vault/resize.go:29-33 | a lock and an unlock leave the device as large as the image allows and everything else as it was |
| Growing.FallocateRepairsIff | internal/vault/resize.go:29-33 | after any requests and lock cycles, failed or not, by fallocate or dd, a success by fallocate repairs every layer exactly if none had reached beyond its target |
| Growing.AppendKeepsContentIff | internal/vault/resize.go:73-92 | the dd fallback keeps the content exactly if only zeros lie behind the last whole MiB |
| Growing.AlignedContentIsKept | internal/vault/resize.go:73-92 | on an image of whole MiB it appends zeros and nothing else |
| Growing.UnalignedContentCanBeLost | internal/vault/resize.go:73-92 | on any other image that does not end in a zero it loses bytes |
| Growing.ImportRoundsUp | internal/api/api.go:777-781 | the imported size in GiB is the ceiling |
| Growing.AppendReachesTarget | internal/vault/resize.go:73-86 | the appended image ends in the last GiB before the target, and on it exactly for whole GiB |
| Growing.RetryOvershoots | internal/vault/resize.go:29-33 | a retry with dd after a failed resize ends past the target by the whole delta |
| Growing.DdSuccessReachesIff | internal/vault/resize.go:43-69 | a success by dd brings every layer and the record to the target exactly if the image was within a MiB above its recorded size |
| Growing.DdRetryRepairsIff | internal/vault/resize.go:29-33 | after any failed requests and lock cycles since the last success, a success by dd repairs every layer exactly if none of them wrote as much as a MiB |
| Decimal.AtoiInvertsItoa | internal/vault/luksdump.go:112-114 | a printed 64-bit number is read back |
| Decimal.FirstDigitCounts | internal/vault/luksdump.go:112-114 | a string of digits is read by the powers of ten of their places |
| Decimal.DigitsInOrder | internal/vault/luksdump.go:112-114 | the ten digits in their order |
| Decimal.SortedIsUnique | internal/vault/luksdump.go:151-160 | two sorted listings of the same numbers are equal |
| Luks.SortedIndexes | internal/vault/luksdump.go:151-160 | ascending, each number as often as keys are read as it |
| Luks.ListingIsUnique | internal/vault/luksdump.go:151-160 | the order in which the map is walked does not show |
| Luks.StrictlyAscendingIff | internal/vault/luksdump.go:110-119 | the listing is strictly ascending exactly if no two keys are read as the same number |
| Luks.ParseLUKS2Metadata | internal/vault/luksdump.go:91-134 | slots in order under their own numbers, the first nonzero key size, hash and cipher of the numerically least key |
| Luks.CanonicalListing | internal/vault/luksdump.go:110-123 | with canonical keys the slots are strictly ascending, one-to-one with the keys, each with its own KDF |
| Luks.KeySizeIsEightfold | internal/vault/luksdump.go:120-122 | the key size is eight times the first nonzero one in slot order |
| Luks.NumberIsCutOff | internal/vault/luksdump.go:164-173 | a JSON number is cut off towards zero |
| Luks.PrintedIsRead | internal/vault/luksdump.go:168-178 | a printed number is read back with any white space around it |
| Luks.TextIsRead | internal/vault/luksdump.go:175-178 | white space around a string is ignored, and what is no number counts as zero |
| Luks.CanonicalLeast | internal/vault/luksdump.go:125-132 | hash and cipher come from the least key |
| Luks.AliasLosesKdf | internal/vault/luksdump.go:113-119 | a slot whose key is written another way is listed without its KDF |
| Keyslots.ValidateKillSlot | internal/vault/keys.go:128-146 | refuses exactly slots that are not valid, and allows exactly valid ones when at least two valid entries are counted |
| Keyslots.CountIsCardinality | internal/vault/keys.go:128-138 | the count is the number of different valid slots exactly if none is listed twice |
| Keyslots.GuardAllowsIff | internal/vault/keys.go:128-146 | the guard allows exactly a valid slot that is one of two or that is listed twice, so it is fooled exactly by the latter when there is no other |
| Keyslots.GuardFooledIff | internal/vault/luksdump.go:151-160 | for a header, it allows the removal of the only valid slot exactly if two keys are read as that slot |
| Keyslots.AliasedHeaderFoolsGuard | internal/vault/keys.go:128-146 | a header with keys "1" and "01", on which it does |
| Keyslots.ListedSlots | internal/vault/luksdump.go:112-119 | for a well-formed header the guard sees exactly the slots of the header |
| Keyslots.Header.Remove | internal/api/api.go:663-683 | allowed exactly if the slot is valid and one of at least two; then exactly that slot goes if cryptsetup works |
| Keyslots.LeastFreeIsTaken | internal/vault/keys.go:19-37 | an add without a slot takes the least free one and leaves a full header alone |
| Keyslots.LeastDisabledIsTaken | internal/vault/keys.go:19-37 | the same for a LUKS1 header |
| Keyslots.Luks1SlotAskedFor | internal/vault/keys.go:128-146 | on a LUKS1 header a slot asked for is enabled, and a slot to be removed is disabled exactly if it is one of at least two enabled ones |
| Keyslots.RequestKeepsSlots | internal/api/api.go:570-601 | no request empties the header, and a slot goes only by its own removal |
| Keyslots.AlwaysAValidSlot | internal/api/api.go:663-683 | from a LUKS2 header with a valid slot no sequence of requests leads to one without |
| Keyslots.Luks1GuardExact | internal/vault/luksdump.go:138-149 | for a LUKS1 header the guard allows exactly an enabled slot that is one of at least two |
| Keyslots.AlwaysAnEnabledSlot | internal/api/api.go:663-683 | from a LUKS1 header with an enabled slot no sequence of requests leads to one without |
| Progress.ActionKeepsOrder | internal/vault/vault.go:39-44 | every send, kept or dropped, and every receive leave what the reader has seen or will see an ordered part of what was emitted |
| Progress.EmittedRises | internal/vault/vault.go:252-284 | whatever happens to a create, its percents rise within 0 to 100 and exactly its last event is final |
| Progress.AnnouncedInOrder | internal/vault/vault.go:107-190 | which events a create announces, one by one, for each way it can end |
| Progress.DdPercentIsShare | internal/vault/vault.go:270-275 | the percentage of dd is the file's share of 60 rounded down, and 60 from the full size on |
| Progress.StreamIsFaithful | internal/api/api.go:388-418 | for any interleaving the reader sees a subsequence with rising percents, and the final event once and last unless its send gave up |
| Progress.ShortStreamsAreComplete | internal/vault/vault.go:39-59 | as long as what is left fits into the channel, nothing is lost however slow the reader |
| Progress.SendingFills | internal/vault/vault.go:39-59 | a sender that goes on puts everything into a channel with room |
| Progress.ReadingDrains | internal/api/api.go:388-418 | a reader that goes on gets everything in the channel |
| Paths.PathInStorageDir | internal/api/api.go:907-927 | the cleaned path, accepted exactly if the first directory that matches accepts it; what a match means for the path itself is MatchesIffBelow |
| Paths.MatchesIffBelow | internal/api/api.go:913-920 | a directory matches exactly the paths that lead, walked name by name with the parent at '..', strictly below it, however they are spelt |
| Paths.MatchesIff | internal/api/api.go:913-920 | a match character by character, with or without a slash at the end of the directory |
| Paths.CleanIsCanonical | internal/api/api.go:908-912 | cleaning leads to the same place, is idempotent, and two rooted paths clean to the same string exactly if they lead to the same place |
| CleanLaws.DotsTakeBack | internal/api/api.go:911-912 | '..' takes the segment before it back: 'a/s/../b' cleans as 'a/b' |
| CleanLaws.DotsStayAtRoot | internal/api/api.go:911-912 | '/../b' cleans as '/b' |
| CleanLaws.DotIsDropped | internal/api/api.go:911-912 | 'a/./b' and 'a//b' clean as 'a/b' |
| CleanLaws.LastSlashIsDropped | internal/api/api.go:911-912 | a slash at the end goes |
| CleanLaws.CleanKeepsIff | internal/api/api.go:911-912 | a rooted path is left alone exactly if it is the root or has no '//', '/./' or '/../' in it or at its end |
| Paths.AcceptedIsBelow | internal/api/api.go:913-925 | an accepted path and its cleaned form lead to the same place, strictly below the directory that accepted it; the cleaned form spells exactly the names on the way |
| Paths.ImageIsBelowDir | internal/api/api.go:296-300 | the image of a create is in normal form and leads one name further than its directory |
| Paths.ImagesAreDistinct | internal/api/api.go:296-300 | images are equal exactly for the same directory and name |
| Paths.ImportSeesCreate | internal/api/api.go:717-727 | import and create mean the same image exactly if the imported path leads to it, however it is spelt |

## Left out

- Subprocesses, their output and their contexts: a command is a step that succeeds or fails; a killed command has no effect of its own.
- HTTP routing, request decoding, headers, cookies, pages, the client's address, API tokens and credentials.
- The database beyond its tables: read errors of a lookup are not modelled, and `created_at` and `size_gb` are not part of the lifecycle's rows (sizes are the subject of `Growing`).
- Directories: storage and mount-point directories are neither created nor removed in the model.
- Paths.PathInStorageDir: the resolution of symbolic links is not modelled; the answer of the resolved check is an input, and where a path leads is meant without links. Elsewhere a file has one name.
- Paths.MatchesIffBelow: for directories in normal form; a configured directory that is not is compared as a string (`MatchesIff`).
- Mapper nodes that are hidden after a container restart: in the model a mapper is visible while it is open.
- A panic in a create goroutine, and the state of the machine after a crash of the server.
- `cleanupJobs` and the map of progress channels, one channel at a time is modelled; a reader that disconnects is not.
- Real-number rounding in the token buckets and in the percentage of `dd`, which are computed exactly here.
- `golang.org/x/time/rate` is not part of this model beyond its documented bucket: starts full, refills continuously, a refused attempt costs nothing.
- `dumpField`, the text of a LUKS1 dump and JSON decoding: LUKS2 metadata arrives as maps, LUKS1 slots as a list. Numbers beyond 64 bits in JSON and white space beyond Latin-1 around numeric strings are not modelled.
- Registry.StepKeepsRegistry: with the promise that a delete under way removes nothing in use, and so for deletes that find their row; `StepKeepsConsistentIff` covers every step.
- Registry.RunsKeepRegistry: as for one step; `RunsStayConsistentIff` covers every run.
- Tracking.TimelyRunsStayWindowed: for orderly runs; `UnlockKeepsWindowsIff` and `ClearKeepsWindowsIff` say exactly what the excluded unlocks do.
- Tracking.UnlockedVaultsAreTracked: likewise.
- Soundness.StepKeepsSound: as for whole runs, the step must be orderly.
- CreateOutcome.FormatsOnlyItsOwnImage: assumes fresh names of all creates; `MkfsHitsVaultIff` and `FreshCreateFormatsItsOwn` do without.
- Soundness.OrderlyRunsStaySound: needs fresh names for creates and rows still there for requests; `TakenNameFormatsVault` shows why for the first, and the code refuses a taken name only at the insert. For requests on rows that have gone, `StaleRequests` says exactly when each keeps the invariants.
- ProcMounts.MountedInIsMembership: a kernel that renders further characters of a mount point as octal codes is not modelled.
- Keyslots.AlwaysAValidSlot: cryptsetup adds a slot only where none is, and its own refusal to remove the last slot is not relied on.
- Handlers.Handler.RunCreate: the goroutine as a method runs without interruption; interleavings are the subject of the transition system.
