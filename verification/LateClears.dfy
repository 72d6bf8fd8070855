/**
  Between its release of opMu and its clear, the sweep leaves room for others.
  Over any run that fits there: when does the clear lose a window?
 */
module LateClears {
  import opened Wrappers
  import opened Names
  import opened Machine
  import opened Lifecycle
  import opened Registry
  import opened Ownership
  import opened Soundness
  import opened Tracking
  import opened AutoLockGuard
  import opened Undisturbed
  import opened AutoLockRuns

  /** markUnlocked ends an unlock of this vault. */
  predicate UnlockEnds(s: Sys, step: Step, id: int) {
    step.Continue? && s.opMu.MarkNext? && s.opMu.id == id
  }

  /** luksClose of a lock of this vault works. */
  predicate LockEnds(s: Sys, step: Step, id: int) {
    step == Continue(true) && s.opMu.CloseNext? && s.opMu.id == id
  }

  /** Was the last completed unlock or lock of this vault in the run an unlock? */
  ghost predicate UnlockedLast(s: Sys, steps: seq<Step>, id: int, unlocked: bool)
    decreases |steps|
  {
    if steps == [] then unlocked
    else
      UnlockedLast(Next(s, steps[0]), steps[1..], id,
        if UnlockEnds(s, steps[0], id) then true else if LockEnds(s, steps[0], id) then false else unlocked)
  }

  predicate NoSweepStep(steps: seq<Step>) {
    forall i :: 0 <= i < |steps| ==> !steps[i].SweepOn?
  }

  /** What has been seen of the vault's unlocks and locks is how it stands. */
  ghost predicate Accounted(s: Sys, id: int, unlocked: bool) {
    && s.sweep.Idle? && id < s.nextId
    && (unlocked <==> RowOpen(s, id) && !BeingUnlocked(s.opMu, id))
    && (BeingUnlocked(s.opMu, id) ==> RowOpen(s, id))
    && (s.opMu.CloseNext? && s.opMu.id == id ==> s.opMu.v.mountPoint !in s.os.mounts)
  }

  lemma RequestAccounted(s: Sys, r: int, ok: bool, id: int, unlocked: bool)
    requires Sound(s) && s.opMu.Free? && r in s.requests && s.requests[r].id == id && id in s.rows
    requires Accounted(s, id, unlocked)
    ensures Accounted(UnlockStep(s, r, ok), id, unlocked) && Accounted(LockStep(s, r, ok), id, unlocked)
    ensures Accounted(RemountStep(s, r, ok), id, unlocked) && Accounted(DeleteStep(s, r, ok), id, unlocked)
  {
    OpenIsUnlocked(s, id);
  }

  lemma SectionAccounted(s: Sys, ok: bool, id: int, unlocked: bool)
    requires Sound(s) && Windowed(s) && id in s.rows && HeldFor(s.opMu, id) && Accounted(s, id, unlocked)
    ensures
      var now := if UnlockEnds(s, Continue(ok), id) then true
        else if LockEnds(s, Continue(ok), id) then false else unlocked;
      Accounted(ContinueStep(s, ok), id, now)
  {
    CloseLocks(s, id);
  }

  lemma OthersAccounted(s: Sys, step: Step, id: int, unlocked: bool)
    requires Sound(s) && Orderly(s, step) && !step.SweepOn? && id in s.rows && !ActsOn(s, step, id)
    requires Accounted(s, id, unlocked) && s.nextId <= Next(s, step).nextId
    ensures Accounted(Next(s, step), id, unlocked)
  {
    OthersLeaveVault(s, step, id);
    IdleStaysIdle(s, step);
    if s.opMu.CloseNext? && s.opMu.id == id { assert s.opMu.v == s.rows[id]; }
  }

  /** A request of the vault: taken if opMu is free, and left for later if not. */
  lemma OwnRequestAccounted(s: Sys, step: Step, id: int, unlocked: bool)
    requires Sound(s) && id in s.rows && TakesRequest(s, step, id) && Accounted(s, id, unlocked)
    ensures Accounted(Next(s, step), id, unlocked)
  {
    if s.opMu.Free? { RequestAccounted(s, step.req, step.ok, id, unlocked); }
  }

  lemma StepAccounted(s: Sys, step: Step, id: int, unlocked: bool)
    requires Sound(s) && Windowed(s) && Orderly(s, step) && !step.SweepOn? && Accounted(s, id, unlocked)
    ensures
      var now := if UnlockEnds(s, step, id) then true else if LockEnds(s, step, id) then false else unlocked;
      Accounted(Next(s, step), id, now)
  {
    StepAddsFreshRows(s, step);
    if id !in s.rows {
      RowlessAccounted(s, step, id, unlocked);
    } else if !ActsOn(s, step, id) {
      OthersAccounted(s, step, id, unlocked);
    } else if step.Continue? {
      SectionAccounted(s, step.ok, id, unlocked);
    } else {
      OwnRequestAccounted(s, step, id, unlocked);
    }
  }

  lemma IdleStaysIdle(s: Sys, step: Step)
    requires Sound(s) && s.sweep.Idle? && !step.SweepOn?
    ensures Next(s, step).sweep.Idle?
  {
    if step.Continue? {
      ContinueKeepsSweep(s, step.ok);
    } else {
      OnlySweepMovesSweep(s, step);
    }
  }

  /** A vault without a row is no longer anybody's business. */
  lemma RowlessAccounted(s: Sys, step: Step, id: int, unlocked: bool)
    requires Sound(s) && Orderly(s, step) && !step.SweepOn? && Accounted(s, id, unlocked) && id !in s.rows
    requires id !in Next(s, step).rows && s.nextId <= Next(s, step).nextId
    ensures !UnlockEnds(s, step, id) && Accounted(Next(s, step), id, unlocked)
  {
    IdleStaysIdle(s, step);
    RowlessSections(s, step, id);
  }

  lemma RowlessSections(s: Sys, step: Step, id: int)
    requires Sound(s) && Orderly(s, step) && !step.SweepOn? && id !in s.rows
    ensures
      var section := Next(s, step).opMu;
      !(section.CloseNext? && section.id == id) && !BeingUnlocked(section, id)
  {
    if step.Continue? {
      ContinueMovesOn(s, step.ok);
    } else if !step.Unlock? && !step.Lock? && !step.Remount? && !step.Delete? {
      OnlySectionsHold(s, step);
    }
  }

  lemma ContinueMovesOn(s: Sys, ok: bool)
    ensures
      var section := ContinueStep(s, ok).opMu;
      && !section.CloseNext?
      && (section.MarkNext? || section.UndoOpen? ==> s.opMu.MountNext? && section.id == s.opMu.id)
      && !section.MountNext?
  {
    match s.opMu
    case CloseNext(id, v, sweeping) => CloseLeavesWindows(s, id, v, sweeping, ok);
    case Free =>
    case MountNext(_, _) =>
    case UndoOpen(_, _) =>
    case MarkNext(_, _) =>
    case ClearNext(_, _) =>
    case ForgetNext(_, _) =>
    case RemoveNext(_, _) =>
  }

  lemma OnlySectionsHold(s: Sys, step: Step)
    requires step.Tick? || step.PlaceImage? || step.Reserve? || step.Work? || step.Import? || step.Lookup?
    ensures Next(s, step).opMu == s.opMu
  {
  }

  lemma {:induction false} RunAccounted(s: Sys, steps: seq<Step>, id: int, unlocked: bool)
    requires Sound(s) && Windowed(s) && OrderlyRun(s, steps) && NoSweepStep(steps) && Accounted(s, id, unlocked)
    ensures Accounted(After(s, steps), id, UnlockedLast(s, steps, id, unlocked)) && Windowed(After(s, steps))
    decreases |steps|
  {
    if steps != [] {
      var now := if UnlockEnds(s, steps[0], id) then true else if LockEnds(s, steps[0], id) then false else unlocked;
      StepAccounted(s, steps[0], id, unlocked);
      StepKeepsSound(s, steps[0]);
      StepKeepsWindowed(s, steps[0]);
      RunAccounted(Next(s, steps[0]), steps[1..], id, now);
    }
  }

  // ---- the sweep, set aside ---------------------------------------------

  /** The same state without a sweep. */
  function Aside(s: Sys): Sys {
    s.(sweep := Idle)
  }

  predicate SweepsNot(section: Section) {
    section.CloseNext? ==> !section.sweeping
  }

  lemma CommandAside(s: Sys, j: int, a: Answers)
    requires j in s.jobs
    ensures CommandStep(Aside(s), j, a) == Aside(CommandStep(s, j, a)) && CommandStep(s, j, a).opMu == s.opMu
  {
  }

  lemma InsertAside(s: Sys, j: int, ok: bool)
    requires j in s.jobs
    ensures InsertStep(Aside(s), j, ok) == Aside(InsertStep(s, j, ok)) && InsertStep(s, j, ok).opMu == s.opMu
  {
    assert Goto(Aside(s), j, UndoUmount) == Aside(Goto(s, j, UndoUmount));
    assert Inserted(Aside(s), j) == Aside(Inserted(s, j));
  }

  lemma WindDownAside(s: Sys, j: int)
    requires j in s.jobs
    ensures FinishStep(Aside(s), j) == Aside(FinishStep(s, j)) && FinishStep(s, j).opMu == s.opMu
    ensures ReleaseStep(Aside(s), j) == Aside(ReleaseStep(s, j)) && ReleaseStep(s, j).opMu == s.opMu
    ensures forall id :: Mark(Goto(Aside(s), j, Releasing), id) == Aside(Mark(Goto(s, j, Releasing), id))
    ensures forall id :: Mark(Goto(s, j, Releasing), id).opMu == s.opMu
  {
  }

  lemma WorkAside(s: Sys, j: int, a: Answers)
    requires j in s.jobs
    ensures WorkStep(Aside(s), j, a) == Aside(WorkStep(s, j, a)) && WorkStep(s, j, a).opMu == s.opMu
  {
    var pc := s.jobs[j].pc;
    if pc.Insert? {
      InsertAside(s, j, a.insert);
    } else if pc.Finished? || pc.Marking? || pc.Releasing? {
      WindDownAside(s, j);
    } else {
      CommandAside(s, j, a);
    }
  }

  lemma CloseAside(s: Sys, id: int, v: Vault, ok: bool)
    ensures CloseStep(Aside(s), id, v, false, ok) == Aside(CloseStep(s, id, v, false, ok))
    ensures SweepsNot(CloseStep(s, id, v, false, ok).opMu) || CloseStep(s, id, v, false, ok).opMu == s.opMu
  {
  }

  lemma ContinueAside(s: Sys, ok: bool)
    requires SweepsNot(s.opMu)
    ensures ContinueStep(Aside(s), ok) == Aside(ContinueStep(s, ok)) && SweepsNot(ContinueStep(s, ok).opMu)
  {
    match s.opMu
    case CloseNext(id, v, _) => CloseAside(s, id, v, ok);
    case Free =>
    case MountNext(_, v) => MountAside(s, ok);
    case UndoOpen(_, v) => assert Aside(s).os == s.os;
    case MarkNext(id, _) => assert Mark(Aside(s), id) == Aside(Mark(s, id));
    case ClearNext(id, _) => assert Unmark(Aside(s), id) == Aside(Unmark(s, id));
    case ForgetNext(id, _) => assert Unmark(Aside(s), id) == Aside(Unmark(s, id));
    case RemoveNext(_, v) => assert Aside(s).os == s.os;
  }

  lemma MountAside(s: Sys, ok: bool)
    requires s.opMu.MountNext?
    ensures ContinueStep(Aside(s), ok) == Aside(ContinueStep(s, ok)) && SweepsNot(ContinueStep(s, ok).opMu)
  {
  }

  lemma UnlockAside(s: Sys, r: int, ok: bool)
    requires s.opMu.Free? && r in s.requests
    ensures UnlockStep(Aside(s), r, ok) == Aside(UnlockStep(s, r, ok)) && SweepsNot(UnlockStep(s, r, ok).opMu)
  {
  }

  lemma LockAside(s: Sys, r: int, ok: bool)
    requires s.opMu.Free? && r in s.requests
    ensures LockStep(Aside(s), r, ok) == Aside(LockStep(s, r, ok)) && SweepsNot(LockStep(s, r, ok).opMu)
  {
  }

  lemma RemountAside(s: Sys, r: int, ok: bool)
    requires s.opMu.Free? && r in s.requests
    ensures RemountStep(Aside(s), r, ok) == Aside(RemountStep(s, r, ok)) && SweepsNot(RemountStep(s, r, ok).opMu)
  {
  }

  lemma DeleteAside(s: Sys, r: int, ok: bool)
    requires s.opMu.Free? && r in s.requests
    ensures DeleteStep(Aside(s), r, ok) == Aside(DeleteStep(s, r, ok)) && SweepsNot(DeleteStep(s, r, ok).opMu)
  {
  }

  lemma OutsideAside(s: Sys, step: Step)
    requires step.Tick? || step.PlaceImage? || step.Reserve? || step.Import? || step.Lookup?
    ensures Next(Aside(s), step) == Aside(Next(s, step)) && Next(s, step).opMu == s.opMu
  {
  }

  /** Steps of others do not look at a sweep that holds nothing. */
  lemma StepAside(s: Sys, step: Step)
    requires !step.SweepOn? && SweepsNot(s.opMu)
    ensures Next(Aside(s), step) == Aside(Next(s, step)) && SweepsNot(Next(s, step).opMu)
    ensures Orderly(Aside(s), step) <==> Orderly(s, step)
  {
    match step
    case Work(j, a) => if j in s.jobs { WorkAside(s, j, a); }
    case Continue(ok) => ContinueAside(s, ok);
    case Unlock(r, ok) => if s.opMu.Free? && r in s.requests { UnlockAside(s, r, ok); }
    case Lock(r, ok) => if s.opMu.Free? && r in s.requests { LockAside(s, r, ok); }
    case Remount(r, ok) => if s.opMu.Free? && r in s.requests { RemountAside(s, r, ok); }
    case Delete(r, ok) => if s.opMu.Free? && r in s.requests { DeleteAside(s, r, ok); }
    case Tick(_) => OutsideAside(s, step);
    case PlaceImage(_) => OutsideAside(s, step);
    case Reserve(_, _, _, _) => OutsideAside(s, step);
    case Import(_, _, _, _) => OutsideAside(s, step);
    case Lookup(_, _) => OutsideAside(s, step);
  }

  lemma {:induction false} RunAside(s: Sys, steps: seq<Step>, id: int, unlocked: bool)
    requires NoSweepStep(steps) && SweepsNot(s.opMu)
    ensures After(Aside(s), steps) == Aside(After(s, steps))
    ensures OrderlyRun(Aside(s), steps) <==> OrderlyRun(s, steps)
    ensures UnlockedLast(Aside(s), steps, id, unlocked) <==> UnlockedLast(s, steps, id, unlocked)
    decreases |steps|
  {
    if steps != [] {
      var now := if UnlockEnds(s, steps[0], id) then true else if LockEnds(s, steps[0], id) then false else unlocked;
      StepAside(s, steps[0]);
      RunAside(Next(s, steps[0]), steps[1..], id, now);
    }
  }

  lemma AsideIsSound(s: Sys)
    requires Sound(s) && Windowed(s) && SweepsNot(s.opMu)
    ensures Sound(Aside(s)) && Windowed(Aside(s))
  {
  }

  /** The vault's creation has still to come to its mark. */
  ghost predicate WillBeMarked(s: Sys, id: int) {
    id in s.rows && exists j :: j in s.jobs && s.jobs[j].name == s.rows[id].name && !s.jobs[j].pc.Releasing?
  }

  /** What the clear leaves: the same, but for one window and the sweep. */
  function Cleared(end: Sys): Sys
    requires end.sweep.Clearing?
  {
    Unmark(end, end.sweep.id).(sweep := Visiting(end.sweep.rest))
  }

  /** Only the vault whose window goes can lose track of its own. */
  lemma ClearTracksIff(end: Sys)
    requires Windowed(Aside(end)) && end.sweep.Clearing?
    ensures
      var id := end.sweep.id;
      var pending := id in end.rows && end.rows[id].name in end.pendingNames;
      Tracked(Cleared(end)) <==> (RowOpen(end, id) ==> pending || BeingUnlocked(end.opMu, id))
  {
    var s' := Cleared(end);
    assert Tracked(Aside(end));
    assert forall i :: RowOpen(s', i) <==> RowOpen(end, i);
    assert forall i :: RowOpen(Aside(end), i) <==> RowOpen(end, i);
  }

  lemma ClearReleasesIff(end: Sys)
    requires Windowed(Aside(end)) && end.sweep.Clearing?
    ensures
      var id := end.sweep.id;
      ReleaseTracked(Cleared(end)) <==>
        forall j :: j in end.jobs && end.jobs[j].pc.Releasing? && RowOpen(end, id) ==>
          end.rows[id].name != end.jobs[j].name || BeingUnlocked(end.opMu, id)
  {
    var s' := Cleared(end);
    assert ReleaseTracked(Aside(end));
    assert forall i :: RowOpen(s', i) <==> RowOpen(end, i);
    assert forall i :: RowOpen(Aside(end), i) <==> RowOpen(end, i);
  }

  lemma ClearKeepsRest(end: Sys)
    requires Windowed(Aside(end)) && end.sweep.Clearing?
    requires forall i :: i in end.sweep.rest ==> i < end.nextId
    ensures var s' := Cleared(end); MarksOwn(s') && ClearsLocked(s') && IdsKnown(s')
  {
    assert MarksOwn(Aside(end)) && ClearsLocked(Aside(end)) && IdsKnown(Aside(end));
  }

  lemma ClearLeaves(end: Sys, id: int, k: int, ok: bool)
    requires Registered(end) && Windowed(Aside(end)) && end.sweep.Clearing? && end.sweep.id == id
    requires forall i :: i in end.sweep.rest ==> i < end.nextId
    ensures
      var unlocked := RowOpen(end, id) && !BeingUnlocked(end.opMu, id);
      Windowed(Next(end, SweepOn(k, ok))) <==> !unlocked || WillBeMarked(end, id)
  {
    ClearTracksIff(end);
    ClearReleasesIff(end);
    ClearKeepsRest(end);
    assert Next(end, SweepOn(k, ok)) == Cleared(end);
    if RowOpen(end, id) {
      HeldNames(end, end.rows[id].name);
    }
  }

  /** A reserved name is that of one create, which is releasing it or has still to come to that. */
  lemma HeldNames(s: Sys, name: string)
    requires PendingExact(s.jobs, s.pendingNames, s.pendingPaths) && JobsDistinct(s.jobs)
    ensures
      var coming := exists j :: j in s.jobs && s.jobs[j].name == name && !s.jobs[j].pc.Releasing?;
      var going := exists j :: j in s.jobs && s.jobs[j].name == name && s.jobs[j].pc.Releasing?;
      name in s.pendingNames && !going <==> coming
  {
    assert name in s.pendingNames <==> NameInFlight(s.jobs, name);
  }

  /**
    From the moment the sweep has locked vault id and released opMu, over any
    orderly steps of others up to its clear: the clear keeps the bookkeeping of
    windows, and with it every unlocked vault tracked from then on, exactly if no
    unlock of id was completed in between, or a lock was after it, or the vault's
    creation has still to mark it.
   */
  lemma ClearKeepsWindowsIff(s: Sys, steps: seq<Step>, k: int, ok: bool)
    requires Sound(s) && Windowed(s) && s.sweep.Clearing? && s.opMu.Free?
    requires OrderlyRun(s, steps) && NoSweepStep(steps)
    ensures
      var id, end := s.sweep.id, After(s, steps);
      Windowed(Next(end, SweepOn(k, ok))) <==> !UnlockedLast(s, steps, id, false) || WillBeMarked(end, id)
  {
    var id, end := s.sweep.id, After(s, steps);
    AsideIsSound(s);
    RunAside(s, steps, id, false);
    RunAccounted(Aside(s), steps, id, false);
    SweepWaits(s, steps);
    OrderlyRunsStaySound(s, steps);
    ClockAndIdsGrow(s, steps);
    ClearLeaves(end, id, k, ok);
  }

  /** The clear itself leaves a state in which every unlocked vault is tracked, if need be by a reservation alone. */
  lemma ClearKeepsTrackIff(s: Sys, steps: seq<Step>, k: int, ok: bool)
    requires Sound(s) && Windowed(s) && s.sweep.Clearing? && s.opMu.Free?
    requires OrderlyRun(s, steps) && NoSweepStep(steps)
    ensures
      var id, end := s.sweep.id, After(s, steps);
      var pending := id in end.rows && end.rows[id].name in end.pendingNames;
      Tracked(Next(end, SweepOn(k, ok))) <==> !UnlockedLast(s, steps, id, false) || pending
  {
    var id, end := s.sweep.id, After(s, steps);
    AsideIsSound(s);
    RunAside(s, steps, id, false);
    RunAccounted(Aside(s), steps, id, false);
    SweepWaits(s, steps);
    LateClearIff(end, k, ok);
  }

  lemma {:induction false} SweepWaits(s: Sys, steps: seq<Step>)
    requires s.sweep.Clearing? && SweepsNot(s.opMu) && NoSweepStep(steps)
    ensures After(s, steps).sweep == s.sweep
    decreases |steps|
  {
    if steps != [] {
      StepAside(s, steps[0]);
      if steps[0].Continue? {
        ContinueKeepsSweep(s, steps[0].ok);
      } else {
        OnlySweepMovesSweep(s, steps[0]);
      }
      SweepWaits(Next(s, steps[0]), steps[1..]);
    }
  }
}
