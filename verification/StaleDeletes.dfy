/**
  A delete does not look its row up again under opMu. Without any hypothesis on
  requests: which command of the program breaks the registry, and exactly when.
 */
module StaleDeletes {
  import opened Wrappers
  import opened Machine
  import opened Lifecycle
  import opened Registry

  /** The registry's invariants but for what a delete under way promises. */
  ghost predicate Consistent(s: Sys) {
    Registered(s.(opMu := Free))
  }

  /** A row has this image, or a create has built it and will insert a row for it. */
  ghost predicate InUse(rows: map<int, Vault>, jobs: map<int, Job>, path: string) {
    PathTaken(rows, path) || exists j :: j in jobs && HasFile(jobs[j].pc) && jobs[j].imgPath == path
  }

  /** The last command of a delete removes an image that is in use. */
  ghost predicate RemovesUsed(s: Sys, step: Step) {
    && step == Continue(true) && s.opMu.RemoveNext? && !IsUnlocked(s.os, s.opMu.v)
    && InUse(s.rows, s.jobs, s.opMu.v.path)
  }

  lemma RegisteredIsConsistent(s: Sys)
    ensures Registered(s) ==> Consistent(s)
    ensures Consistent(s) && !Deleting(s.opMu) ==> Registered(s)
  {
  }

  /** With the delete's row found, it never does. */
  lemma RegisteredRemovesUnused(s: Sys, step: Step)
    requires Registered(s)
    ensures !RemovesUsed(s, step)
  {
  }

  // ---- a delete whose row has gone --------------------------------------

  lemma AbsentDeleteConsistent(s: Sys, r: int, ok: bool)
    requires Consistent(s) && r in s.requests && s.requests[r].id !in s.rows
    ensures Consistent(DeleteStep(s, r, ok))
  {
    assert s.rows - {s.requests[r].id} == s.rows;
    FrameKeeps(s.(opMu := Free), DeleteStep(s, r, ok).(opMu := Free));
  }

  // ---- what others do while a delete holds opMu -------------------------

  /** The same for the registry: nothing but opMu's holder, devices and windows may differ. */
  predicate SameRegistry(s: Sys, s': Sys) {
    && s'.jobs == s.jobs && s'.rows == s.rows && s'.nextId == s.nextId
    && s'.pendingNames == s.pendingNames && s'.pendingPaths == s.pendingPaths
    && s'.requests == s.requests && s'.os.files == s.os.files
  }

  lemma CommandUnderDelete(s: Sys, j: int, a: Answers)
    requires j in s.jobs && !s.jobs[j].pc.Releasing?
    ensures SameRegistry(WorkStep(s.(opMu := Free), j, a), WorkStep(s, j, a))
  {
    var f := s.(opMu := Free);
    if s.jobs[j].pc.Insert? {
      InsertUnderDelete(s, j, a.insert);
    } else if s.jobs[j].pc.Finished? {
      assert FinishStep(f, j).jobs == FinishStep(s, j).jobs;
    } else if s.jobs[j].pc.Marking? {
    } else {
      assert CommandStep(f, j, a).jobs == CommandStep(s, j, a).jobs;
      assert CommandStep(f, j, a).os == CommandStep(s, j, a).os;
    }
  }

  lemma InsertUnderDelete(s: Sys, j: int, ok: bool)
    requires j in s.jobs
    ensures SameRegistry(InsertStep(s.(opMu := Free), j, ok), InsertStep(s, j, ok))
  {
  }

  lemma SameRegistrySameConsistency(s: Sys, s': Sys)
    requires SameRegistry(s, s') && Registered(s)
    ensures Consistent(s')
  {
    RegisteredIsConsistent(s);
    FrameKeeps(s.(opMu := Free), s'.(opMu := Free));
  }

  lemma WorkConsistent(s: Sys, j: int, a: Answers)
    requires Consistent(s) && j in s.jobs && Deleting(s.opMu)
    ensures Consistent(WorkStep(s, j, a))
  {
    if !s.jobs[j].pc.Releasing? {
      var f := s.(opMu := Free);
      WorkKeeps(f, j, a);
      CommandUnderDelete(s, j, a);
      SameRegistrySameConsistency(WorkStep(f, j, a), WorkStep(s, j, a));
    }
  }

  /** Tick, a new image, a lookup, a step of the sweep; whoever needs opMu waits. */
  lemma OthersConsistent(s: Sys, step: Step)
    requires Consistent(s) && Deleting(s.opMu) && !step.Work? && !step.Continue?
    ensures Consistent(Next(s, step))
  {
    var f := s.(opMu := Free);
    match step
    case Lookup(r, id) => LookupKeeps(f, r, id);
    case SweepOn(k, ok) =>
      SweepFrame(s, k, ok);
      FrameKeeps(f, Next(s, step).(opMu := Free));
    case Tick(_) => FrameKeeps(f, Next(s, step).(opMu := Free));
    case PlaceImage(_) => FrameKeeps(f, Next(s, step).(opMu := Free));
    case Reserve(_, _, _, _) =>
    case Import(_, _, _, _) =>
    case Unlock(_, _) =>
    case Lock(_, _) =>
    case Remount(_, _) =>
    case Delete(_, _) =>
  }

  /** The removal itself. */
  lemma RemovalConsistentIff(s: Sys, ok: bool)
    requires Consistent(s) && s.opMu.RemoveNext?
    ensures Consistent(ContinueStep(s, ok)) <==> !RemovesUsed(s, Continue(ok))
  {
    var s', path := ContinueStep(s, ok), s.opMu.v.path;
    if ok && !IsUnlocked(s.os, s.opMu.v) {
      if PathTaken(s.rows, path) {
        var id :| id in s.rows && s.rows[id].path == path;
        assert s'.rows[id].path !in s'.os.files;
      }
      assert forall id :: id in s.rows ==> PathTaken(s.rows, s.rows[id].path);
      if j :| j in s.jobs && HasFile(s.jobs[j].pc) && s.jobs[j].imgPath == path {
        assert s'.jobs[j].imgPath !in s'.os.files;
      }
    }
  }

  lemma ContinueConsistentIff(s: Sys, ok: bool)
    requires Consistent(s) && Deleting(s.opMu)
    ensures Consistent(ContinueStep(s, ok)) <==> !RemovesUsed(s, Continue(ok))
  {
    if s.opMu.RemoveNext? {
      RemovalConsistentIff(s, ok);
    } else {
      FrameKeeps(s.(opMu := Free), ContinueStep(s, ok).(opMu := Free));
    }
  }

  // ---- every step, every run --------------------------------------------

  /**
    Every command of every activity keeps the registry, stale requests included,
    except exactly one: the removal of an image that a row or a create uses.
   */
  lemma StepKeepsConsistentIff(s: Sys, step: Step)
    requires Consistent(s)
    ensures Consistent(Next(s, step)) <==> !RemovesUsed(s, step)
  {
    RegisteredIsConsistent(s);
    if !Deleting(s.opMu) {
      if DeletePresent(s, step) {
        StepKeepsRegistry(s, step);
        RegisteredIsConsistent(Next(s, step));
      } else if s.opMu.Free? {
        AbsentDeleteConsistent(s, step.req, step.ok);
      }
    } else if step.Work? {
      if step.job in s.jobs { WorkConsistent(s, step.job, step.answers); }
    } else if step.Continue? {
      ContinueConsistentIff(s, step.ok);
    } else {
      OthersConsistent(s, step);
    }
  }

  /** The registry holds in every state of the run. */
  ghost predicate AlwaysConsistent(s: Sys, steps: seq<Step>)
    decreases |steps|
  {
    Consistent(s) && (steps != [] ==> AlwaysConsistent(Next(s, steps[0]), steps[1..]))
  }

  ghost predicate NeverRemovesUsed(s: Sys, steps: seq<Step>)
    decreases |steps|
  {
    steps != [] ==> !RemovesUsed(s, steps[0]) && NeverRemovesUsed(Next(s, steps[0]), steps[1..])
  }

  /** Over any run whatever: the registry holds throughout exactly if no delete removes an image in use. */
  lemma {:induction false} RunsStayConsistentIff(s: Sys, steps: seq<Step>)
    requires Consistent(s)
    ensures AlwaysConsistent(s, steps) <==> NeverRemovesUsed(s, steps)
    decreases |steps|
  {
    if steps != [] {
      StepKeepsConsistentIff(s, steps[0]);
      if !RemovesUsed(s, steps[0]) {
        RunsStayConsistentIff(Next(s, steps[0]), steps[1..]);
      }
    }
  }

  // ---- a whole delete ---------------------------------------------------

  /** Row, window, image. */
  function WholeDelete(r: int): seq<Step> {
    [Delete(r, true), Continue(true), Continue(true)]
  }

  /**
    A delete that runs to its end keeps the registry exactly if it found its row,
    or the vault it remembers is unlocked, or its image is not in use.
   */
  lemma DeleteKeepsRegistryIff(s: Sys, r: int)
    requires Registered(s) && s.opMu.Free? && r in s.requests
    ensures
      var Request(id, v) := s.requests[r];
      Registered(After(s, WholeDelete(r))) <==> id in s.rows || IsUnlocked(s.os, v) || !InUse(s.rows, s.jobs, v.path)
  {
    var Request(id, v) := s.requests[r];
    AfterThree(s, Delete(r, true), Continue(true), Continue(true));
    var s1 := Next(s, Delete(r, true));
    var s2 := Next(s1, Continue(true));
    var end := Next(s2, Continue(true));
    RegisteredIsConsistent(s);
    StepKeepsConsistentIff(s, Delete(r, true));
    StepKeepsConsistentIff(s1, Continue(true));
    StepKeepsConsistentIff(s2, Continue(true));
    RegisteredIsConsistent(end);
    DeleteReachesRemoval(s, r);
    if id in s.rows {
      DeleteKeeps(s, r, true);
      ContinueKeeps(s1, true);
      RegisteredRemovesUnused(s2, Continue(true));
    } else {
      assert s.rows - {id} == s.rows;
      assert !IsUnlocked(s.os, v) ==> (RemovesUsed(s2, Continue(true)) <==> InUse(s.rows, s.jobs, v.path));
    }
  }

  lemma DeleteReachesRemoval(s: Sys, r: int)
    requires s.opMu.Free? && r in s.requests
    ensures
      var Request(id, v) := s.requests[r];
      var s2 := Next(Next(s, Delete(r, true)), Continue(true));
      && Next(s2, Continue(true)).opMu.Free?
      && if IsUnlocked(s.os, v) then s2 == Done(s, r)
         else s2.opMu == RemoveNext(id, v) && s2.rows == s.rows - {id} && s2.jobs == s.jobs && s2.os == s.os
  {
  }
}
