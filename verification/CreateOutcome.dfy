/**
  vault.Create is all-or-nothing. What a create leaves of its image, mapper,
  mount and row is compared between the moment it claims its image path and the
  moment it returns, with any orderly steps of other requests in between.
 */
module CreateOutcome {
  import opened Wrappers
  import opened Names
  import opened Machine
  import opened Lifecycle
  import opened Registry
  import opened Ownership
  import opened Soundness

  /** The four things a create makes. */
  datatype Footprint = Footprint(image: bool, mapper: Option<string>, mounted: Option<string>, row: bool)

  const NOTHING := Footprint(false, None, None, false)

  ghost function FootprintOf(s: Sys, job: Job): Footprint {
    Footprint(job.imgPath in s.os.files, Get(s.os.mappers, job.name),
      Get(s.os.mounts, job.mountPoint), NameTaken(s.rows, job.name))
  }

  function All(job: Job): Footprint {
    Footprint(true, Some(job.imgPath), Some(job.name), true)
  }

  /** Before it claims its image path, a create changes nothing but its own program counter. */
  lemma ChecksChangeNothing(s: Sys, j: int, a: Answers)
    requires j in s.jobs && !Claims(s.jobs[j].pc) && Unfinished(s.jobs[j].pc)
    ensures var s' := WorkStep(s, j, a); j in s'.jobs && s' == Goto(s, j, s'.jobs[j].pc)
    ensures s.jobs[j].pc.StatImage? ==> (Claims(WorkStep(s, j, a).jobs[j].pc) <==> s.jobs[j].imgPath !in s.os.files)
  {
  }

  /** What an unfinished create has of mapper, mount and row is what its program counter says. */
  lemma FootprintByPc(s: Sys, j: int)
    requires Sound(s) && j in s.jobs && Unfinished(s.jobs[j].pc)
    ensures
      var f, job := FootprintOf(s, s.jobs[j]), s.jobs[j];
      && f.mapper == (if HasMapper(job.pc) then Some(job.imgPath) else None)
      && f.mounted == (if HasMount(job.pc) then Some(job.name) else None)
      && !f.row
      && (HasFile(job.pc) ==> f.image)
  {
    var holders := Holders(s.jobs);
    DistinctHolders(s.jobs);
    OwnDevices(s.os, s.rows, holders, j);
    assert holders[j] == HolderOf(s.jobs[j]);
    if s.jobs[j].mountPoint in s.os.mounts {
      assert s.os.mounts[s.jobs[j].mountPoint] == s.jobs[j].name;
    }
  }

  /** The stat check that lets a create go on finds nothing of it in the system. */
  lemma ClaimFindsNothing(s: Sys, j: int, a: Answers)
    requires Sound(s) && j in s.jobs && s.jobs[j].pc.StatImage?
    requires Claims(WorkStep(s, j, a).jobs[j].pc)
    ensures FootprintOf(WorkStep(s, j, a), s.jobs[j]) == NOTHING
  {
    FootprintByPc(s, j);
    ChecksChangeNothing(s, j, a);
  }

  lemma InsertLeavesAll(s: Sys, j: int)
    requires Sound(s) && j in s.jobs && s.jobs[j].pc.Insert?
    ensures FootprintOf(Inserted(s, j), s.jobs[j]) == All(s.jobs[j])
  {
    var s', job := Inserted(s, j), s.jobs[j];
    FootprintByPc(s, j);
    assert s'.rows[s.nextId].name == job.name;
  }

  lemma RollbackLeavesNothing(s: Sys, j: int, a: Answers)
    requires Sound(s) && j in s.jobs && s.jobs[j].pc.UndoRemove?
    ensures FootprintOf(WorkStep(s, j, a), s.jobs[j]) == NOTHING
  {
    FootprintByPc(s, j);
  }

  /** With a fresh name, the mapper check after the stat check never refuses. */
  lemma MapperCheckPasses(s: Sys, j: int, a: Answers)
    requires Sound(s) && j in s.jobs && s.jobs[j].pc.StatMapper?
    ensures Succeeds(s.jobs[j], s.os, a)
  {
    FootprintByPc(s, j);
  }

  lemma CommandsReturnFrom(pc: Pc, ok: bool)
    requires Claims(pc) && !pc.Insert? && NextPc(pc, ok).Finished?
    ensures pc.UndoRemove? || (pc.StatMapper? && !ok)
  {
  }

  lemma ReturnsFrom(s: Sys, j: int, a: Answers)
    requires Sound(s) && j in s.jobs && Claims(s.jobs[j].pc)
    requires WorkStep(s, j, a).jobs[j].pc.Finished?
    ensures s.jobs[j].pc.UndoRemove? || (s.jobs[j].pc.Insert? && WorkStep(s, j, a) == Inserted(s, j))
  {
    var job := s.jobs[j];
    if !job.pc.Insert? {
      CommandsReturnFrom(job.pc, Succeeds(job, s.os, a));
      if job.pc.StatMapper? { MapperCheckPasses(s, j, a); }
    }
  }

  /** The step on which vault.Create returns: everything is there, or nothing is. */
  lemma ReturnsAllOrNothing(s: Sys, j: int, a: Answers)
    requires Sound(s) && j in s.jobs && Claims(s.jobs[j].pc)
    requires WorkStep(s, j, a).jobs[j].pc.Finished?
    ensures
      var s', job := WorkStep(s, j, a), s.jobs[j];
      || (FootprintOf(s', job) == All(job) && s'.rows == s.rows[s.nextId := NewVault(job)])
      || (FootprintOf(s', job) == NOTHING && s'.rows == s.rows)
  {
    ReturnsFrom(s, j, a);
    if s.jobs[j].pc.Insert? {
      InsertLeavesAll(s, j);
    } else {
      RollbackLeavesNothing(s, j, a);
    }
  }

  /**
    From the stat check to the return, with any orderly steps of others in
    between: what a create leaves is all of it, or exactly what it found.
   */
  lemma CreateIsAllOrNothing(s: Sys, j: int, a: Answers, steps: seq<Step>, last: Answers)
    requires Sound(s) && j in s.jobs && s.jobs[j].pc.StatImage?
    requires Claims(WorkStep(s, j, a).jobs[j].pc) && OrderlyRun(WorkStep(s, j, a), steps)
    requires
      var before := After(WorkStep(s, j, a), steps);
      && j in before.jobs && before.jobs[j] == s.jobs[j].(pc := before.jobs[j].pc) && Claims(before.jobs[j].pc)
      && WorkStep(before, j, last).jobs[j].pc.Finished?
    ensures
      var job := s.jobs[j];
      var end := WorkStep(After(WorkStep(s, j, a), steps), j, last);
      FootprintOf(end, job) == All(job) || FootprintOf(end, job) == FootprintOf(WorkStep(s, j, a), job) == NOTHING
  {
    var claimed := WorkStep(s, j, a);
    StepKeepsSound(s, Work(j, a));
    OrderlyRunsStaySound(claimed, steps);
    ClaimFindsNothing(s, j, a);
    ReturnsAllOrNothing(After(claimed, steps), j, last);
  }

  /** luksFormat and mkfs only ever write to the create's own image, which no row refers to. */
  lemma FormatsOnlyItsOwnImage(s: Sys, j: int)
    requires Sound(s) && j in s.jobs && (s.jobs[j].pc.Format? || s.jobs[j].pc.MakeFs?)
    ensures !PathTaken(s.rows, s.jobs[j].imgPath) && s.jobs[j].imgPath in s.os.files
    ensures s.jobs[j].pc.MakeFs? ==> Get(s.os.mappers, s.jobs[j].name) == Some(s.jobs[j].imgPath)
  {
    FootprintByPc(s, j);
  }
}
