/** While no process dies, no QUEUED import is stranded: somebody will still act on it. */
module ImportStranding {
  import opened OrderedMaps
  import opened ImportStatus
  import opened ImportProtocol
  import opened ImportOwners

  // Job ids stay with the import they were made for.

  predicate JobOf(s: State, job: Option<JobId>, i: ImportId) {
    job.Some? ==> MadeAt(s, job.value) == Some(i)
  }

  predicate RowJobFine(s: State, i: ImportId) {
    RowAt(s, i).Some? ==> JobOf(s, RowAt(s, i).value.jobId, i)
  }

  /** An enqueue with a job it has added. */
  predicate Carries(task: Option<Task>) {
    task.Some? && (task.value.Attaching? || task.value.Rereading? || task.value.Unattaching?)
  }

  predicate TaskJobFine(s: State, t: TaskId) {
    var task := TaskAt(s, t);
    && (Carries(task) ==> JobOf(s, Some(task.value.job), task.value.i))
    && (task.Some? && task.value.Cancelling? ==> JobOf(s, task.value.jobId, task.value.i))
  }

  ghost predicate JobIdsFine(s: State) {
    (forall i :: RowJobFine(s, i)) && (forall t :: TaskJobFine(s, t))
  }

  /** A cancellation goes by the job id of the stored row it read, and removing the job takes exactly that one
      out of the waiting jobs; without a job id nothing is removed. */
  lemma CancelTakesTheJob(s: State, t: TaskId, i: ImportId)
    requires Enabled(s, Control(t, CancelRead(i)))
    ensures i in s.rows && s.rows[i].status == Queued
    ensures var s' := Step(s, Control(t, CancelRead(i)));
      && s'.jobs == s.jobs && Enabled(s', Control(t, RemoveJob))
      && Step(s', Control(t, RemoveJob)).jobs ==
           if s.rows[i].jobId.Some? then s.jobs - {s.rows[i].jobId.value} else s.jobs
  {
  }

  /** The job ids a step leaves in its row and task are the ones it found, made or was given. */
  lemma MoveJobs(l: Local, free: bool, i: ImportId, a: Action, j: JobId)
    requires Ready(l, a)
    ensures var l' := Move(l, free, i, a);
      var found := || (l.row.Some? && l.row.value.jobId == Some(j))
                   || (Carries(l.task) && l.task.value.job == j)
                   || (l.task.Some? && l.task.value.Cancelling? && l.task.value.jobId == Some(j))
                   || (a.Enqueue? && a.enqueue.EnqueueOk? && a.enqueue.job == j)
                   || (a.Work? && a.work.Complete? && a.work.local == Some(j))
                   || (a.Work? && a.work.SaveFailed? && a.work.local == Some(j));
      && (l'.row.Some? && l'.row.value.jobId == Some(j) ==> found)
      && (Carries(l'.task) && l'.task.value.job == j ==> found)
      && (l'.task.Some? && l'.task.value.Cancelling? && l'.task.value.jobId == Some(j) ==> found)
  {
  }

  lemma StepKeepsRowJobs(s: State, a: Action, i: ImportId)
    requires Enabled(s, a) && StartsExclusive(s) && JobIdsFine(s)
    ensures RowJobFine(Step(s, a), i)
  {
    var about, l' := About(s, a), Moved(s, a);
    StepLeaves(s, a);
    StepJobs(s, a);
    StepStays(s, a);
    assert RowJobFine(s, i) && RowJobFine(s, about) && TaskJobFine(s, a.t);
    if i == about && l'.row.Some? && l'.row.value.jobId.Some? {
      MoveJobs(Read(s, a.t, i), IndexFree(s, i), i, a, l'.row.value.jobId.value);
    }
  }

  lemma OwnTaskJobs(s: State, a: Action)
    requires Enabled(s, a) && StartsExclusive(s) && JobIdsFine(s)
    ensures TaskJobFine(Step(s, a), a.t)
  {
    var i, l' := About(s, a), Moved(s, a);
    StepLeaves(s, a);
    StepJobs(s, a);
    StepStays(s, a);
    assert RowJobFine(s, i) && TaskJobFine(s, a.t);
    if Carries(l'.task) {
      MoveJobs(Read(s, a.t, i), IndexFree(s, i), i, a, l'.task.value.job);
    }
    if l'.task.Some? && l'.task.value.Cancelling? && l'.task.value.jobId.Some? {
      MoveJobs(Read(s, a.t, i), IndexFree(s, i), i, a, l'.task.value.jobId.value);
    }
  }

  lemma OtherTaskJobs(s: State, a: Action, t: TaskId)
    requires Enabled(s, a) && JobIdsFine(s) && t != a.t
    ensures TaskJobFine(Step(s, a), t)
  {
    StepLeaves(s, a);
    StepJobs(s, a);
    assert TaskJobFine(s, t);
  }

  lemma StepKeepsJobIds(s: State, a: Action)
    requires Enabled(s, a) && StartsExclusive(s) && JobIdsFine(s)
    ensures JobIdsFine(Step(s, a))
  {
    forall i ensures RowJobFine(Step(s, a), i) {
      StepKeepsRowJobs(s, a, i);
    }
    forall t ensures TaskJobFine(Step(s, a), t) {
      if t == a.t {
        OwnTaskJobs(s, a);
      } else {
        OtherTaskJobs(s, a, t);
      }
    }
  }

  // Somebody will act on a queued row.

  /** A worker with its job, a create or retry between its QUEUED write and the outcome of its
      enqueue, or a cancel between removing the job and its conditional update. */
  predicate Attends(task: Option<Task>, i: ImportId) {
    task.Some? && !task.value.Checked? && task.value.i == i &&
    (task.value.Delivered? || task.value.Enqueueing? || task.value.JobRemoved?
     || (task.value.Failing? && task.value.cause == Lost))
  }

  ghost predicate Attended(s: State, i: ImportId) {
    || (exists j :: JobAt(s, j) == Some(i))
    || (exists t :: Attends(TaskAt(s, t), i))
  }

  ghost predicate NotStranded(s: State, i: ImportId) {
    Has(RowAt(s, i), Queued) ==> Attended(s, i)
  }

  ghost predicate NoneStranded(s: State) { forall i :: NotStranded(s, i) }

  /** A row turns QUEUED under a task that attends to it; a task stops attending only when it puts a
      job in its place or the row is not QUEUED; and whoever takes a job out attends. */
  lemma MoveAttends(l: Local, free: bool, i: ImportId, a: Action)
    requires Ready(l, a) && !(a.Control? && a.control.Crash?)
    requires l.task.Some? && !l.task.value.Checked? ==> l.task.value.i == i
    ensures var l' := Move(l, free, i, a);
      Has(l'.row, Queued) ==>
        || Attends(l'.task, i)
        || (a.Enqueue? && a.enqueue.EnqueueOk?)
        || (Has(l.row, Queued) && !Attends(l.task, i) && JobTaken(l, a) == None)
  {
  }

  lemma StepKeepsAttended(s: State, a: Action, i: ImportId)
    requires Enabled(s, a) && !(a.Control? && a.control.Crash?)
    requires StartsExclusive(s) && JobIdsFine(s) && NotStranded(s, i)
    ensures NotStranded(Step(s, a), i)
  {
    var s', l := Step(s, a), Read(s, a.t, About(s, a));
    StepLeaves(s, a);
    StepJobs(s, a);
    StepStays(s, a);
    MoveAttends(l, IndexFree(s, About(s, a)), About(s, a), a);
    if Has(RowAt(s', i), Queued) {
      if i == About(s, a) && Attends(TaskAt(s', a.t), i) {
      } else if i == About(s, a) && a.Enqueue? && a.enqueue.EnqueueOk? {
        assert JobAt(s', a.enqueue.job) == Some(i);
      } else if j :| JobAt(s, j) == Some(i) {
        assert JobFine(s, j) && TaskJobFine(s, a.t);
        assert JobAt(s', j) == Some(i);
      } else {
        var t :| Attends(TaskAt(s, t), i);
        assert Attends(TaskAt(s', t), i);
      }
    }
  }

  /** The last one to attend to a queued import dies. */
  ghost predicate Strands(s: State, a: Action) {
    var i := About(s, a);
    && a.Control? && a.control.Crash? && Has(RowAt(s, i), Queued)
    && (forall j :: JobAt(s, j) != Some(i))
    && (forall t :: Attends(TaskAt(s, t), i) ==> t == a.t)
  }

  lemma CrashStrandsExactly(s: State, a: Action, i: ImportId)
    requires Enabled(s, a) && a.Control? && a.control.Crash? && NotStranded(s, i)
    ensures NotStranded(Step(s, a), i) <==> !(i == About(s, a) && Strands(s, a))
  {
    var s' := Step(s, a);
    StepLeaves(s, a);
    StepJobs(s, a);
    StepStays(s, a);
    assert forall t :: Attends(TaskAt(s', t), i) <==> t != a.t && Attends(TaskAt(s, t), i);
    assert forall j :: JobAt(s', j) == JobAt(s, j);
  }

  /** One step from a state in which nothing is stranded: an import is stranded exactly if the last one to
      attend to it dies. */
  lemma StepStrandsExactly(s: State, a: Action)
    requires Enabled(s, a) && StartsExclusive(s) && JobIdsFine(s) && NoneStranded(s)
    ensures NoneStranded(Step(s, a)) <==> !Strands(s, a)
  {
    forall i ensures NotStranded(Step(s, a), i) <==> !(i == About(s, a) && Strands(s, a)) {
      assert NotStranded(s, i);
      if a.Control? && a.control.Crash? {
        CrashStrandsExactly(s, a, i);
      } else {
        StepKeepsAttended(s, a, i);
      }
    }
    assert NotStranded(Step(s, a), About(s, a)) <==> !Strands(s, a);
  }

  lemma {:induction false} RunKeepsJobIds(h: Assumed, run: seq<Action>)
    requires After(h, run).Some?
    ensures JobIdsFine(After(h, run).value)
  {
    if run != [] {
      RunKeepsJobIds(h, run[..|run| - 1]);
      CreatorsAreAlone(h, run[..|run| - 1]);
      StepKeepsJobIds(After(h, run[..|run| - 1]).value, run[|run| - 1]);
    }
  }

  ghost predicate NoneStrandedThroughout(h: Assumed, run: seq<Action>)
    requires After(h, run).Some?
  {
    NoneStranded(After(h, run).value) && (run != [] ==> NoneStrandedThroughout(h, run[..|run| - 1]))
  }

  ghost predicate NeverStrands(h: Assumed, run: seq<Action>)
    requires After(h, run).Some?
  {
    run != [] ==> NeverStrands(h, run[..|run| - 1]) && !Strands(After(h, run[..|run| - 1]).value, run[|run| - 1])
  }

  /** Whatever dies: no QUEUED import is ever stranded exactly in the runs in which never the last one to
      attend to one dies. */
  lemma {:induction false} NoneStrandedExactly(h: Assumed, run: seq<Action>)
    requires After(h, run).Some?
    ensures NoneStrandedThroughout(h, run) <==> NeverStrands(h, run)
  {
    if run != [] {
      var prefix := run[..|run| - 1];
      NoneStrandedExactly(h, prefix);
      CreatorsAreAlone(h, prefix);
      RunKeepsJobIds(h, prefix);
      if NoneStrandedThroughout(h, prefix) {
        StepStrandsExactly(After(h, prefix).value, run[|run| - 1]);
      }
    }
  }

  lemma {:induction false} SteadyRunsNeverStrand(h: Assumed, run: seq<Action>)
    requires h.steady && After(h, run).Some?
    ensures NeverStrands(h, run)
  {
    if run != [] {
      SteadyRunsNeverStrand(h, run[..|run| - 1]);
    }
  }

  /** While no process dies, in every reachable state a QUEUED import has a waiting job, or a task that is
      about to claim, enqueue, fail or cancel it - whatever cancels, retries and refused enqueues raced
      before. */
  lemma NoImportIsStranded(h: Assumed, run: seq<Action>, i: ImportId)
    requires h.steady && After(h, run).Some?
    requires Has(RowAt(After(h, run).value, i), Queued)
    ensures var s := After(h, run).value;
      || (exists j :: JobAt(s, j) == Some(i))
      || (exists t :: Attends(TaskAt(s, t), i))
  {
    SteadyRunsNeverStrand(h, run);
    NoneStrandedExactly(h, run);
    assert NotStranded(After(h, run).value, i);
  }
}
