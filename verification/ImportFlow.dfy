/** What creators, workers and controls may do next and what that leads to, told by where each of them stands; the
    step system tells it by statement. */
module ImportFlow {
  import opened OrderedMaps
  import opened ImportStatus
  import opened ImportProtocol
  import opened ImportOwners

  /** An import may be retried, cancelled or removed from these statuses; a partially completed one from none. */
  lemma ControlsStart(row: Option<Row>, i: ImportId)
    ensures ControlReady(None, row, RetryRead(i)) <==> row.Some? && row.value.status in {Failed, Cancelled}
    ensures ControlReady(None, row, CancelRead(i)) <==> row.Some? && row.value.status == Queued
    ensures ControlReady(None, row, DeleteRead(i)) <==>
      row.Some? && row.value.status !in {Uploaded, Validating, Queued, Processing, PartiallyCompleted}
  {
  }

  /** What a task may do besides dying, by where it stands. */
  predicate Offers(task: Task, a: Action) {
    match task
    case Checked(_) => a.Create? && a.create.Insert?
    case Created(_, _) => a.Create? && (a.create.Validate? || a.create.CreateFails?)
    case Preparing(_, _) => a.Create? && (a.create.PrepareDone? || a.create.CreateFails?)
    case Prepared(_, _) => a.Create? && (a.create == Admit(None) || a.create.CreateFails?)
    case Enqueueing(_, _) => a.Enqueue? && (a.enqueue.EnqueueOk? || a.enqueue.EnqueueFails?)
    case Attaching(_, _, _) => a.Enqueue? && (a.enqueue.Attach? || a.enqueue.AttachFails?)
    case Rereading(_, _, _) => a.Enqueue? && (a.enqueue.Reread? || a.enqueue.RereadFails?)
    case Unattaching(_, _) => a.Enqueue? && a.enqueue.Unattach?
    case Attached(_, _) => a.Enqueue? && (a.enqueue.AuditOk? || a.enqueue.AuditFails?)
    case Failing(_, _) => a.Work? && a.work.SaveFailed?
    case Delivered(_) => a.Work? && a.work.Claim?
    case Executing(_) => a.Work? && (a.work.EntityGone? || a.work.ExecutionFails? || a.work.Commit?)
    case Committed(_, partial) => a.Work? && (a.work.Complete? || (partial && a.work.ErrorRowsFail?))
    case Retrying(_, _) => a.Control? && a.control.RetryWrite?
    case Cancelling(_, jobId) =>
      a.Control? && (a.control.RemoveJob? || (jobId != None && a.control.RemoveJobFails?))
    case JobRemoved(_) => a.Control? && a.control.CancelWrite?
    case Deleting(_) => a.Control? && a.control.DeleteWrite?
  }

  lemma TasksOffer(l: Local, a: Action)
    requires l.task.Some?
    ensures Ready(l, a) <==> Offers(l.task.value, a) || (a.Control? && a.control.Crash?)
  {
  }

  /** The creating call: a file is inserted, validated, prepared, and then queued or executed at once; wherever
      it fails on the way, or the index refuses it, it turns to saving FAILED, with no job to lose. */
  lemma CreatorsGoOn(l: Local, free: bool, a: Action)
    requires l.task.Some? && Starting(l.task) && !l.task.value.Failing? && a.Create? && Ready(l, a)
    ensures var t, l' := l.task.value, CreateMove(l, free, a.create);
      && (a.create.CreateFails? || (t.Prepared? && !free) ==>
            l'.task == Some(Failing(t.i, Early)) && l'.row == l.row)
      && (t.Created? && a.create.Validate? ==> l'.task == Some(Preparing(t.i, t.queued)) && Has(l'.row, Validating))
      && (t.Preparing? && a.create.PrepareDone? ==> l'.task == Some(Prepared(t.i, t.queued)) && l'.row == l.row)
      && (t.Prepared? && free && a.create.Admit? && t.queued ==>
            l'.task == Some(Enqueueing(t.i, true)) && Has(l'.row, Queued))
      && (t.Prepared? && free && a.create.Admit? && !t.queued ==>
            l'.task == Some(Executing(t.i)) && Has(l'.row, Processing))
  {
  }

  /** Enqueueing, of a creating call or a retry: the job is added, its id attached where the row is still QUEUED,
      and else the row read again. What cannot be enqueued, attached or read leads to saving FAILED, after
      removing the job if there is one. Only a creating call writes an audit record at the end. */
  lemma EnqueueingGoesOn(l: Local, e: EnqueueEvent)
    requires EnqueueReady(l.task, e)
    ensures var t, l' := l.task.value, EnqueueMove(l, e);
      && (e.EnqueueOk? ==> l'.task == Some(Attaching(t.i, t.creates, e.job)))
      && (e.EnqueueFails? ==> l'.task == Some(Failing(t.i, Lost)))
      && (e.Attach? && Has(l.row, Queued) ==>
            && l'.row == Some(Row(l.row.value.key, Queued, Some(t.job)))
            && l'.task == if t.creates then Some(Attached(t.i, Queued)) else None)
      && (e.Attach? && !Has(l.row, Queued) ==> l'.task == Some(Rereading(t.i, t.creates, t.job)))
      && (e.Reread? && l.row == None ==> l'.task == Some(Unattaching(t.i, t.job)))
      && (e.Reread? && l.row.Some? ==>
            l'.task == if t.creates then Some(Attached(t.i, l.row.value.status)) else None)
      && (e.AttachFails? || e.RereadFails? ==> l'.task == Some(Unattaching(t.i, t.job)))
      && (e.Unattach? ==> l'.task == Some(Failing(t.i, Lost)))
      && (!(e.Attach? && Has(l.row, Queued)) ==> l'.row == l.row)
  {
  }

  /** A creating call whose audit record fails saves FAILED unless it has seen its import completed or cancelled. */
  lemma AuditsGoOn(l: Local, e: EnqueueEvent)
    requires EnqueueReady(l.task, e) && l.task.value.Attached?
    ensures EnqueueMove(l, e).task ==
      if e.AuditFails? && l.task.value.local !in {Completed, PartiallyCompleted, Cancelled} then
        Some(Failing(l.task.value.i, Lost))
      else None
  {
  }

  /** A worker: one that finds its import QUEUED claims it, and else is done; an execution that fails, or whose
      row errors cannot be saved, turns to saving FAILED; one whose import is gone is done. */
  lemma WorkersGoOn(l: Local, free: bool, i: ImportId, e: WorkEvent)
    requires WorkReady(l.task, e) && !e.Deliver? && l.task.value.i == i
    ensures var l' := WorkMove(l, free, i, e);
      && (e.Claim? && Has(l.row, Queued) ==> l'.task == Some(Executing(i)) && Has(l'.row, Processing))
      && (e.Claim? && !Has(l.row, Queued) ==> l'.task == None && l'.row == l.row)
      && (e.EntityGone? ==> l'.task == None && l'.row == l.row)
      && (e.ExecutionFails? || e.ErrorRowsFail? ==> l'.task == Some(Failing(i, Run)) && l'.row == l.row)
      && (e.Commit? ==> l'.task == Some(Committed(i, e.partial)) && l'.row == l.row)
      && (e.Complete? && free ==>
            l'.task == None && Has(l'.row, if l.task.value.partial then PartiallyCompleted else Completed))
      && (e.Complete? && !free ==> l'.task == None && l'.row == l.row)
      && (e.SaveFailed? ==> l'.task == None && Has(l'.row, Failed))
  {
  }

  /** Retries, cancellations and removals act exactly if the row still is what they read, except that a removal
      deletes whatever is there; a cancellation whose job cannot be removed leaves the row as it is. */
  lemma ControlsGoOn(l: Local, free: bool, e: ControlEvent)
    requires ControlReady(l.task, l.row, e) && l.task.Some?
    ensures var t, l' := l.task.value, ControlMove(l, free, e);
      && (e.RetryWrite? && free && Has(l.row, t.from) ==>
            l'.task == Some(Enqueueing(t.i, false)) && Has(l'.row, Queued))
      && (e.RetryWrite? && !(free && Has(l.row, t.from)) ==> l'.task == None && l'.row == l.row)
      && (e.RemoveJob? ==> l'.task == Some(JobRemoved(t.i)) && l'.row == l.row)
      && (e.RemoveJobFails? ==> l'.task == None && l'.row == l.row && l'.book == l.book)
      && (e.CancelWrite? && Has(l.row, Queued) ==> l'.task == None && Has(l'.row, Cancelled))
      && (e.CancelWrite? && !Has(l.row, Queued) ==> l'.task == None && l'.row == l.row)
      && (e.DeleteWrite? ==> l'.task == None && l'.row == None)
      && (e.Crash? ==> l'.task == None && l'.row == l.row && l'.book == l.book)
  {
  }

  /** A save from a task's own copy keeps the import's key, and a conditional update also the job id. */
  lemma KeysStay(l: Local, free: bool, i: ImportId, a: Action)
    requires Ready(l, a) && !(a.Create? && a.create.Insert?) && l.row.Some? && l.book.Some?
    requires l.row.value.key == l.book.value.key
    ensures var l' := Move(l, free, i, a);
      && (l'.row.Some? ==> l'.row.value.key == l.row.value.key)
      && (l'.row.Some? && l'.row.value.jobId != l.row.value.jobId ==>
            (a.Enqueue? && a.enqueue.Attach?) || a.Create? || (a.Work? && (a.work.Complete? || a.work.SaveFailed?)))
  {
  }

  // Why FAILED is about to be saved.

  /** An enqueue, from the QUEUED write on. */
  predicate Enqueues(task: Option<Task>) {
    task.Some? && (task.value.Enqueueing? || task.value.Attaching? || task.value.Rereading?
                   || task.value.Unattaching? || task.value.Attached?)
  }

  /** A task comes to save FAILED early as a creating call, for a lost enqueue as an enqueue, and for a failed
      run from executing. */
  lemma CausesAreTold(h: Assumed, run: seq<Action>, a: Action)
    requires After(h, run).Some? && Permitted(h, After(h, run).value, a)
    ensures var s := After(h, run).value;
      var task, task' := TaskAt(s, a.t), TaskAt(Step(s, a), a.t);
      task'.Some? && task'.value.Failing? ==>
        && task.Some? && task'.value.i == task.value.i
        && (task'.value.cause == Early <==> Starting(task))
        && (task'.value.cause == Lost <==> Enqueues(task))
        && (task'.value.cause == Run <==> task.value.Executing? || task.value.Committed?)
  {
    var s := After(h, run).value;
    StepLeaves(s, a);
    CreatorsAreAlone(h, run);
    assert TaskFine(s, a.t);
  }

  /** The job of an enqueue that did not end well is removed from the queue exactly if removing it works; a
      worker takes the job it is given. */
  lemma JobsAreTaken(s: State, a: Action, j: JobId)
    requires Enabled(s, a) && j in s.jobs
    ensures j !in Step(s, a).jobs <==>
      || (a.Enqueue? && a.enqueue == Unattach(true) && s.tasks[a.t].job == j)
      || (a.Work? && a.work == Deliver(j))
      || (a.Control? && a.control.RemoveJob? && s.tasks[a.t].jobId == Some(j))
  {
    StepJobs(s, a);
  }
}
