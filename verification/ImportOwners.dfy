/** What holds of imports in every run, whatever fails: the creating call is alone with its
    import until it has queued or started it, and claims never outnumber queueings. */
module ImportOwners {
  import opened OrderedMaps
  import opened ImportStatus
  import opened ImportProtocol

  predicate On(task: Option<Task>, i: ImportId) {
    task.Some? && !task.value.Checked? && task.value.i == i
  }

  /** The creating call, before the import was queued or started. */
  predicate Starting(task: Option<Task>) {
    task.Some? &&
    (task.value.Created? || task.value.Preparing? || task.value.Prepared?
     || (task.value.Failing? && task.value.cause == Early))
  }

  /** What a step leaves: its own task, row and history as computed, all others as they were. */
  ghost predicate Left(s: State, s': State, t: TaskId, i: ImportId, l: Local) {
    && (forall u :: TaskAt(s', u) == if u == t then l.task else TaskAt(s, u))
    && (forall j :: RowAt(s', j) == if j == i then l.row else RowAt(s, j))
    && (forall j :: BookAt(s', j) == if j == i then l.book else BookAt(s, j))
  }

  ghost function Moved(s: State, a: Action): Local
    requires Enabled(s, a)
  {
    Move(Read(s, a.t, About(s, a)), IndexFree(s, About(s, a)), About(s, a), a)
  }

  lemma WriteLeaves(s: State, t: TaskId, i: ImportId, l: Local)
    ensures Left(s, Write(s, t, i, l), t, i, l)
  {
  }

  lemma StepLeaves(s: State, a: Action)
    requires Enabled(s, a)
    ensures Left(s, Step(s, a), a.t, About(s, a), Moved(s, a))
  {
    WriteLeaves(s, a.t, About(s, a), Moved(s, a));
  }

  /** Jobs are made for good, and a waiting job stays until it is delivered or removed. */
  lemma StepJobs(s: State, a: Action)
    requires Enabled(s, a)
    ensures var s' := Step(s, a); var made := a.Enqueue? && a.enqueue.EnqueueOk?;
      && (forall j :: MadeAt(s', j) == if made && j == a.enqueue.job then Some(About(s, a)) else MadeAt(s, j))
      && (forall j :: JobAt(s', j) ==
            if made && j == a.enqueue.job then Some(About(s, a))
            else if JobTaken(Read(s, a.t, About(s, a)), a) == Some(j) then None
            else JobAt(s, j))
  {
  }

  // The creating call.

  predicate StartFits(task: Option<Task>, row: Option<Row>) {
    && (task.Some? && task.value.Created? ==> Has(row, Uploaded))
    && (task.Some? && (task.value.Preparing? || task.value.Prepared?) ==> Has(row, Validating))
    && (Starting(task) ==> Has(row, Uploaded) || Has(row, Validating))
  }

  /** A task knows its import; its row is where its creating call left it. */
  predicate TaskFine(s: State, t: TaskId) {
    var task := TaskAt(s, t);
    && (task.Some? && !task.value.Checked? ==> BookAt(s, task.value.i).Some?)
    && (Starting(task) ==> StartFits(task, RowAt(s, task.value.i)))
    && (task.Some? && task.value.Retrying? ==> task.value.from in {Failed, Cancelled})
  }

  predicate Alone(s: State, t: TaskId, u: TaskId) {
    t != u && Starting(TaskAt(s, t)) ==> !On(TaskAt(s, u), TaskAt(s, t).value.i)
  }

  predicate RowFine(s: State, i: ImportId) {
    RowAt(s, i).Some? ==> BookAt(s, i).Some? && RowAt(s, i).value.key == BookAt(s, i).value.key
  }

  predicate JobFine(s: State, j: JobId) {
    && (JobAt(s, j).Some? ==> MadeAt(s, j) == JobAt(s, j))
    && (MadeAt(s, j).Some? ==> BookAt(s, MadeAt(s, j).value).Some?)
  }

  predicate JobLater(s: State, j: JobId, t: TaskId) {
    Starting(TaskAt(s, t)) ==> MadeAt(s, j) != Some(TaskAt(s, t).value.i)
  }

  ghost predicate TasksFine(s: State) { forall t :: TaskFine(s, t) }

  ghost predicate StartsAlone(s: State) { forall t, u :: Alone(s, t, u) }

  ghost predicate RowsFine(s: State) { forall i :: RowFine(s, i) }

  ghost predicate JobsFine(s: State) { forall j :: JobFine(s, j) }

  ghost predicate JobsLater(s: State) { forall j, t :: JobLater(s, j, t) }

  ghost predicate StartsExclusive(s: State) {
    TasksFine(s) && StartsAlone(s) && RowsFine(s) && JobsFine(s) && JobsLater(s)
  }

  /** One step of one task, on values: no other task is looked at. */
  lemma MoveStarts(l: Local, free: bool, i: ImportId, a: Action)
    requires Ready(l, a) && (a.Create? && a.create.Insert? ==> a.create.i == i)
    requires StartFits(l.task, l.row)
    requires l.task.Some? && !l.task.value.Checked? ==> l.task.value.i == i
    ensures var l' := Move(l, free, i, a);
      && StartFits(l'.task, l'.row)
      && (Starting(l'.task) ==> Starting(l.task) || (a.Create? && a.create.Insert?))
      && (l'.task.Some? && l'.task.value.Retrying? ==> l'.task.value.from in {Failed, Cancelled})
  {
  }

  /** The step's task stays on the import the step is about; a task that just starts changes no row. */
  lemma MoveStays(l: Local, free: bool, i: ImportId, a: Action)
    requires Ready(l, a)
    requires a.Create? && a.create.Insert? ==> a.create.i == i
    requires a.Control? && a.control.RetryRead? ==> a.control.i == i
    requires a.Control? && a.control.CancelRead? ==> a.control.i == i
    requires a.Control? && a.control.DeleteRead? ==> a.control.i == i
    requires l.task.Some? && !l.task.value.Checked? ==> l.task.value.i == i
    ensures var l' := Move(l, free, i, a);
      && (l'.task.Some? && !l'.task.value.Checked? ==> l'.task.value.i == i)
      && (l.book.Some? ==>
            l'.book.Some? && (!(a.Create? && a.create.Insert?) ==> l'.book.value.key == l.book.value.key))
      && (l.task == None ==> l'.row == l.row && l'.book == l.book)
  {
  }

  lemma StepStays(s: State, a: Action)
    requires Enabled(s, a)
    ensures var i := About(s, a);
      var l := Read(s, a.t, i);
      var l' := Moved(s, a);
      && (l'.task.Some? && !l'.task.value.Checked? ==> l'.task.value.i == i)
      && (l.book.Some? ==>
            l'.book.Some? && (!(a.Create? && a.create.Insert?) ==> l'.book.value.key == l.book.value.key))
      && (l.task == None || l.task.value.Checked? || l.task.value.i == i)
      && (l.task == None ==> l'.row == l.row && l'.book == l.book)
  {
    MoveStays(Read(s, a.t, About(s, a)), IndexFree(s, About(s, a)), About(s, a), a);
  }

  lemma StepKeepsTasksFine(s: State, a: Action)
    requires Enabled(s, a) && StartsExclusive(s)
    ensures TasksFine(Step(s, a))
  {
    var s', i, l := Step(s, a), About(s, a), Read(s, a.t, About(s, a));
    StepLeaves(s, a);
    StepStays(s, a);
    assert TaskFine(s, a.t) && RowFine(s, i);
    if a.Work? && a.work.Deliver? {
      assert JobFine(s, a.work.job);
    }
    MoveStarts(l, IndexFree(s, i), i, a);
    forall u ensures TaskFine(s', u) {
      assert TaskFine(s, u) && Alone(s, u, a.t);
    }
  }

  lemma StepKeepsStartsAlone(s: State, a: Action)
    requires Enabled(s, a) && StartsExclusive(s)
    ensures StartsAlone(Step(s, a))
  {
    var s', i := Step(s, a), About(s, a);
    StepLeaves(s, a);
    StepStays(s, a);
    assert TaskFine(s, a.t) && RowFine(s, i);
    MoveStarts(Read(s, a.t, i), IndexFree(s, i), i, a);
    forall t, u ensures Alone(s', t, u) {
      assert Alone(s, t, u) && TaskFine(s, t) && TaskFine(s, u);
      if a.Work? && a.work.Deliver? {
        assert JobFine(s, a.work.job) && JobLater(s, a.work.job, t);
      }
    }
  }

  lemma StepKeepsRowsFine(s: State, a: Action)
    requires Enabled(s, a) && StartsExclusive(s)
    ensures RowsFine(Step(s, a))
  {
    var s', i := Step(s, a), About(s, a);
    StepLeaves(s, a);
    StepStays(s, a);
    assert TaskFine(s, a.t) && RowFine(s, i);
    forall j ensures RowFine(s', j) {
      assert RowFine(s, j);
    }
  }

  lemma StepKeepsJobs(s: State, a: Action)
    requires Enabled(s, a) && StartsExclusive(s)
    ensures JobsFine(Step(s, a)) && JobsLater(Step(s, a))
  {
    var s', i := Step(s, a), About(s, a);
    StepLeaves(s, a);
    StepJobs(s, a);
    StepStays(s, a);
    assert TaskFine(s, a.t);
    MoveStarts(Read(s, a.t, i), IndexFree(s, i), i, a);
    forall j ensures JobFine(s', j) {
      assert JobFine(s, j);
    }
    forall j, t ensures JobLater(s', j, t) {
      assert JobLater(s, j, t) && JobFine(s, j) && Alone(s, t, a.t);
    }
  }

  lemma StepKeepsStarts(s: State, a: Action)
    requires Enabled(s, a) && StartsExclusive(s)
    ensures StartsExclusive(Step(s, a))
  {
    StepKeepsTasksFine(s, a);
    StepKeepsStartsAlone(s, a);
    StepKeepsRowsFine(s, a);
    StepKeepsJobs(s, a);
  }

  /** In every run the creating call has its import to itself until it is queued or started. */
  lemma {:induction false} CreatorsAreAlone(h: Assumed, run: seq<Action>)
    requires After(h, run).Some?
    ensures StartsExclusive(After(h, run).value)
  {
    if run != [] {
      CreatorsAreAlone(h, run[..|run| - 1]);
      StepKeepsStarts(After(h, run[..|run| - 1]).value, run[|run| - 1]);
    }
  }

  // Claims.

  /** Every claim and every cancellation used up one queueing, and the present one is not used up. */
  predicate CountFine(s: State, i: ImportId) {
    var book := BookAt(s, i);
    book.Some? ==>
      book.value.claims + book.value.cancels + (if Has(RowAt(s, i), Queued) then 1 else 0) <= book.value.queued
  }

  ghost predicate CountsFine(s: State) { forall i :: CountFine(s, i) }

  /** One step adds at most one claim, cancellation or queueing, and only a queued row is used up. */
  lemma MoveCounts(l: Local, free: bool, i: ImportId, a: Action)
    requires Ready(l, a) && StartFits(l.task, l.row)
    requires l.row.Some? ==> l.book.Some?
    requires l.task.Some? && !l.task.value.Checked? ==> l.book.Some?
    requires l.task.Some? && l.task.value.Retrying? ==> l.task.value.from in {Failed, Cancelled}
    requires l.book.Some? ==>
      l.book.value.claims + l.book.value.cancels + (if Has(l.row, Queued) then 1 else 0) <= l.book.value.queued
    ensures var l' := Move(l, free, i, a);
      l'.book.Some? ==>
        l'.book.value.claims + l'.book.value.cancels + (if Has(l'.row, Queued) then 1 else 0) <= l'.book.value.queued
  {
  }

  /** A history counts what the stored row shows: one queueing whenever it becomes QUEUED, one claim or
      cancellation whenever it leaves QUEUED for PROCESSING or CANCELLED, one commit per COPY. */
  predicate Records(b: Book, b': Book, row: Option<Row>, row': Option<Row>, commits: bool) {
    && b'.key == b.key
    && b'.queued == b.queued + (if !Has(row, Queued) && Has(row', Queued) then 1 else 0)
    && b'.claims == b.claims + (if Has(row, Queued) && Has(row', Processing) then 1 else 0)
    && b'.cancels == b.cancels + (if Has(row, Queued) && Has(row', Cancelled) then 1 else 0)
    && b'.commits == b.commits + (if commits then 1 else 0)
  }

  lemma MoveRecords(l: Local, free: bool, i: ImportId, a: Action)
    requires Ready(l, a) && StartFits(l.task, l.row) && l.book.Some? && !(a.Create? && a.create.Insert?)
    requires l.task.Some? && l.task.value.Retrying? ==> l.task.value.from in {Failed, Cancelled}
    ensures Move(l, free, i, a).book.Some?
    ensures Records(l.book.value, Move(l, free, i, a).book.value, l.row, Move(l, free, i, a).row,
                    a.Work? && a.work.Commit?)
  {
  }

  /** Every step of every run keeps every import's history a true record. */
  lemma HistoriesRecordTheRows(h: Assumed, run: seq<Action>, i: ImportId)
    requires run != [] && After(h, run).Some? && i in After(h, run[..|run| - 1]).value.books
    ensures i in After(h, run).value.books
    ensures var s, s', a := After(h, run[..|run| - 1]).value, After(h, run).value, run[|run| - 1];
      Records(s.books[i], s'.books[i], RowAt(s, i), RowAt(s', i), a.Work? && a.work.Commit? && About(s, a) == i)
  {
    var s, s', a := After(h, run[..|run| - 1]).value, After(h, run).value, run[|run| - 1];
    CreatorsAreAlone(h, run[..|run| - 1]);
    StepLeaves(s, a);
    assert TaskFine(s, a.t);
    assert BookAt(s', i) == if i == About(s, a) then Moved(s, a).book else BookAt(s, i);
    if i == About(s, a) {
      MoveRecords(Read(s, a.t, i), IndexFree(s, i), i, a);
    }
  }

  lemma StepKeepsCounts(s: State, a: Action)
    requires Enabled(s, a) && StartsExclusive(s) && CountsFine(s)
    ensures CountsFine(Step(s, a))
  {
    var s', i := Step(s, a), About(s, a);
    StepLeaves(s, a);
    assert TaskFine(s, a.t) && CountFine(s, i) && RowFine(s, i);
    StepStays(s, a);
    MoveCounts(Read(s, a.t, i), IndexFree(s, i), i, a);
    forall j ensures CountFine(s', j) {
      assert CountFine(s, j);
    }
  }

  /** However many stale or repeated jobs there are, and whatever fails, claims and cancellations
      and the present queueing never outnumber the times an import entered QUEUED. */
  lemma ClaimsNeverExceedQueueings(h: Assumed, run: seq<Action>)
    requires After(h, run).Some?
    ensures var s := After(h, run).value; forall i :: i in s.books ==>
      s.books[i].claims + s.books[i].cancels + (if Has(RowAt(s, i), Queued) then 1 else 0) <= s.books[i].queued
  {
    RunKeepsCounts(h, run);
    var s := After(h, run).value;
    forall i | i in s.books
      ensures s.books[i].claims + s.books[i].cancels + (if Has(RowAt(s, i), Queued) then 1 else 0) <= s.books[i].queued
    {
      assert CountFine(s, i);
    }
  }

  lemma {:induction false} RunKeepsCounts(h: Assumed, run: seq<Action>)
    requires After(h, run).Some?
    ensures CountsFine(After(h, run).value)
  {
    if run != [] {
      RunKeepsCounts(h, run[..|run| - 1]);
      CreatorsAreAlone(h, run[..|run| - 1]);
      StepKeepsCounts(After(h, run[..|run| - 1]).value, run[|run| - 1]);
    }
  }
}
