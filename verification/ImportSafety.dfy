/** At most one COPY commits per file and target. Assumed are `quiet` and `booked`; the partial
    unique index is a guard on every write that queues, starts or completes an import. */
module ImportSafety {
  import opened OrderedMaps
  import opened ImportStatus
  import opened ImportProtocol
  import opened ImportOwners

  /** Tasks that execute an import. */
  predicate Owner(task: Option<Task>) {
    task.Some? && (task.value.Executing? || task.value.Committed? || (task.value.Failing? && task.value.cause == Run))
  }

  predicate Owns(task: Option<Task>, i: ImportId) {
    Owner(task) && task.value.i == i
  }

  // The invariants, on values.

  /** An owner's row is PROCESSING or deleted; it has committed exactly if it got past COPY. */
  predicate OwnerFits(l: Local) {
    Owner(l.task) ==>
      && (l.row == None || Has(l.row, Processing))
      && l.book.Some? && l.book.value.commits == if l.task.value.Committed? then 1 else 0
  }

  /** Completed rows have one commit, a running one at most one, all others none. */
  predicate CommitsFit(row: Option<Row>, book: Option<Book>) {
    row.Some? ==>
      book.Some? && book.value.commits in
        match row.value.status
        case Completed => {1}
        case PartiallyCompleted => {1}
        case Processing => {0, 1}
        case _ => {0}
  }

  /** The blind save of FAILED after a job could not be enqueued or attached. */
  predicate SavesLost(task: Option<Task>, a: Action) {
    a.Work? && a.work.SaveFailed? && task.Some? && task.value.Failing? && task.value.cause == Lost
  }

  predicate LosesRowErrors(a: Action) {
    a.Work? && a.work.ErrorRowsFail?
  }

  lemma MoveFits(l: Local, free: bool, i: ImportId, a: Action)
    requires Ready(l, a) && !LosesRowErrors(a) && (SavesLost(l.task, a) ==> l.book.Some? && l.book.value.commits == 0)
    requires StartFits(l.task, l.row) && OwnerFits(l) && CommitsFit(l.row, l.book)
    requires l.task.Some? && l.task.value.Retrying? ==> l.task.value.from in {Failed, Cancelled}
    requires l.task.Some? && !l.task.value.Checked? ==> l.task.value.i == i
    ensures var l' := Move(l, free, i, a);
      OwnerFits(l') && CommitsFit(l'.row, l'.book) && (Owner(l'.task) ==> l'.task.value.i == i)
  {
  }

  /** Under an owner the row stays PROCESSING or deleted, and nobody else commits. */
  lemma MoveRespectsOwner(l: Local, free: bool, i: ImportId, a: Action)
    requires Ready(l, a) && !SavesLost(l.task, a) && !(a.Create? && a.create.Insert?)
    requires !Owner(l.task) && !Starting(l.task) && (l.row == None || Has(l.row, Processing))
    requires l.task.Some? && l.task.value.Retrying? ==> l.task.value.from in {Failed, Cancelled}
    ensures var l' := Move(l, free, i, a);
      && (l'.row == None || Has(l'.row, Processing)) && !Owner(l'.task)
      && (l.book.Some? ==> l'.book.Some? && l'.book.value.commits == l.book.value.commits)
  {
  }

  // The invariants, on states.

  predicate OwnerFine(s: State, t: TaskId) {
    Owner(TaskAt(s, t)) ==> OwnerFits(Read(s, t, TaskAt(s, t).value.i))
  }

  /** An owner's row is PROCESSING or deleted. */
  predicate OwnerHolds(s: State, t: TaskId) {
    Owner(TaskAt(s, t)) ==>
      RowAt(s, TaskAt(s, t).value.i) == None || Has(RowAt(s, TaskAt(s, t).value.i), Processing)
  }

  predicate OneOwner(s: State, t: TaskId, u: TaskId) {
    t != u && Owner(TaskAt(s, t)) ==> !Owns(TaskAt(s, u), TaskAt(s, t).value.i)
  }

  predicate CommitsFine(s: State, i: ImportId) {
    CommitsFit(RowAt(s, i), BookAt(s, i))
  }

  predicate Taken(row: Option<Row>, key: Key) {
    row.Some? && row.value.key == key && Indexed(row.value.status)
  }

  /** The unique index: no two rows of one key carry an indexed status. */
  predicate IndexFine(s: State, i: ImportId, j: ImportId) {
    i != j && RowAt(s, i).Some? && Indexed(RowAt(s, i).value.status) ==> !Taken(RowAt(s, j), RowAt(s, i).value.key)
  }

  ghost predicate OwnersFine(s: State) { forall t :: OwnerFine(s, t) }

  ghost predicate OwnersHold(s: State) { forall t :: OwnerHolds(s, t) }

  ghost predicate OwnersUnique(s: State) { forall t, u :: OneOwner(s, t, u) }

  ghost predicate AllCommitsFine(s: State) { forall i :: CommitsFine(s, i) }

  ghost predicate IndexHolds(s: State) { forall i, j :: IndexFine(s, i, j) }

  ghost predicate Safe(s: State) {
    OwnersFine(s) && OwnersUnique(s) && AllCommitsFine(s)
  }

  /** What breaks safety: saving the row errors of a committed COPY fails, or a lost `fail` overwrites an
      import that has committed or is being executed. */
  ghost predicate Harms(s: State, a: Action) {
    || LosesRowErrors(a)
    || (SavesLost(TaskAt(s, a.t), a) &&
        ((BookAt(s, About(s, a)).Some? && BookAt(s, About(s, a)).value.commits > 0)
         || exists u :: Owns(TaskAt(s, u), About(s, a))))
  }

  lemma SafeOwnersHold(s: State)
    requires Safe(s)
    ensures OwnersHold(s)
  {
    forall t ensures OwnerHolds(s, t) {
      assert OwnerFine(s, t);
    }
  }

  lemma StepFits(s: State, a: Action)
    requires Enabled(s, a) && !Harms(s, a) && StartsExclusive(s) && Safe(s)
    ensures var i := About(s, a); var l := Read(s, a.t, i); var l' := Moved(s, a);
      && StartFits(l.task, l.row)
      && OwnerFits(l') && CommitsFit(l'.row, l'.book) && (Owner(l'.task) ==> l'.task.value.i == i)
  {
    var i := About(s, a);
    assert TaskFine(s, a.t) && OwnerFine(s, a.t) && CommitsFine(s, i);
    StepStays(s, a);
    MoveFits(Read(s, a.t, i), IndexFree(s, i), i, a);
  }

  /** An owner other than the step's task finds its import as it left it. */
  lemma OthersRespected(s: State, a: Action, u: TaskId)
    requires Enabled(s, a) && !SavesLost(TaskAt(s, a.t), a) && StartsExclusive(s) && OwnersHold(s) && OwnersUnique(s)
    requires u != a.t && Owns(TaskAt(s, u), About(s, a))
    ensures var l, l' := Read(s, a.t, About(s, a)), Moved(s, a);
      && (l'.row == None || Has(l'.row, Processing)) && !Owner(l'.task)
      && (l.book.Some? ==> l'.book.Some? && l'.book.value.commits == l.book.value.commits)
  {
    var i := About(s, a);
    StepStays(s, a);
    assert TaskFine(s, a.t) && TaskFine(s, u) && OwnerHolds(s, u) && OneOwner(s, u, a.t) && Alone(s, a.t, u);
    MoveRespectsOwner(Read(s, a.t, i), IndexFree(s, i), i, a);
  }

  lemma StepKeepsOwners(s: State, a: Action)
    requires Enabled(s, a) && !Harms(s, a) && StartsExclusive(s) && Safe(s)
    ensures OwnersFine(Step(s, a))
  {
    var s' := Step(s, a);
    SafeOwnersHold(s);
    StepLeaves(s, a);
    StepFits(s, a);
    forall u ensures OwnerFine(s', u) {
      assert OwnerFine(s, u);
      if u != a.t && Owns(TaskAt(s, u), About(s, a)) {
        OthersRespected(s, a, u);
      }
    }
  }

  lemma StepKeepsOwnersUnique(s: State, a: Action)
    requires Enabled(s, a) && !Harms(s, a) && StartsExclusive(s) && Safe(s)
    ensures OwnersUnique(Step(s, a))
  {
    var s' := Step(s, a);
    SafeOwnersHold(s);
    StepLeaves(s, a);
    StepFits(s, a);
    forall t, u ensures OneOwner(s', t, u) {
      assert OneOwner(s, t, u);
      if t != a.t && Owns(TaskAt(s, t), About(s, a)) {
        OthersRespected(s, a, t);
      }
      if u != a.t && Owns(TaskAt(s, u), About(s, a)) {
        OthersRespected(s, a, u);
      }
    }
  }

  lemma StepKeepsCommits(s: State, a: Action)
    requires Enabled(s, a) && !Harms(s, a) && StartsExclusive(s) && Safe(s)
    ensures AllCommitsFine(Step(s, a))
  {
    StepLeaves(s, a);
    StepFits(s, a);
    forall i ensures CommitsFine(Step(s, a), i) {
      assert CommitsFine(s, i);
    }
  }

  /** A row's status becomes indexed only when the index admits it. */
  lemma MoveIndexed(l: Local, free: bool, i: ImportId, a: Action)
    requires Ready(l, a)
    requires l.row.Some? ==> l.book.Some? && l.row.value.key == l.book.value.key
    requires l.task.Some? && !l.task.value.Checked? ==> l.book.Some?
    ensures var l' := Move(l, free, i, a);
      l'.row.Some? ==>
        && l'.book.Some? && l'.row.value.key == l'.book.value.key
        && (Indexed(l'.row.value.status) ==> free || (l.row.Some? && Indexed(l.row.value.status)))
  {
  }

  lemma StepKeepsIndex(s: State, a: Action)
    requires Enabled(s, a) && StartsExclusive(s) && IndexHolds(s)
    ensures IndexHolds(Step(s, a))
  {
    var s', i := Step(s, a), About(s, a);
    StepLeaves(s, a);
    StepStays(s, a);
    assert TaskFine(s, a.t) && RowFine(s, i);
    MoveIndexed(Read(s, a.t, i), IndexFree(s, i), i, a);
    forall j, k ensures IndexFine(s', j, k) {
      assert IndexFine(s, j, k) && IndexFine(s, k, j);
      if j == i != k {
        assert k in s.rows ==> RowAt(s, k) == Some(s.rows[k]);
      } else if k == i != j {
        assert j in s.rows ==> RowAt(s, j) == Some(s.rows[j]);
      }
    }
  }

  // Whole runs.

  lemma {:induction false} IndexedRowsAreUnique(h: Assumed, run: seq<Action>)
    requires After(h, run).Some?
    ensures IndexHolds(After(h, run).value)
  {
    if run != [] {
      IndexedRowsAreUnique(h, run[..|run| - 1]);
      CreatorsAreAlone(h, run[..|run| - 1]);
      StepKeepsIndex(After(h, run[..|run| - 1]).value, run[|run| - 1]);
    }
  }

  lemma LostRowErrorsHarm(s: State, a: Action)
    requires Enabled(s, a) && Safe(s) && LosesRowErrors(a)
    ensures !OwnerFine(Step(s, a), a.t)
  {
    StepLeaves(s, a);
    assert OwnerFine(s, a.t);
  }

  lemma LostCommitHarms(s: State, a: Action)
    requires Enabled(s, a) && SavesLost(TaskAt(s, a.t), a)
    requires BookAt(s, About(s, a)).Some? && BookAt(s, About(s, a)).value.commits > 0
    ensures !CommitsFine(Step(s, a), About(s, a))
  {
    StepLeaves(s, a);
  }

  lemma LostExecutionHarms(s: State, a: Action, u: TaskId)
    requires Enabled(s, a) && SavesLost(TaskAt(s, a.t), a) && Owns(TaskAt(s, u), About(s, a))
    ensures !OwnerFine(Step(s, a), u)
  {
    StepLeaves(s, a);
  }

  /** One step from a safe state: safety is kept exactly by the steps that do not harm. */
  lemma StepSafeExactly(s: State, a: Action)
    requires Enabled(s, a) && StartsExclusive(s) && Safe(s)
    ensures Safe(Step(s, a)) <==> !Harms(s, a)
  {
    if !Harms(s, a) {
      StepKeepsOwners(s, a);
      StepKeepsOwnersUnique(s, a);
      StepKeepsCommits(s, a);
    } else if LosesRowErrors(a) {
      LostRowErrorsHarm(s, a);
    } else if u :| Owns(TaskAt(s, u), About(s, a)) {
      LostExecutionHarms(s, a, u);
    } else {
      LostCommitHarms(s, a);
    }
  }

  /** What `quiet` and `booked` rule out is more than what harms. */
  lemma QuietStepsDoNotHarm(s: State, a: Action)
    requires Enabled(s, a) && Quiet(s, a) && !LosesRowErrors(a) && Safe(s)
    ensures !Harms(s, a)
  {
    assert CommitsFine(s, About(s, a));
    forall u | Owns(TaskAt(s, u), About(s, a)) ensures !SavesLost(TaskAt(s, a.t), a) {
      assert OwnerFine(s, u);
    }
  }

  ghost predicate SafeThroughout(h: Assumed, run: seq<Action>)
    requires After(h, run).Some?
  {
    Safe(After(h, run).value) && (run != [] ==> SafeThroughout(h, run[..|run| - 1]))
  }

  ghost predicate NeverHarms(h: Assumed, run: seq<Action>)
    requires After(h, run).Some?
  {
    run != [] ==> NeverHarms(h, run[..|run| - 1]) && !Harms(After(h, run[..|run| - 1]).value, run[|run| - 1])
  }

  /** Whatever fails: owners are unique, and commits agree with statuses and owners, exactly in the runs
      in which no step harms. */
  lemma {:induction false} RunsAreSafeExactly(h: Assumed, run: seq<Action>)
    requires After(h, run).Some?
    ensures SafeThroughout(h, run) <==> NeverHarms(h, run)
  {
    if run != [] {
      var prefix := run[..|run| - 1];
      RunsAreSafeExactly(h, prefix);
      CreatorsAreAlone(h, prefix);
      if SafeThroughout(h, prefix) {
        StepSafeExactly(After(h, prefix).value, run[|run| - 1]);
      }
    }
  }

  lemma {:induction false} QuietRunsNeverHarm(h: Assumed, run: seq<Action>)
    requires h.quiet && h.booked && After(h, run).Some?
    ensures NeverHarms(h, run)
  {
    if run != [] {
      QuietRunsNeverHarm(h, run[..|run| - 1]);
      RunsAreSafeExactly(h, run[..|run| - 1]);
      QuietStepsDoNotHarm(After(h, run[..|run| - 1]).value, run[|run| - 1]);
    }
  }

  lemma RunsAreSafe(h: Assumed, run: seq<Action>)
    requires h.quiet && h.booked && After(h, run).Some?
    ensures Safe(After(h, run).value)
  {
    QuietRunsNeverHarm(h, run);
    RunsAreSafeExactly(h, run);
  }

  /** In a run without a harmful step, whatever else fails: over the live rows at most one COPY has
      committed per organization, target and file, and no row has two. */
  lemma HarmlessRunsCommitOnce(h: Assumed, run: seq<Action>, i: ImportId, j: ImportId)
    requires After(h, run).Some? && NeverHarms(h, run)
    requires var s := After(h, run).value; i in s.rows && j in s.rows && s.rows[i].key == s.rows[j].key
    ensures var s := After(h, run).value;
      && i in s.books && j in s.books && s.books[i].commits <= 1
      && (s.books[i].commits > 0 && s.books[j].commits > 0 ==> i == j)
  {
    RunsAreSafeExactly(h, run);
    IndexedRowsAreUnique(h, run);
    var s := After(h, run).value;
    assert CommitsFine(s, i) && CommitsFine(s, j) && IndexFine(s, i, j);
  }

  /** Over the live rows at most one COPY has committed per organization, target and file: two
      rows of one key with a commit are one row, and no row has two. */
  lemma AtMostOneCommitPerKey(h: Assumed, run: seq<Action>, i: ImportId, j: ImportId)
    requires h.quiet && h.booked && After(h, run).Some?
    requires var s := After(h, run).value; i in s.rows && j in s.rows && s.rows[i].key == s.rows[j].key
    ensures var s := After(h, run).value;
      && i in s.books && j in s.books && s.books[i].commits <= 1
      && (s.books[i].commits > 0 && s.books[j].commits > 0 ==> i == j)
  {
    QuietRunsNeverHarm(h, run);
    HarmlessRunsCommitOnce(h, run, i, j);
  }

  /** Completed rows have exactly one commit, failed and cancelled ones none, and an import being
      executed has one owner, whose row is PROCESSING unless it was deleted. */
  lemma CommitsMatchStatus(h: Assumed, run: seq<Action>, i: ImportId)
    requires h.quiet && h.booked && After(h, run).Some? && i in After(h, run).value.rows
    ensures var s := After(h, run).value; var status := s.rows[i].status;
      && i in s.books
      && (status in {Completed, PartiallyCompleted} ==> s.books[i].commits == 1)
      && (status !in {Completed, PartiallyCompleted, Processing} ==> s.books[i].commits == 0)
      && (forall t :: Owns(TaskAt(s, t), i) ==> status == Processing)
      && (forall t, u :: Owns(TaskAt(s, t), i) && Owns(TaskAt(s, u), i) ==> t == u)
  {
    RunsAreSafe(h, run);
    var s := After(h, run).value;
    assert CommitsFine(s, i);
    forall t | Owns(TaskAt(s, t), i) ensures s.rows[i].status == Processing {
      assert OwnerFine(s, t);
    }
    forall t, u | Owns(TaskAt(s, t), i) && Owns(TaskAt(s, u), i) ensures t == u {
      assert OneOwner(s, t, u);
    }
  }

  /** A duplicate that the check before the upload did not see, as it sees no PARTIALLY_COMPLETED one,
      is stopped when it is to be queued or started: its creator turns to failing and its row stays. */
  lemma DuplicatesEndAtAdmission(h: Assumed, run: seq<Action>, t: TaskId, j: ImportId)
    requires After(h, run).Some? && Permitted(h, After(h, run).value, Create(t, Admit(None)))
    requires var s := After(h, run).value;
      && j in s.rows && j != s.tasks[t].i && s.tasks[t].i in s.books
      && s.rows[j].key == s.books[s.tasks[t].i].key && Indexed(s.rows[j].status)
    ensures var s := After(h, run).value;
      var i, s' := s.tasks[t].i, Step(s, Create(t, Admit(None)));
      && TaskAt(s', t) == Some(Failing(i, Early)) && RowAt(s', i) == RowAt(s, i)
      && Has(RowAt(s', i), Validating)
  {
    var s, a := After(h, run).value, Create(t, Admit(None));
    CreatorsAreAlone(h, run);
    assert TaskFine(s, t);
    assert !IndexFree(s, s.tasks[t].i);
    StepLeaves(s, a);
  }

  // While nothing dies, every PROCESSING row is being worked on.

  ghost predicate Worked(s: State, i: ImportId) {
    Has(RowAt(s, i), Processing) ==> exists t :: Owns(TaskAt(s, t), i)
  }

  ghost predicate AllWorked(s: State) { forall i :: Worked(s, i) }

  /** Whoever makes a row PROCESSING owns it, and an owner ends only when its row is not. */
  lemma MoveWorked(l: Local, free: bool, i: ImportId, a: Action)
    requires Ready(l, a) && StartFits(l.task, l.row) && !(a.Control? && a.control.Crash?)
    requires l.task.Some? && !l.task.value.Checked? ==> l.task.value.i == i
    requires Has(l.row, Processing) ==> free
    requires a.Work? && a.work.EntityGone? ==> l.row == None
    ensures var l' := Move(l, free, i, a);
      Has(l'.row, Processing) ==> Owns(l'.task, i) || (Has(l.row, Processing) && !Owner(l.task))
  {
  }

  lemma StepKeepsWorked(s: State, a: Action)
    requires Enabled(s, a) && !(a.Control? && a.control.Crash?)
    requires StartsExclusive(s) && IndexHolds(s) && AllWorked(s)
    ensures AllWorked(Step(s, a))
  {
    var s', i := Step(s, a), About(s, a);
    StepLeaves(s, a);
    StepStays(s, a);
    assert TaskFine(s, a.t) && RowFine(s, i);
    if Has(RowAt(s, i), Processing) {
      forall j | j in s.rows && j != i && s.rows[j].key == s.books[i].key ensures !Indexed(s.rows[j].status) {
        assert IndexFine(s, i, j);
        assert RowAt(s, j) == Some(s.rows[j]);
      }
    }
    MoveWorked(Read(s, a.t, i), IndexFree(s, i), i, a);
    forall j ensures Worked(s', j) {
      assert Worked(s, j);
      if Has(RowAt(s', j), Processing) {
        if j == i && Owns(TaskAt(s', a.t), i) {
        } else {
          var t :| Owns(TaskAt(s, t), j);
          assert Owns(TaskAt(s', t), j);
        }
      }
    }
  }

  /** The last one to execute an import dies. */
  ghost predicate Orphans(s: State, a: Action) {
    var i := About(s, a);
    && a.Control? && a.control.Crash? && Has(RowAt(s, i), Processing)
    && (forall t :: Owns(TaskAt(s, t), i) ==> t == a.t)
  }

  lemma CrashOrphansExactly(s: State, a: Action, i: ImportId)
    requires Enabled(s, a) && a.Control? && a.control.Crash? && Worked(s, i)
    ensures Worked(Step(s, a), i) <==> !(i == About(s, a) && Orphans(s, a))
  {
    var s' := Step(s, a);
    StepLeaves(s, a);
    StepStays(s, a);
    assert forall t :: Owns(TaskAt(s', t), i) <==> t != a.t && Owns(TaskAt(s, t), i);
  }

  /** One step from a state in which every PROCESSING row is worked on: one is left alone exactly if the
      last one to execute it dies. */
  lemma StepOrphansExactly(s: State, a: Action)
    requires Enabled(s, a) && StartsExclusive(s) && IndexHolds(s) && AllWorked(s)
    ensures AllWorked(Step(s, a)) <==> !Orphans(s, a)
  {
    if a.Control? && a.control.Crash? {
      forall i ensures Worked(Step(s, a), i) <==> !(i == About(s, a) && Orphans(s, a)) {
        assert Worked(s, i);
        CrashOrphansExactly(s, a, i);
      }
      assert Worked(Step(s, a), About(s, a)) <==> !Orphans(s, a);
    } else {
      StepKeepsWorked(s, a);
    }
  }

  lemma ProcessingRowsAreWorkedOn(h: Assumed, run: seq<Action>)
    requires h.steady && After(h, run).Some?
    ensures var s := After(h, run).value; forall i :: Has(RowAt(s, i), Processing) ==> exists t :: Owns(TaskAt(s, t), i)
  {
    RunKeepsWorked(h, run);
    var s := After(h, run).value;
    forall i | Has(RowAt(s, i), Processing) ensures exists t :: Owns(TaskAt(s, t), i) {
      assert Worked(s, i);
    }
  }

  lemma {:induction false} RunKeepsWorked(h: Assumed, run: seq<Action>)
    requires h.steady && After(h, run).Some?
    ensures AllWorked(After(h, run).value)
  {
    if run != [] {
      RunKeepsWorked(h, run[..|run| - 1]);
      CreatorsAreAlone(h, run[..|run| - 1]);
      IndexedRowsAreUnique(h, run[..|run| - 1]);
      StepKeepsWorked(After(h, run[..|run| - 1]).value, run[|run| - 1]);
    }
  }
}
