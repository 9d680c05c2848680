/** What harm leads to: after a step that breaks safety, retries and workers of the same import can bring its
    commits to two. */
module ImportHarm {
  import opened OrderedMaps
  import opened ImportStatus
  import opened ImportProtocol
  import opened ImportOwners
  import opened ImportSafety

  lemma {:induction false} Above(used: set<nat>) returns (n: nat)
    ensures forall x :: x in used ==> x < n
  {
    if used == {} {
      n := 0;
    } else {
      var x :| x in used;
      var rest := Above(used - {x});
      n := if rest > x then rest else x + 1;
      assert used == (used - {x}) + {x};
    }
  }

  /** The key of import i is free for it, and these tasks are as they were. */
  ghost predicate Around(s0: State, s: State, i: ImportId, kept: set<TaskId>) {
    && BookAt(s, i).Some? && IndexFree(s, i)
    && forall u :: u in kept ==> TaskAt(s, u) == TaskAt(s0, u)
  }

  /** One more step about import i, by a task that is not one of these. */
  lemma Take(h: Assumed, run: seq<Action>, s0: State, s: State, i: ImportId, kept: set<TaskId>, a: Action)
      returns (s': State)
    requires Continues(h, run, s) && Permitted(h, s, a) && Around(s0, s, i, kept)
    requires About(s, a) == i && a.t !in kept && !(a.Create? && a.create.Insert?)
    ensures s' == Step(s, a) && Continues(h, run, s') && Around(s0, s', i, kept)
    ensures Left(s, s', a.t, i, Moved(s, a))
  {
    s' := Step(s, a);
    StepLeaves(s, a);
    StepStays(s, a);
    Extend(h, run, s, a, s');
    forall j | j in s'.rows && j != i && s'.rows[j].key == s'.books[i].key ensures !Indexed(s'.rows[j].status) {
      assert RowAt(s', j) == RowAt(s, j) && BookAt(s', i) == Moved(s, a).book;
    }
  }

  /** A FAILED import is retried: it is QUEUED, and its job waits. */
  lemma Requeue(h: Assumed, run: seq<Action>, s0: State, s: State, i: ImportId, kept: set<TaskId>)
      returns (s': State, job: JobId)
    requires Continues(h, run, s) && Around(s0, s, i, kept) && Has(RowAt(s, i), Failed)
    ensures Continues(h, run, s') && Around(s0, s', i, kept) && Has(RowAt(s', i), Queued)
    ensures JobAt(s', job) == Some(i) && s'.books[i].commits == s.books[i].commits
  {
    var t := Above(s.tasks.Keys + kept);
    job := Above(s.jobsMade.Keys);
    s' := Take(h, run, s0, s, i, kept, Control(t, RetryRead(i)));
    s' := Take(h, run, s0, s', i, kept, Control(t, RetryWrite));
    s' := Take(h, run, s0, s', i, kept, Enqueue(t, EnqueueOk(job)));
  }

  /** A QUEUED import with a waiting job is claimed. */
  lemma Reclaim(h: Assumed, run: seq<Action>, s0: State, s: State, i: ImportId, kept: set<TaskId>, job: JobId)
      returns (s': State, w: TaskId)
    requires Continues(h, run, s) && Around(s0, s, i, kept) && Has(RowAt(s, i), Queued) && JobAt(s, job) == Some(i)
    ensures Continues(h, run, s') && Around(s0, s', i, kept) && Has(RowAt(s', i), Processing)
    ensures w !in kept && TaskAt(s', w) == Some(Executing(i)) && s'.books[i].commits == s.books[i].commits
  {
    w := Above(s.tasks.Keys + kept);
    s' := Take(h, run, s0, s, i, kept, Work(w, Deliver(job)));
    s' := Take(h, run, s0, s', i, kept, Work(w, Claim));
  }

  /** A FAILED import whose key is free can be executed again. */
  lemma Restart(h: Assumed, run: seq<Action>, s0: State, s: State, i: ImportId, kept: set<TaskId>)
      returns (s': State, w: TaskId)
    requires Continues(h, run, s) && Around(s0, s, i, kept) && Has(RowAt(s, i), Failed)
    ensures Continues(h, run, s') && Around(s0, s', i, kept) && Has(RowAt(s', i), Processing)
    ensures w !in kept && TaskAt(s', w) == Some(Executing(i)) && s'.books[i].commits == s.books[i].commits
  {
    var job;
    s', job := Requeue(h, run, s0, s, i, kept);
    s', w := Reclaim(h, run, s0, s', i, kept, job);
  }

  /** Whoever executes an import can commit. */
  lemma CommitOnce(h: Assumed, run: seq<Action>, s0: State, s: State, i: ImportId, kept: set<TaskId>, w: TaskId)
      returns (s': State)
    requires Continues(h, run, s) && Around(s0, s, i, kept) && RowAt(s, i).Some?
    requires w !in kept && TaskAt(s, w) == Some(Executing(i))
    ensures Continues(h, run, s') && Around(s0, s', i, kept) && RowAt(s', i).Some?
    ensures s'.books[i].commits == s.books[i].commits + 1
  {
    s' := Take(h, run, s0, s, i, kept, Work(w, Commit(false)));
  }

  /** Import i is stored and has committed more than once. */
  ghost predicate CommittedTwice(s: State, i: ImportId) {
    RowAt(s, i).Some? && BookAt(s, i).Some? && BookAt(s, i).value.commits > 1
  }

  /** A FAILED import that has committed: one more execution is enough. */
  lemma FailedAfterCommit(h: Assumed, run: seq<Action>, s: State, i: ImportId) returns (s': State)
    requires Continues(h, run, s) && Around(s, s, i, {}) && Has(RowAt(s, i), Failed) && s.books[i].commits > 0
    ensures Continues(h, run, s') && CommittedTwice(s', i)
  {
    var w;
    s', w := Restart(h, run, s, s, i, {});
    s' := CommitOnce(h, run, s, s', i, {}, w);
  }

  /** A FAILED import that somebody is still executing: both executions commit. */
  lemma FailedWhileExecuting(h: Assumed, run: seq<Action>, s: State, i: ImportId, u: TaskId) returns (s': State)
    requires Continues(h, run, s) && Around(s, s, i, {u}) && Has(RowAt(s, i), Failed)
    requires TaskAt(s, u) == Some(Executing(i))
    ensures Continues(h, run, s') && CommittedTwice(s', i)
  {
    var w;
    s', w := Restart(h, run, s, s, i, {u});
    s' := CommitOnce(h, run, s, s', i, {u}, w);
    s' := CommitOnce(h, run, s, s', i, {}, u);
  }

  /** A FAILED import that somebody is about to fail as well: the second FAILED hits the next execution, and
      the import is retried once more beside it. */
  lemma FailedWhileFailing(h: Assumed, run: seq<Action>, s: State, i: ImportId, u: TaskId) returns (s': State)
    requires Continues(h, run, s) && Around(s, s, i, {u}) && Has(RowAt(s, i), Failed)
    requires TaskAt(s, u) == Some(Failing(i, Run))
    ensures Continues(h, run, s') && CommittedTwice(s', i)
  {
    var s1, w := Restart(h, run, s, s, i, {u});
    var s2 := Take(h, run, s1, s1, i, {w}, Work(u, SaveFailed(None)));
    s' := FailedWhileExecuting(h, run, s2, i, w);
  }

  /** A FAILED import that has committed, or that has an owner. */
  lemma FailedLeadsToTwoCommits(h: Assumed, run: seq<Action>, s: State, i: ImportId) returns (s': State)
    requires Continues(h, run, s) && Around(s, s, i, {}) && Has(RowAt(s, i), Failed)
    requires s.books[i].commits > 0 || exists u :: Owns(TaskAt(s, u), i)
    requires forall u :: Owns(TaskAt(s, u), i) && s.books[i].commits == 0 ==> !TaskAt(s, u).value.Committed?
    ensures Continues(h, run, s') && CommittedTwice(s', i)
  {
    if s.books[i].commits > 0 {
      s' := FailedAfterCommit(h, run, s, i);
    } else {
      var u :| Owns(TaskAt(s, u), i);
      if TaskAt(s, u).value.Executing? {
        s' := FailedWhileExecuting(h, run, s, i, u);
      } else {
        s' := FailedWhileFailing(h, run, s, i, u);
      }
    }
  }

  /** The key of a stored import that a harmful step is about is free for it. */
  lemma StoredIsFree(s: State, a: Action)
    requires Enabled(s, a) && Harms(s, a) && StartsExclusive(s) && Safe(s) && IndexHolds(s)
    requires RowAt(s, About(s, a)).Some?
    ensures IndexFree(s, About(s, a))
  {
    var i := About(s, a);
    assert CommitsFine(s, i) && RowFine(s, i) && OwnerFine(s, a.t);
    if u :| Owns(TaskAt(s, u), i) {
      assert OwnerFine(s, u);
    }
    forall j | j in s.rows && j != i && s.rows[j].key == s.books[i].key ensures !Indexed(s.rows[j].status) {
      assert IndexFine(s, i, j) && RowAt(s, j) == Some(s.rows[j]);
    }
  }

  lemma LostFailLeadsToTwoCommits(h: Assumed, run: seq<Action>, s: State, a: Action) returns (s': State)
    requires Enabled(s, a) && Continues(h, run, Step(s, a)) && StartsExclusive(s) && Safe(s)
    requires SavesLost(TaskAt(s, a.t), a) && Harms(s, a) && IndexFree(s, About(s, a))
    ensures Continues(h, run, s') && CommittedTwice(s', About(s, a))
  {
    var i, s1 := About(s, a), Step(s, a);
    StepLeaves(s, a);
    assert TaskFine(s, a.t);
    forall j | j in s1.rows && j != i && s1.rows[j].key == s1.books[i].key ensures !Indexed(s1.rows[j].status) {
      assert RowAt(s1, j) == RowAt(s, j) && BookAt(s1, i) == BookAt(s, i);
    }
    forall u | Owns(TaskAt(s1, u), i) && s1.books[i].commits == 0 ensures !TaskAt(s1, u).value.Committed? {
      assert OwnerFine(s, u);
    }
    if u :| Owns(TaskAt(s, u), i) {
      assert Owns(TaskAt(s1, u), i);
    }
    s' := FailedLeadsToTwoCommits(h, run, s1, i);
  }

  lemma LostRowErrorsLeadToTwoCommits(h: Assumed, run: seq<Action>, s: State, a: Action) returns (s': State)
    requires Enabled(s, a) && Continues(h, run, Step(s, a)) && StartsExclusive(s) && Safe(s)
    requires LosesRowErrors(a) && IndexFree(s, About(s, a))
    ensures Continues(h, run, s') && CommittedTwice(s', About(s, a))
  {
    var i, s1 := About(s, a), Step(s, a);
    StepLeaves(s, a);
    assert TaskFine(s, a.t) && OwnerFine(s, a.t);
    forall j | j in s1.rows && j != i && s1.rows[j].key == s1.books[i].key ensures !Indexed(s1.rows[j].status) {
      assert RowAt(s1, j) == RowAt(s, j) && BookAt(s1, i) == BookAt(s, i);
    }
    s' := Take(h, run, s1, s1, i, {}, Work(a.t, SaveFailed(None)));
    s' := FailedAfterCommit(h, run, s', i);
  }

  /** The other half of what is said of runs without a harmful step: the run that a harmful step ends can be
      continued, under the same assumptions, to a stored import with two commits. Not covered is an import whose
      row was deleted while another one took its key. */
  lemma HarmLeadsToTwoCommits(h: Assumed, run: seq<Action>, a: Action) returns (s': State)
    requires After(h, run).Some? && SafeThroughout(h, run) && Permitted(h, After(h, run).value, a)
    requires var s := After(h, run).value;
      Harms(s, a) && (RowAt(s, About(s, a)).Some? || IndexFree(s, About(s, a)))
    ensures Continues(h, run + [a], s') && CommittedTwice(s', About(After(h, run).value, a))
  {
    var s := After(h, run).value;
    CreatorsAreAlone(h, run);
    IndexedRowsAreUnique(h, run);
    assert (run + [a])[..|run|] == run;
    assert run + [a] + [] == run + [a];
    assert Continues(h, run + [a], Step(s, a));
    if RowAt(s, About(s, a)).Some? {
      StoredIsFree(s, a);
    }
    if LosesRowErrors(a) {
      s' := LostRowErrorsLeadToTwoCommits(h, run + [a], s, a);
    } else {
      s' := LostFailLeadsToTwoCommits(h, run + [a], s, a);
    }
  }
}
