/** Exactly when a stored status leaves the table, in every run; and that under `quiet` none does: also not
    by the conditional updates and the `fail` after a save refused by the index. */
module ImportEdges {
  import opened OrderedMaps
  import opened ImportStatus
  import opened ImportProtocol
  import opened ImportOwners
  import opened ImportSafety

  /** A row that stays in the table keeps its status or moves along an edge. */
  predicate FollowsEdge(row: Option<Row>, row': Option<Row>) {
    row.Some? && row'.Some? ==>
      row'.value.status == row.value.status || CanTransition(row.value.status, row'.value.status)
  }

  /** A save from the caller's own copy over a status with no edge to what it writes: FAILED over a completed
      or cancelled row, or a final status that the index admits over one that is neither PROCESSING nor it. */
  predicate SavesBlindly(l: Local, free: bool, a: Action) {
    && a.Work? && Ready(l, a) && l.row.Some?
    && match a.work
       case SaveFailed(_) => l.row.value.status in {Completed, PartiallyCompleted, Cancelled}
       case Complete(_) =>
         free && l.row.value.status !in {Processing, if l.task.value.partial then PartiallyCompleted else Completed}
       case _ => false
  }

  ghost predicate LeavesTable(s: State, a: Action) {
    SavesBlindly(Read(s, a.t, About(s, a)), IndexFree(s, About(s, a)), a)
  }

  lemma MoveFollowsEdge(l: Local, free: bool, i: ImportId, a: Action)
    requires Ready(l, a) && StartFits(l.task, l.row)
    requires l.task.Some? && l.task.value.Retrying? ==> l.task.value.from in {Failed, Cancelled}
    requires a.Create? && a.create.Insert? ==> l.row == None
    ensures FollowsEdge(l.row, Move(l, free, i, a).row) <==> !SavesBlindly(l, free, a)
  {
  }

  /** A statement of some task takes a stored status from one to another, without saving blindly. */
  ghost predicate Takes(l: Local, free: bool, i: ImportId, a: Action, from: Status, to: Status) {
    && Ready(l, a) && StartFits(l.task, l.row) && (l.task.Some? && !l.task.value.Checked? ==> l.task.value.i == i)
    && !SavesBlindly(l, free, a)
    && Has(l.row, from) && Has(Move(l, free, i, a).row, to)
  }

  function At(status: Status, task: Task): Local {
    Local(Some(task), Some(Row(0, status, None)), Some(Book(0, 0, 0, 0, 0)))
  }

  /** The table has no edge too many: every one is taken by some statement. */
  lemma EdgesAreTaken(from: Status, to: Status)
    requires CanTransition(from, to)
    ensures exists l, free, i, a :: Takes(l, free, i, a, from, to)
  {
    match from
    case Uploaded =>
      if to == Validating {
        assert Takes(At(from, Created(0, true)), true, 0, Create(0, CreateEvent.Validate), from, to);
      } else {
        assert Takes(At(from, Failing(0, Early)), true, 0, Work(0, SaveFailed(None)), from, to);
      }
    case Validating =>
      if to == Failed {
        assert Takes(At(from, Failing(0, Early)), true, 0, Work(0, SaveFailed(None)), from, to);
      } else {
        assert Takes(At(from, Prepared(0, to == Queued)), true, 0, Create(0, Admit(None)), from, to);
      }
    case Queued =>
      if to == Processing {
        assert Takes(At(from, Delivered(0)), true, 0, Work(0, Claim), from, to);
      } else if to == Failed {
        assert Takes(At(from, Failing(0, Lost)), true, 0, Work(0, SaveFailed(None)), from, to);
      } else {
        assert Takes(At(from, JobRemoved(0)), true, 0, Control(0, CancelWrite), from, to);
      }
    case Processing =>
      if to == Failed {
        assert Takes(At(from, Failing(0, Run)), true, 0, Work(0, SaveFailed(None)), from, to);
      } else {
        assert Takes(At(from, Committed(0, to == PartiallyCompleted)), true, 0, Work(0, Complete(None)), from, to);
      }
    case Failed => assert Takes(At(from, Retrying(0, from)), true, 0, Control(0, RetryWrite), from, to);
    case Cancelled => assert Takes(At(from, Retrying(0, from)), true, 0, Control(0, RetryWrite), from, to);
    case _ =>
  }

  lemma StepFollowsEdges(s: State, a: Action)
    requires Enabled(s, a) && StartsExclusive(s)
    ensures (forall i :: FollowsEdge(RowAt(s, i), RowAt(Step(s, a), i))) <==> !LeavesTable(s, a)
  {
    var j := About(s, a);
    StepLeaves(s, a);
    StepStays(s, a);
    assert TaskFine(s, a.t) && RowFine(s, j);
    MoveFollowsEdge(Read(s, a.t, j), IndexFree(s, j), j, a);
    assert RowAt(Step(s, a), j) == Moved(s, a).row;
  }

  /** One step of any run, whatever has failed before: every stored status keeps to the table, except
      exactly when a blind save overwrites one with no edge to what it writes. */
  lemma StepFollowsTableExactly(h: Assumed, run: seq<Action>, a: Action)
    requires After(h, run).Some? && Permitted(h, After(h, run).value, a)
    ensures var s := After(h, run).value;
      (forall i :: FollowsEdge(RowAt(s, i), RowAt(Step(s, a), i))) <==> !LeavesTable(s, a)
  {
    CreatorsAreAlone(h, run);
    StepFollowsEdges(After(h, run).value, a);
  }

  // Whole runs.

  /** Every step of the run moved every stored status along an edge, or not at all. */
  ghost predicate FollowsThroughout(h: Assumed, run: seq<Action>)
    requires After(h, run).Some?
  {
    run != [] ==>
      && FollowsThroughout(h, run[..|run| - 1])
      && forall i :: FollowsEdge(RowAt(After(h, run[..|run| - 1]).value, i), RowAt(After(h, run).value, i))
  }

  ghost predicate NeverLeavesTable(h: Assumed, run: seq<Action>)
    requires After(h, run).Some?
  {
    run != [] ==>
      NeverLeavesTable(h, run[..|run| - 1]) && !LeavesTable(After(h, run[..|run| - 1]).value, run[|run| - 1])
  }

  /** Whatever fails: stored statuses keep to the table in exactly the runs without such a save. */
  lemma {:induction false} RunsFollowTableExactly(h: Assumed, run: seq<Action>)
    requires After(h, run).Some?
    ensures FollowsThroughout(h, run) <==> NeverLeavesTable(h, run)
  {
    if run != [] {
      RunsFollowTableExactly(h, run[..|run| - 1]);
      StepFollowsTableExactly(h, run[..|run| - 1], run[|run| - 1]);
    }
  }

  // `quiet` is enough: whoever executes an import finds it PROCESSING, or deleted.

  lemma MoveHolds(l: Local, free: bool, i: ImportId, a: Action)
    requires Ready(l, a) && StartFits(l.task, l.row)
    requires Owner(l.task) ==> l.row == None || Has(l.row, Processing)
    ensures var l' := Move(l, free, i, a);
      Owner(l'.task) ==> l'.row == None || Has(l'.row, Processing)
  {
  }

  /** A quiet `fail` finds no owner. */
  lemma QuietFindsNoOwner(s: State, a: Action, u: TaskId)
    requires Enabled(s, a) && Quiet(s, a) && OwnersHold(s) && Owns(TaskAt(s, u), About(s, a))
    ensures !SavesLost(TaskAt(s, a.t), a)
  {
    assert OwnerHolds(s, u);
  }

  lemma StepKeepsOwnersHold(s: State, a: Action)
    requires Enabled(s, a) && Quiet(s, a) && StartsExclusive(s) && OwnersHold(s) && OwnersUnique(s)
    ensures OwnersHold(Step(s, a))
  {
    var i := About(s, a);
    StepLeaves(s, a);
    StepStays(s, a);
    assert TaskFine(s, a.t) && OwnerHolds(s, a.t);
    MoveHolds(Read(s, a.t, i), IndexFree(s, i), i, a);
    forall u ensures OwnerHolds(Step(s, a), u) {
      assert OwnerHolds(s, u);
      if u != a.t && Owns(TaskAt(s, u), i) {
        QuietFindsNoOwner(s, a, u);
        OthersRespected(s, a, u);
      }
    }
  }

  lemma StepKeepsOneOwner(s: State, a: Action)
    requires Enabled(s, a) && Quiet(s, a) && StartsExclusive(s) && OwnersHold(s) && OwnersUnique(s)
    ensures OwnersUnique(Step(s, a))
  {
    var i := About(s, a);
    StepLeaves(s, a);
    StepStays(s, a);
    forall t, u ensures OneOwner(Step(s, a), t, u) {
      assert OneOwner(s, t, u);
      if t != a.t && Owns(TaskAt(s, t), i) {
        QuietFindsNoOwner(s, a, t);
        OthersRespected(s, a, t);
      }
      if u != a.t && Owns(TaskAt(s, u), i) {
        QuietFindsNoOwner(s, a, u);
        OthersRespected(s, a, u);
      }
    }
  }

  lemma {:induction false} QuietOwnersHold(h: Assumed, run: seq<Action>)
    requires h.quiet && After(h, run).Some?
    ensures OwnersHold(After(h, run).value) && OwnersUnique(After(h, run).value)
  {
    if run != [] {
      var prefix, a := run[..|run| - 1], run[|run| - 1];
      QuietOwnersHold(h, prefix);
      CreatorsAreAlone(h, prefix);
      StepKeepsOwnersHold(After(h, prefix).value, a);
      StepKeepsOneOwner(After(h, prefix).value, a);
    }
  }

  /** Under `quiet`, whatever else fails, every step moves every stored status along an edge, or not at
      all. */
  lemma StoredStatusFollowsTable(h: Assumed, run: seq<Action>, i: ImportId)
    requires h.quiet && run != [] && After(h, run).Some?
    ensures FollowsEdge(RowAt(After(h, run[..|run| - 1]).value, i), RowAt(After(h, run).value, i))
  {
    var prefix, a := run[..|run| - 1], run[|run| - 1];
    var s := After(h, prefix).value;
    QuietOwnersHold(h, prefix);
    CreatorsAreAlone(h, prefix);
    StepFollowsTableExactly(h, prefix, a);
    assert OwnerHolds(s, a.t) && TaskFine(s, a.t);
  }

  /** What is stored of an import after the first n actions of a run. */
  ghost function RowAfter(h: Assumed, run: seq<Action>, n: nat, i: ImportId): Option<Row>
    requires n <= |run|
  {
    match After(h, run[..n])
    case None => None
    case Some(s) => RowAt(s, i)
  }

  ghost predicate StoredThroughout(h: Assumed, run: seq<Action>, i: ImportId, from: nat, to: nat)
    requires to <= |run|
  {
    forall n :: from <= n <= to ==> RowAfter(h, run, n, i).Some?
  }

  lemma NextRowFollowsEdge(h: Assumed, run: seq<Action>, i: ImportId, n: nat)
    requires h.quiet && n < |run| && After(h, run[..n + 1]).Some?
    ensures FollowsEdge(RowAfter(h, run, n, i), RowAfter(h, run, n + 1, i))
  {
    assert run[..n + 1][..n] == run[..n];
    StoredStatusFollowsTable(h, run[..n + 1], i);
  }

  /** The statuses of a stored row after each of the actions from..to. */
  ghost function Statuses(h: Assumed, run: seq<Action>, i: ImportId, from: nat, to: nat): (history: seq<Status>)
    requires from <= to <= |run| && StoredThroughout(h, run, i, from, to)
    ensures |history| == to - from + 1
    ensures history[0] == RowAfter(h, run, from, i).value.status
    ensures history[to - from] == RowAfter(h, run, to, i).value.status
  {
    if from == to then [RowAfter(h, run, to, i).value.status]
    else Statuses(h, run, i, from, to - 1) + [RowAfter(h, run, to, i).value.status]
  }

  lemma LastStatusFollows(h: Assumed, run: seq<Action>, i: ImportId, from: nat, to: nat)
    requires h.quiet && from < to <= |run| && StoredThroughout(h, run, i, from, to)
    ensures FollowsEdge(RowAfter(h, run, to - 1, i), RowAfter(h, run, to, i))
    ensures RowAfter(h, run, to - 1, i).Some? && RowAfter(h, run, to, i).Some?
  {
    assert RowAfter(h, run, to, i).Some? && RowAfter(h, run, to - 1, i).Some?;
    NextRowFollowsEdge(h, run, i, to - 1);
  }

  /** As long as a row is stored, its statuses follow the table. */
  lemma {:induction false} HistoriesFollowTable(h: Assumed, run: seq<Action>, i: ImportId, from: nat, to: nat)
    requires h.quiet && from <= to <= |run| && StoredThroughout(h, run, i, from, to)
    ensures FollowsTable(Statuses(h, run, i, from, to))
  {
    if from < to {
      HistoriesFollowTable(h, run, i, from, to - 1);
      LastStatusFollows(h, run, i, from, to);
      FollowsNext(Statuses(h, run, i, from, to - 1), RowAfter(h, run, to, i).value.status);
    }
  }

  /** COMPLETED and PARTIALLY_COMPLETED are kept until the row is deleted. */
  lemma CompletedRowsStay(h: Assumed, run: seq<Action>, i: ImportId, from: nat, to: nat)
    requires h.quiet && from <= to <= |run| && StoredThroughout(h, run, i, from, to)
    requires RowAfter(h, run, from, i).value.status in {Completed, PartiallyCompleted}
    ensures RowAfter(h, run, to, i).value.status == RowAfter(h, run, from, i).value.status
  {
    HistoriesFollowTable(h, run, i, from, to);
    CompletionIsFinal(Statuses(h, run, i, from, to), 0, to - from);
  }

  /** An import that leaves a status and has it again was QUEUED in between. */
  lemma ReturningRowsWereQueued(h: Assumed, run: seq<Action>, i: ImportId, from: nat, via: nat, to: nat)
    requires h.quiet && from <= via <= to <= |run| && StoredThroughout(h, run, i, from, to)
    requires Statuses(h, run, i, from, to)[via - from] != RowAfter(h, run, from, i).value.status
    requires RowAfter(h, run, to, i).value.status == RowAfter(h, run, from, i).value.status
    ensures Queued in Statuses(h, run, i, from, to)
  {
    HistoriesFollowTable(h, run, i, from, to);
    CyclesPassThroughQueued(Statuses(h, run, i, from, to), via - from);
  }
}
