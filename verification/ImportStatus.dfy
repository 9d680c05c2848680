/** Statuses of a CSV import and the table of allowed transitions. */
module ImportStatus {

  datatype Status =
    | Uploaded | Validating | Queued | Processing | Completed | PartiallyCompleted | Failed | Cancelled

  function AllowedFrom(s: Status): set<Status> {
    match s
    case Uploaded => {Validating, Failed}
    case Validating => {Queued, Processing, Failed}
    case Queued => {Processing, Failed, Cancelled}
    case Processing => {Completed, PartiallyCompleted, Failed}
    case Completed => {}
    case PartiallyCompleted => {}
    case Failed => {Queued}
    case Cancelled => {Queued}
  }

  predicate CanTransition(from: Status, to: Status) {
    to in AllowedFrom(from)
  }

  /** Statuses covered by the partial unique index on the file hash. */
  predicate Indexed(s: Status) {
    s in {Queued, Processing, Completed, PartiallyCompleted}
  }

  /** Statuses in which assertNotDuplicate refuses a new upload of the same file. */
  predicate BlocksUpload(s: Status) {
    s in {Queued, Processing, Completed}
  }

  /** The check before an upload refuses less than the index does: a partially completed import of the file does
      not stand in its way. */
  lemma UploadCheckAgainstIndex(s: Status)
    ensures BlocksUpload(s) <==> Indexed(s) && s != PartiallyCompleted
    ensures !Indexed(s) <==> s in {Uploaded, Validating, Failed, Cancelled}
  {
  }

  /** A status history follows the table when it changes only along its edges. */
  predicate FollowsTable(history: seq<Status>) {
    forall i :: 0 <= i < |history| - 1 ==> history[i] == history[i + 1] || CanTransition(history[i], history[i + 1])
  }

  lemma FollowsNext(history: seq<Status>, next: Status)
    requires FollowsTable(history) && history != []
    requires history[|history| - 1] == next || CanTransition(history[|history| - 1], next)
    ensures FollowsTable(history + [next])
  {
  }

  function Rank(s: Status): nat {
    match s
    case Uploaded => 0
    case Validating => 1
    case Queued => 2
    case Processing => 3
    case _ => 4
  }

  /** Away from QUEUED every edge leads to a later stage. */
  lemma {:induction false} ClimbsWithoutQueueing(history: seq<Status>)
    requires FollowsTable(history) && history != [] && Queued !in history
    ensures Rank(history[0]) <= Rank(history[|history| - 1])
    ensures Rank(history[0]) == Rank(history[|history| - 1]) ==>
      forall i :: 0 <= i < |history| ==> history[i] == history[0]
  {
    if |history| > 1 {
      assert history[0] == history[1] || CanTransition(history[0], history[1]);
      ClimbsWithoutQueueing(history[1..]);
      assert history[1] in history;
    }
  }

  /** Every history that leaves a status and comes back to it passes through QUEUED. */
  lemma CyclesPassThroughQueued(history: seq<Status>, i: nat)
    requires FollowsTable(history) && i < |history|
    requires history[0] == history[|history| - 1] && history[i] != history[0]
    ensures Queued in history
  {
    if Queued !in history {
      ClimbsWithoutQueueing(history);
    }
  }

  /** COMPLETED and PARTIALLY_COMPLETED are never left. */
  lemma {:induction false} CompletionIsFinal(history: seq<Status>, i: nat, j: nat)
    requires FollowsTable(history) && i <= j < |history|
    requires history[i] in {Completed, PartiallyCompleted}
    ensures history[j] == history[i]
  {
    if i < j {
      CompletionIsFinal(history, i, j - 1);
      assert history[j - 1] == history[j] || CanTransition(history[j - 1], history[j]);
    }
  }
}
