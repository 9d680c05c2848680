/** The imports service on its repository. A method is one statement against it, with the code around it, so
    that any other may come between two; its contract says that the stored row is left as the step of the
    step system leaves it. The statements against the queue are those of ImportQueue. */
module ImportService {
  import opened OrderedMaps
  import opened ImportStatus
  import opened ImportProtocol

  type Time = nat

  /** The columns of an import that change besides status and job id. */
  datatype Details = Details(
    totalRows: Option<nat>, processedRows: nat, successfulRows: nat, failedRows: nat, processedBytes: nat,
    progressPercent: nat, errorCode: Option<string>, errorMessage: Option<string>,
    startedAt: Option<Time>, completedAt: Option<Time>)

  datatype Stored = Stored(row: Row, details: Details)

  datatype Outcome = Done | InvalidTransition | UniqueViolation | NotAffected | NotFound

  /** A caller's own copy of a row. */
  class ImportEntity {
    const id: ImportId
    const key: Key
    var status: Status
    var queueJobId: Option<JobId>
    var details: Details

    function Copy(): Stored
      reads this
    {
      Stored(Row(key, status, queueJobId), details)
    }

    constructor (id: ImportId, stored: Stored)
      ensures this.id == id && Copy() == stored
    {
      this.id, key := id, stored.row.key;
      status, queueJobId, details := stored.row.status, stored.row.jobId, stored.details;
    }
  }

  /** No other row of the key has an indexed status, if this one is to have one. */
  predicate Admits(rows: map<ImportId, Stored>, i: ImportId, key: Key, status: Status) {
    Indexed(status) ==> forall j :: j in rows && j != i && rows[j].row.key == key ==> !Indexed(rows[j].row.status)
  }

  predicate HasStatus(rows: map<ImportId, Stored>, i: ImportId, status: Status) {
    i in rows && rows[i].row.status == status
  }

  /** The table of imports with its partial unique index. */
  class ImportRepository {
    var rows: map<ImportId, Stored>

    ghost predicate Valid()
      reads this
    {
      forall i, j :: i in rows && j in rows && i != j && rows[i].row.key == rows[j].row.key ==>
        !(Indexed(rows[i].row.status) && Indexed(rows[j].row.status))
    }

    constructor ()
      ensures Valid() && rows == map[]
    {
      rows := map[];
    }

    method Save(e: ImportEntity) returns (outcome: Outcome)
      requires Valid()
      modifies this
      ensures Valid()
      ensures outcome == if Admits(old(rows), e.id, e.key, e.status) then Done else UniqueViolation
      ensures rows == if outcome == Done then old(rows)[e.id := e.Copy()] else old(rows)
    {
      if !Admits(rows, e.id, e.key, e.status) {
        return UniqueViolation;
      }
      rows := rows[e.id := e.Copy()];
      outcome := Done;
    }

    /** `update ... where status = expected`; the details are the row's with the given columns set. */
    method UpdateWhere(i: ImportId, expected: Status, status: Status, details: Details) returns (outcome: Outcome)
      requires Valid()
      modifies this
      ensures Valid()
      ensures outcome ==
        if !HasStatus(old(rows), i, expected) then NotAffected
        else if Admits(old(rows), i, old(rows)[i].row.key, status) then Done
        else UniqueViolation
      ensures rows ==
        if outcome == Done then old(rows)[i := Stored(old(rows)[i].row.(status := status), details)] else old(rows)
    {
      if !HasStatus(rows, i, expected) {
        return NotAffected;
      }
      if !Admits(rows, i, rows[i].row.key, status) {
        return UniqueViolation;
      }
      rows := rows[i := Stored(rows[i].row.(status := status), details)];
      outcome := Done;
    }

    method AttachWhereQueued(i: ImportId, job: JobId) returns (affected: bool)
      requires Valid()
      modifies this
      ensures Valid() && affected == HasStatus(old(rows), i, Queued)
      ensures rows ==
        if affected then old(rows)[i := old(rows)[i].(row := old(rows)[i].row.(jobId := Some(job)))] else old(rows)
    {
      affected := HasStatus(rows, i, Queued);
      if affected {
        rows := rows[i := rows[i].(row := rows[i].row.(jobId := Some(job)))];
      }
    }

    method Delete(i: ImportId)
      requires Valid()
      modifies this
      ensures Valid() && rows == old(rows) - {i}
    {
      rows := rows - {i};
    }
  }

  /** What a step of a task sees of an import. */
  function Seen(rows: map<ImportId, Stored>, i: ImportId, key: Key, task: Task): Local {
    Local(Some(task), if i in rows then Some(rows[i].row) else None, Some(Book(key, 0, 0, 0, 0)))
  }

  /** The row of import i is what a step of a task leaves, and nothing else has changed. */
  predicate RowLeft(before: map<ImportId, Stored>, after: map<ImportId, Stored>, i: ImportId, key: Key,
                    task: Task, free: bool, a: Action)
    requires Ready(Seen(before, i, key, task), a)
  {
    var row := Move(Seen(before, i, key, task), free, i, a).row;
    if row == None then after == before - {i}
    else i in after && after[i].row == row.value && after == before[i := after[i]]
  }

  lemma Unremovable(s: Status)
    ensures s !in {Completed, Failed, Cancelled} <==>
      s in {Uploaded, Validating, Queued, Processing, PartiallyCompleted}
  {
  }

  class ImportsService {
    const repository: ImportRepository

    ghost predicate Valid()
      reads this, repository
    {
      repository.Valid()
    }

    constructor (repository: ImportRepository)
      requires repository.Valid()
      ensures Valid() && this.repository == repository
    {
      this.repository := repository;
    }

    /** The entity takes the new status and values before the save, and keeps them when the index refuses
        the row. */
    method Transition(e: ImportEntity, status: Status, values: Details) returns (outcome: Outcome)
      requires Valid()
      modifies e, repository
      ensures Valid() && e.queueJobId == old(e.queueJobId)
      ensures outcome ==
        if !CanTransition(old(e.status), status) then InvalidTransition
        else if Admits(old(repository.rows), e.id, e.key, status) then Done
        else UniqueViolation
      ensures e.status == if outcome == InvalidTransition then old(e.status) else status
      ensures e.details == if outcome == InvalidTransition then old(e.details) else values
      ensures repository.rows ==
        if outcome == Done then old(repository.rows)[e.id := e.Copy()] else old(repository.rows)
    {
      if !CanTransition(e.status, status) {
        return InvalidTransition;
      }
      e.status, e.details := status, values;
      outcome := repository.Save(e);
    }

    /** Saves FAILED from the entity's own status, whatever the stored one is; a completed or cancelled
        entity is left alone. */
    method Fail(e: ImportEntity, cause: Cause, code: string, message: string, now: Time) returns (saved: bool)
      requires Valid()
      modifies e, repository
      ensures Valid() && saved <==> old(e.status) !in {Completed, PartiallyCompleted, Cancelled}
      ensures !saved ==> repository.rows == old(repository.rows) && e.Copy() == old(e.Copy())
      ensures saved ==>
        && RowLeft(old(repository.rows), repository.rows, e.id, e.key,
                   Failing(e.id, cause), true, Work(0, SaveFailed(e.queueJobId)))
        && repository.rows[e.id] == e.Copy() && e.status == Failed && e.queueJobId == old(e.queueJobId)
        && e.details ==
             old(e.details).(completedAt := Some(now), errorCode := Some(code), errorMessage := Some(message))
    {
      if e.status != Failed {
        if !CanTransition(e.status, Failed) {
          return false;
        }
        e.status := Failed;
      }
      e.details := e.details.(completedAt := Some(now), errorCode := Some(code), errorMessage := Some(message));
      var outcome := repository.Save(e);
      saved := true;
    }

    /** create's move to VALIDATING. */
    method Validate(e: ImportEntity, queued: bool) returns (outcome: Outcome)
      requires Valid() && e.status == Uploaded && e.queueJobId == None
      modifies e, repository
      ensures Valid() && outcome == Done && e.status == Validating && e.details == old(e.details)
      ensures e.id in repository.rows && repository.rows[e.id] == e.Copy()
      ensures RowLeft(old(repository.rows), repository.rows, e.id, e.key,
                      Created(e.id, queued), true, Create(0, CreateEvent.Validate))
    {
      outcome := Transition(e, Validating, e.details);
    }

    /** create's move to QUEUED or PROCESSING: refused by the index exactly if another row of the key is
        indexed, and then the entity has been moved on all the same. */
    method Admit(e: ImportEntity, queued: bool, now: Time) returns (outcome: Outcome)
      requires Valid() && e.status == Validating && e.queueJobId == None
      modifies e, repository
      ensures Valid() && outcome in {Done, UniqueViolation}
      ensures outcome == UniqueViolation <==>
        exists j :: j in old(repository.rows) && j != e.id && old(repository.rows)[j].row.key == e.key
                    && Indexed(old(repository.rows)[j].row.status)
      ensures e.status == if queued then Queued else Processing
      ensures e.details == if queued then old(e.details) else old(e.details).(startedAt := Some(now))
      ensures repository.rows ==
        if outcome == Done then old(repository.rows)[e.id := e.Copy()] else old(repository.rows)
      ensures RowLeft(old(repository.rows), repository.rows, e.id, e.key,
                      Prepared(e.id, queued), outcome == Done, Create(0, CreateEvent.Admit(None)))
    {
      if queued {
        outcome := Transition(e, Queued, e.details);
      } else {
        outcome := Transition(e, Processing, e.details.(startedAt := Some(now)));
      }
      if outcome != Done && e.id !in repository.rows {
        assert repository.rows - {e.id} == repository.rows;
      }
    }

    /** create from its preparation to the outcome of its admission, nothing coming between: a refused
        import ends FAILED, from VALIDATING, although its entity was QUEUED or PROCESSING meanwhile. */
    method AdmitOrFail(e: ImportEntity, queued: bool, code: string, message: string, now: Time) returns (admitted: bool)
      requires Valid() && e.status == Validating && e.queueJobId == None
      modifies e, repository
      ensures Valid() && admitted ==
        !exists j :: j in old(repository.rows) && j != e.id && old(repository.rows)[j].row.key == e.key
                     && Indexed(old(repository.rows)[j].row.status)
      ensures e.status == if !admitted then Failed else if queued then Queued else Processing
      ensures !admitted ==>
        && e.details.errorCode == Some(code) && e.details.errorMessage == Some(message)
        && e.details.completedAt == Some(now)
      ensures repository.rows == old(repository.rows)[e.id := e.Copy()]
    {
      var outcome := Admit(e, queued, now);
      admitted := outcome == Done;
      if !admitted {
        var saved := Fail(e, Early, code, message, now);
      }
    }

    /** The conditional update that attaches the id of an added job. */
    method AttachJob(e: ImportEntity, creates: bool, job: JobId) returns (affected: bool)
      requires Valid()
      modifies e, repository
      ensures Valid() && affected == HasStatus(old(repository.rows), e.id, Queued)
      ensures RowLeft(old(repository.rows), repository.rows, e.id, e.key,
                      Attaching(e.id, creates, job), true, Enqueue(0, Attach))
      ensures e.status == old(e.status) && e.queueJobId == if affected then Some(job) else old(e.queueJobId)
      ensures e.id in old(repository.rows) ==>
        var was := old(repository.rows)[e.id];
        && e.id in repository.rows && repository.rows[e.id].details == was.details
        && repository.rows[e.id].row == Row(was.row.key, was.row.status, if affected then Some(job) else was.row.jobId)
    {
      affected := repository.AttachWhereQueued(e.id, job);
      if affected {
        e.queueJobId := Some(job);
      } else if e.id !in repository.rows {
        assert repository.rows - {e.id} == repository.rows;
      }
    }

    /** The read when nothing was attached. */
    method Reread(e: ImportEntity, creates: bool, job: JobId) returns (outcome: Outcome)
      requires Valid() && (e.id in repository.rows ==> repository.rows[e.id].row.key == e.key)
      modifies e
      ensures Valid() && outcome == if e.id in repository.rows then Done else NotFound
      ensures outcome == Done ==> e.Copy() == repository.rows[e.id]
      ensures outcome == NotFound ==> e.Copy() == old(e.Copy())
      ensures outcome == NotFound || creates ==>
        RereadMove(Seen(repository.rows, e.id, e.key, Rereading(e.id, creates, job))).task
          == Some(if outcome == NotFound then Unattaching(e.id, job) else Attached(e.id, e.status))
    {
      if e.id !in repository.rows {
        return NotFound;
      }
      var stored := repository.rows[e.id];
      e.status, e.queueJobId, e.details := stored.row.status, stored.row.jobId, stored.details;
      outcome := Done;
    }

    /** The worker's claim. */
    method Claim(i: ImportId, ghost key: Key, now: Time) returns (claimed: bool)
      requires Valid()
      modifies repository
      ensures Valid() && claimed == HasStatus(old(repository.rows), i, Queued)
      ensures RowLeft(old(repository.rows), repository.rows, i, key, Delivered(i), true, Work(0, WorkEvent.Claim))
      ensures claimed ==> repository.rows[i].details == old(repository.rows)[i].details.(startedAt := Some(now))
    {
      var details := if i in repository.rows then repository.rows[i].details.(startedAt := Some(now)) else NO_DETAILS;
      var outcome := repository.UpdateWhere(i, Queued, Processing, details);
      claimed := outcome == Done;
      if i !in repository.rows {
        assert repository.rows - {i} == repository.rows;
      }
    }

    /** The last transition of an execution: the totals of its COPY and its row errors, and the final status
        that follows from them. */
    method Complete(e: ImportEntity, rowCount: nat, errors: nat, bytes: nat, now: Time) returns (outcome: Outcome)
      requires Valid() && e.status == Processing
      modifies e, repository
      ensures Valid()
      ensures outcome == if Admits(old(repository.rows), e.id, e.key, Completed) then Done else UniqueViolation
      ensures outcome == UniqueViolation ==> repository.rows == old(repository.rows)
      ensures outcome == Done ==>
        && RowLeft(old(repository.rows), repository.rows, e.id, e.key,
                   Committed(e.id, errors > 0), true, Work(0, WorkEvent.Complete(e.queueJobId)))
        && var d := repository.rows[e.id].details;
           && d.successfulRows == rowCount && d.failedRows == errors && d.processedBytes == bytes
           && d.totalRows == Some(d.processedRows) && d.processedRows == d.successfulRows + d.failedRows
           && d.progressPercent == 100 && d.completedAt == Some(now) && d.startedAt == old(e.details).startedAt
           && d.errorCode == old(e.details).errorCode && d.errorMessage == old(e.details).errorMessage
    {
      var totalRows := rowCount + errors;
      var finalStatus := if errors > 0 then PartiallyCompleted else Completed;
      var values := e.details.(
        completedAt := Some(now), failedRows := errors, processedBytes := bytes, processedRows := totalRows,
        progressPercent := 100, successfulRows := rowCount, totalRows := Some(totalRows));
      outcome := Transition(e, finalStatus, values);
    }

    /** The queueing update of a retry, of the status read before: what the last attempt left is reset. */
    method Requeue(i: ImportId, ghost key: Key, from: Status) returns (outcome: Outcome)
      requires Valid() && from in {Failed, Cancelled}
      modifies repository
      ensures Valid()
      ensures outcome == Done <==>
        && HasStatus(old(repository.rows), i, from)
        && Admits(old(repository.rows), i, old(repository.rows)[i].row.key, Queued)
      ensures RowLeft(old(repository.rows), repository.rows, i, key,
                      Retrying(i, from), outcome == Done, Control(0, RetryWrite))
      // What the last attempt left is gone, but for the total.
      ensures outcome == Done ==>
        var d := repository.rows[i].details;
        && d.errorCode == None && d.errorMessage == None && d.startedAt == None && d.completedAt == None
        && d.failedRows == 0 && d.successfulRows == 0 && d.processedRows == 0
        && d.processedBytes == 0 && d.progressPercent == 0
        && d.totalRows == old(repository.rows)[i].details.totalRows
    {
      var details := if i in repository.rows then Reset(repository.rows[i].details) else NO_DETAILS;
      outcome := repository.UpdateWhere(i, from, Queued, details);
      if i !in repository.rows {
        assert repository.rows - {i} == repository.rows;
      }
    }

    /** The first statement of a cancellation: what it goes by afterwards is the job id it read. */
    method CancelRead(i: ImportId) returns (outcome: Outcome, job: Option<JobId>)
      requires Valid()
      ensures outcome ==
        if i !in repository.rows then NotFound
        else if repository.rows[i].row.status != Queued then InvalidTransition
        else Done
      ensures outcome == Done ==> job == repository.rows[i].row.jobId
      ensures outcome == Done ==>
        ControlMove(Local(None, Some(repository.rows[i].row), None), true, ControlEvent.CancelRead(i)).task
          == Some(Cancelling(i, job))
    {
      job := None;
      if i !in repository.rows {
        return NotFound, None;
      }
      if repository.rows[i].row.status != Queued {
        return InvalidTransition, None;
      }
      return Done, repository.rows[i].row.jobId;
    }

    /** The last statement of a cancellation, after the job was removed. */
    method CancelWrite(i: ImportId, ghost key: Key, now: Time) returns (outcome: Outcome)
      requires Valid()
      modifies repository
      ensures Valid() && outcome == if HasStatus(old(repository.rows), i, Queued) then Done else NotAffected
      ensures RowLeft(old(repository.rows), repository.rows, i, key,
                      JobRemoved(i), true, Control(0, ControlEvent.CancelWrite))
      ensures outcome == Done ==>
        repository.rows[i].details == old(repository.rows)[i].details.(completedAt := Some(now))
    {
      var details := if i in repository.rows then repository.rows[i].details.(completedAt := Some(now)) else NO_DETAILS;
      outcome := repository.UpdateWhere(i, Queued, Cancelled, details);
      if i !in repository.rows {
        assert repository.rows - {i} == repository.rows;
      }
    }

    /** The first statement of a removal: a partially completed import is refused. */
    method RemoveRead(i: ImportId) returns (outcome: Outcome)
      requires Valid()
      ensures outcome ==
        if i !in repository.rows then NotFound
        else if repository.rows[i].row.status in {Uploaded, Validating, Queued, Processing, PartiallyCompleted}
        then InvalidTransition
        else Done
      ensures outcome == Done <==>
        i in repository.rows && ControlReady(None, Some(repository.rows[i].row), ControlEvent.DeleteRead(i))
    {
      if i !in repository.rows {
        return NotFound;
      }
      Unremovable(repository.rows[i].row.status);
      if repository.rows[i].row.status !in {Completed, Failed, Cancelled} {
        return InvalidTransition;
      }
      outcome := Done;
    }

    /** The last statement of a removal deletes whatever the row says by then. */
    method RemoveWrite(i: ImportId, ghost key: Key)
      requires Valid()
      modifies repository
      ensures Valid() && repository.rows == old(repository.rows) - {i}
      ensures RowLeft(old(repository.rows), repository.rows, i, key,
                      Deleting(i), true, Control(0, ControlEvent.DeleteWrite))
    {
      repository.Delete(i);
    }
  }

  const NO_DETAILS: Details := Details(None, 0, 0, 0, 0, 0, None, None, None, None)

  /** A retry resets what an attempt leaves, except the total. */
  function Reset(d: Details): Details {
    NO_DETAILS.(totalRows := d.totalRows)
  }
}
