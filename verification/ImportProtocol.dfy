/** CSV imports as a step system: creators, workers, retries, cancellations and deletions race
    on shared rows, a job queue and their own copies of the entity. One step is one statement
    against the database or the queue; any other step may come between two of them. A step is
    taken by one task and reads and writes the row of one import. */
module ImportProtocol {
  import opened OrderedMaps
  import opened ImportStatus

  type ImportId = nat
  type JobId = nat
  type TaskId = nat
  type Key = nat      // organization, target schema, target table and file hash together

  datatype Row = Row(key: Key, status: Status, jobId: Option<JobId>)

  /** What happened to an import so far: its key, COPY commits, claims by workers,
      cancellations, and how often it entered QUEUED. */
  datatype Book = Book(key: Key, commits: nat, claims: nat, cancels: nat, queued: nat)

  /** Why `fail` is about to save FAILED: before the import was queued or started; after its
      QUEUED write, because the job could not be enqueued or attached; or during execution. */
  datatype Cause = Early | Lost | Run

  datatype Task =
    | Checked(key: Key)                                 // no duplicate seen, row not inserted yet
    | Created(i: ImportId, queued: bool)                // row UPLOADED
    | Preparing(i: ImportId, queued: bool)              // row VALIDATING
    | Prepared(i: ImportId, queued: bool)
    | Enqueueing(i: ImportId, creates: bool)            // QUEUED written, job not added
    | Attaching(i: ImportId, creates: bool, job: JobId) // job visible to workers
    | Rereading(i: ImportId, creates: bool, job: JobId) // job id not attached, row to be read again
    | Unattaching(i: ImportId, job: JobId)              // attaching threw, job to be removed
    | Attached(i: ImportId, local: Status)              // create only, with the status it goes by
    | Failing(i: ImportId, cause: Cause)
    | Delivered(i: ImportId)                            // worker with a job, before its claim
    | Executing(i: ImportId)                            // owner, nothing committed
    | Committed(i: ImportId, partial: bool)             // COPY committed, final status not saved
    | Retrying(i: ImportId, from: Status)
    | Cancelling(i: ImportId, jobId: Option<JobId>)     // read QUEUED, job not removed yet
    | JobRemoved(i: ImportId)
    | Deleting(i: ImportId)                             // read a terminal status

  datatype State = State(
    rows: map<ImportId, Row>,
    books: map<ImportId, Book>,
    jobs: map<JobId, ImportId>,        // waiting jobs
    jobsMade: map<JobId, ImportId>,    // every job ever added
    tasks: map<TaskId, Task>)

  const INITIAL: State := State(map[], map[], map[], map[], map[])

  datatype CreateEvent =
    | Check(key: Key) | Insert(i: ImportId, queued: bool) | Validate | PrepareDone
    | Admit(local: Option<JobId>) | CreateFails

  datatype EnqueueEvent =
    | EnqueueOk(job: JobId) | EnqueueFails | Attach | AttachFails | Reread | RereadFails | Unattach(removed: bool)
    | AuditOk | AuditFails

  datatype WorkEvent =
    | Deliver(job: JobId) | Claim | EntityGone | ExecutionFails | Commit(partial: bool) | ErrorRowsFail
    | Complete(local: Option<JobId>) | SaveFailed(local: Option<JobId>)

  datatype ControlEvent =
    | RetryRead(i: ImportId) | RetryWrite
    | CancelRead(i: ImportId) | RemoveJob | RemoveJobFails | CancelWrite
    | DeleteRead(i: ImportId) | DeleteWrite
    | Crash

  datatype Action =
    | Create(t: TaskId, create: CreateEvent)
    | Enqueue(t: TaskId, enqueue: EnqueueEvent)
    | Work(t: TaskId, work: WorkEvent)
    | Control(t: TaskId, control: ControlEvent)

  // Lookups.

  function TaskAt(s: State, t: TaskId): Option<Task> {
    if t in s.tasks then Some(s.tasks[t]) else None
  }

  function RowAt(s: State, i: ImportId): Option<Row> {
    if i in s.rows then Some(s.rows[i]) else None
  }

  function BookAt(s: State, i: ImportId): Option<Book> {
    if i in s.books then Some(s.books[i]) else None
  }

  /** The waiting job with this id, and the job ever made with it. */
  function JobAt(s: State, j: JobId): Option<ImportId> {
    if j in s.jobs then Some(s.jobs[j]) else None
  }

  function MadeAt(s: State, j: JobId): Option<ImportId> {
    if j in s.jobsMade then Some(s.jobsMade[j]) else None
  }

  /** What one step sees and changes: its task, and the row and the history of its import. */
  datatype Local = Local(task: Option<Task>, row: Option<Row>, book: Option<Book>)

  function Read(s: State, t: TaskId, i: ImportId): Local {
    Local(TaskAt(s, t), RowAt(s, i), BookAt(s, i))
  }

  function Write(s: State, t: TaskId, i: ImportId, l: Local): State {
    s.(tasks := if l.task.Some? then s.tasks[t := l.task.value] else s.tasks - {t},
       rows := if l.row.Some? then s.rows[i := l.row.value] else s.rows - {i},
       books := if l.book.Some? then s.books[i := l.book.value] else s.books - {i})
  }

  function History(l: Local): Book {
    if l.book.Some? then l.book.value else Book(0, 0, 0, 0, 0)
  }

  predicate Has(row: Option<Row>, status: Status) {
    row.Some? && row.value.status == status
  }

  /** `save` of an entity: writes the caller's own copy whatever the row says by now, and inserts
      the row if it is gone. */
  function Save(l: Local, status: Status, job: Option<JobId>): Local {
    l.(row := Some(Row(History(l).key, status, job)))
  }

  /** `update ... where`, applied when it matched: changes the status and nothing else. */
  function Update(l: Local, status: Status): Local {
    if l.row.Some? then l.(row := Some(l.row.value.(status := status))) else l
  }

  function Go(l: Local, task: Task): Local {
    l.(task := Some(task))
  }

  function End(l: Local): Local {
    l.(task := None)
  }

  function Claimed(l: Local): Local {
    l.(book := Some(History(l).(claims := History(l).claims + 1)))
  }

  function CancelledOnce(l: Local): Local {
    l.(book := Some(History(l).(cancels := History(l).cancels + 1)))
  }

  function QueuedOnce(l: Local): Local {
    l.(book := Some(History(l).(queued := History(l).queued + 1)))
  }

  function CommittedOnce(l: Local): Local {
    l.(book := Some(History(l).(commits := History(l).commits + 1)))
  }

  // create; `free` tells whether the unique index admits an indexed status for this row.

  predicate CreateReady(task: Option<Task>, e: CreateEvent) {
    match e
    case Check(_) => task == None
    case Insert(_, _) => task.Some? && task.value.Checked?
    case Validate => task.Some? && task.value.Created?
    case PrepareDone => task.Some? && task.value.Preparing?
    case Admit(local) => task.Some? && task.value.Prepared? && local == None
    case CreateFails => task.Some? && (task.value.Created? || task.value.Preparing? || task.value.Prepared?)
  }

  function CreateMove(l: Local, free: bool, e: CreateEvent): Local
    requires CreateReady(l.task, e)
  {
    match e
    case Check(key) => Go(l, Checked(key))
    case Insert(i, queued) =>
      var key := l.task.value.key;
      Local(Some(Created(i, queued)), Some(Row(key, Uploaded, None)), Some(Book(key, 0, 0, 0, 0)))
    case Validate => Go(Save(l, Validating, None), Preparing(l.task.value.i, l.task.value.queued))
    case PrepareDone => Go(l, Prepared(l.task.value.i, l.task.value.queued))
    case Admit(local) =>
      if !free then Go(l, Failing(l.task.value.i, Early))
      else if l.task.value.queued then Go(QueuedOnce(Save(l, Queued, local)), Enqueueing(l.task.value.i, true))
      else Go(Save(l, Processing, local), Executing(l.task.value.i))
    case CreateFails => Go(l, Failing(l.task.value.i, Early))
  }

  // enqueue, shared by create and retry

  predicate EnqueueReady(task: Option<Task>, e: EnqueueEvent) {
    task.Some? &&
    match e
    case EnqueueOk(_) => task.value.Enqueueing?
    case EnqueueFails => task.value.Enqueueing?
    case Attach => task.value.Attaching?
    case AttachFails => task.value.Attaching?
    case Reread => task.value.Rereading?
    case RereadFails => task.value.Rereading?
    case Unattach(_) => task.value.Unattaching?
    case AuditOk => task.value.Attached?
    case AuditFails => task.value.Attached?
  }

  /** The update that attaches the job id where the row is still QUEUED. */
  function AttachMove(l: Local): Local
    requires l.task.Some? && l.task.value.Attaching?
  {
    var Attaching(i, creates, job) := l.task.value;
    if !Has(l.row, Queued) then Go(l, Rereading(i, creates, job))
    else
      var attached := l.(row := Some(l.row.value.(jobId := Some(job))));
      if creates then Go(attached, Attached(i, Queued)) else End(attached)
  }

  /** The read when it was not: a missing row throws. */
  function RereadMove(l: Local): Local
    requires l.task.Some? && l.task.value.Rereading?
  {
    var Rereading(i, creates, job) := l.task.value;
    if l.row == None then Go(l, Unattaching(i, job))
    else if creates then Go(l, Attached(i, l.row.value.status))
    else End(l)
  }

  function EnqueueMove(l: Local, e: EnqueueEvent): Local
    requires EnqueueReady(l.task, e)
  {
    match e
    case EnqueueOk(job) => Go(l, Attaching(l.task.value.i, l.task.value.creates, job))
    case EnqueueFails => Go(l, Failing(l.task.value.i, Lost))
    case Attach => AttachMove(l)
    case AttachFails => Go(l, Unattaching(l.task.value.i, l.task.value.job))
    case Reread => RereadMove(l)
    case RereadFails => Go(l, Unattaching(l.task.value.i, l.task.value.job))
    case Unattach(_) => Go(l, Failing(l.task.value.i, Lost))
    case AuditOk => End(l)
    case AuditFails =>
      var local := l.task.value.local;
      if local == Failed || CanTransition(local, Failed) then Go(l, Failing(l.task.value.i, Lost))
      else End(l)
  }

  // workers and execution; a worker is given the import of its job

  predicate WorkReady(task: Option<Task>, e: WorkEvent) {
    match e
    case Deliver(_) => task == None
    case Claim => task.Some? && task.value.Delivered?
    case EntityGone => task.Some? && task.value.Executing?
    case ExecutionFails => task.Some? && task.value.Executing?
    case Commit(_) => task.Some? && task.value.Executing?
    case ErrorRowsFail => task.Some? && task.value.Committed? && task.value.partial
    case Complete(_) => task.Some? && task.value.Committed?
    case SaveFailed(_) => task.Some? && task.value.Failing?
  }

  function WorkMove(l: Local, free: bool, i: ImportId, e: WorkEvent): Local
    requires WorkReady(l.task, e)
  {
    match e
    case Deliver(_) => Go(l, Delivered(i))
    case Claim => if Has(l.row, Queued) then Go(Claimed(Update(l, Processing)), Executing(i)) else End(l)
    case EntityGone => End(l)
    case ExecutionFails => Go(l, Failing(i, Run))
    case Commit(partial) => Go(CommittedOnce(l), Committed(i, partial))
    case ErrorRowsFail => Go(l, Failing(i, Run))
    case Complete(local) =>
      if free then End(Save(l, if l.task.value.partial then PartiallyCompleted else Completed, local)) else End(l)
    case SaveFailed(local) => End(Save(l, Failed, local))
  }

  // retry, cancel, remove, and processes that die

  predicate ControlReady(task: Option<Task>, row: Option<Row>, e: ControlEvent) {
    match e
    case RetryRead(_) => task == None && (Has(row, Failed) || Has(row, Cancelled))
    case RetryWrite => task.Some? && task.value.Retrying?
    case CancelRead(_) => task == None && Has(row, Queued)
    case RemoveJob => task.Some? && task.value.Cancelling?
    case RemoveJobFails => task.Some? && task.value.Cancelling? && task.value.jobId.Some?
    case CancelWrite => task.Some? && task.value.JobRemoved?
    case DeleteRead(_) => task == None && (Has(row, Completed) || Has(row, Failed) || Has(row, Cancelled))
    case DeleteWrite => task.Some? && task.value.Deleting?
    case Crash => task.Some?
  }

  function ControlMove(l: Local, free: bool, e: ControlEvent): Local
    requires ControlReady(l.task, l.row, e)
  {
    match e
    case RetryRead(i) => Go(l, Retrying(i, l.row.value.status))
    case RetryWrite =>
      if Has(l.row, l.task.value.from) && free then Go(QueuedOnce(Update(l, Queued)), Enqueueing(l.task.value.i, false))
      else End(l)
    case CancelRead(i) => Go(l, Cancelling(i, l.row.value.jobId))
    case RemoveJob => Go(l, JobRemoved(l.task.value.i))
    case RemoveJobFails => End(l)
    case CancelWrite => if Has(l.row, Queued) then End(CancelledOnce(Update(l, Cancelled))) else End(l)
    case DeleteRead(i) => Go(l, Deleting(i))
    case DeleteWrite => End(l.(row := None))
    case Crash => End(l)
  }

  // Steps.

  /** The import a step is about: the one it names, or the one of its task; 0 for a step about none. */
  function About(s: State, a: Action): ImportId {
    match a
    case Create(_, Insert(i, _)) => i
    case Control(_, RetryRead(i)) => i
    case Control(_, CancelRead(i)) => i
    case Control(_, DeleteRead(i)) => i
    case Work(_, Deliver(job)) => if job in s.jobs then s.jobs[job] else 0
    case _ => if a.t in s.tasks && !s.tasks[a.t].Checked? then s.tasks[a.t].i else 0
  }

  predicate Ready(l: Local, a: Action) {
    match a
    case Create(_, e) => CreateReady(l.task, e)
    case Enqueue(_, e) => EnqueueReady(l.task, e)
    case Work(_, e) => WorkReady(l.task, e)
    case Control(_, e) => ControlReady(l.task, l.row, e)
  }

  function Move(l: Local, free: bool, i: ImportId, a: Action): Local
    requires Ready(l, a)
  {
    match a
    case Create(_, e) => CreateMove(l, free, e)
    case Enqueue(_, e) => EnqueueMove(l, e)
    case Work(_, e) => WorkMove(l, free, i, e)
    case Control(_, e) => ControlMove(l, free, e)
  }

  /** The partial unique index admits an indexed status only if no other row of the key has one. */
  ghost predicate IndexFree(s: State, i: ImportId) {
    forall j :: j in s.rows && j != i && BookAt(s, i).Some? && s.rows[j].key == s.books[i].key ==>
      !Indexed(s.rows[j].status)
  }

  /** Guards on more than the row: the duplicate check, fresh identities, the job delivered, and
      an entity copy that carries no job id or one made for its import. */
  ghost predicate Guarded(s: State, a: Action) {
    match a
    case Create(_, Check(key)) => forall i :: i in s.rows && s.rows[i].key == key ==> !BlocksUpload(s.rows[i].status)
    case Create(_, Insert(i, _)) => i !in s.books
    case Enqueue(_, EnqueueOk(job)) => job !in s.jobsMade
    case Work(_, Deliver(job)) => job in s.jobs
    case Work(_, EntityGone) => About(s, a) !in s.rows
    case Work(_, Complete(local)) => local.Some? ==> MadeAt(s, local.value) == Some(About(s, a))
    case Work(_, SaveFailed(local)) => local.Some? ==> MadeAt(s, local.value) == Some(About(s, a))
    case _ => true
  }

  ghost predicate Enabled(s: State, a: Action) {
    Ready(Read(s, a.t, About(s, a)), a) && Guarded(s, a)
  }

  /** The job a step takes out of the queue, if it takes one. */
  function JobTaken(l: Local, a: Action): Option<JobId>
    requires Ready(l, a)
  {
    match a
    case Enqueue(_, Unattach(removed)) => if removed then Some(l.task.value.job) else None
    case Work(_, Deliver(job)) => Some(job)
    case Control(_, RemoveJob) => l.task.value.jobId
    case _ => None
  }

  ghost function Step(s: State, a: Action): State
    requires Enabled(s, a)
  {
    var i := About(s, a);
    var l := Read(s, a.t, i);
    var s' := Write(s, a.t, i, Move(l, IndexFree(s, i), i, a));
    if a.Enqueue? && a.enqueue.EnqueueOk? then
      s'.(jobs := s.jobs[a.enqueue.job := i], jobsMade := s.jobsMade[a.enqueue.job := i])
    else if JobTaken(l, a).Some? then s'.(jobs := s.jobs - {JobTaken(l, a).value})
    else s'
  }

  // What a run may be assumed to do, switched on one by one.

  /** quiet: when `fail` runs because a job could not be enqueued or attached (or its audit
        record written), the row is still QUEUED, or FAILED.
      booked: saving the row errors of a committed COPY does not fail.
      steady: no process dies between two of its statements, and no write it makes is refused
        for another reason than the ones above. */
  datatype Assumed = Assumed(quiet: bool, booked: bool, steady: bool)

  predicate Quiet(s: State, a: Action) {
    a.Work? && a.work.SaveFailed? && a.t in s.tasks && s.tasks[a.t].Failing? && s.tasks[a.t].cause == Lost ==>
      Has(RowAt(s, s.tasks[a.t].i), Queued) || Has(RowAt(s, s.tasks[a.t].i), Failed)
  }

  ghost predicate Permitted(h: Assumed, s: State, a: Action) {
    && Enabled(s, a)
    && (h.quiet ==> Quiet(s, a))
    && (h.booked ==> !(a.Work? && a.work.ErrorRowsFail?))
    && (h.steady ==> !(a.Control? && a.control.Crash?))
  }

  /** The state after a run, if every action of it was permitted when it was taken. */
  ghost function After(h: Assumed, run: seq<Action>): Option<State> {
    if run == [] then Some(INITIAL)
    else
      match After(h, run[..|run| - 1])
      case None => None
      case Some(s) =>
        var a := run[|run| - 1];
        if Permitted(h, s, a) then Some(Step(s, a)) else None
  }

  ghost predicate Leads(h: Assumed, s: State, a: Action, s': State) {
    Permitted(h, s, a) && Step(s, a) == s'
  }

  /** A run can be continued to this state. */
  ghost predicate Continues(h: Assumed, run: seq<Action>, s: State) {
    exists more :: After(h, run + more) == Some(s)
  }

  ghost predicate Reachable(h: Assumed, s: State) {
    Continues(h, [], s)
  }

  lemma StartReachable(h: Assumed)
    ensures Reachable(h, INITIAL)
  {
    var start: seq<Action> := [];
    assert After(h, start + start) == Some(INITIAL);
  }

  lemma Extend(h: Assumed, run: seq<Action>, s: State, a: Action, s': State)
    requires Continues(h, run, s) && Leads(h, s, a, s')
    ensures Continues(h, run, s')
  {
    var more :| After(h, run + more) == Some(s);
    assert run + (more + [a]) == run + more + [a];
    assert (run + more + [a])[..|run + more|] == run + more;
    assert After(h, run + (more + [a])) == Some(s');
  }
}
