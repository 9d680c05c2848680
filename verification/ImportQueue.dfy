/** The job queue and its limit. An enqueue counts the jobs first and adds its own later, so that others
    may count in between. */
module ImportQueues {
  import opened OrderedMaps
  import opened ImportProtocol

  /** Jobs waiting or worked on, and enqueues that found room and have not added yet. */
  datatype Load = Load(pending: nat, between: nat)

  datatype QueueStep = FindsRoom | Adds | GivesUp | Leaves

  predicate CanStep(limit: nat, load: Load, step: QueueStep) {
    match step
    case FindsRoom => load.pending < limit
    case Adds => load.between > 0
    case GivesUp => load.between > 0
    case Leaves => load.pending > 0
  }

  function Next(limit: nat, load: Load, step: QueueStep): Load
    requires CanStep(limit, load, step)
  {
    match step
    case FindsRoom => load.(between := load.between + 1)
    case Adds => Load(load.pending + 1, load.between - 1)
    case GivesUp => load.(between := load.between - 1)
    case Leaves => load.(pending := load.pending - 1)
  }

  /** The one load is what the other becomes by this step. */
  predicate Steps(limit: nat, load: Load, step: QueueStep, load': Load) {
    CanStep(limit, load, step) && load' == Next(limit, load, step)
  }

  lemma OneLess(waiting: map<JobId, ImportId>, job: JobId)
    ensures |waiting - {job}| == |waiting| - if job in waiting then 1 else 0
    ensures job !in waiting ==> waiting - {job} == waiting
  {
    if job in waiting {
      assert waiting.Keys == (waiting - {job}).Keys + {job};
    } else {
      assert waiting - {job} == waiting;
    }
  }

  /** Jobs not delivered yet, and jobs being worked on; beside them the number of enqueues that found room
      and have not added yet. */
  class ImportQueue {
    const maxActiveJobs: nat
    var started: bool
    var waiting: map<JobId, ImportId>
    var active: set<JobId>
    var used: set<JobId>
    ghost var between: nat

    ghost function View(): Load
      reads this
    {
      Load(Pending(), between)
    }

    ghost predicate Valid()
      reads this
    {
      waiting.Keys !! active && waiting.Keys + active <= used
    }

    function Pending(): nat
      reads this
    {
      |waiting| + |active|
    }

    constructor (maxActiveJobs: nat)
      ensures Valid() && waiting == map[] && active == {} && View() == Load(0, 0)
      ensures this.maxActiveJobs == maxActiveJobs
    {
      this.maxActiveJobs, started, waiting, active, used := maxActiveJobs, false, map[], {}, {};
      between := 0;
    }

    /** The count that precedes an add. */
    method FindRoom() returns (room: bool)
      requires Valid()
      modifies this`started, this`between
      ensures Valid() && started && room == (Pending() < maxActiveJobs)
      ensures if room then Steps(maxActiveJobs, old(View()), FindsRoom, View()) else View() == old(View())
    {
      started := true;
      room := Pending() < maxActiveJobs;
      between := if room then between + 1 else between;
    }

    /** Adds whatever the number of jobs is by now, unless adding fails. */
    method Add(i: ImportId, newJob: JobId, ok: bool)
      requires Valid() && newJob !in used && between > 0
      modifies this`waiting, this`used, this`between
      ensures Valid() && Steps(maxActiveJobs, old(View()), if ok then Adds else GivesUp, View())
      ensures Pending() == old(Pending()) + if ok then 1 else 0
      ensures waiting == if ok then old(waiting)[newJob := i] else old(waiting)
    {
      between := between - 1;
      if ok {
        assert (waiting[newJob := i]).Keys == waiting.Keys + {newJob};
        waiting, used := waiting[newJob := i], used + {newJob};
      }
    }

    /** Hands a waiting job to a worker, which keeps it until it is done. */
    method Deliver(job: JobId) returns (i: ImportId)
      requires Valid() && job in waiting
      modifies this`waiting, this`active
      ensures Valid() && View() == old(View()) && i == old(waiting)[job]
      ensures waiting == old(waiting) - {job} && active == old(active) + {job}
    {
      i := waiting[job];
      assert waiting.Keys == (waiting - {job}).Keys + {job};
      waiting, active := waiting - {job}, active + {job};
    }

    method Finish(job: JobId)
      requires Valid() && job in active
      modifies this`active
      ensures Valid() && Steps(maxActiveJobs, old(View()), Leaves, View()) && active == old(active) - {job}
      ensures Pending() == old(Pending()) - 1
    {
      active := active - {job};
    }

    /** No job id and an unknown job are no error; a job being worked on cannot be removed. */
    method Cancel(job: Option<JobId>) returns (removed: bool)
      requires Valid()
      modifies this`started, this`waiting
      ensures Valid()
      ensures removed == !(job.Some? && job.value in active)
      ensures waiting == if job.Some? then old(waiting) - {job.value} else old(waiting)
      ensures Pending() == old(Pending()) - if job.Some? && job.value in old(waiting) then 1 else 0
      ensures if job.Some? && job.value in old(waiting) then Steps(maxActiveJobs, old(View()), Leaves, View())
              else View() == old(View())
    {
      removed := true;
      if job.Some? {
        started := true;
        OneLess(waiting, job.value);
        if job.value in active {
          return false;
        }
        waiting := waiting - {job.value};
      }
    }
  }

  // The limit, with any number of enqueues between their count and their add.

  /** The load after a run, if each of its steps could be taken. */
  function LoadAfter(limit: nat, run: seq<QueueStep>): Option<Load> {
    if run == [] then Some(Load(0, 0))
    else
      match LoadAfter(limit, run[..|run| - 1])
      case None => None
      case Some(load) =>
        if CanStep(limit, load, run[|run| - 1]) then Some(Next(limit, load, run[|run| - 1])) else None
  }

  /** The most enqueues that were between count and add at one time. */
  function Crowd(limit: nat, run: seq<QueueStep>): (crowd: nat)
    requires LoadAfter(limit, run).Some?
    ensures crowd >= LoadAfter(limit, run).value.between
  {
    if run == [] then 0
    else
      var earlier := Crowd(limit, run[..|run| - 1]);
      if LoadAfter(limit, run).value.between > earlier then LoadAfter(limit, run).value.between else earlier
  }

  /** The limit may be exceeded by all but one of the enqueues that were at once between their count and
      their add, and by no more. */
  lemma {:induction false} QueueExceedsByTheCrowd(limit: nat, run: seq<QueueStep>)
    requires LoadAfter(limit, run).Some?
    ensures var load, crowd := LoadAfter(limit, run).value, Crowd(limit, run);
      load.pending + load.between <= if crowd == 0 then 0 else limit - 1 + crowd
  {
    if run != [] {
      QueueExceedsByTheCrowd(limit, run[..|run| - 1]);
    }
  }

  /** Enqueues one at a time keep to the limit. */
  lemma SingleEnqueuesKeepTheLimit(limit: nat, run: seq<QueueStep>)
    requires LoadAfter(limit, run).Some? && Crowd(limit, run) <= 1
    ensures LoadAfter(limit, run).value.pending <= limit
  {
    QueueExceedsByTheCrowd(limit, run);
  }

  // The bound is reached, for every limit and every crowd.

  function Repeat(step: QueueStep, n: nat): (run: seq<QueueStep>)
    ensures |run| == n
  {
    if n == 0 then [] else Repeat(step, n - 1) + [step]
  }

  lemma TakesStep(limit: nat, run: seq<QueueStep>, step: QueueStep)
    requires LoadAfter(limit, run).Some? && CanStep(limit, LoadAfter(limit, run).value, step)
    ensures LoadAfter(limit, run + [step]) == Some(Next(limit, LoadAfter(limit, run).value, step))
    ensures var between := Next(limit, LoadAfter(limit, run).value, step).between;
      Crowd(limit, run + [step]) == if between > Crowd(limit, run) then between else Crowd(limit, run)
  {
    assert (run + [step])[..|run|] == run;
  }

  /** Fills the queue one by one. */
  function Filling(n: nat): seq<QueueStep> {
    if n == 0 then [] else Filling(n - 1) + [FindsRoom] + [Adds]
  }

  /** The run ends with this load and had this crowd. */
  ghost predicate Ends(limit: nat, run: seq<QueueStep>, load: Load, crowd: nat) {
    LoadAfter(limit, run) == Some(load) && Crowd(limit, run) == crowd
  }

  lemma EndsNext(limit: nat, run: seq<QueueStep>, step: QueueStep, load: Load, crowd: nat)
    requires Ends(limit, run, load, crowd) && CanStep(limit, load, step)
    ensures var next := Next(limit, load, step);
      Ends(limit, run + [step], next, if next.between > crowd then next.between else crowd)
  {
    TakesStep(limit, run, step);
  }

  lemma {:induction false} FillingFills(limit: nat, n: nat)
    requires n <= limit
    ensures Ends(limit, Filling(n), Load(n, 0), if n == 0 then 0 else 1)
  {
    if n > 0 {
      FillingFills(limit, n - 1);
      EndsNext(limit, Filling(n - 1), FindsRoom, Load(n - 1, 0), if n == 1 then 0 else 1);
      EndsNext(limit, Filling(n - 1) + [FindsRoom], Adds, Load(n - 1, 1), 1);
    }
  }

  lemma {:induction false} CrowdGathers(limit: nat, n: nat)
    requires limit > 0
    ensures Ends(limit, Filling(limit - 1) + Repeat(FindsRoom, n), Load(limit - 1, n),
                 if n == 0 && limit > 1 then 1 else n)
  {
    var run := Filling(limit - 1);
    if n == 0 {
      FillingFills(limit, limit - 1);
      assert run + [] == run;
    } else {
      CrowdGathers(limit, n - 1);
      EndsNext(limit, run + Repeat(FindsRoom, n - 1), FindsRoom, Load(limit - 1, n - 1),
               if n == 1 && limit > 1 then 1 else n - 1);
      assert run + Repeat(FindsRoom, n) == run + Repeat(FindsRoom, n - 1) + [FindsRoom];
    }
  }

  /** Fills the queue up to one place, lets a crowd find that place, and lets them all add. */
  function Overshooting(limit: nat, crowd: nat, added: nat): seq<QueueStep>
    requires limit > 0 && added <= crowd
  {
    Filling(limit - 1) + Repeat(FindsRoom, crowd) + Repeat(Adds, added)
  }

  lemma OvershootsNext(limit: nat, crowd: nat, added: nat)
    requires limit > 0 && 0 < added <= crowd
    ensures Overshooting(limit, crowd, added) == Overshooting(limit, crowd, added - 1) + [Adds]
  {
    var start := Filling(limit - 1) + Repeat(FindsRoom, crowd);
    assert start + (Repeat(Adds, added - 1) + [Adds]) == start + Repeat(Adds, added - 1) + [Adds];
  }

  lemma {:induction false} Overshoots(limit: nat, crowd: nat, added: nat)
    requires limit > 0 && 0 < crowd && added <= crowd
    ensures Ends(limit, Overshooting(limit, crowd, added), Load(limit - 1 + added, crowd - added), crowd)
  {
    if added == 0 {
      CrowdGathers(limit, crowd);
      assert Overshooting(limit, crowd, 0) == Filling(limit - 1) + Repeat(FindsRoom, crowd);
    } else {
      Overshoots(limit, crowd, added - 1);
      OvershootsNext(limit, crowd, added);
      EndsNext(limit, Overshooting(limit, crowd, added - 1), Adds, Load(limit - 2 + added, crowd - added + 1), crowd);
    }
  }

  /** For every limit and every crowd there is a run that exceeds the limit by all but one of the crowd. */
  lemma OvershootingReachesTheBound(limit: nat, crowd: nat, added: nat)
    requires limit > 0 && 0 < crowd && added <= crowd
    ensures LoadAfter(limit, Overshooting(limit, crowd, added)) == Some(Load(limit - 1 + added, crowd - added))
    ensures Crowd(limit, Overshooting(limit, crowd, added)) == crowd
  {
    Overshoots(limit, crowd, added);
  }

  lemma {:induction false} NothingFitsInNone(run: seq<QueueStep>)
    requires LoadAfter(0, run).Some?
    ensures LoadAfter(0, run) == Some(Load(0, 0))
  {
    if run != [] {
      NothingFitsInNone(run[..|run| - 1]);
    }
  }

  /** Every run in which at most this many enqueues were at once past their count keeps to the limit. */
  ghost predicate CrowdKeepsTheLimit(limit: nat, crowd: nat) {
    forall run :: LoadAfter(limit, run).Some? && Crowd(limit, run) <= crowd ==>
      LoadAfter(limit, run).value.pending <= limit
  }

  /** The limit is kept whatever happens exactly if enqueues come one at a time, or none has room. */
  lemma LimitKeptExactly(limit: nat, crowd: nat)
    ensures CrowdKeepsTheLimit(limit, crowd) <==> crowd <= 1 || limit == 0
  {
    if crowd <= 1 {
      forall run | LoadAfter(limit, run).Some? && Crowd(limit, run) <= crowd
        ensures LoadAfter(limit, run).value.pending <= limit
      {
        SingleEnqueuesKeepTheLimit(limit, run);
      }
    } else if limit == 0 {
      forall run | LoadAfter(limit, run).Some? ensures LoadAfter(limit, run).value.pending <= limit {
        NothingFitsInNone(run);
      }
    } else {
      OvershootingReachesTheBound(limit, crowd, crowd);
    }
  }
}
