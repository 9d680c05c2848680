/** The bound on live data sources: it holds when capacity checks run in the order in which their keys
    went in flight, and without that order in exactly the runs in which no check undercounts. */
module RegistryCapacity {
  import opened OrderedMaps
  import opened RegistryCore
  import opened RegistryProtocol
  import opened RegistryLeases
  import opened RegistryTenants
  import opened RegistryOrder

  /** Initialisations that passed the capacity check and have not finished. */
  function AdmittedInits(s: State): set<TaskId> {
    set t | t in s.inits && Counted(s.inits[t].phase)
  }

  ghost predicate Bounded(cfg: Config, s: State) {
    |s.core.registry.values| + |AdmittedInits(s)| <= cfg.maxActive
  }

  function PhaseFor(s: State, id: Id): Phase {
    InitOf(s, ValueOf(s.core.inFlight, id)).phase
  }

  predicate InOrder(s: State, a: Id, b: Id) {
    a in s.core.inFlight.values && b in s.core.inFlight.values && Before(s.core.inFlight, a, b) ==>
      Counted(PhaseFor(s, b)) ==> Checked(PhaseFor(s, a))
  }

  /** Whoever is in flight ahead of an admitted initialisation has been checked. */
  ghost predicate ChecksInOrder(s: State) {
    forall a, b :: InOrder(s, a, b)
  }

  // Places in the in-flight order.

  lemma AppendKeepsPlaces(order: seq<nat>, k: nat, x: nat)
    requires k !in order && (x in order || x == k)
    ensures Position(order + [k], x) == if x == k then |order| else Position(order, x)
  {
    assert (order + [k])[..|order|] == order;
  }

  lemma StartKeepsChecks(s: State, s': State, t: TaskId, org: Org, id: Id, p: Phase)
    requires ChecksInOrder(s) && Marked(s) && MapsProper(s)
    requires t !in s.inits && id !in s.core.inFlight.values && !Counted(p)
    requires s'.core.inFlight == Put(s.core.inFlight, id, t) && s'.inits == s.inits[t := Init(org, id, p)]
    ensures ChecksInOrder(s')
  {
    ListsMembers(s.core.inFlight.order, s.core.inFlight.values.Keys);
    forall a, b ensures InOrder(s', a, b)
    {
      assert InOrder(s, a, b);
      if a in s'.core.inFlight.values && b in s'.core.inFlight.values {
        AppendKeepsPlaces(s.core.inFlight.order, id, a);
        AppendKeepsPlaces(s.core.inFlight.order, id, b);
      }
    }
  }

  lemma CallKeepsChecks(s: State, t: TaskId, org: Org, id: Id, healthy: bool, now: int)
    requires ChecksInOrder(s) && Orderly(s) && MapsProper(s) && Quiet(s) && t !in s.tasks && t !in s.inits
    ensures ChecksInOrder(DoCall(s, t, org, id, healthy, now))
  {
    var answer, s' := Acquire(s.core, t, org, id, healthy, now).0, DoCall(s, t, org, id, healthy, now);
    if answer.Starts? || answer.Refreshes? {
      if answer.Refreshes? {
        RegisteredNotInFlight(s, id);
      }
      StartKeepsChecks(s, s', t, org, id, s'.inits[t].phase);
    } else {
      SameKeepsChecks(s, s');
    }
  }

  lemma CheckKeepsChecks(cfg: Config, s: State, t: TaskId)
    requires ChecksInOrder(s) && Marked(s) && AtPhase(s, t, Resolving) && Fifo(s, CheckCapacity(t))
    ensures ChecksInOrder(DoCheck(cfg, s, t))
  {
    var s' := DoCheck(cfg, s, t);
    forall a, b ensures InOrder(s', a, b)
    {
      assert InOrder(s, a, b);
      if b in s.core.inFlight.values && s.core.inFlight.values[b] == t {
        assert b == InitOf(s, t).id;
      }
    }
  }

  lemma DeleteKeepsChecks(s: State, s': State, k: Id)
    requires ChecksInOrder(s) && Proper(s.core.inFlight)
    requires s'.core.inFlight == Delete(s.core.inFlight, k) && s'.inits == s.inits
    ensures ChecksInOrder(s')
  {
    var m := s.core.inFlight;
    forall a, b ensures InOrder(s', a, b) {
      if a in s'.core.inFlight.values && b in s'.core.inFlight.values {
        WithoutKeepsOrder(m.order, m.values.Keys, k, a, b);
        assert InOrder(s, a, b);
      }
    }
  }

  lemma ResumeKeepsChecks(s: State, t: TaskId, now: int)
    requires ChecksInOrder(s) && MapsProper(s) && Resumable(s, t)
    ensures ChecksInOrder(DoResume(s, t, now))
  {
    if s.tasks[t].Waiting? {
      SameKeepsChecks(s, DoResume(s, t, now));
    } else {
      DeleteKeepsChecks(s, DoResume(s, t, now), InitOf(s, t).id);
    }
  }

  lemma PhaseKeepsChecks(s: State, t: TaskId, event: PhaseEvent)
    requires ChecksInOrder(s) && PhaseEnabled(s, t, event)
    ensures ChecksInOrder(DoPhase(s, t, event))
  {
    PhaseStep(s, t, event);
    var s' := DoPhase(s, t, event);
    forall a, b ensures InOrder(s', a, b)
    {
      assert InOrder(s, a, b);
    }
  }

  lemma SameKeepsChecks(s: State, s': State)
    requires ChecksInOrder(s) && s'.inits == s.inits
    requires s'.core.inFlight == s.core.inFlight || s'.core.inFlight == EMPTY.inFlight
    ensures ChecksInOrder(s')
  {
    forall a, b ensures InOrder(s', a, b) {
      assert InOrder(s, a, b);
    }
  }

  lemma ConnectKeepsChecks(s: State, t: TaskId, e: EntryId, now: int)
    requires ChecksInOrder(s) && Connects(s, t)
    ensures ChecksInOrder(DoConnect(s, t, e, now))
  {
    var s' := DoConnect(s, t, e, now);
    forall a, b ensures InOrder(s', a, b) {
      assert InOrder(s, a, b);
    }
  }

  lemma StepKeepsChecks(cfg: Config, s: State, a: Action)
    requires Enabled(s, a) && Prompt(s, a) && Fifo(s, a) && ChecksInOrder(s) && Orderly(s) && MapsProper(s)
    ensures ChecksInOrder(Step(cfg, s, a))
  {
    match a
    case Call(t, org, id, healthy, now) =>
      assert Quiet(s);
      CallKeepsChecks(s, t, org, id, healthy, now);
    case Phase(t, event) => PhaseKeepsChecks(s, t, event);
    case CheckCapacity(t) => CheckKeepsChecks(cfg, s, t);
    case Resume(t, now) => ResumeKeepsChecks(s, t, now);
    case Closing(event) =>
      ClosingStep(s, event);
      SameKeepsChecks(s, DoClosing(s, event));
    case Connect(t, e, now) => ConnectKeepsChecks(s, t, e, now);
    case Finish(t, touched) => SameKeepsChecks(s, DoFinish(s, t, touched));
    case Sweep(now) => SameKeepsChecks(s, Step(cfg, s, a));
  }

  // The bound.

  /** The initialisations at the first n places in flight. */
  function FirstInFlight(m: OrderedMap, n: nat): (r: set<nat>)
    requires n <= |m.order|
    ensures |r| <= n
    ensures forall i :: 0 <= i < n ==> ValueOf(m, m.order[i]) in r
  {
    if n == 0 then {} else FirstInFlight(m, n - 1) + {ValueOf(m, m.order[n - 1])}
  }

  lemma SubsetNoLarger(a: set<nat>, b: set<nat>)
    requires a <= b
    ensures |a| <= |b|
  {
    assert b == a + (b - a);
  }

  /** An admitted initialisation is in flight under its id, and the one being checked is not ahead of it. */
  lemma AdmittedIsAhead(s: State, t: TaskId, x: TaskId)
    requires ChecksInOrder(s) && Orderly(s) && AtPhase(s, t, Resolving) && x in AdmittedInits(s)
    ensures var m, id, id' := s.core.inFlight, InitOf(s, t).id, InitOf(s, x).id;
      id' in m.values && m.values[id'] == x && !Before(m, id, id') && id' != id
  {
    var id, id' := InitOf(s, t).id, InitOf(s, x).id;
    assert Pending(s, t) && Initiates(s, t);
    assert Pending(s, x) && Initiates(s, x);
    assert InOrder(s, id, id');
  }

  lemma AheadIsAmongFirst(m: OrderedMap, id: Id, id': Id)
    requires Proper(m) && id in m.values && id' in m.values && id' != id && !Before(m, id, id')
    ensures 0 <= Position(m.order, id) <= |m.order|
    ensures m.values[id'] in FirstInFlight(m, Position(m.order, id))
  {
    ListsMembers(m.order, m.values.Keys);
    assert ValueOf(m, m.order[Position(m.order, id')]) == m.values[id'];
  }

  /** Only initialisations ahead of the one being checked have been admitted. */
  lemma AdmittedAreAhead(s: State, t: TaskId)
    requires ChecksInOrder(s) && Orderly(s) && MapsProper(s) && AtPhase(s, t, Resolving)
    ensures 0 <= Position(s.core.inFlight.order, InitOf(s, t).id)
    ensures |AdmittedInits(s)| <= Position(s.core.inFlight.order, InitOf(s, t).id)
  {
    var m, id := s.core.inFlight, InitOf(s, t).id;
    ListsMembers(m.order, m.values.Keys);
    assert Pending(s, t) && Initiates(s, t);
    var ahead := FirstInFlight(m, Position(m.order, id));
    forall x | x in AdmittedInits(s) ensures x in ahead {
      AdmittedIsAhead(s, t, x);
      AheadIsAmongFirst(m, id, InitOf(s, x).id);
    }
    SubsetNoLarger(AdmittedInits(s), ahead);
  }

  /** The guard of ensureCapacity lets an initialisation in although the admitted ones fill all room:
      the keys ahead of it, which the guard adds to the registry, are fewer than those. */
  predicate Undercounts(cfg: Config, s: State, a: Action) {
    && a.CheckCapacity? && EnsureCapacity(s.core, InitOf(s, a.t).id, cfg.maxActive).0.Room?
    && |s.core.registry.values| + |AdmittedInits(s)| >= cfg.maxActive
  }

  lemma CheckAdmits(cfg: Config, s: State, t: TaskId)
    requires AtPhase(s, t, Resolving)
    ensures var answer := EnsureCapacity(s.core, InitOf(s, t).id, cfg.maxActive).0;
      |AdmittedInits(DoCheck(cfg, s, t))| == |AdmittedInits(s)| + if answer.Exhausted? then 0 else 1
  {
    var answer, s' := EnsureCapacity(s.core, InitOf(s, t).id, cfg.maxActive).0, DoCheck(cfg, s, t);
    if answer.Exhausted? {
      assert AdmittedInits(s') == AdmittedInits(s);
    } else {
      assert AdmittedInits(s') == AdmittedInits(s) + {t};
    }
  }

  lemma CheckEvicts(cfg: Config, s: State, t: TaskId)
    requires MapsProper(s)
    ensures var answer := EnsureCapacity(s.core, InitOf(s, t).id, cfg.maxActive).0;
      |DoCheck(cfg, s, t).core.registry.values| == |s.core.registry.values| - if answer.Evicts? then 1 else 0
  {
    var answer, s' := EnsureCapacity(s.core, InitOf(s, t).id, cfg.maxActive).0, DoCheck(cfg, s, t);
    if answer.Evicts? {
      EvictsLeastRecent(s.core, InitOf(s, t).id, cfg.maxActive, 0);
      assert s'.core.registry.values.Keys == s.core.registry.values.Keys - {answer.victim};
    }
  }

  lemma CheckBoundExactly(cfg: Config, s: State, t: TaskId)
    requires Bounded(cfg, s) && MapsProper(s) && AtPhase(s, t, Resolving)
    ensures Bounded(cfg, DoCheck(cfg, s, t)) <==> !Undercounts(cfg, s, CheckCapacity(t))
  {
    CheckAdmits(cfg, s, t);
    CheckEvicts(cfg, s, t);
  }

  lemma ConnectKeepsBound(cfg: Config, s: State, t: TaskId, e: EntryId, now: int)
    requires Bounded(cfg, s) && PendingApart(s) && Connects(s, t)
    ensures Bounded(cfg, DoConnect(s, t, e, now))
  {
    assert Pending(s, t);
    var s' := DoConnect(s, t, e, now);
    assert AdmittedInits(s') == AdmittedInits(s) - {t} && t in AdmittedInits(s);
    assert s'.core.registry.values.Keys == s.core.registry.values.Keys + {InitOf(s, t).id};
  }

  /** Steps that admit nothing and register nothing. */
  lemma ShrinkKeepsBound(cfg: Config, s: State, s': State)
    requires Bounded(cfg, s)
    requires s'.core.registry.values.Keys <= s.core.registry.values.Keys
    requires AdmittedInits(s') <= AdmittedInits(s)
    ensures Bounded(cfg, s')
  {
    SubsetNoLarger(s'.core.registry.values.Keys, s.core.registry.values.Keys);
    SubsetNoLarger(AdmittedInits(s'), AdmittedInits(s));
  }

  lemma CallKeepsBound(cfg: Config, s: State, t: TaskId, org: Org, id: Id, healthy: bool, now: int)
    requires Bounded(cfg, s) && t !in s.inits
    ensures Bounded(cfg, DoCall(s, t, org, id, healthy, now))
  {
    CallRegistry(s, t, org, id, healthy, now);
    ShrinkKeepsBound(cfg, s, DoCall(s, t, org, id, healthy, now));
  }

  lemma StepBoundExactly(cfg: Config, s: State, a: Action)
    requires Enabled(s, a) && Bounded(cfg, s) && PendingApart(s) && MapsProper(s)
    ensures Bounded(cfg, Step(cfg, s, a)) <==> !Undercounts(cfg, s, a)
  {
    match a
    case Call(t, org, id, healthy, now) => CallKeepsBound(cfg, s, t, org, id, healthy, now);
    case Phase(t, event) =>
      PhaseStep(s, t, event);
      ShrinkKeepsBound(cfg, s, DoPhase(s, t, event));
    case CheckCapacity(t) => CheckBoundExactly(cfg, s, t);
    case Connect(t, e, now) => ConnectKeepsBound(cfg, s, t, e, now);
    case Resume(t, now) => ShrinkKeepsBound(cfg, s, DoResume(s, t, now));
    case Finish(t, touched) => ShrinkKeepsBound(cfg, s, DoFinish(s, t, touched));
    case Sweep(now) =>
      SweptProper(s.core, |s.core.registry.order|, now, cfg.idleTimeout);
      ShrinkKeepsBound(cfg, s, Step(cfg, s, a));
    case Closing(event) =>
      ClosingStep(s, event);
      ShrinkKeepsBound(cfg, s, DoClosing(s, event));
  }

  // Whole runs.

  /** The bound held in every state of the run. */
  ghost predicate BoundedThroughout(cfg: Config, d: Discipline, run: seq<Action>)
    requires Run(cfg, d, run).Some?
  {
    Bounded(cfg, Run(cfg, d, run).value) && (run != [] ==> BoundedThroughout(cfg, d, run[..|run| - 1]))
  }

  /** No check of the run let an initialisation in that the admitted ones left no room for. */
  ghost predicate NeverUndercounts(cfg: Config, d: Discipline, run: seq<Action>)
    requires Run(cfg, d, run).Some?
  {
    run != [] ==>
      && NeverUndercounts(cfg, d, run[..|run| - 1])
      && !Undercounts(cfg, Run(cfg, d, run[..|run| - 1]).value, run[|run| - 1])
  }

  /** One step from a state within the bound: it is left exactly by a check whose guard undercounts. */
  lemma BoundLostExactly(cfg: Config, d: Discipline, run: seq<Action>, a: Action)
    requires d.prompt && Run(cfg, d, run).Some?
    requires var s := Run(cfg, d, run).value; Bounded(cfg, s) && Permitted(d, s, a)
    ensures var s := Run(cfg, d, run).value; Bounded(cfg, Step(cfg, s, a)) <==> !Undercounts(cfg, s, a)
  {
    PromptRunsAreOrderly(cfg, d, run);
    StepBoundExactly(cfg, Run(cfg, d, run).value, a);
  }

  /** Whatever the order of the checks: registered data sources and admitted unfinished initialisations
      stay within the configured maximum exactly in the runs in which no guard undercounts. */
  lemma {:induction false} CapacityHoldsExactly(cfg: Config, d: Discipline, run: seq<Action>)
    requires d.prompt && Run(cfg, d, run).Some?
    ensures BoundedThroughout(cfg, d, run) <==> NeverUndercounts(cfg, d, run)
  {
    if run != [] {
      var prefix, a := run[..|run| - 1], run[|run| - 1];
      CapacityHoldsExactly(cfg, d, prefix);
      if BoundedThroughout(cfg, d, prefix) {
        BoundLostExactly(cfg, d, prefix, a);
      }
    }
  }

  /** With the checks in in-flight order no guard undercounts. */
  lemma OrderedChecksCountAll(cfg: Config, s: State, t: TaskId)
    requires ChecksInOrder(s) && Orderly(s) && MapsProper(s) && AtPhase(s, t, Resolving)
    ensures !Undercounts(cfg, s, CheckCapacity(t))
  {
    AdmittedAreAhead(s, t);
  }

  /** In every run whose capacity checks follow the in-flight order, registered data sources
      and admitted unfinished initialisations together stay within the configured maximum. */
  lemma {:induction false} CapacityIsRespected(cfg: Config, d: Discipline, run: seq<Action>)
    requires d.prompt && d.fifo && Run(cfg, d, run).Some?
    ensures var s := Run(cfg, d, run).value;
      ChecksInOrder(s) && |s.core.registry.values| + |AdmittedInits(s)| <= cfg.maxActive
  {
    if run != [] {
      var prefix, a := run[..|run| - 1], run[|run| - 1];
      CapacityIsRespected(cfg, d, prefix);
      PromptRunsAreOrderly(cfg, d, prefix);
      var s := Run(cfg, d, prefix).value;
      StepKeepsChecks(cfg, s, a);
      if a.CheckCapacity? {
        OrderedChecksCountAll(cfg, s, a.t);
      }
      StepBoundExactly(cfg, s, a);
    }
  }
}
