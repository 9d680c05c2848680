/** What the registry keeps when calls whose promise settled go on before anything else
    happens: one initialisation per datasource, and an orderly shutdown. */
module RegistryOrder {
  import opened OrderedMaps
  import opened RegistryCore
  import opened RegistryProtocol
  import opened RegistryLeases
  import opened RegistryTenants

  predicate Initiates(s: State, t: TaskId) {
    t in s.tasks && s.tasks[t].Initiating?
  }

  predicate Pending(s: State, t: TaskId) {
    t in s.inits && !Settled(s.inits[t].phase)
  }

  /** The in-flight map lists exactly the calls that await their own initialisation. */
  ghost predicate InFlightExact(s: State) {
    && (forall id :: id in s.core.inFlight.values ==> Initiates(s, s.core.inFlight.values[id]))
    && (forall t :: Initiates(s, t) ==>
          InitOf(s, t).id in s.core.inFlight.values && s.core.inFlight.values[InitOf(s, t).id] == t)
  }

  /** A running initialisation is awaited by the call that started it, and its datasource has
      no registered entry. */
  ghost predicate PendingApart(s: State) {
    forall t :: Pending(s, t) ==> Initiates(s, t) && InitOf(s, t).id !in s.core.registry.values
  }

  /** From the moment closeAll is called nothing new starts; from the moment it drains the
      registry nothing is running and the registry stays empty. */
  ghost predicate ShuttingDown(s: State) {
    && (forall k :: k in s.closers ==> !s.core.accepting)
    && (forall k, t :: k in s.closers && s.closers[k].AwaitingAll? && Initiates(s, t) ==> t in s.closers[k].inits)
    && (forall k :: k in s.closers && !s.closers[k].AwaitingAll? ==> s.core.registry.values == map[])
    && (forall k, t :: k in s.closers && !s.closers[k].AwaitingAll? ==> !Initiates(s, t))
  }

  ghost predicate Orderly(s: State) {
    Marked(s) && Awaited(s) && InFlightExact(s) && PendingApart(s) && ShuttingDown(s)
  }

  /** Nothing that could be resumed has been left waiting. */
  ghost predicate Quiet(s: State) {
    forall t :: !Resumable(s, t)
  }

  lemma QuietIsPending(s: State, t: TaskId)
    requires Quiet(s) && Awaited(s) && Initiates(s, t)
    ensures Pending(s, t)
  {
    assert !Resumable(s, t);
  }

  /** Steps that start and end no initialisation, add nothing to the registry and leave the
      in-flight map alone. */
  ghost predicate Steady(s: State, s': State) {
    && s'.core.inFlight == s.core.inFlight
    && s'.core.registry.values.Keys <= s.core.registry.values.Keys
    && (forall t :: Initiates(s', t) <==> Initiates(s, t))
    && (forall t :: Initiates(s, t) || Pending(s', t) ==> InitOf(s', t).id == InitOf(s, t).id)
    && (forall t :: Pending(s', t) ==> Pending(s, t))
  }

  lemma SteadyKeeps(s: State, s': State)
    requires Steady(s, s') && InFlightExact(s) && PendingApart(s)
    ensures InFlightExact(s') && PendingApart(s')
  {
  }

  lemma PhaseSteady(s: State, t: TaskId, event: PhaseEvent)
    requires PhaseEnabled(s, t, event)
    ensures Steady(s, DoPhase(s, t, event))
  {
    PhaseStep(s, t, event);
  }

  lemma CheckSteady(cfg: Config, s: State, t: TaskId)
    requires AtPhase(s, t, Resolving)
    ensures Steady(s, DoCheck(cfg, s, t))
  {
  }

  lemma FinishSteady(s: State, t: TaskId, touched: Option<int>)
    requires t in s.tasks && s.tasks[t].Holding?
    ensures Steady(s, DoFinish(s, t, touched))
  {
  }

  lemma ClosingSteady(s: State, event: ClosingEvent)
    requires ClosingEnabled(s, event) && !event.CloseAllDrains?
    ensures Steady(s, DoClosing(s, event))
  {
    ClosingStep(s, event);
  }

  /** Once everything closeAll waits for has settled and gone on, nothing is in flight. */
  lemma DrainsWhenIdle(s: State, k: TaskId, t: TaskId)
    requires Orderly(s) && Quiet(s) && ClosingEnabled(s, CloseAllDrains(k))
    ensures !Initiates(s, t)
  {
    if Initiates(s, t) {
      QuietIsPending(s, t);
    }
  }

  lemma DrainKeeps(s: State, k: TaskId)
    requires Orderly(s) && Quiet(s) && ClosingEnabled(s, CloseAllDrains(k))
    ensures InFlightExact(DoClosing(s, CloseAllDrains(k))) && PendingApart(DoClosing(s, CloseAllDrains(k)))
  {
    var s' := DoClosing(s, CloseAllDrains(k));
    ClosingStep(s, CloseAllDrains(k));
    forall t ensures !Initiates(s', t) && !Pending(s', t) {
      assert Initiates(s', t) == Initiates(s, t) && Pending(s', t) == Pending(s, t);
      DrainsWhenIdle(s, k, t);
    }
  }

  /** A refreshed datasource had no initialisation running. */
  lemma RegisteredNotInFlight(s: State, id: Id)
    requires Orderly(s) && Quiet(s) && id in s.core.registry.values
    ensures id !in s.core.inFlight.values
  {
    if id in s.core.inFlight.values {
      QuietIsPending(s, s.core.inFlight.values[id]);
    }
  }

  lemma StartKeepsInFlightExact(s: State, s': State, t: TaskId, org: Org, id: Id, p: Phase)
    requires InFlightExact(s) && t !in s.tasks && t !in s.inits && id !in s.core.inFlight.values
    requires s'.core.inFlight == Put(s.core.inFlight, id, t)
    requires s'.tasks == s.tasks[t := Initiating(org)] && s'.inits == s.inits[t := Init(org, id, p)]
    ensures InFlightExact(s')
  {
    forall x | Initiates(s', x)
      ensures InitOf(s', x).id in s'.core.inFlight.values && s'.core.inFlight.values[InitOf(s', x).id] == x
    {
      if x != t {
        assert Initiates(s, x);
      }
    }
  }

  lemma StartKeepsPendingApart(s: State, s': State, t: TaskId, org: Org, id: Id, p: Phase)
    requires PendingApart(s) && t !in s.tasks && t !in s.inits
    requires s'.core.registry.values.Keys <= s.core.registry.values.Keys - {id}
    requires s'.tasks == s.tasks[t := Initiating(org)] && s'.inits == s.inits[t := Init(org, id, p)]
    ensures PendingApart(s')
  {
    forall x | Pending(s', x) ensures Initiates(s', x) && InitOf(s', x).id !in s'.core.registry.values {
      if x != t {
        assert Pending(s, x);
      }
    }
  }

  lemma StartingCallKeeps(s: State, t: TaskId, org: Org, id: Id, healthy: bool, now: int)
    requires Orderly(s) && Quiet(s) && t !in s.tasks && t !in s.inits
    requires var answer := Acquire(s.core, t, org, id, healthy, now).0; answer.Starts? || answer.Refreshes?
    ensures InFlightExact(DoCall(s, t, org, id, healthy, now)) && PendingApart(DoCall(s, t, org, id, healthy, now))
  {
    var s' := DoCall(s, t, org, id, healthy, now);
    if id in s.core.registry.values {
      RegisteredNotInFlight(s, id);
    }
    StartKeepsInFlightExact(s, s', t, org, id, s'.inits[t].phase);
    StartKeepsPendingApart(s, s', t, org, id, s'.inits[t].phase);
  }

  lemma OtherCallSteady(s: State, t: TaskId, org: Org, id: Id, healthy: bool, now: int)
    requires t !in s.tasks
    requires var answer := Acquire(s.core, t, org, id, healthy, now).0; !answer.Starts? && !answer.Refreshes?
    ensures Steady(s, DoCall(s, t, org, id, healthy, now))
  {
  }

  lemma CallKeeps(s: State, t: TaskId, org: Org, id: Id, healthy: bool, now: int)
    requires Orderly(s) && Quiet(s) && t !in s.tasks && t !in s.inits
    ensures InFlightExact(DoCall(s, t, org, id, healthy, now)) && PendingApart(DoCall(s, t, org, id, healthy, now))
  {
    var answer := Acquire(s.core, t, org, id, healthy, now).0;
    if answer.Starts? || answer.Refreshes? {
      StartingCallKeeps(s, t, org, id, healthy, now);
    } else {
      OtherCallSteady(s, t, org, id, healthy, now);
      SteadyKeeps(s, DoCall(s, t, org, id, healthy, now));
    }
  }

  /** The datasource of a running initialisation is not registered, and no other
      initialisation of it is running. */
  lemma OnlyInit(s: State, t: TaskId, x: TaskId)
    requires InFlightExact(s) && PendingApart(s) && Pending(s, t) && Pending(s, x)
    ensures InitOf(s, x).id == InitOf(s, t).id ==> x == t
  {
    assert Initiates(s, t) && Initiates(s, x);
  }

  lemma ConnectKeeps(s: State, t: TaskId, e: EntryId, now: int)
    requires InFlightExact(s) && PendingApart(s) && Connects(s, t)
    ensures InFlightExact(DoConnect(s, t, e, now)) && PendingApart(DoConnect(s, t, e, now))
  {
    var s' := DoConnect(s, t, e, now);
    forall x | Pending(s', x) ensures Initiates(s', x) && InitOf(s', x).id !in s'.core.registry.values {
      assert Pending(s, x) && x != t;
      OnlyInit(s, t, x);
    }
    forall x | Initiates(s', x)
      ensures InitOf(s', x).id in s'.core.inFlight.values && s'.core.inFlight.values[InitOf(s', x).id] == x
    {
      assert Initiates(s, x);
    }
  }

  lemma InitiatorKeepsInFlightExact(s: State, t: TaskId, now: int)
    requires InFlightExact(s) && Marked(s) && Resumable(s, t) && s.tasks[t].Initiating?
    ensures InFlightExact(DoResume(s, t, now))
  {
    var s' := DoResume(s, t, now);
    assert Initiates(s, t);
    forall x | Initiates(s', x)
      ensures InitOf(s', x).id in s'.core.inFlight.values && s'.core.inFlight.values[InitOf(s', x).id] == x
    {
      assert Initiates(s, x) && x != t;
    }
    forall id | id in s'.core.inFlight.values ensures Initiates(s', s'.core.inFlight.values[id]) {
      assert Initiates(s, s.core.inFlight.values[id]) && s.core.inFlight.values[id] != t;
    }
  }

  lemma WaiterSteady(s: State, t: TaskId, now: int)
    requires Resumable(s, t) && s.tasks[t].Waiting?
    ensures var s' := DoResume(s, t, now);
      s'.core.inFlight == s.core.inFlight && s'.inits == s.inits && forall x :: Initiates(s', x) <==> Initiates(s, x)
  {
  }

  lemma ResumeKeepsInFlightExact(s: State, t: TaskId, now: int)
    requires InFlightExact(s) && Marked(s) && Resumable(s, t)
    ensures InFlightExact(DoResume(s, t, now))
  {
    if s.tasks[t].Initiating? {
      InitiatorKeepsInFlightExact(s, t, now);
    } else {
      WaiterSteady(s, t, now);
    }
  }

  lemma ResumeKeepsPendingApart(s: State, t: TaskId, now: int)
    requires PendingApart(s) && Resumable(s, t)
    ensures PendingApart(DoResume(s, t, now))
  {
    var s' := DoResume(s, t, now);
    forall x | Pending(s', x) ensures Initiates(s', x) && InitOf(s', x).id !in s'.core.registry.values {
      assert Pending(s, x);
      assert x != t;
    }
  }

  lemma StepKeepsOneInit(cfg: Config, s: State, a: Action)
    requires Enabled(s, a) && Prompt(s, a) && Orderly(s) && MapsProper(s)
    ensures InFlightExact(Step(cfg, s, a)) && PendingApart(Step(cfg, s, a))
  {
    if !a.Resume? {
      assert Quiet(s);
    }
    match a
    case Call(t, org, id, healthy, now) => CallKeeps(s, t, org, id, healthy, now);
    case Phase(t, event) =>
      PhaseSteady(s, t, event);
      SteadyKeeps(s, DoPhase(s, t, event));
    case CheckCapacity(t) =>
      CheckSteady(cfg, s, t);
      SteadyKeeps(s, DoCheck(cfg, s, t));
    case Connect(t, e, now) => ConnectKeeps(s, t, e, now);
    case Resume(t, now) =>
      ResumeKeepsInFlightExact(s, t, now);
      ResumeKeepsPendingApart(s, t, now);
    case Finish(t, touched) =>
      FinishSteady(s, t, touched);
      SteadyKeeps(s, DoFinish(s, t, touched));
    case Sweep(now) =>
      SweptProper(s.core, |s.core.registry.order|, now, cfg.idleTimeout);
      SteadyKeeps(s, Step(cfg, s, a));
    case Closing(event) =>
      if event.CloseAllDrains? {
        DrainKeeps(s, event.k);
      } else {
        ClosingSteady(s, event);
        SteadyKeeps(s, DoClosing(s, event));
      }
  }

  /** Steps that start nothing, register nothing and do not belong to a closeAll. */
  lemma NothingStarted(s: State, s': State)
    requires ShuttingDown(s)
    requires s'.core.accepting == s.core.accepting && s'.closers == s.closers
    requires forall t :: Initiates(s', t) ==> Initiates(s, t)
    requires s'.core.registry.values.Keys <= s.core.registry.values.Keys
    ensures ShuttingDown(s')
  {
    forall k | k in s'.closers && !s'.closers[k].AwaitingAll? ensures s'.core.registry.values == map[] {
      assert s.core.registry.values == map[];
      assert s'.core.registry.values.Keys == {};
    }
  }

  lemma CallKeepsShuttingDown(s: State, t: TaskId, org: Org, id: Id, healthy: bool, now: int)
    requires ShuttingDown(s) && t !in s.tasks
    ensures ShuttingDown(DoCall(s, t, org, id, healthy, now))
  {
    if exists k :: k in s.closers {
      assert !s.core.accepting;
      assert DoCall(s, t, org, id, healthy, now) == s;
    }
  }

  lemma ConnectKeepsShuttingDown(s: State, t: TaskId, e: EntryId, now: int)
    requires ShuttingDown(s) && PendingApart(s) && Connects(s, t)
    ensures ShuttingDown(DoConnect(s, t, e, now))
  {
    assert Pending(s, t);
    assert forall x :: Initiates(DoConnect(s, t, e, now), x) ==> Initiates(s, x);
  }

  lemma ResumeKeepsShuttingDown(s: State, t: TaskId, now: int)
    requires ShuttingDown(s) && Resumable(s, t)
    ensures ShuttingDown(DoResume(s, t, now))
  {
    NothingStarted(s, DoResume(s, t, now));
  }

  lemma CloseAllKeepsShuttingDown(s: State, k: TaskId)
    requires ShuttingDown(s) && InFlightExact(s) && k !in s.closers
    ensures ShuttingDown(DoClosing(s, CloseAll(k)))
  {
    assert forall x :: Initiates(DoClosing(s, CloseAll(k)), x) ==> Initiates(s, x);
  }

  lemma DrainKeepsShuttingDown(s: State, k: TaskId)
    requires Orderly(s) && Quiet(s) && ClosingEnabled(s, CloseAllDrains(k))
    ensures ShuttingDown(DoClosing(s, CloseAllDrains(k)))
  {
    forall t ensures !Initiates(DoClosing(s, CloseAllDrains(k)), t) {
      DrainsWhenIdle(s, k, t);
      assert Initiates(DoClosing(s, CloseAllDrains(k)), t) == Initiates(s, t);
    }
  }

  lemma ClosingKeepsShuttingDown(s: State, event: ClosingEvent)
    requires Orderly(s) && Quiet(s) && ClosingEnabled(s, event)
    ensures ShuttingDown(DoClosing(s, event))
  {
    ClosingStep(s, event);
    assert forall x :: Initiates(DoClosing(s, event), x) ==> Initiates(s, x);
    match event
    case CloseAll(k) => CloseAllKeepsShuttingDown(s, k);
    case CloseAllDrains(k) => DrainKeepsShuttingDown(s, k);
    case DrainOne(_, _) =>
    case CloseAllReturns(_) =>
    case _ => NothingStarted(s, DoClosing(s, event));
  }

  lemma StepKeepsShuttingDown(cfg: Config, s: State, a: Action)
    requires Enabled(s, a) && Prompt(s, a) && Orderly(s) && MapsProper(s)
    ensures ShuttingDown(Step(cfg, s, a))
  {
    match a
    case Call(t, org, id, healthy, now) => CallKeepsShuttingDown(s, t, org, id, healthy, now);
    case Phase(t, event) =>
      PhaseStep(s, t, event);
      NothingStarted(s, DoPhase(s, t, event));
    case CheckCapacity(t) => NothingStarted(s, DoCheck(cfg, s, t));
    case Connect(t, e, now) => ConnectKeepsShuttingDown(s, t, e, now);
    case Resume(t, now) => ResumeKeepsShuttingDown(s, t, now);
    case Finish(t, touched) => NothingStarted(s, DoFinish(s, t, touched));
    case Sweep(now) =>
      SweptProper(s.core, |s.core.registry.order|, now, cfg.idleTimeout);
      NothingStarted(s, Step(cfg, s, a));
    case Closing(event) =>
      assert Quiet(s);
      ClosingKeepsShuttingDown(s, event);
  }

  lemma {:induction false} PromptRunsAreOrderly(cfg: Config, d: Discipline, run: seq<Action>)
    requires d.prompt && Run(cfg, d, run).Some?
    ensures var s := Run(cfg, d, run).value; EntriesKnown(s) && Orderly(s)
  {
    if run != [] {
      var prefix, a := run[..|run| - 1], run[|run| - 1];
      PromptRunsAreOrderly(cfg, d, prefix);
      var s := Run(cfg, d, prefix).value;
      StepKeepsEntriesKnown(cfg, s, a);
      StepKeepsMarked(cfg, s, a);
      StepKeepsAwaited(cfg, s, a);
      StepKeepsOneInit(cfg, s, a);
      StepKeepsShuttingDown(cfg, s, a);
    }
  }

  /** Deduplication: two running initialisations never serve one datasource; while one runs,
      a call for that datasource joins it; and between settled promises no datasource is both
      registered and in flight. */
  lemma OneInitialisationPerDatasource(cfg: Config, d: Discipline, run: seq<Action>, t: TaskId, x: TaskId)
    requires d.prompt && Run(cfg, d, run).Some?
    requires var s := Run(cfg, d, run).value; Pending(s, t)
    ensures var s := Run(cfg, d, run).value;
      var id := s.inits[t].id;
      && (Pending(s, x) && s.inits[x].id == id ==> x == t)
      && id !in s.core.registry.values
      && id in s.core.inFlight.values && s.core.inFlight.values[id] == t
      && (forall org, healthy, now :: s.core.accepting && id !in s.core.blocked ==>
            Acquire(s.core, x, org, id, healthy, now).0 == Joins(t))
  {
    PromptRunsAreOrderly(cfg, d, run);
    var s := Run(cfg, d, run).value;
    assert Initiates(s, t);
    if Pending(s, x) {
      OnlyInit(s, t, x);
    }
  }

  lemma RegistryAndInFlightDisjoint(cfg: Config, d: Discipline, run: seq<Action>)
    requires d.prompt && Run(cfg, d, run).Some? && Quiet(Run(cfg, d, run).value)
    ensures var s := Run(cfg, d, run).value; s.core.registry.values.Keys !! s.core.inFlight.values.Keys
  {
    PromptRunsAreOrderly(cfg, d, run);
    var s := Run(cfg, d, run).value;
    forall id | id in s.core.registry.values ensures id !in s.core.inFlight.values {
      RegisteredNotInFlight(s, id);
    }
  }

  /** A call that goes on after joining an initialisation gets the entry of exactly that
      initialisation, made for its own organization and datasource, or nothing. */
  lemma JoinersShareTheEntry(cfg: Config, d: Discipline, run: seq<Action>, t: TaskId, now: int)
    requires Run(cfg, d, run).Some? && Resumable(Run(cfg, d, run).value, t)
    ensures var s := Run(cfg, d, run).value;
      var s', init := DoResume(s, t, now), if s.tasks[t].Waiting? then s.tasks[t].init else t;
      && (t in s'.tasks <==>
            InitOf(s, init).phase.Resolved? &&
            EntryOf(s.core, InitOf(s, init).phase.entry).org == s.tasks[t].org)
      && (t in s'.tasks ==>
            && s'.tasks[t].Holding? && s'.tasks[t].entry == InitOf(s, init).phase.entry
            && EntryOf(s.core, s'.tasks[t].entry).org == s.tasks[t].org
            && EntryOf(s.core, s'.tasks[t].entry).id == InitOf(s, init).id
            && s'.core.entries[s'.tasks[t].entry].active == EntryOf(s.core, s'.tasks[t].entry).active + 1)
  {
    EveryRunIsSafe(cfg, d, run);
  }
}
