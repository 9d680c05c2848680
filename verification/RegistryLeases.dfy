/** What holds of the registry in every run, with no assumption on scheduling: leases are
    conserved, idle entries alone are swept or evicted, and no tenant sees another's entry. */
module RegistryLeases {
  import opened OrderedMaps
  import opened RegistryCore
  import opened RegistryProtocol

  lemma PhaseStep(s: State, t: TaskId, event: PhaseEvent)
    requires PhaseEnabled(s, t, event)
    ensures var s' := DoPhase(s, t, event);
      && t in s.inits && !Settled(s.inits[t].phase)
      && s'.core == s.core && s'.tasks == s.tasks && s'.invals == s.invals && s'.closers == s.closers
      && s'.inits == s.inits[t := s.inits[t].(phase := InitOf(s', t).phase)]
      && !InitOf(s', t).phase.Resolved?
      && (Counted(InitOf(s', t).phase) ==> Counted(s.inits[t].phase))
      && (Checked(s.inits[t].phase) ==> Checked(InitOf(s', t).phase))
  {
  }

  lemma ClosingStep(s: State, event: ClosingEvent)
    requires ClosingEnabled(s, event)
    ensures var s' := DoClosing(s, event);
      && s'.inits == s.inits && s'.tasks == s.tasks && s'.core.entries == s.core.entries
      && s'.tunnels == s.tunnels && s'.closedTunnels == s.closedTunnels
      && (forall id :: id in s'.core.registry.values ==>
            id in s.core.registry.values && s'.core.registry.values[id] == s.core.registry.values[id])
      && (s'.core.inFlight == s.core.inFlight || s'.core.inFlight == EMPTY.inFlight)
  {
  }

  ghost predicate MapsProper(s: State) {
    Proper(s.core.registry) && Proper(s.core.inFlight)
  }

  lemma CallKeepsProper(s: State, t: TaskId, org: Org, id: Id, healthy: bool, now: int)
    requires MapsProper(s)
    ensures MapsProper(DoCall(s, t, org, id, healthy, now))
  {
    DeleteProper(s.core.registry, id);
    PutProper(s.core.inFlight, id, t);
  }

  lemma CheckKeepsProper(cfg: Config, s: State, t: TaskId)
    requires MapsProper(s)
    ensures MapsProper(DoCheck(cfg, s, t))
  {
    var answer := EnsureCapacity(s.core, InitOf(s, t).id, cfg.maxActive).0;
    if answer.Evicts? {
      DeleteProper(s.core.registry, answer.victim);
    }
  }

  lemma ResumeKeepsProper(s: State, t: TaskId, now: int)
    requires MapsProper(s) && Resumable(s, t)
    ensures MapsProper(DoResume(s, t, now))
  {
    DeleteProper(s.core.inFlight, InitOf(s, t).id);
  }

  lemma ClosingKeepsProper(s: State, event: ClosingEvent)
    requires MapsProper(s) && ClosingEnabled(s, event)
    ensures MapsProper(DoClosing(s, event))
  {
    if event.InvalidateCloses? {
      DeleteProper(s.core.registry, s.invals[event.v].id);
    }
  }

  lemma StepKeepsProper(cfg: Config, s: State, a: Action)
    requires Enabled(s, a) && MapsProper(s)
    ensures MapsProper(Step(cfg, s, a))
  {
    match a
    case Call(t, org, id, healthy, now) => CallKeepsProper(s, t, org, id, healthy, now);
    case CheckCapacity(t) => CheckKeepsProper(cfg, s, t);
    case Connect(t, e, now) => PutProper(s.core.registry, InitOf(s, t).id, e);
    case Resume(t, now) => ResumeKeepsProper(s, t, now);
    case Sweep(now) => SweptProper(s.core, |s.core.registry.order|, now, cfg.idleTimeout);
    case Closing(event) => ClosingKeepsProper(s, event);
    case Phase(t, event) => PhaseStep(s, t, event);
    case Finish(t, touched) =>
  }

  /** Entries exist before anything refers to them. */
  ghost predicate ResolvedKnown(s: State) {
    forall t :: t in s.inits && s.inits[t].phase.Resolved? ==> s.inits[t].phase.entry in s.core.entries
  }

  ghost predicate HeldKnown(s: State) {
    forall t :: t in s.tasks && s.tasks[t].Holding? ==> s.tasks[t].entry in s.core.entries
  }

  ghost predicate EntriesKnown(s: State) {
    MapsProper(s) && RegistryKnown(s.core) && ResolvedKnown(s) && HeldKnown(s)
  }

  lemma CallRegistry(s: State, t: TaskId, org: Org, id0: Id, healthy: bool, now: int)
    ensures var s' := DoCall(s, t, org, id0, healthy, now);
      forall id :: id in s'.core.registry.values ==>
        id in s.core.registry.values && s'.core.registry.values[id] == s.core.registry.values[id]
  {
  }

  /** Only a finished initialisation adds to the registry, and it adds its own entry. */
  lemma RegistryAfter(cfg: Config, s: State, a: Action)
    requires Enabled(s, a) && MapsProper(s)
    ensures var s' := Step(cfg, s, a);
      forall id :: id in s'.core.registry.values ==>
        || (id in s.core.registry.values && s'.core.registry.values[id] == s.core.registry.values[id])
        || (a.Connect? && id == InitOf(s, a.t).id && s'.core.registry.values[id] == a.entry)
  {
    match a
    case Phase(t, event) => PhaseStep(s, t, event);
    case Closing(event) => ClosingStep(s, event);
    case Sweep(now) => CleanupExactly(s.core, now, cfg.idleTimeout);
    case Call(t, org, id, healthy, now) => CallRegistry(s, t, org, id, healthy, now);
    case _ =>
  }

  /** Entries are never dropped from the heap, what they were made for never changes, and
      only a finished initialisation adds one. */
  ghost predicate EntriesKept(s: State, s': State, added: set<EntryId>) {
    && (forall e :: e in s.core.entries ==>
          && e in s'.core.entries && s'.core.entries[e].id == s.core.entries[e].id
          && s'.core.entries[e].org == s.core.entries[e].org && s'.core.entries[e].tunnel == s.core.entries[e].tunnel)
    && (forall e :: e in s'.core.entries ==> e in s.core.entries || e in added)
  }

  lemma CallEntries(s: State, t: TaskId, org: Org, id: Id, healthy: bool, now: int)
    requires RegistryKnown(s.core)
    ensures EntriesKept(s, DoCall(s, t, org, id, healthy, now), {})
  {
  }

  lemma ResumeEntries(s: State, t: TaskId, now: int)
    requires ResolvedKnown(s) && Resumable(s, t)
    ensures EntriesKept(s, DoResume(s, t, now), {})
  {
  }

  lemma EntriesAfter(cfg: Config, s: State, a: Action)
    requires Enabled(s, a) && EntriesKnown(s)
    ensures EntriesKept(s, Step(cfg, s, a), if a.Connect? then {a.entry} else {})
  {
    match a
    case Phase(t, event) => PhaseStep(s, t, event);
    case Closing(event) => ClosingStep(s, event);
    case Call(t, org, id, healthy, now) => CallEntries(s, t, org, id, healthy, now);
    case Resume(t, now) => ResumeEntries(s, t, now);
    case _ =>
  }

  lemma StepKeepsRegistryKnown(cfg: Config, s: State, a: Action)
    requires Enabled(s, a) && EntriesKnown(s)
    ensures RegistryKnown(Step(cfg, s, a).core)
  {
    RegistryAfter(cfg, s, a);
    EntriesAfter(cfg, s, a);
  }

  lemma CallKeepsResolvedKnown(s: State, t: TaskId, org: Org, id: Id, healthy: bool, now: int)
    requires ResolvedKnown(s)
    ensures ResolvedKnown(DoCall(s, t, org, id, healthy, now))
  {
  }

  lemma ConnectKeepsResolvedKnown(s: State, t: TaskId, e: EntryId, now: int)
    requires ResolvedKnown(s) && Connects(s, t)
    ensures ResolvedKnown(DoConnect(s, t, e, now))
  {
  }

  lemma ResumeKeepsResolvedKnown(s: State, t: TaskId, now: int)
    requires ResolvedKnown(s) && Resumable(s, t)
    ensures ResolvedKnown(DoResume(s, t, now))
  {
  }

  lemma StepKeepsResolvedKnown(cfg: Config, s: State, a: Action)
    requires Enabled(s, a) && ResolvedKnown(s)
    ensures ResolvedKnown(Step(cfg, s, a))
  {
    match a
    case Call(t, org, id, healthy, now) => CallKeepsResolvedKnown(s, t, org, id, healthy, now);
    case Phase(t, event) => PhaseStep(s, t, event);
    case Connect(t, e, now) => ConnectKeepsResolvedKnown(s, t, e, now);
    case Resume(t, now) => ResumeKeepsResolvedKnown(s, t, now);
    case Closing(event) => ClosingStep(s, event);
    case _ =>
  }

  lemma CallKeepsHeldKnown(s: State, t: TaskId, org: Org, id: Id, healthy: bool, now: int)
    requires HeldKnown(s) && RegistryKnown(s.core)
    ensures HeldKnown(DoCall(s, t, org, id, healthy, now))
  {
  }

  lemma ResumeKeepsHeldKnown(s: State, t: TaskId, now: int)
    requires Resumable(s, t) && HeldKnown(s) && ResolvedKnown(s)
    ensures HeldKnown(DoResume(s, t, now))
  {
  }

  lemma StepKeepsHeldKnown(cfg: Config, s: State, a: Action)
    requires Enabled(s, a) && HeldKnown(s) && ResolvedKnown(s) && RegistryKnown(s.core)
    ensures HeldKnown(Step(cfg, s, a))
  {
    match a
    case Call(t, org, id, healthy, now) => CallKeepsHeldKnown(s, t, org, id, healthy, now);
    case Resume(t, now) => ResumeKeepsHeldKnown(s, t, now);
    case Phase(t, event) => PhaseStep(s, t, event);
    case Closing(event) => ClosingStep(s, event);
    case _ =>
  }

  lemma StepKeepsEntriesKnown(cfg: Config, s: State, a: Action)
    requires Enabled(s, a) && EntriesKnown(s)
    ensures EntriesKnown(Step(cfg, s, a))
  {
    StepKeepsProper(cfg, s, a);
    StepKeepsRegistryKnown(cfg, s, a);
    StepKeepsResolvedKnown(cfg, s, a);
    StepKeepsHeldKnown(cfg, s, a);
  }

  // Lease conservation.

  /** Calls that hold a lease on an entry. */
  function Holders(tasks: map<TaskId, Task>, e: EntryId): set<TaskId> {
    set t | t in tasks && tasks[t].Holding? && tasks[t].entry == e
  }

  ghost predicate LeasesConserved(s: State) {
    forall e :: e in s.core.entries ==> s.core.entries[e].active == |Holders(s.tasks, e)|
  }

  lemma HoldersAfter(tasks: map<TaskId, Task>, t: TaskId, task: Task, e: EntryId)
    requires t in tasks ==> !tasks[t].Holding?
    ensures |Holders(tasks[t := task], e)|
         == |Holders(tasks, e)| + if task.Holding? && task.entry == e then 1 else 0
  {
    var before := Holders(tasks, e);
    if task.Holding? && task.entry == e {
      assert Holders(tasks[t := task], e) == before + {t};
      assert t !in before;
    } else {
      assert Holders(tasks[t := task], e) == before;
    }
  }

  /** A call that was not holding an entry starts to hold one, and leases it. */
  lemma TakesLease(s: State, s': State, t: TaskId, org: Org, id: Id, e: EntryId, now: Option<int>)
    requires LeasesConserved(s) && e in s.core.entries
    requires t in s.tasks ==> !s.tasks[t].Holding?
    requires s'.tasks == s.tasks[t := Holding(org, id, e)]
    requires s'.core.entries == Lease(s.core, e, now).entries
    ensures LeasesConserved(s')
  {
    forall x | x in s'.core.entries ensures s'.core.entries[x].active == |Holders(s'.tasks, x)| {
      HoldersAfter(s.tasks, t, Holding(org, id, e), x);
    }
  }

  /** A call that was not holding an entry still does not hold one. */
  lemma TakesNone(s: State, s': State, t: TaskId, task: Option<Task>)
    requires LeasesConserved(s) && s'.core.entries == s.core.entries
    requires t in s.tasks ==> !s.tasks[t].Holding?
    requires task.Some? ==> !task.value.Holding?
    requires s'.tasks == if task.Some? then s.tasks[t := task.value] else s.tasks - {t}
    ensures LeasesConserved(s')
  {
    forall x | x in s'.core.entries ensures s'.core.entries[x].active == |Holders(s'.tasks, x)| {
      assert Holders(s'.tasks, x) == Holders(s.tasks, x);
    }
  }

  lemma CallKeepsLeases(s: State, t: TaskId, org: Org, id: Id, healthy: bool, now: int)
    requires LeasesConserved(s) && RegistryKnown(s.core) && t !in s.tasks
    ensures LeasesConserved(DoCall(s, t, org, id, healthy, now))
  {
    var answer, s' := Acquire(s.core, t, org, id, healthy, now).0, DoCall(s, t, org, id, healthy, now);
    if answer.Leased? {
      TakesLease(s, s', t, org, id, answer.entry, Some(now));
    } else if !answer.Refused? {
      TakesNone(s, s', t, Some(s'.tasks[t]));
    }
  }

  lemma ResumeKeepsLeases(s: State, t: TaskId, now: int)
    requires LeasesConserved(s) && ResolvedKnown(s) && Resumable(s, t)
    ensures LeasesConserved(DoResume(s, t, now))
  {
    var s' := DoResume(s, t, now);
    if t in s'.tasks {
      var Holding(org, id, e) := s'.tasks[t];
      TakesLease(s, s', t, org, id, e, if s.tasks[t].Initiating? then None else Some(now));
    } else {
      TakesNone(s, s', t, None);
    }
  }

  lemma FinishKeepsLeases(s: State, t: TaskId, touched: Option<int>)
    requires LeasesConserved(s) && HeldKnown(s) && t in s.tasks && s.tasks[t].Holding?
    ensures LeasesConserved(DoFinish(s, t, touched))
  {
    var s' := DoFinish(s, t, touched);
    forall e | e in s'.core.entries ensures s'.core.entries[e].active == |Holders(s'.tasks, e)| {
      if e == s.tasks[t].entry {
        assert Holders(s'.tasks, e) == Holders(s.tasks, e) - {t};
        assert t in Holders(s.tasks, e);
      } else {
        assert Holders(s'.tasks, e) == Holders(s.tasks, e);
      }
    }
  }

  lemma ConnectKeepsLeases(s: State, t: TaskId, e: EntryId, now: int)
    requires LeasesConserved(s) && HeldKnown(s) && Connects(s, t) && e !in s.core.entries
    ensures LeasesConserved(DoConnect(s, t, e, now))
  {
    assert Holders(s.tasks, e) == {};
  }

  lemma StepKeepsLeases(cfg: Config, s: State, a: Action)
    requires Enabled(s, a) && LeasesConserved(s) && EntriesKnown(s)
    ensures LeasesConserved(Step(cfg, s, a))
  {
    match a
    case Call(t, org, id, healthy, now) => CallKeepsLeases(s, t, org, id, healthy, now);
    case Resume(t, now) => ResumeKeepsLeases(s, t, now);
    case Finish(t, touched) => FinishKeepsLeases(s, t, touched);
    case Connect(t, e, now) => ConnectKeepsLeases(s, t, e, now);
    case Phase(t, event) => PhaseStep(s, t, event);
    case Closing(event) => ClosingStep(s, event);
    case _ =>
  }
}
