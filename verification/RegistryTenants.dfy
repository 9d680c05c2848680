/** No tenant sees another's entry, idle entries alone are swept or evicted, and both hold in
    every run, with no assumption on scheduling. */
module RegistryTenants {
  import opened OrderedMaps
  import opened RegistryCore
  import opened RegistryProtocol
  import opened RegistryLeases

  /** Initialisations keep the organization and datasource they were started for; only a
      call starts one, and only Connect resolves one. */
  ghost predicate InitsKept(s: State, s': State, a: Action) {
    && (forall t :: t in s.inits ==>
          t in s'.inits && s'.inits[t].org == s.inits[t].org && s'.inits[t].id == s.inits[t].id)
    && (forall t :: t in s'.inits && t !in s.inits ==>
          a.Call? && t == a.t && s'.inits[t].org == a.org && s'.inits[t].id == a.id)
    && (forall t :: t in s'.inits && s'.inits[t].phase.Resolved? ==>
          || (t in s.inits && s.inits[t].phase == s'.inits[t].phase)
          || (a.Connect? && t == a.t && s'.inits[t].phase.entry == a.entry))
  }

  lemma CallInits(s: State, t: TaskId, org: Org, id: Id, healthy: bool, now: int)
    requires t !in s.inits
    ensures InitsKept(s, DoCall(s, t, org, id, healthy, now), Call(t, org, id, healthy, now))
  {
  }

  lemma PhaseInits(s: State, t: TaskId, event: PhaseEvent)
    requires PhaseEnabled(s, t, event)
    ensures InitsKept(s, DoPhase(s, t, event), Phase(t, event))
  {
    PhaseStep(s, t, event);
  }

  lemma ConnectInits(s: State, t: TaskId, e: EntryId, now: int)
    requires Connects(s, t)
    ensures InitsKept(s, DoConnect(s, t, e, now), Connect(t, e, now))
  {
  }

  lemma InitsAfter(cfg: Config, s: State, a: Action)
    requires Enabled(s, a)
    ensures InitsKept(s, Step(cfg, s, a), a)
  {
    match a
    case Phase(t, event) => PhaseInits(s, t, event);
    case Closing(event) => ClosingStep(s, event);
    case Call(t, org, id, healthy, now) => CallInits(s, t, org, id, healthy, now);
    case Connect(t, e, now) => ConnectInits(s, t, e, now);
    case _ =>
  }

  /** Entries are filed under the id they were made for. */
  ghost predicate Filed(s: State) {
    forall id :: id in s.core.registry.values ==> EntryOf(s.core, s.core.registry.values[id]).id == id
  }

  /** In-flight marks name an initialisation of that id. */
  ghost predicate Marked(s: State) {
    forall id :: id in s.core.inFlight.values ==>
      s.core.inFlight.values[id] in s.inits && s.inits[s.core.inFlight.values[id]].id == id
  }

  /** An initialisation yields an entry for the organization and id it was started for. */
  ghost predicate Delivered(s: State) {
    forall t :: t in s.inits && s.inits[t].phase.Resolved? ==>
      && EntryOf(s.core, s.inits[t].phase.entry).id == s.inits[t].id
      && EntryOf(s.core, s.inits[t].phase.entry).org == s.inits[t].org
  }

  /** Calls await initialisations of the id they asked for. */
  ghost predicate Awaited(s: State) {
    && (forall t :: t in s.tasks && s.tasks[t].Initiating? ==> t in s.inits && s.inits[t].org == s.tasks[t].org)
    && (forall t :: t in s.tasks && s.tasks[t].Waiting? ==>
          s.tasks[t].init in s.inits && s.inits[s.tasks[t].init].id == s.tasks[t].id)
  }

  /** Whoever holds an entry asked for its id on behalf of its organization. */
  ghost predicate Entitled(s: State) {
    forall t :: t in s.tasks && s.tasks[t].Holding? ==>
      && EntryOf(s.core, s.tasks[t].entry).id == s.tasks[t].id
      && EntryOf(s.core, s.tasks[t].entry).org == s.tasks[t].org
  }

  ghost predicate TenantsApart(s: State) {
    Filed(s) && Marked(s) && Delivered(s) && Awaited(s) && Entitled(s)
  }

  lemma StepKeepsFiled(cfg: Config, s: State, a: Action)
    requires Enabled(s, a) && EntriesKnown(s) && Filed(s)
    ensures Filed(Step(cfg, s, a))
  {
    RegistryAfter(cfg, s, a);
    EntriesAfter(cfg, s, a);
  }

  /** A call that starts an initialisation. */
  ghost predicate Starts(s: State, s': State, t: TaskId, org: Org, id: Id) {
    && s'.core.inFlight == Put(s.core.inFlight, id, t)
    && s'.tasks == s.tasks[t := Initiating(org)]
    && t in s'.inits && s'.inits == s.inits[t := Init(org, id, s'.inits[t].phase)]
  }

  lemma CallStarts(s: State, t: TaskId, org: Org, id: Id, healthy: bool, now: int)
    ensures var answer, s' := Acquire(s.core, t, org, id, healthy, now).0, DoCall(s, t, org, id, healthy, now);
      if answer.Starts? || answer.Refreshes? then Starts(s, s', t, org, id)
      else s'.core.inFlight == s.core.inFlight && s'.inits == s.inits
  {
  }

  lemma StartKeepsMarked(s: State, s': State, t: TaskId, org: Org, id: Id)
    requires Marked(s) && t !in s.inits && Starts(s, s', t, org, id)
    ensures Marked(s')
  {
  }

  lemma CallKeepsMarked(s: State, t: TaskId, org: Org, id: Id, healthy: bool, now: int)
    requires Marked(s) && t !in s.inits
    ensures Marked(DoCall(s, t, org, id, healthy, now))
  {
    var answer, s' := Acquire(s.core, t, org, id, healthy, now).0, DoCall(s, t, org, id, healthy, now);
    CallStarts(s, t, org, id, healthy, now);
    if answer.Starts? || answer.Refreshes? {
      StartKeepsMarked(s, s', t, org, id);
    }
  }

  lemma ResumeKeepsMarked(s: State, t: TaskId, now: int)
    requires Marked(s) && Resumable(s, t)
    ensures Marked(DoResume(s, t, now))
  {
  }

  lemma StepKeepsMarked(cfg: Config, s: State, a: Action)
    requires Enabled(s, a) && Marked(s)
    ensures Marked(Step(cfg, s, a))
  {
    match a
    case Phase(t, event) => PhaseStep(s, t, event);
    case Closing(event) => ClosingStep(s, event);
    case Call(t, org, id, healthy, now) => CallKeepsMarked(s, t, org, id, healthy, now);
    case Resume(t, now) => ResumeKeepsMarked(s, t, now);
    case _ =>
  }

  lemma StepKeepsDelivered(cfg: Config, s: State, a: Action)
    requires Enabled(s, a) && EntriesKnown(s) && Delivered(s)
    ensures Delivered(Step(cfg, s, a))
  {
    InitsAfter(cfg, s, a);
    EntriesAfter(cfg, s, a);
  }

  lemma StartKeepsAwaited(s: State, s': State, t: TaskId, org: Org, id: Id)
    requires Awaited(s) && t !in s.inits && Starts(s, s', t, org, id)
    ensures Awaited(s')
  {
  }

  /** A call that joins, or takes or gives up an entry, and any other step that starts nothing. */
  lemma OthersKeepAwaited(s: State, s': State)
    requires Awaited(s)
    requires forall t :: t in s.inits ==>
      t in s'.inits && s'.inits[t].org == s.inits[t].org && s'.inits[t].id == s.inits[t].id
    requires forall t :: t in s'.tasks && s'.tasks[t].Initiating? ==> t in s.tasks && s'.tasks[t] == s.tasks[t]
    requires forall t :: t in s'.tasks && s'.tasks[t].Waiting? ==>
      || (t in s.tasks && s'.tasks[t] == s.tasks[t])
      || (s'.tasks[t].init in s.inits && s.inits[s'.tasks[t].init].id == s'.tasks[t].id)
    ensures Awaited(s')
  {
  }

  lemma CallKeepsAwaited(s: State, t: TaskId, org: Org, id: Id, healthy: bool, now: int)
    requires Marked(s) && Awaited(s) && t !in s.inits
    ensures Awaited(DoCall(s, t, org, id, healthy, now))
  {
    var answer, s' := Acquire(s.core, t, org, id, healthy, now).0, DoCall(s, t, org, id, healthy, now);
    CallStarts(s, t, org, id, healthy, now);
    if answer.Starts? || answer.Refreshes? {
      StartKeepsAwaited(s, s', t, org, id);
    } else {
      OthersKeepAwaited(s, s');
    }
  }

  lemma ResumeKeepsAwaited(s: State, t: TaskId, now: int)
    requires Awaited(s) && Resumable(s, t)
    ensures Awaited(DoResume(s, t, now))
  {
    OthersKeepAwaited(s, DoResume(s, t, now));
  }

  lemma StepKeepsAwaited(cfg: Config, s: State, a: Action)
    requires Enabled(s, a) && Marked(s) && Awaited(s)
    ensures Awaited(Step(cfg, s, a))
  {
    match a
    case Phase(t, event) =>
      PhaseStep(s, t, event);
      OthersKeepAwaited(s, DoPhase(s, t, event));
    case Closing(event) => ClosingStep(s, event);
    case Call(t, org, id, healthy, now) => CallKeepsAwaited(s, t, org, id, healthy, now);
    case CheckCapacity(t) => OthersKeepAwaited(s, DoCheck(cfg, s, t));
    case Connect(t, e, now) => OthersKeepAwaited(s, DoConnect(s, t, e, now));
    case Resume(t, now) => ResumeKeepsAwaited(s, t, now);
    case Finish(t, touched) => OthersKeepAwaited(s, DoFinish(s, t, touched));
    case Sweep(now) =>
  }

  /** A call comes to hold an entry of its organization and datasource, or nobody new holds one. */
  lemma HoldersKeepEntitled(s: State, s': State, added: set<EntryId>)
    requires Entitled(s) && HeldKnown(s) && EntriesKept(s, s', added)
    requires forall t :: t in s'.tasks && s'.tasks[t].Holding? ==>
      || (t in s.tasks && s'.tasks[t] == s.tasks[t])
      || (EntryOf(s'.core, s'.tasks[t].entry).id == s'.tasks[t].id
          && EntryOf(s'.core, s'.tasks[t].entry).org == s'.tasks[t].org)
    ensures Entitled(s')
  {
  }

  lemma CallHolds(s: State, t: TaskId, org: Org, id: Id, healthy: bool, now: int)
    ensures var answer, s' := Acquire(s.core, t, org, id, healthy, now).0, DoCall(s, t, org, id, healthy, now);
      if answer.Leased? then
        && s'.tasks == s.tasks[t := Holding(org, id, answer.entry)]
        && id in s.core.registry.values && s.core.registry.values[id] == answer.entry
        && EntryOf(s.core, answer.entry).org == org
      else s'.tasks == s.tasks || (t in s'.tasks && !s'.tasks[t].Holding? && s'.tasks == s.tasks[t := s'.tasks[t]])
  {
  }

  lemma CallKeepsEntitled(s: State, t: TaskId, org: Org, id: Id, healthy: bool, now: int)
    requires EntriesKnown(s) && Filed(s) && Entitled(s)
    ensures Entitled(DoCall(s, t, org, id, healthy, now))
  {
    CallEntries(s, t, org, id, healthy, now);
    CallHolds(s, t, org, id, healthy, now);
    HoldersKeepEntitled(s, DoCall(s, t, org, id, healthy, now), {});
  }

  lemma ResumeKeepsEntitled(s: State, t: TaskId, now: int)
    requires EntriesKnown(s) && Delivered(s) && Awaited(s) && Entitled(s) && Resumable(s, t)
    ensures Entitled(DoResume(s, t, now))
  {
    ResumeEntries(s, t, now);
    HoldersKeepEntitled(s, DoResume(s, t, now), {});
  }

  lemma StepKeepsEntitled(cfg: Config, s: State, a: Action)
    requires Enabled(s, a) && EntriesKnown(s) && TenantsApart(s)
    ensures Entitled(Step(cfg, s, a))
  {
    match a
    case Phase(t, event) => PhaseStep(s, t, event);
    case Closing(event) => ClosingStep(s, event);
    case Call(t, org, id, healthy, now) => CallKeepsEntitled(s, t, org, id, healthy, now);
    case Resume(t, now) => ResumeKeepsEntitled(s, t, now);
    case _ =>
  }

  lemma StepKeepsTenants(cfg: Config, s: State, a: Action)
    requires Enabled(s, a) && EntriesKnown(s) && TenantsApart(s)
    ensures TenantsApart(Step(cfg, s, a))
  {
    StepKeepsFiled(cfg, s, a);
    StepKeepsMarked(cfg, s, a);
    StepKeepsDelivered(cfg, s, a);
    StepKeepsAwaited(cfg, s, a);
    StepKeepsEntitled(cfg, s, a);
  }

  /** In every reachable state, under any schedule. */
  lemma {:induction false} EveryRunIsSafe(cfg: Config, d: Discipline, run: seq<Action>)
    requires Run(cfg, d, run).Some?
    ensures var s := Run(cfg, d, run).value;
      EntriesKnown(s) && LeasesConserved(s) && TenantsApart(s)
  {
    if run != [] {
      var prefix, a := run[..|run| - 1], run[|run| - 1];
      EveryRunIsSafe(cfg, d, prefix);
      var s := Run(cfg, d, prefix).value;
      StepKeepsEntriesKnown(cfg, s, a);
      StepKeepsLeases(cfg, s, a);
      StepKeepsTenants(cfg, s, a);
    }
  }

  /** activeOperations of every entry is the number of calls holding it, and each of those
      calls was made for the entry's organization and datasource. */
  lemma LeasesAndTenants(cfg: Config, d: Discipline, run: seq<Action>, e: EntryId)
    requires Run(cfg, d, run).Some? && e in Run(cfg, d, run).value.core.entries
    ensures var s := Run(cfg, d, run).value;
      && s.core.entries[e].active == |Holders(s.tasks, e)|
      && forall t :: t in Holders(s.tasks, e) ==>
           s.tasks[t].org == s.core.entries[e].org && s.tasks[t].id == s.core.entries[e].id
  {
    EveryRunIsSafe(cfg, d, run);
  }

  /** Whatever the idle sweep takes out of the registry is held by no call. */
  lemma SweepTakesIdleOnly(cfg: Config, d: Discipline, run: seq<Action>, now: int, id: Id)
    requires Run(cfg, d, run).Some? && id in Run(cfg, d, run).value.core.registry.values
    ensures var s := Run(cfg, d, run).value;
      var e := s.core.registry.values[id];
      id !in Cleanup(s.core, now, cfg.idleTimeout).registry.values <==>
        Holders(s.tasks, e) == {} && now - EntryOf(s.core, e).lastUsedAt >= cfg.idleTimeout
  {
    EveryRunIsSafe(cfg, d, run);
    var s := Run(cfg, d, run).value;
    var e := s.core.registry.values[id];
    CleanupKey(s.core, now, cfg.idleTimeout, id);
    assert EntryOf(s.core, e).active == |Holders(s.tasks, e)|;
  }

  /** The capacity check of call t takes this datasource out of the registry. */
  predicate Evicted(cfg: Config, s: State, t: TaskId, id: Id) {
    && AtPhase(s, t, Resolving) && id in s.core.registry.values
    && id !in DoCheck(cfg, s, t).core.registry.values
  }

  /** Whatever a capacity check evicts is held by no call, and every other entry held by no
      call was used at least as recently. */
  lemma EvictionTakesIdleOnly(cfg: Config, d: Discipline, run: seq<Action>, t: TaskId, id: Id, other: Id)
    requires Run(cfg, d, run).Some?
    ensures var s := Run(cfg, d, run).value;
      Evicted(cfg, s, t, id) && other in s.core.registry.values ==>
        var e, e' := s.core.registry.values[id], s.core.registry.values[other];
        && Holders(s.tasks, e) == {}
        && e in DoCheck(cfg, s, t).core.closed
        && (Holders(s.tasks, e') == {} ==> EntryOf(s.core, e).lastUsedAt <= EntryOf(s.core, e').lastUsedAt)
  {
    EveryRunIsSafe(cfg, d, run);
    var s := Run(cfg, d, run).value;
    if Evicted(cfg, s, t, id) && other in s.core.registry.values {
      EvictsLeastRecent(s.core, InitOf(s, t).id, cfg.maxActive, other);
      assert EntryOf(s.core, s.core.registry.values[id]).active == |Holders(s.tasks, s.core.registry.values[id])|;
      assert EntryOf(s.core, s.core.registry.values[other]).active == |Holders(s.tasks, s.core.registry.values[other])|;
    }
  }
}
