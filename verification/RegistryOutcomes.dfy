/** What initialisations, capacity checks and invalidations come to, in every run. */
module RegistryOutcomes {
  import opened OrderedMaps
  import opened RegistryCore
  import opened RegistryProtocol
  import opened RegistryLeases
  import opened RegistryTenants

  // Initialisations.

  /** The capacity check leaves no room: the maximum is reached and every registered entry is held. */
  ghost predicate Refuses(cfg: Config, s: State, t: TaskId) {
    && |s.core.registry.values| + Ahead(s, InitOf(s, t).id) >= cfg.maxActive
    && forall id :: id in s.core.registry.values ==> Holders(s.tasks, s.core.registry.values[id]) != {}
  }

  /** Datasources that went in flight before this one. */
  function Ahead(s: State, id: Id): nat {
    if Position(s.core.inFlight.order, id) < 0 then 0 else Position(s.core.inFlight.order, id)
  }

  /** The step makes the initialisation of call t fail: closing the stale entry, resolving, opening the tunnel
      or connecting failed, or there was no room. */
  ghost predicate Fails(cfg: Config, s: State, a: Action, t: TaskId) {
    || (a.Phase? && a.t == t && (a.event.ResolveFails? || a.event.OpenFails? || a.event.Abandoned?))
    || (a.Phase? && a.t == t && a.event == StaleClosed(false))
    || (a == CheckCapacity(t) && Refuses(cfg, s, t))
  }

  /** Some step of the run made the initialisation of call t fail. */
  ghost predicate HasFailed(cfg: Config, d: Discipline, run: seq<Action>, t: TaskId)
    requires Run(cfg, d, run).Some?
  {
    run != [] &&
    (HasFailed(cfg, d, run[..|run| - 1], t) || Fails(cfg, Run(cfg, d, run[..|run| - 1]).value, run[|run| - 1], t))
  }

  /** What a capacity check answers: room, or the place of an entry that nobody holds, or nothing. */
  lemma CheckAnswers(cfg: Config, s: State, t: TaskId)
    requires EntriesKnown(s) && LeasesConserved(s)
    ensures var answer := EnsureCapacity(s.core, InitOf(s, t).id, cfg.maxActive).0;
      && (answer.Room? <==> |s.core.registry.values| + Ahead(s, InitOf(s, t).id) < cfg.maxActive)
      && (answer.Exhausted? <==> Refuses(cfg, s, t))
  {
    var answer := EnsureCapacity(s.core, InitOf(s, t).id, cfg.maxActive).0;
    if answer.Exhausted? {
      forall id | id in s.core.registry.values ensures Holders(s.tasks, s.core.registry.values[id]) != {} {
        var j := Listed(s.core, id);
        assert At(s.core, j).active != 0;
        assert EntryOf(s.core, s.core.registry.values[id]).active == |Holders(s.tasks, s.core.registry.values[id])|;
      }
    } else if answer.Evicts? {
      EvictsLeastRecent(s.core, InitOf(s, t).id, cfg.maxActive, answer.victim);
      assert EntryOf(s.core, s.core.registry.values[answer.victim]).active
          == |Holders(s.tasks, s.core.registry.values[answer.victim])|;
    }
  }

  /** A step fails an initialisation, or leaves it failed or not as it was. */
  lemma StepFails(cfg: Config, s: State, a: Action, t: TaskId)
    requires Enabled(s, a) && EntriesKnown(s) && LeasesConserved(s)
    ensures AtPhase(Step(cfg, s, a), t, Rejected) <==> AtPhase(s, t, Rejected) || Fails(cfg, s, a, t)
  {
    match a
    case Phase(u, event) => PhaseFails(s, u, event, t);
    case CheckCapacity(u) => CheckFails(cfg, s, u, t);
    case _ => OthersFail(cfg, s, a, t);
  }

  lemma CheckFails(cfg: Config, s: State, u: TaskId, t: TaskId)
    requires Enabled(s, CheckCapacity(u)) && EntriesKnown(s) && LeasesConserved(s)
    ensures AtPhase(Step(cfg, s, CheckCapacity(u)), t, Rejected) <==>
      AtPhase(s, t, Rejected) || (u == t && Refuses(cfg, s, t))
  {
    CheckAnswers(cfg, s, u);
  }

  lemma PhaseFails(s: State, u: TaskId, event: PhaseEvent, t: TaskId)
    requires PhaseEnabled(s, u, event)
    ensures AtPhase(DoPhase(s, u, event), t, Rejected) <==>
      || AtPhase(s, t, Rejected)
      || (u == t && (event.ResolveFails? || event.OpenFails? || event.Abandoned? || event == StaleClosed(false)))
  {
    PhaseStep(s, u, event);
  }

  lemma OthersFail(cfg: Config, s: State, a: Action, t: TaskId)
    requires Enabled(s, a) && !a.Phase? && !a.CheckCapacity?
    ensures AtPhase(Step(cfg, s, a), t, Rejected) <==> AtPhase(s, t, Rejected)
  {
    match a
    case Call(u, org, id, healthy, now) => CallStarts(s, u, org, id, healthy, now);
    case Closing(event) => ClosingStep(s, event);
    case _ =>
  }

  /** An initialisation is rejected exactly if one of its steps failed. */
  lemma {:induction false} RejectedExactly(cfg: Config, d: Discipline, run: seq<Action>, t: TaskId)
    requires Run(cfg, d, run).Some?
    ensures AtPhase(Run(cfg, d, run).value, t, Rejected) <==> HasFailed(cfg, d, run, t)
  {
    if run != [] {
      var prefix, a := run[..|run| - 1], run[|run| - 1];
      RejectedExactly(cfg, d, prefix, t);
      EveryRunIsSafe(cfg, d, prefix);
      StepFails(cfg, Run(cfg, d, prefix).value, a, t);
    }
  }

  lemma PhaseConnects(s: State, u: TaskId, event: PhaseEvent, t: TaskId, e: EntryId)
    requires PhaseEnabled(s, u, event)
    ensures AtPhase(DoPhase(s, u, event), t, Resolved(e)) <==> AtPhase(s, t, Resolved(e))
  {
    PhaseStep(s, u, event);
  }

  lemma CallConnects(s: State, u: TaskId, org: Org, id: Id, healthy: bool, now: int, t: TaskId, e: EntryId)
    requires u !in s.inits
    ensures AtPhase(DoCall(s, u, org, id, healthy, now), t, Resolved(e)) <==> AtPhase(s, t, Resolved(e))
  {
    CallInits(s, u, org, id, healthy, now);
  }

  lemma StepConnects(cfg: Config, s: State, a: Action, t: TaskId, e: EntryId)
    requires Enabled(s, a)
    ensures AtPhase(Step(cfg, s, a), t, Resolved(e)) <==>
      AtPhase(s, t, Resolved(e)) || (a.Connect? && a.t == t && a.entry == e)
  {
    match a
    case Phase(u, event) => PhaseConnects(s, u, event, t, e);
    case Closing(event) => ClosingStep(s, event);
    case Call(u, org, id, healthy, now) => CallConnects(s, u, org, id, healthy, now, t, e);
    case _ =>
  }

  /** Some step of the run finished the initialisation of call t with this entry. */
  ghost predicate HasConnected(run: seq<Action>, t: TaskId, e: EntryId) {
    run != [] &&
    (HasConnected(run[..|run| - 1], t, e)
     || (run[|run| - 1].Connect? && run[|run| - 1].t == t && run[|run| - 1].entry == e))
  }

  /** An initialisation has an entry exactly if it connected with it. */
  lemma {:induction false} ResolvedExactly(cfg: Config, d: Discipline, run: seq<Action>, t: TaskId, e: EntryId)
    requires Run(cfg, d, run).Some?
    ensures AtPhase(Run(cfg, d, run).value, t, Resolved(e)) <==> HasConnected(run, t, e)
  {
    if run != [] {
      var prefix, a := run[..|run| - 1], run[|run| - 1];
      ResolvedExactly(cfg, d, prefix, t, e);
      StepConnects(cfg, Run(cfg, d, prefix).value, a, t, e);
    }
  }

  /** A call in progress can go on exactly if the initialisation it awaits has connected or failed. */
  lemma GoesOnExactly(cfg: Config, d: Discipline, run: seq<Action>, t: TaskId)
    requires Run(cfg, d, run).Some? && t in Run(cfg, d, run).value.tasks
    ensures var s := Run(cfg, d, run).value;
      Resumable(s, t) <==>
        && !s.tasks[t].Holding?
        && (HasFailed(cfg, d, run, Awaits(s, t)) || exists e :: HasConnected(run, Awaits(s, t), e))
  {
    var s := Run(cfg, d, run).value;
    var i := Awaits(s, t);
    EveryRunIsSafe(cfg, d, run);
    RejectedExactly(cfg, d, run, i);
    if i in s.inits && s.inits[i].phase.Resolved? {
      ResolvedExactly(cfg, d, run, i, s.inits[i].phase.entry);
    }
    if e :| HasConnected(run, i, e) {
      ResolvedExactly(cfg, d, run, i, e);
    }
  }

  /** What may happen to an initialisation next, besides the capacity check after resolving and connecting at
      the end: each of its steps may fail, in this order, and one that has settled stays. */
  lemma PhasesOffer(s: State, t: TaskId, event: PhaseEvent)
    requires t in s.inits
    ensures PhaseEnabled(s, t, event) <==>
      match s.inits[t].phase
      case ClosingStale => event.StaleClosed?
      case Resolving => event.ResolveFails?
      case Admitted => event.OpenFails? || event.SkipTunnel? || (event.OpenTunnel? && event.tunnel !in s.tunnels)
      case Connecting(_) => event.ConnectFails?
      case Abandoning => event.Abandoned?
      case _ => false
    ensures Enabled(s, CheckCapacity(t)) <==> s.inits[t].phase == Resolving
  {
  }

  // Invalidations.

  /** The entries there were when invalidation v went on after waiting for the initialisation in flight. */
  ghost function SeenBy(cfg: Config, d: Discipline, run: seq<Action>, v: TaskId): set<EntryId>
    requires Run(cfg, d, run).Some?
  {
    if run == [] then {}
    else if run[|run| - 1] == Closing(InvalidateProceeds(v)) then Run(cfg, d, run).value.core.entries.Keys
    else SeenBy(cfg, d, run[..|run| - 1], v)
  }

  /** None of these entries is registered under this datasource. */
  predicate NoneRegistered(s: State, id: Id, seen: set<EntryId>) {
    id in s.core.registry.values ==> s.core.registry.values[id] !in seen
  }

  predicate IsClosing(s: State, v: TaskId) {
    v in s.invals && s.invals[v].ClosingEntry?
  }

  /** An invalidation comes to close its entry by taking it out of the registry. */
  lemma StepIsClosing(cfg: Config, s: State, a: Action, v: TaskId)
    requires Enabled(s, a) && IsClosing(Step(cfg, s, a), v)
    ensures || (IsClosing(s, v) && s.invals[v] == Step(cfg, s, a).invals[v])
            || (a == Closing(InvalidateCloses(v))
                && Step(cfg, s, a).invals[v].id !in Step(cfg, s, a).core.registry.values)
  {
    match a
    case Phase(t, event) => PhaseStep(s, t, event);
    case _ =>
  }

  lemma {:induction false} SeenAreKnown(cfg: Config, d: Discipline, run: seq<Action>, v: TaskId)
    requires Run(cfg, d, run).Some?
    ensures SeenBy(cfg, d, run, v) <= Run(cfg, d, run).value.core.entries.Keys
  {
    if run != [] {
      var prefix, a := run[..|run| - 1], run[|run| - 1];
      SeenAreKnown(cfg, d, prefix, v);
      EveryRunIsSafe(cfg, d, prefix);
      EntriesAfter(cfg, Run(cfg, d, prefix).value, a);
    }
  }

  lemma {:induction false} ClosingTookOut(cfg: Config, d: Discipline, run: seq<Action>, v: TaskId)
    requires Run(cfg, d, run).Some? && IsClosing(Run(cfg, d, run).value, v)
    ensures NoneRegistered(Run(cfg, d, run).value, Run(cfg, d, run).value.invals[v].id, SeenBy(cfg, d, run, v))
  {
    var prefix, a := run[..|run| - 1], run[|run| - 1];
    var s := Run(cfg, d, prefix).value;
    EveryRunIsSafe(cfg, d, prefix);
    StepIsClosing(cfg, s, a, v);
    SeenAreKnown(cfg, d, prefix, v);
    RegistryAfter(cfg, s, a);
    if IsClosing(s, v) {
      ClosingTookOut(cfg, d, prefix, v);
    }
  }

  lemma StepEnds(cfg: Config, s: State, a: Action, v: TaskId)
    requires Enabled(s, a) && v in s.invals && v !in Step(cfg, s, a).invals
    ensures || (a == Closing(InvalidateDone(v)) && IsClosing(s, v) && Step(cfg, s, a).core.registry == s.core.registry)
            || (a == Closing(InvalidateProceeds(v)) && s.invals[v].id !in Step(cfg, s, a).core.registry.values)
  {
    match a
    case Phase(t, event) => PhaseStep(s, t, event);
    case _ =>
  }

  /** When an invalidation ends, no entry is registered for its datasource that there was when it went on,
      and it went on only after the initialisation that was in flight when it was called had settled. */
  lemma InvalidationsTakeEffect(cfg: Config, d: Discipline, run: seq<Action>, a: Action, v: TaskId)
    requires Run(cfg, d, run).Some? && Permitted(d, Run(cfg, d, run).value, a)
    requires v in Run(cfg, d, run).value.invals && v !in Step(cfg, Run(cfg, d, run).value, a).invals
    ensures (run + [a])[..|run|] == run && Run(cfg, d, run + [a]).Some?
    ensures NoneRegistered(Step(cfg, Run(cfg, d, run).value, a), Run(cfg, d, run).value.invals[v].id,
                           SeenBy(cfg, d, run + [a], v))
  {
    assert (run + [a])[..|run|] == run;
    StepEnds(cfg, Run(cfg, d, run).value, a, v);
    if IsClosing(Run(cfg, d, run).value, v) {
      ClosingTookOut(cfg, d, run, v);
    }
  }

  /** An invalidation that finds an entry registered goes on to close that entry, whoever holds it. */
  lemma InvalidationsClose(s: State, v: TaskId)
    requires ClosingEnabled(s, InvalidateProceeds(v)) && s.invals[v].id in s.core.registry.values
    ensures var id, s' := s.invals[v].id, DoClosing(s, InvalidateProceeds(v));
      && ClosingEnabled(s', InvalidateCloses(v))
      && s.core.registry.values[id] in DoClosing(s', InvalidateCloses(v)).core.closed
      && id !in DoClosing(s', InvalidateCloses(v)).core.registry.values
  {
  }

  /** It waits for exactly the initialisation that is in flight when it is called. */
  lemma InvalidationsWait(s: State, v: TaskId, id: Id, t: TaskId)
    requires ClosingEnabled(s, Invalidate(v, id)) && id in s.core.inFlight.values && s.core.inFlight.values[id] == t
    ensures var s' := DoClosing(s, Invalidate(v, id));
      ClosingEnabled(s', InvalidateProceeds(v)) <==> Settled(InitOf(s, t).phase)
  {
  }

  /** Shutdown waits for every initialisation that is in flight when it begins; then nothing stays registered or
      in flight, and everything that was registered is left to be closed. */
  lemma ShutdownTakesAll(s: State, k: TaskId)
    requires ClosingEnabled(s, CloseAll(k))
    ensures var s' := DoClosing(s, CloseAll(k));
      ClosingEnabled(s', CloseAllDrains(k)) <==>
        forall id :: id in s.core.inFlight.values ==> Settled(InitOf(s, s.core.inFlight.values[id]).phase)
  {
    var s' := DoClosing(s, CloseAll(k));
    forall id | id in s.core.inFlight.values ensures s.core.inFlight.values[id] in s'.closers[k].inits {
    }
  }

  lemma DrainsAll(s: State, k: TaskId, e: EntryId)
    requires ClosingEnabled(s, CloseAllDrains(k))
    ensures var s' := DoClosing(s, CloseAllDrains(k));
      && s'.core.registry.values == map[] && s'.core.inFlight.values == map[] && s'.core.inFlight.order == []
      && (ClosingEnabled(s', DrainOne(k, e)) <==> e in s.core.registry.values.Values)
  {
  }
}
