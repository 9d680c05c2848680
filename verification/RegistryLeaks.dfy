/** No data source or tunnel is lost: everything ever opened is registered, handed to closeEntry, or being
    drained by closeAll, while invalidations of one datasource do not overlap, and otherwise in exactly
    the runs in which no invalidation takes out an open entry it did not wait for. */
module RegistryLeaks {
  import opened OrderedMaps
  import opened RegistryCore
  import opened RegistryProtocol
  import opened RegistryLeases
  import opened RegistryTenants
  import opened RegistryOrder

  ghost predicate Drained(s: State, e: EntryId) {
    exists k :: k in s.closers && s.closers[k].Draining? && e in s.closers[k].pending
  }

  ghost predicate Accounted(s: State, e: EntryId) {
    || e in s.core.closed
    || (EntryOf(s.core, e).id in s.core.registry.values && s.core.registry.values[EntryOf(s.core, e).id] == e)
    || Drained(s, e)
  }

  ghost predicate NoneLost(s: State) {
    forall e :: e in s.core.entries ==> Accounted(s, e)
  }

  // Invalidations.

  /** The datasource of an invalidation in progress is blocked, and no two are of one datasource. */
  ghost predicate InvalidationsBlock(s: State) {
    && (forall v :: v in s.invals ==> s.invals[v].id in s.core.blocked)
    && (forall v, w :: v in s.invals && w in s.invals && s.invals[v].id == s.invals[w].id ==> v == w)
  }

  /** While an invalidation waits, no initialisation of its datasource but the one it waits
      for runs, and no entry but the one it will close is registered. */
  ghost predicate InvalidationsExact(s: State) {
    && (forall v :: v in s.invals && s.invals[v].AwaitingInit? && s.invals[v].id in s.core.inFlight.values ==>
          s.invals[v].init == Some(s.core.inFlight.values[s.invals[v].id]))
    && (forall v :: v in s.invals && s.invals[v].WaitingIdle? ==>
          && s.invals[v].id !in s.core.inFlight.values
          && (s.invals[v].id in s.core.registry.values ==> s.core.registry.values[s.invals[v].id] == s.invals[v].entry))
  }

  /** Steps that leave the invalidations alone and neither start nor register anything for a
      blocked datasource. */
  ghost predicate LeavesBlocked(s: State, s': State) {
    && s'.invals == s.invals && s'.core.blocked == s.core.blocked
    && (forall id :: id in s'.core.inFlight.values && id in s.core.blocked ==>
          id in s.core.inFlight.values && s'.core.inFlight.values[id] == s.core.inFlight.values[id])
    && (forall id :: id in s'.core.registry.values && id in s.core.blocked && id !in s.core.inFlight.values ==>
          id in s.core.registry.values && s'.core.registry.values[id] == s.core.registry.values[id])
  }

  lemma LeavesBlockedKeeps(s: State, s': State)
    requires LeavesBlocked(s, s') && InvalidationsBlock(s) && InvalidationsExact(s)
    ensures InvalidationsBlock(s') && InvalidationsExact(s')
  {
  }

  lemma CallLeavesBlocked(s: State, t: TaskId, org: Org, id: Id, healthy: bool, now: int)
    ensures LeavesBlocked(s, DoCall(s, t, org, id, healthy, now))
  {
  }

  lemma ConnectLeavesBlocked(s: State, t: TaskId, e: EntryId, now: int)
    requires InFlightExact(s) && PendingApart(s) && Connects(s, t)
    ensures LeavesBlocked(s, DoConnect(s, t, e, now))
  {
    assert Pending(s, t) && Initiates(s, t);
  }

  lemma ResumeLeavesBlocked(s: State, t: TaskId, now: int)
    requires Resumable(s, t)
    ensures LeavesBlocked(s, DoResume(s, t, now))
  {
  }

  lemma InvalidateKeeps(s: State, v: TaskId, id: Id)
    requires InvalidationsBlock(s) && InvalidationsExact(s) && v !in s.invals
    requires forall w :: w in s.invals ==> s.invals[w].id != id
    ensures var s' := DoClosing(s, Invalidate(v, id)); InvalidationsBlock(s') && InvalidationsExact(s')
  {
  }

  /** When an invalidation stops waiting, no initialisation of its datasource is in flight. */
  lemma ProceedsAlone(s: State, v: TaskId)
    requires InvalidationsExact(s) && Orderly(s) && Quiet(s) && ClosingEnabled(s, InvalidateProceeds(v))
    ensures s.invals[v].id !in s.core.inFlight.values
  {
    var id := s.invals[v].id;
    if id in s.core.inFlight.values {
      QuietIsPending(s, s.core.inFlight.values[id]);
    }
  }

  lemma ProceedsKeepsBlock(s: State, v: TaskId)
    requires InvalidationsBlock(s) && ClosingEnabled(s, InvalidateProceeds(v))
    ensures InvalidationsBlock(DoInvalidateProceeds(s, v))
  {
  }

  lemma ProceedsKeepsExact(s: State, v: TaskId)
    requires InvalidationsExact(s) && v in s.invals && s.invals[v].id !in s.core.inFlight.values
    ensures InvalidationsExact(DoInvalidateProceeds(s, v))
  {
  }

  lemma ClosesKeeps(s: State, v: TaskId)
    requires InvalidationsBlock(s) && InvalidationsExact(s) && ClosingEnabled(s, InvalidateCloses(v))
    ensures var s' := DoClosing(s, InvalidateCloses(v)); InvalidationsBlock(s') && InvalidationsExact(s')
  {
  }

  lemma DoneKeeps(s: State, v: TaskId)
    requires InvalidationsBlock(s) && InvalidationsExact(s) && ClosingEnabled(s, InvalidateDone(v))
    ensures var s' := DoClosing(s, InvalidateDone(v)); InvalidationsBlock(s') && InvalidationsExact(s')
  {
  }

  lemma ClosingKeepsInvalidations(s: State, event: ClosingEvent)
    requires InvalidationsBlock(s) && InvalidationsExact(s) && Orderly(s) && Quiet(s)
    requires ClosingEnabled(s, event) && Apart(s, Closing(event))
    ensures var s' := DoClosing(s, event); InvalidationsBlock(s') && InvalidationsExact(s')
  {
    match event
    case Invalidate(v, id) => InvalidateKeeps(s, v, id);
    case InvalidateProceeds(v) =>
      ProceedsAlone(s, v);
      ProceedsKeepsBlock(s, v);
      ProceedsKeepsExact(s, v);
    case InvalidateCloses(v) => ClosesKeeps(s, v);
    case InvalidateDone(v) => DoneKeeps(s, v);
    case _ => LeavesBlockedKeeps(s, DoClosing(s, event));
  }

  lemma StepKeepsInvalidations(cfg: Config, s: State, a: Action)
    requires Enabled(s, a) && Prompt(s, a) && Apart(s, a) && Orderly(s) && MapsProper(s)
    requires InvalidationsBlock(s) && InvalidationsExact(s)
    ensures InvalidationsBlock(Step(cfg, s, a)) && InvalidationsExact(Step(cfg, s, a))
  {
    match a
    case Call(t, org, id, healthy, now) =>
      CallLeavesBlocked(s, t, org, id, healthy, now);
      LeavesBlockedKeeps(s, DoCall(s, t, org, id, healthy, now));
    case Phase(t, event) =>
      PhaseStep(s, t, event);
      LeavesBlockedKeeps(s, DoPhase(s, t, event));
    case CheckCapacity(t) => LeavesBlockedKeeps(s, DoCheck(cfg, s, t));
    case Connect(t, e, now) =>
      ConnectLeavesBlocked(s, t, e, now);
      LeavesBlockedKeeps(s, DoConnect(s, t, e, now));
    case Resume(t, now) =>
      ResumeLeavesBlocked(s, t, now);
      LeavesBlockedKeeps(s, DoResume(s, t, now));
    case Finish(t, touched) => LeavesBlockedKeeps(s, DoFinish(s, t, touched));
    case Sweep(now) =>
      CleanupExactly(s.core, now, cfg.idleTimeout);
      LeavesBlockedKeeps(s, Step(cfg, s, a));
    case Closing(event) =>
      assert Quiet(s);
      ClosingKeepsInvalidations(s, event);
  }

  // Entries.

  /** Whatever leaves the registry or a drain is closed by the same step, or put into a drain. */
  ghost predicate NothingDropped(s: State, s': State) {
    && s.core.closed <= s'.core.closed
    && (forall id :: id in s.core.registry.values ==>
          || (id in s'.core.registry.values && s'.core.registry.values[id] == s.core.registry.values[id])
          || s.core.registry.values[id] in s'.core.closed
          || Drained(s', s.core.registry.values[id]))
    && (forall e :: Drained(s, e) ==> e in s'.core.closed || Drained(s', e))
  }

  lemma NothingDroppedKeeps(s: State, s': State, added: set<EntryId>)
    requires NoneLost(s) && NothingDropped(s, s') && EntriesKept(s, s', added)
    requires forall e :: e in added ==> Accounted(s', e)
    ensures NoneLost(s')
  {
    forall e | e in s'.core.entries ensures Accounted(s', e) {
      if e !in added {
        assert Accounted(s, e);
      }
    }
  }

  lemma CallDropsNothing(s: State, t: TaskId, org: Org, id: Id, healthy: bool, now: int)
    ensures NothingDropped(s, DoCall(s, t, org, id, healthy, now))
  {
    var s' := DoCall(s, t, org, id, healthy, now);
    assert forall e :: Drained(s, e) ==> Drained(s', e);
  }

  lemma PhaseDropsNothing(s: State, t: TaskId, event: PhaseEvent)
    requires PhaseEnabled(s, t, event)
    ensures NothingDropped(s, DoPhase(s, t, event))
  {
    PhaseStep(s, t, event);
    assert forall e :: Drained(s, e) ==> Drained(DoPhase(s, t, event), e);
  }

  lemma ResumeDropsNothing(s: State, t: TaskId, now: int)
    requires Resumable(s, t)
    ensures NothingDropped(s, DoResume(s, t, now))
  {
    assert forall e :: Drained(s, e) ==> Drained(DoResume(s, t, now), e);
  }

  lemma FinishDropsNothing(s: State, t: TaskId, touched: Option<int>)
    requires t in s.tasks && s.tasks[t].Holding?
    ensures NothingDropped(s, DoFinish(s, t, touched))
  {
    assert forall e :: Drained(s, e) ==> Drained(DoFinish(s, t, touched), e);
  }

  lemma CheckDropsNothing(cfg: Config, s: State, t: TaskId)
    ensures NothingDropped(s, DoCheck(cfg, s, t))
  {
    assert forall e :: Drained(s, e) ==> Drained(DoCheck(cfg, s, t), e);
  }

  lemma SweepDropsNothing(cfg: Config, s: State, now: int)
    requires MapsProper(s)
    ensures NothingDropped(s, s.(core := Cleanup(s.core, now, cfg.idleTimeout)))
  {
    CleanupExactly(s.core, now, cfg.idleTimeout);
    assert forall e :: Drained(s, e) ==> Drained(s.(core := Cleanup(s.core, now, cfg.idleTimeout)), e);
  }

  lemma ConnectDropsNothing(s: State, t: TaskId, e: EntryId, now: int)
    requires PendingApart(s) && Connects(s, t) && e !in s.core.entries
    ensures NothingDropped(s, DoConnect(s, t, e, now))
    ensures EntriesKept(s, DoConnect(s, t, e, now), {e}) && Accounted(DoConnect(s, t, e, now), e)
  {
    assert Pending(s, t);
    assert forall x :: Drained(s, x) ==> Drained(DoConnect(s, t, e, now), x);
  }

  lemma DrainDropsNothing(s: State, k: TaskId)
    requires ClosingEnabled(s, CloseAllDrains(k))
    ensures NothingDropped(s, DoClosing(s, CloseAllDrains(k)))
  {
    var s' := DoClosing(s, CloseAllDrains(k));
    forall e | Drained(s, e) ensures Drained(s', e) {
      var k' :| k' in s.closers && s.closers[k'].Draining? && e in s.closers[k'].pending;
      assert s'.closers[k'] == s.closers[k'];
    }
    forall id | id in s.core.registry.values ensures Drained(s', s.core.registry.values[id]) {
      assert s.core.registry.values[id] in s'.closers[k].pending;
    }
  }

  lemma DrainOneDropsNothing(s: State, k: TaskId, x: EntryId)
    requires ClosingEnabled(s, DrainOne(k, x))
    ensures NothingDropped(s, DoClosing(s, DrainOne(k, x)))
  {
    var s' := DoClosing(s, DrainOne(k, x));
    forall e | Drained(s, e) && e != x ensures Drained(s', e) {
      var k' :| k' in s.closers && s.closers[k'].Draining? && e in s.closers[k'].pending;
      assert s'.closers[k'].Draining? && e in s'.closers[k'].pending;
    }
  }

  /** An invalidation deletes by key: it takes out whatever is registered by now, also an open entry
      that is not the one it waited for and closes. */
  predicate Displaces(s: State, a: Action) {
    && a.Closing? && a.closing.InvalidateCloses? && a.closing.v in s.invals && s.invals[a.closing.v].WaitingIdle?
    && var WaitingIdle(id, e) := s.invals[a.closing.v];
       id in s.core.registry.values && s.core.registry.values[id] != e && s.core.registry.values[id] !in s.core.closed
  }

  lemma DisplacedIsLost(s: State, event: ClosingEvent)
    requires ClosingEnabled(s, event) && Displaces(s, Closing(event))
    requires RegistryKnown(s.core) && Filed(s) && ShuttingDown(s)
    ensures !NoneLost(DoClosing(s, event))
  {
    var s', id := DoClosing(s, event), s.invals[event.v].id;
    var e := s.core.registry.values[id];
    assert !Drained(s', e);
    assert e in s'.core.entries && !Accounted(s', e);
  }

  lemma ClosingDropsNothing(s: State, event: ClosingEvent)
    requires ClosingEnabled(s, event) && !Displaces(s, Closing(event))
    ensures NothingDropped(s, DoClosing(s, event))
  {
    var s' := DoClosing(s, event);
    match event
    case CloseAllDrains(k) => DrainDropsNothing(s, k);
    case DrainOne(k, x) => DrainOneDropsNothing(s, k, x);
    case CloseAll(k) => OtherClosersKeep(s, s', k);
    case CloseAllReturns(k) => OtherClosersKeep(s, s', k);
    case _ => assert forall e :: Drained(s, e) ==> Drained(s', e);
  }

  lemma OtherClosersKeep(s: State, s': State, k: TaskId)
    requires k in s.closers ==> s.closers[k] == Draining({})
    requires forall k' :: k' in s.closers && k' != k ==> k' in s'.closers && s'.closers[k'] == s.closers[k']
    ensures forall e :: Drained(s, e) ==> Drained(s', e)
  {
  }

  lemma StepLosesExactly(cfg: Config, s: State, a: Action)
    requires Enabled(s, a) && EntriesKnown(s) && PendingApart(s) && Filed(s) && ShuttingDown(s) && NoneLost(s)
    ensures NoneLost(Step(cfg, s, a)) <==> !Displaces(s, a)
  {
    EntriesAfter(cfg, s, a);
    match a
    case Call(t, org, id, healthy, now) =>
      CallDropsNothing(s, t, org, id, healthy, now);
      NothingDroppedKeeps(s, DoCall(s, t, org, id, healthy, now), {});
    case Phase(t, event) =>
      PhaseDropsNothing(s, t, event);
      NothingDroppedKeeps(s, DoPhase(s, t, event), {});
    case CheckCapacity(t) =>
      CheckDropsNothing(cfg, s, t);
      NothingDroppedKeeps(s, DoCheck(cfg, s, t), {});
    case Connect(t, e, now) =>
      ConnectDropsNothing(s, t, e, now);
      NothingDroppedKeeps(s, DoConnect(s, t, e, now), {e});
    case Resume(t, now) =>
      ResumeDropsNothing(s, t, now);
      NothingDroppedKeeps(s, DoResume(s, t, now), {});
    case Finish(t, touched) =>
      FinishDropsNothing(s, t, touched);
      NothingDroppedKeeps(s, DoFinish(s, t, touched), {});
    case Sweep(now) =>
      SweepDropsNothing(cfg, s, now);
      NothingDroppedKeeps(s, Step(cfg, s, a), {});
    case Closing(event) =>
      if Displaces(s, a) {
        DisplacedIsLost(s, event);
      } else {
        ClosingDropsNothing(s, event);
        NothingDroppedKeeps(s, DoClosing(s, event), {});
      }
  }

  /** An invalidation that is alone with its datasource finds its own entry. */
  lemma ExactNeverDisplaces(s: State, a: Action)
    requires InvalidationsExact(s)
    ensures !Displaces(s, a)
  {
  }

  // Tunnels.

  ghost predicate Owned(s: State, u: TunnelId) {
    || (exists t :: Connects(s, t) && s.inits[t].phase.tunnel == Some(u))
    || (exists e :: e in s.core.entries && s.core.entries[e].tunnel == Some(u))
  }

  /** An open tunnel belongs to a running initialisation or to an entry. */
  ghost predicate TunnelsOwned(s: State) {
    forall u :: u in s.tunnels && u !in s.closedTunnels ==> Owned(s, u)
  }

  lemma PhaseKeepsTunnels(s: State, t: TaskId, event: PhaseEvent)
    requires PhaseEnabled(s, t, event) && TunnelsOwned(s)
    ensures TunnelsOwned(DoPhase(s, t, event))
  {
    var s' := DoPhase(s, t, event);
    PhaseStep(s, t, event);
    forall u | u in s'.tunnels && u !in s'.closedTunnels ensures Owned(s', u) {
      if u !in s.tunnels {
        assert Connects(s', t);
      } else if x :| Connects(s, x) && s.inits[x].phase.tunnel == Some(u) {
        assert Connects(s', x) && s'.inits[x].phase.tunnel == Some(u);
      }
    }
  }

  lemma ConnectKeepsTunnels(s: State, t: TaskId, e: EntryId, now: int)
    requires Connects(s, t) && TunnelsOwned(s) && e !in s.core.entries
    ensures TunnelsOwned(DoConnect(s, t, e, now))
  {
    var s' := DoConnect(s, t, e, now);
    forall u | u in s'.tunnels && u !in s'.closedTunnels ensures Owned(s', u) {
      if x :| Connects(s, x) && s.inits[x].phase.tunnel == Some(u) {
        if x == t {
          assert s'.core.entries[e].tunnel == Some(u);
        } else {
          assert Connects(s', x);
        }
      } else {
        var y :| y in s.core.entries && s.core.entries[y].tunnel == Some(u);
        assert s'.core.entries[y].tunnel == Some(u);
      }
    }
  }

  lemma SameConnectingKeepsTunnels(s: State, s': State)
    requires TunnelsOwned(s) && EntriesKept(s, s', {})
    requires s'.tunnels == s.tunnels && s'.closedTunnels == s.closedTunnels
    requires forall t :: Connects(s, t) ==> Connects(s', t) && s'.inits[t].phase == s.inits[t].phase
    ensures TunnelsOwned(s')
  {
    forall u | u in s'.tunnels && u !in s'.closedTunnels ensures Owned(s', u) {
      if x :| Connects(s, x) && s.inits[x].phase.tunnel == Some(u) {
        assert Connects(s', x);
      } else {
        var y :| y in s.core.entries && s.core.entries[y].tunnel == Some(u);
        assert s'.core.entries[y].tunnel == Some(u);
      }
    }
  }

  lemma CallKeepsTunnels(s: State, t: TaskId, org: Org, id: Id, healthy: bool, now: int)
    requires EntriesKnown(s) && TunnelsOwned(s) && t !in s.inits
    ensures TunnelsOwned(DoCall(s, t, org, id, healthy, now))
  {
    CallEntries(s, t, org, id, healthy, now);
    SameConnectingKeepsTunnels(s, DoCall(s, t, org, id, healthy, now));
  }

  lemma ResumeKeepsTunnels(s: State, t: TaskId, now: int)
    requires EntriesKnown(s) && TunnelsOwned(s) && Resumable(s, t)
    ensures TunnelsOwned(DoResume(s, t, now))
  {
    ResumeEntries(s, t, now);
    SameConnectingKeepsTunnels(s, DoResume(s, t, now));
  }

  lemma StepKeepsTunnels(cfg: Config, s: State, a: Action)
    requires Enabled(s, a) && EntriesKnown(s) && TunnelsOwned(s)
    ensures TunnelsOwned(Step(cfg, s, a))
  {
    match a
    case Phase(t, event) => PhaseKeepsTunnels(s, t, event);
    case Connect(t, e, now) => ConnectKeepsTunnels(s, t, e, now);
    case Closing(event) =>
      ClosingStep(s, event);
      SameConnectingKeepsTunnels(s, DoClosing(s, event));
    case Call(t, org, id, healthy, now) => CallKeepsTunnels(s, t, org, id, healthy, now);
    case Resume(t, now) => ResumeKeepsTunnels(s, t, now);
    case CheckCapacity(t) => SameConnectingKeepsTunnels(s, DoCheck(cfg, s, t));
    case Finish(t, touched) => SameConnectingKeepsTunnels(s, DoFinish(s, t, touched));
    case Sweep(now) => SameConnectingKeepsTunnels(s, Step(cfg, s, a));
  }

  // Whole runs.

  /** A finished initialisation finds no entry registered for its datasource. */
  lemma ConnectOverwritesNothing(cfg: Config, d: Discipline, run: seq<Action>, t: TaskId, e: EntryId, now: int)
    requires d.prompt && Run(cfg, d, run).Some? && Permitted(d, Run(cfg, d, run).value, Connect(t, e, now))
    ensures var s := Run(cfg, d, run).value;
      && InitOf(s, t).id !in s.core.registry.values
      && Step(cfg, s, Connect(t, e, now)).core.registry.values == s.core.registry.values[InitOf(s, t).id := e]
  {
    PromptRunsAreOrderly(cfg, d, run);
    assert Pending(Run(cfg, d, run).value, t);
  }

  /** One step from a state in which nothing is lost: something is lost exactly if an invalidation
      takes out an open entry it did not wait for. */
  lemma LostExactly(cfg: Config, d: Discipline, run: seq<Action>, a: Action)
    requires d.prompt && Run(cfg, d, run).Some?
    requires var s := Run(cfg, d, run).value; NoneLost(s) && Permitted(d, s, a)
    ensures var s := Run(cfg, d, run).value; NoneLost(Step(cfg, s, a)) <==> !Displaces(s, a)
  {
    PromptRunsAreOrderly(cfg, d, run);
    EveryRunIsSafe(cfg, d, run);
    StepLosesExactly(cfg, Run(cfg, d, run).value, a);
  }

  /** Nothing was lost in any state of the run. */
  ghost predicate NoneLostThroughout(cfg: Config, d: Discipline, run: seq<Action>)
    requires Run(cfg, d, run).Some?
  {
    NoneLost(Run(cfg, d, run).value) && (run != [] ==> NoneLostThroughout(cfg, d, run[..|run| - 1]))
  }

  ghost predicate NeverDisplaces(cfg: Config, d: Discipline, run: seq<Action>)
    requires Run(cfg, d, run).Some?
  {
    run != [] ==>
      && NeverDisplaces(cfg, d, run[..|run| - 1])
      && !Displaces(Run(cfg, d, run[..|run| - 1]).value, run[|run| - 1])
  }

  /** However invalidations overlap: entries stay registered, closed or being drained exactly in the runs
      in which no invalidation takes out an open entry it did not wait for. */
  lemma {:induction false} NothingIsLostExactly(cfg: Config, d: Discipline, run: seq<Action>)
    requires d.prompt && Run(cfg, d, run).Some?
    ensures NoneLostThroughout(cfg, d, run) <==> NeverDisplaces(cfg, d, run)
  {
    if run != [] {
      var prefix, a := run[..|run| - 1], run[|run| - 1];
      NothingIsLostExactly(cfg, d, prefix);
      if NoneLostThroughout(cfg, d, prefix) {
        LostExactly(cfg, d, prefix, a);
      }
    }
  }

  /** Without overlapping invalidations every entry is registered, closed or being drained, and every
      open tunnel belongs to a running initialisation or to an entry. */
  lemma {:induction false} NothingIsLost(cfg: Config, d: Discipline, run: seq<Action>)
    requires d.prompt && d.apart && Run(cfg, d, run).Some?
    ensures var s := Run(cfg, d, run).value;
      NoneLost(s) && TunnelsOwned(s) && InvalidationsBlock(s) && InvalidationsExact(s)
  {
    if run != [] {
      var prefix, a := run[..|run| - 1], run[|run| - 1];
      NothingIsLost(cfg, d, prefix);
      PromptRunsAreOrderly(cfg, d, prefix);
      var s := Run(cfg, d, prefix).value;
      StepKeepsInvalidations(cfg, s, a);
      ExactNeverDisplaces(s, a);
      LostExactly(cfg, d, prefix, a);
      StepKeepsTunnels(cfg, s, a);
    }
  }

  /** When a closeAll has returned and no other is still draining, every entry ever created
      has been handed to closeEntry and every tunnel ever opened is closed or belongs to one. */
  lemma ShutdownClosesEverything(cfg: Config, d: Discipline, run: seq<Action>, k: TaskId)
    requires d.prompt && d.apart && Run(cfg, d, run).Some?
    requires var s := Run(cfg, d, run).value; k in s.closers && s.closers[k].Returned?
    ensures var s := Run(cfg, d, run).value;
      && (forall e :: e in s.core.entries ==> e in s.core.closed || Drained(s, e))
      && (forall u :: u in s.tunnels && u !in s.closedTunnels ==>
            exists e :: e in s.core.entries && s.core.entries[e].tunnel == Some(u))
  {
    NothingIsLost(cfg, d, run);
    PromptRunsAreOrderly(cfg, d, run);
    var s := Run(cfg, d, run).value;
    assert s.core.registry.values == map[];
    forall e | e in s.core.entries ensures e in s.core.closed || Drained(s, e) {
      assert Accounted(s, e);
    }
    forall t ensures !Connects(s, t) {
      assert !Initiates(s, t);
      assert !Pending(s, t);
    }
  }

  predicate Opens(a: Action) {
    a.Connect? || (a.Phase? && a.event.OpenTunnel?)
  }

  lemma OnlyRunningInitsOpen(s: State, a: Action)
    requires Enabled(s, a) && Opens(a)
    ensures Pending(s, a.t)
  {
  }

  lemma OthersOpenNothing(cfg: Config, s: State, a: Action)
    requires Enabled(s, a) && EntriesKnown(s) && !Opens(a)
    ensures Step(cfg, s, a).core.entries.Keys == s.core.entries.Keys && Step(cfg, s, a).tunnels == s.tunnels
  {
    EntriesAfter(cfg, s, a);
    match a
    case Phase(t, event) => PhaseStep(s, t, event);
    case Closing(event) => ClosingStep(s, event);
    case _ =>
  }

  /** Nothing is created once a closeAll has drained the registry. */
  lemma NothingOpensAfterShutdown(cfg: Config, d: Discipline, run: seq<Action>, k: TaskId, a: Action)
    requires d.prompt && Run(cfg, d, run).Some?
    requires var s := Run(cfg, d, run).value;
      k in s.closers && !s.closers[k].AwaitingAll? && Permitted(d, s, a)
    ensures var s := Run(cfg, d, run).value;
      Step(cfg, s, a).core.entries.Keys == s.core.entries.Keys && Step(cfg, s, a).tunnels == s.tunnels
  {
    PromptRunsAreOrderly(cfg, d, run);
    var s := Run(cfg, d, run).value;
    if Opens(a) {
      OnlyRunningInitsOpen(s, a);
      assert false;
    }
    OthersOpenNothing(cfg, s, a);
  }
}
