/** When a call loses the entry it holds: sweep and eviction never close one, and every other way is a refresh,
    an invalidation, a drain, or a call that goes on late with an entry closed meanwhile. */
module RegistryHeld {
  import opened OrderedMaps
  import opened RegistryCore
  import opened RegistryProtocol
  import opened RegistryLeases
  import opened RegistryTenants
  import opened RegistryOrder

  /** No call holds a closed entry. */
  ghost predicate HeldOpen(s: State) {
    forall t :: t in s.tasks && s.tasks[t].Holding? ==> s.tasks[t].entry !in s.core.closed
  }

  ghost predicate RegisteredOpen(s: State) {
    forall id :: id in s.core.registry.values ==> s.core.registry.values[id] !in s.core.closed
  }

  ghost predicate ClosedKnown(s: State) {
    s.core.closed <= s.core.entries.Keys
  }

  /** An invalidation waits for an entry of its datasource. */
  ghost predicate WaitsFiled(s: State) {
    forall v :: v in s.invals && s.invals[v].WaitingIdle? ==>
      s.invals[v].entry in s.core.entries && s.core.entries[s.invals[v].entry].id == s.invals[v].id
  }

  predicate Draining(s: State, k: TaskId, e: EntryId) {
    k in s.closers && s.closers[k].Draining? && e in s.closers[k].pending
  }

  /** What is being drained is not registered any more. */
  ghost predicate DrainedOut(s: State) {
    && (forall k, e :: Draining(s, k, e) ==> e in s.core.entries)
    && (forall k, e, id :: Draining(s, k, e) && id in s.core.registry.values ==> s.core.registry.values[id] != e)
  }

  ghost predicate Open(s: State) {
    RegisteredOpen(s) && ClosedKnown(s) && WaitsFiled(s) && DrainedOut(s)
  }

  /** A step from s to s' that closes these entries, which are not registered afterwards. */
  ghost predicate Closes(s: State, s': State, gone: set<EntryId>) {
    && s'.core.closed == s.core.closed + gone
    && (forall id :: id in s'.core.registry.values ==> s'.core.registry.values[id] !in gone)
  }

  /** What is registered was registered, or is new. */
  ghost predicate RegistersNew(s: State, s': State) {
    forall id :: id in s'.core.registry.values ==>
      || (id in s.core.registry.values && s'.core.registry.values[id] == s.core.registry.values[id])
      || s'.core.registry.values[id] !in s.core.entries
  }

  lemma ClosesKeepsRegisteredOpen(s: State, s': State, gone: set<EntryId>)
    requires RegisteredOpen(s) && ClosedKnown(s) && Closes(s, s', gone) && RegistersNew(s, s')
    ensures RegisteredOpen(s')
  {
  }

  /** The entries that a step closes. */
  ghost function Closed(cfg: Config, s: State, a: Action): set<EntryId>
    requires Enabled(s, a)
  {
    match a
    case Call(t, org, id, healthy, now) =>
      var answer := Acquire(s.core, t, org, id, healthy, now).0;
      if answer.Refreshes? then {answer.stale} else {}
    case CheckCapacity(t) =>
      var answer := EnsureCapacity(s.core, InitOf(s, t).id, cfg.maxActive).0;
      if answer.Evicts? then {ValueOf(s.core.registry, answer.victim)} else {}
    case Sweep(now) =>
      set id | id in s.core.registry.values && Stale(EntryOf(s.core, s.core.registry.values[id]), now, cfg.idleTimeout)
        :: s.core.registry.values[id]
    case Closing(InvalidateCloses(v)) => {s.invals[v].entry}
    case Closing(DrainOne(_, e)) => {e}
    case _ => {}
  }

  lemma {:induction false} SweptCloses(c: Core, n: nat, now: int, idleTimeout: int, e: EntryId)
    requires n <= |c.registry.order|
    requires forall i :: 0 <= i < |c.registry.order| ==> c.registry.order[i] in c.registry.values
    requires e in SweptTo(c, n, now, idleTimeout).1 && e !in c.closed
    ensures exists id ::
      id in c.registry.values && c.registry.values[id] == e && Stale(EntryOf(c, e), now, idleTimeout)
  {
    if e !in SweptTo(c, n - 1, now, idleTimeout).1 {
      assert c.registry.order[n - 1] in c.registry.values;
    } else {
      SweptCloses(c, n - 1, now, idleTimeout, e);
    }
  }

  lemma SweepCloses(cfg: Config, s: State, now: int)
    requires EntriesKnown(s) && Filed(s)
    ensures Closes(s, s.(core := Cleanup(s.core, now, cfg.idleTimeout)), Closed(cfg, s, Sweep(now)))
  {
    var s', gone := s.(core := Cleanup(s.core, now, cfg.idleTimeout)), Closed(cfg, s, Sweep(now));
    CleanupExactly(s.core, now, cfg.idleTimeout);
    forall e | e in s'.core.closed ensures e in s.core.closed + gone {
      if e !in s.core.closed {
        SweptCloses(s.core, |s.core.registry.order|, now, cfg.idleTimeout, e);
      }
    }
    forall e | e in gone ensures e in s'.core.closed {
      var id :| id in s.core.registry.values && s.core.registry.values[id] == e
                && Stale(EntryOf(s.core, e), now, cfg.idleTimeout);
      assert id !in s'.core.registry.values;
    }
  }

  lemma CallCloses(cfg: Config, s: State, t: TaskId, org: Org, id: Id, healthy: bool, now: int)
    requires Enabled(s, Call(t, org, id, healthy, now)) && EntriesKnown(s) && Filed(s)
    ensures Closes(s, DoCall(s, t, org, id, healthy, now), Closed(cfg, s, Call(t, org, id, healthy, now)))
  {
  }

  lemma CheckCloses(cfg: Config, s: State, t: TaskId)
    requires Enabled(s, CheckCapacity(t)) && EntriesKnown(s) && Filed(s)
    ensures Closes(s, DoCheck(cfg, s, t), Closed(cfg, s, CheckCapacity(t)))
  {
    var answer := EnsureCapacity(s.core, InitOf(s, t).id, cfg.maxActive).0;
    if answer.Evicts? {
      EvictsLeastRecent(s.core, InitOf(s, t).id, cfg.maxActive, 0);
    }
  }

  lemma ClosingCloses(cfg: Config, s: State, event: ClosingEvent)
    requires ClosingEnabled(s, event) && EntriesKnown(s) && Filed(s) && Open(s)
    ensures Closes(s, DoClosing(s, event), Closed(cfg, s, Closing(event)))
  {
    match event
    case DrainOne(k, e) => assert Draining(s, k, e);
    case _ =>
  }

  lemma StepCloses(cfg: Config, s: State, a: Action)
    requires Enabled(s, a) && EntriesKnown(s) && Filed(s) && Open(s)
    ensures Closes(s, Step(cfg, s, a), Closed(cfg, s, a))
  {
    match a
    case Call(t, org, id, healthy, now) => CallCloses(cfg, s, t, org, id, healthy, now);
    case CheckCapacity(t) => CheckCloses(cfg, s, t);
    case Sweep(now) => SweepCloses(cfg, s, now);
    case Closing(event) => ClosingCloses(cfg, s, event);
    case Phase(t, event) => PhaseStep(s, t, event);
    case _ =>
  }

  lemma ClosedAreKnown(cfg: Config, s: State, a: Action)
    requires Enabled(s, a) && EntriesKnown(s) && Open(s)
    ensures Closed(cfg, s, a) <= s.core.entries.Keys
  {
    match a
    case Closing(DrainOne(k, e)) => assert Draining(s, k, e);
    case CheckCapacity(t) =>
      if EnsureCapacity(s.core, InitOf(s, t).id, cfg.maxActive).0.Evicts? {
        EvictsLeastRecent(s.core, InitOf(s, t).id, cfg.maxActive, 0);
      }
    case _ =>
  }

  lemma StepKeepsRegisteredOpen(cfg: Config, s: State, a: Action)
    requires Enabled(s, a) && EntriesKnown(s) && Filed(s) && Open(s)
    ensures RegisteredOpen(Step(cfg, s, a)) && ClosedKnown(Step(cfg, s, a))
  {
    StepCloses(cfg, s, a);
    RegistryAfter(cfg, s, a);
    EntriesAfter(cfg, s, a);
    ClosedAreKnown(cfg, s, a);
    ClosesKeepsRegisteredOpen(s, Step(cfg, s, a), Closed(cfg, s, a));
  }

  /** Invalidations and drains are as they were, but for one step of one of them. */
  lemma InvalsAfter(cfg: Config, s: State, a: Action)
    requires Enabled(s, a) && !a.Closing?
    ensures Step(cfg, s, a).invals == s.invals && Step(cfg, s, a).closers == s.closers
  {
    match a
    case Phase(t, event) => PhaseStep(s, t, event);
    case _ =>
  }

  lemma ClosingKeepsWaits(s: State, event: ClosingEvent)
    requires ClosingEnabled(s, event) && EntriesKnown(s) && Filed(s) && WaitsFiled(s)
    ensures WaitsFiled(DoClosing(s, event))
  {
    ClosingStep(s, event);
  }

  lemma StepKeepsWaits(cfg: Config, s: State, a: Action)
    requires Enabled(s, a) && EntriesKnown(s) && Filed(s) && WaitsFiled(s)
    ensures WaitsFiled(Step(cfg, s, a))
  {
    if a.Closing? {
      ClosingKeepsWaits(s, a.closing);
    } else {
      EntriesAfter(cfg, s, a);
      InvalsAfter(cfg, s, a);
    }
  }

  lemma ClosingKeepsDrained(s: State, event: ClosingEvent)
    requires ClosingEnabled(s, event) && EntriesKnown(s) && DrainedOut(s)
    ensures DrainedOut(DoClosing(s, event))
  {
    var s' := DoClosing(s, event);
    ClosingStep(s, event);
    forall k, e | Draining(s', k, e)
      ensures e in s'.core.entries && forall id :: id in s'.core.registry.values ==> s'.core.registry.values[id] != e
    {
      if !event.CloseAllDrains? {
        assert Draining(s, k, e);
      } else if Draining(s, k, e) {
      } else {
        assert e in s.core.registry.values.Values;
      }
    }
  }

  lemma StepKeepsDrained(cfg: Config, s: State, a: Action)
    requires Enabled(s, a) && EntriesKnown(s) && DrainedOut(s)
    ensures DrainedOut(Step(cfg, s, a))
  {
    if a.Closing? {
      ClosingKeepsDrained(s, a.closing);
    } else {
      EntriesAfter(cfg, s, a);
      RegistryAfter(cfg, s, a);
      InvalsAfter(cfg, s, a);
      var s' := Step(cfg, s, a);
      forall k, e | Draining(s', k, e)
        ensures e in s'.core.entries && forall id :: id in s'.core.registry.values ==> s'.core.registry.values[id] != e
      {
        assert Draining(s, k, e);
      }
    }
  }

  lemma {:induction false} RunsAreOpen(cfg: Config, d: Discipline, run: seq<Action>)
    requires Run(cfg, d, run).Some?
    ensures Open(Run(cfg, d, run).value)
  {
    if run != [] {
      var prefix, a := run[..|run| - 1], run[|run| - 1];
      RunsAreOpen(cfg, d, prefix);
      EveryRunIsSafe(cfg, d, prefix);
      var s := Run(cfg, d, prefix).value;
      StepKeepsRegisteredOpen(cfg, s, a);
      StepKeepsWaits(cfg, s, a);
      StepKeepsDrained(cfg, s, a);
    }
  }

  // Who holds an entry after a step.

  /** A call goes on with an entry that was closed while it waited for it. */
  predicate ResumesClosed(s: State, a: Action) {
    && a.Resume? && Resumable(s, a.t)
    && var s' := DoResume(s, a.t, a.now);
       a.t in s'.tasks && s'.tasks[a.t].Holding? && s'.tasks[a.t].entry in s.core.closed
  }

  /** A step that closes an entry under a call: a refresh, an invalidation or a drain that closes one that is
      held, or a call that goes on with a closed one. */
  ghost predicate ClosesHeld(s: State, a: Action)
    requires Enabled(s, a)
  {
    match a
    case Call(t, org, id, healthy, now) =>
      var answer := Acquire(s.core, t, org, id, healthy, now).0;
      answer.Refreshes? && Holders(s.tasks, answer.stale) != {}
    case Closing(InvalidateCloses(v)) => Holders(s.tasks, s.invals[v].entry) != {}
    case Closing(DrainOne(_, e)) => Holders(s.tasks, e) != {}
    case Resume(_, _) => ResumesClosed(s, a)
    case _ => false
  }

  /** The holders after a step: those before it, but one that ends, and one that comes to hold an entry,
      which is a registered one unless the call had been waiting for it. */
  ghost predicate HoldsNew(s: State, s': State, a: Action)
    requires Enabled(s, a)
  {
    && (forall t :: t in s'.tasks && s'.tasks[t].Holding? && !(t in s.tasks && s'.tasks[t] == s.tasks[t]) ==>
          || s'.tasks[t].entry in s'.core.registry.values.Values
          || (a.Resume? && t == a.t && (ResumesClosed(s, a) <==> s'.tasks[t].entry in s.core.closed)))
    && (forall t :: t in s.tasks && s.tasks[t].Holding? && !(a.Finish? && t == a.t) ==>
          t in s'.tasks && s'.tasks[t] == s.tasks[t])
    && (ResumesClosed(s, a) ==> a.t in s'.tasks && s'.tasks[a.t].Holding? && s'.tasks[a.t].entry in s.core.closed)
  }

  lemma CallHoldsNew(s: State, t: TaskId, org: Org, id: Id, healthy: bool, now: int)
    requires Enabled(s, Call(t, org, id, healthy, now))
    ensures HoldsNew(s, DoCall(s, t, org, id, healthy, now), Call(t, org, id, healthy, now))
  {
  }

  lemma SameHolders(s: State, s': State, a: Action)
    requires Enabled(s, a) && !a.Resume? && s'.tasks == s.tasks
    ensures HoldsNew(s, s', a)
  {
  }

  lemma ResumeHoldsNew(s: State, t: TaskId, now: int)
    requires Resumable(s, t)
    ensures HoldsNew(s, DoResume(s, t, now), Resume(t, now))
  {
  }

  lemma FinishHoldsNew(s: State, t: TaskId, touched: Option<int>)
    requires t in s.tasks && s.tasks[t].Holding?
    ensures HoldsNew(s, DoFinish(s, t, touched), Finish(t, touched))
  {
  }

  lemma StepHoldsNew(cfg: Config, s: State, a: Action)
    requires Enabled(s, a)
    ensures HoldsNew(s, Step(cfg, s, a), a)
  {
    match a
    case Call(t, org, id, healthy, now) => CallHoldsNew(s, t, org, id, healthy, now);
    case Phase(t, event) =>
      PhaseStep(s, t, event);
      SameHolders(s, DoPhase(s, t, event), a);
    case CheckCapacity(t) => SameHolders(s, DoCheck(cfg, s, t), a);
    case Connect(t, e, now) => SameHolders(s, DoConnect(s, t, e, now), a);
    case Resume(t, now) => ResumeHoldsNew(s, t, now);
    case Finish(t, touched) => FinishHoldsNew(s, t, touched);
    case Sweep(now) => SameHolders(s, Step(cfg, s, a), a);
    case Closing(event) =>
      ClosingStep(s, event);
      SameHolders(s, DoClosing(s, event), a);
  }

  /** Sweep and eviction close entries that nobody holds. */
  lemma IdleAreUnheld(cfg: Config, s: State, a: Action, e: EntryId)
    requires Enabled(s, a) && (a.Sweep? || a.CheckCapacity?) && EntriesKnown(s) && LeasesConserved(s)
    requires e in Closed(cfg, s, a)
    ensures Holders(s.tasks, e) == {}
  {
    if a.CheckCapacity? {
      EvictsLeastRecent(s.core, InitOf(s, a.t).id, cfg.maxActive, 0);
    }
    assert EntryOf(s.core, e).active == |Holders(s.tasks, e)|;
  }

  lemma HeldStaysOpen(cfg: Config, s: State, a: Action)
    requires Enabled(s, a) && EntriesKnown(s) && LeasesConserved(s) && Filed(s) && Open(s) && HeldOpen(s)
    requires !ClosesHeld(s, a)
    ensures HeldOpen(Step(cfg, s, a))
  {
    var s' := Step(cfg, s, a);
    StepCloses(cfg, s, a);
    StepHoldsNew(cfg, s, a);
    StepKeepsRegisteredOpen(cfg, s, a);
    forall t | t in s'.tasks && s'.tasks[t].Holding? ensures s'.tasks[t].entry !in s'.core.closed {
      if t in s.tasks && s'.tasks[t] == s.tasks[t] {
        assert t in Holders(s.tasks, s.tasks[t].entry);
        if s.tasks[t].entry in Closed(cfg, s, a) && (a.Sweep? || a.CheckCapacity?) {
          IdleAreUnheld(cfg, s, a, s.tasks[t].entry);
        }
      }
    }
  }

  lemma HeldIsClosed(cfg: Config, s: State, a: Action)
    requires Enabled(s, a) && EntriesKnown(s) && Filed(s) && Open(s) && ClosesHeld(s, a)
    ensures !HeldOpen(Step(cfg, s, a))
  {
    var s' := Step(cfg, s, a);
    StepCloses(cfg, s, a);
    StepHoldsNew(cfg, s, a);
    if a.Resume? {
      assert a.t in s'.tasks;
    } else {
      var e :| e in Closed(cfg, s, a) && Holders(s.tasks, e) != {};
      var t :| t in Holders(s.tasks, e);
      assert s'.tasks[t] == s.tasks[t];
    }
  }

  /** One step of any run from a state in which no call holds a closed entry. */
  lemma HeldClosedExactly(cfg: Config, d: Discipline, run: seq<Action>, a: Action)
    requires Run(cfg, d, run).Some? && Permitted(d, Run(cfg, d, run).value, a) && HeldOpen(Run(cfg, d, run).value)
    ensures var s := Run(cfg, d, run).value; HeldOpen(Step(cfg, s, a)) <==> !ClosesHeld(s, a)
  {
    EveryRunIsSafe(cfg, d, run);
    RunsAreOpen(cfg, d, run);
    if ClosesHeld(Run(cfg, d, run).value, a) {
      HeldIsClosed(cfg, Run(cfg, d, run).value, a);
    } else {
      HeldStaysOpen(cfg, Run(cfg, d, run).value, a);
    }
  }

  ghost predicate HeldOpenThroughout(cfg: Config, d: Discipline, run: seq<Action>)
    requires Run(cfg, d, run).Some?
  {
    HeldOpen(Run(cfg, d, run).value) && (run != [] ==> HeldOpenThroughout(cfg, d, run[..|run| - 1]))
  }

  ghost predicate NeverClosesHeld(cfg: Config, d: Discipline, run: seq<Action>)
    requires Run(cfg, d, run).Some?
  {
    run != [] ==>
      NeverClosesHeld(cfg, d, run[..|run| - 1]) && !ClosesHeld(Run(cfg, d, run[..|run| - 1]).value, run[|run| - 1])
  }

  /** However calls are scheduled: no call ever holds a closed entry in exactly the runs in which no refresh,
      invalidation or drain closes a held one, and no call goes on with a closed one. */
  lemma {:induction false} HeldEntriesOpenExactly(cfg: Config, d: Discipline, run: seq<Action>)
    requires Run(cfg, d, run).Some?
    ensures HeldOpenThroughout(cfg, d, run) <==> NeverClosesHeld(cfg, d, run)
  {
    if run != [] {
      var prefix, a := run[..|run| - 1], run[|run| - 1];
      HeldEntriesOpenExactly(cfg, d, prefix);
      if HeldOpenThroughout(cfg, d, prefix) {
        HeldClosedExactly(cfg, d, prefix, a);
      }
    }
  }

  // With prompt reactions nobody goes on with a closed entry.

  /** The entry a call is about to go on with. */
  predicate GoesOnWith(s: State, t: TaskId, e: EntryId) {
    Resumable(s, t) && InitOf(s, Awaits(s, t)).phase == Resolved(e)
  }

  ghost predicate ResolvedOpen(s: State) {
    forall t, e :: GoesOnWith(s, t, e) ==> e !in s.core.closed
  }

  lemma ResumeKeepsResolvedOpen(s: State, t: TaskId, now: int)
    requires Resumable(s, t) && ResolvedOpen(s)
    ensures ResolvedOpen(DoResume(s, t, now))
  {
    var s' := DoResume(s, t, now);
    forall u, e | GoesOnWith(s', u, e) ensures e !in s'.core.closed {
      assert GoesOnWith(s, u, e);
    }
  }

  /** A call that has just been made awaits an initialisation that still runs. */
  lemma CallAwaitsPending(s: State, t: TaskId, org: Org, id: Id, healthy: bool, now: int)
    requires Enabled(s, Call(t, org, id, healthy, now)) && Quiet(s) && Orderly(s)
    ensures !Resumable(DoCall(s, t, org, id, healthy, now), t)
  {
    var answer := Acquire(s.core, t, org, id, healthy, now).0;
    if answer.Joins? {
      QuietIsPending(s, answer.init);
    }
  }

  /** A call awaits what it awaited, unless it has just been made or goes on. */
  lemma AwaitsAfter(cfg: Config, s: State, a: Action, u: TaskId)
    requires Enabled(s, a) && !a.Resume? && Resumable(Step(cfg, s, a), u) && !(a.Call? && u == a.t)
    ensures u in s.tasks && s.tasks[u] == Step(cfg, s, a).tasks[u]
  {
    match a
    case Phase(t, event) => PhaseStep(s, t, event);
    case Closing(event) => ClosingStep(s, event);
    case _ =>
  }

  /** Whoever can go on after another step than a resumption awaits the initialisation that has just
      finished. */
  lemma GoesOnAfter(cfg: Config, s: State, a: Action, u: TaskId, e: EntryId)
    requires Enabled(s, a) && !a.Resume? && Quiet(s) && Orderly(s) && GoesOnWith(Step(cfg, s, a), u, e)
    ensures a.Connect? && e == a.entry
  {
    if a.Call? && u == a.t {
      CallAwaitsPending(s, a.t, a.org, a.id, a.healthy, a.now);
    } else {
      AwaitsAfter(cfg, s, a, u);
      InitsAfter(cfg, s, a);
      assert !Resumable(s, u);
    }
  }

  lemma StepKeepsResolvedOpen(cfg: Config, s: State, a: Action)
    requires Enabled(s, a) && Prompt(s, a) && Orderly(s) && EntriesKnown(s) && Open(s) && ResolvedOpen(s)
    ensures ResolvedOpen(Step(cfg, s, a))
  {
    if a.Resume? {
      ResumeKeepsResolvedOpen(s, a.t, a.now);
    } else {
      forall u, e | GoesOnWith(Step(cfg, s, a), u, e) ensures e !in Step(cfg, s, a).core.closed {
        GoesOnAfter(cfg, s, a, u, e);
      }
    }
  }

  lemma {:induction false} PromptRunsResolveOpen(cfg: Config, d: Discipline, run: seq<Action>)
    requires d.prompt && Run(cfg, d, run).Some?
    ensures ResolvedOpen(Run(cfg, d, run).value)
  {
    if run != [] {
      var prefix, a := run[..|run| - 1], run[|run| - 1];
      PromptRunsResolveOpen(cfg, d, prefix);
      PromptRunsAreOrderly(cfg, d, prefix);
      RunsAreOpen(cfg, d, prefix);
      StepKeepsResolvedOpen(cfg, Run(cfg, d, prefix).value, a);
    }
  }

  /** When promise reactions are prompt, a call that goes on gets an open entry: the lease is taken before
      anything can close it. */
  lemma ResumedEntriesAreOpen(cfg: Config, d: Discipline, run: seq<Action>, t: TaskId, now: int)
    requires d.prompt && Run(cfg, d, run).Some? && Resumable(Run(cfg, d, run).value, t)
    ensures !ResumesClosed(Run(cfg, d, run).value, Resume(t, now))
  {
    PromptRunsResolveOpen(cfg, d, run);
    var s := Run(cfg, d, run).value;
    if InitOf(s, Awaits(s, t)).phase.Resolved? {
      assert GoesOnWith(s, t, InitOf(s, Awaits(s, t)).phase.entry);
    }
  }
}
