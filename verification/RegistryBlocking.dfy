/** Who is refused: a datasource is blocked only while an invalidation of it is in progress, and so a call is
    refused only then, after shutdown, or for the entry of another organization. */
module RegistryBlocking {
  import opened OrderedMaps
  import opened RegistryCore
  import opened RegistryProtocol
  import opened RegistryLeases
  import opened RegistryTenants

  predicate Invalidating(s: State, v: TaskId, id: Id) {
    v in s.invals && s.invals[v].id == id
  }

  /** A blocked datasource is being invalidated. */
  ghost predicate BlockedForReason(s: State) {
    forall id :: id in s.core.blocked ==> exists v :: Invalidating(s, v, id)
  }

  /** A datasource that is being invalidated is blocked, and by no other invalidation. */
  ghost predicate InvalidatedAreBlocked(s: State) {
    && (forall v :: v in s.invals ==> s.invals[v].id in s.core.blocked)
    && (forall v, w :: v in s.invals && w in s.invals && s.invals[v].id == s.invals[w].id ==> v == w)
  }

  /** Steps of calls, initialisations and sweeps leave invalidations and shutdowns alone. */
  predicate LeavesClosing(s: State, s': State) {
    && s'.invals == s.invals && s'.closers == s.closers
    && s'.core.blocked == s.core.blocked && s'.core.accepting == s.core.accepting
  }

  lemma CallLeavesClosing(s: State, t: TaskId, org: Org, id: Id, healthy: bool, now: int)
    ensures LeavesClosing(s, DoCall(s, t, org, id, healthy, now))
  {
  }

  lemma ResumeLeavesClosing(s: State, t: TaskId, now: int)
    requires Resumable(s, t)
    ensures LeavesClosing(s, DoResume(s, t, now))
  {
  }

  lemma OthersLeaveClosing(cfg: Config, s: State, a: Action)
    requires Enabled(s, a) && !a.Closing?
    ensures LeavesClosing(s, Step(cfg, s, a))
  {
    match a
    case Call(t, org, id, healthy, now) => CallLeavesClosing(s, t, org, id, healthy, now);
    case Resume(t, now) => ResumeLeavesClosing(s, t, now);
    case Phase(t, event) => PhaseStep(s, t, event);
    case _ =>
  }

  /** An invalidation leaves others as they are, and unblocks its datasource when it ends. */
  lemma ClosingBlocks(s: State, event: ClosingEvent, v: TaskId, id: Id)
    requires ClosingEnabled(s, event) && Invalidating(s, v, id)
    ensures var s' := DoClosing(s, event);
      || Invalidating(s', v, id)
      || ((event.InvalidateProceeds? || event.InvalidateDone?) && event.v == v && id !in s'.core.blocked)
  {
  }

  lemma ClosingAddsBlocks(s: State, event: ClosingEvent, id: Id)
    requires ClosingEnabled(s, event) && id in DoClosing(s, event).core.blocked && id !in s.core.blocked
    ensures event.Invalidate? && event.id == id && Invalidating(DoClosing(s, event), event.v, id)
  {
  }

  lemma ClosingKeepsReason(s: State, event: ClosingEvent)
    requires ClosingEnabled(s, event) && BlockedForReason(s)
    ensures BlockedForReason(DoClosing(s, event))
  {
    var s' := DoClosing(s, event);
    forall id | id in s'.core.blocked ensures exists v :: Invalidating(s', v, id) {
      if id in s.core.blocked {
        var v :| Invalidating(s, v, id);
        ClosingBlocks(s, event, v, id);
      } else {
        ClosingAddsBlocks(s, event, id);
      }
    }
  }

  lemma StepKeepsReason(cfg: Config, s: State, a: Action)
    requires Enabled(s, a) && BlockedForReason(s)
    ensures BlockedForReason(Step(cfg, s, a))
  {
    if a.Closing? {
      ClosingKeepsReason(s, a.closing);
    } else {
      OthersLeaveClosing(cfg, s, a);
      forall id | id in s.core.blocked ensures exists v :: Invalidating(Step(cfg, s, a), v, id) {
        var v :| Invalidating(s, v, id);
        assert Invalidating(Step(cfg, s, a), v, id);
      }
    }
  }

  /** In every run, invalidations overlapping or not. */
  lemma BlockedAreInvalidated(cfg: Config, d: Discipline, run: seq<Action>, id: Id)
    requires Run(cfg, d, run).Some? && id in Run(cfg, d, run).value.core.blocked
    ensures exists v :: Invalidating(Run(cfg, d, run).value, v, id)
  {
    RunsBlockForReason(cfg, d, run);
  }

  lemma {:induction false} RunsBlockForReason(cfg: Config, d: Discipline, run: seq<Action>)
    requires Run(cfg, d, run).Some?
    ensures BlockedForReason(Run(cfg, d, run).value)
  {
    if run != [] {
      RunsBlockForReason(cfg, d, run[..|run| - 1]);
      StepKeepsReason(cfg, Run(cfg, d, run[..|run| - 1]).value, run[|run| - 1]);
    }
  }

  lemma ClosingKeepsInvalidated(s: State, event: ClosingEvent)
    requires ClosingEnabled(s, event) && Apart(s, Closing(event)) && InvalidatedAreBlocked(s)
    ensures InvalidatedAreBlocked(DoClosing(s, event))
  {
  }

  lemma StepKeepsInvalidated(cfg: Config, s: State, a: Action)
    requires Enabled(s, a) && Apart(s, a) && InvalidatedAreBlocked(s)
    ensures InvalidatedAreBlocked(Step(cfg, s, a))
  {
    if a.Closing? {
      ClosingKeepsInvalidated(s, a.closing);
    } else {
      OthersLeaveClosing(cfg, s, a);
    }
  }

  lemma {:induction false} ApartRunsBlock(cfg: Config, d: Discipline, run: seq<Action>)
    requires d.apart && Run(cfg, d, run).Some?
    ensures InvalidatedAreBlocked(Run(cfg, d, run).value)
  {
    if run != [] {
      ApartRunsBlock(cfg, d, run[..|run| - 1]);
      StepKeepsInvalidated(cfg, Run(cfg, d, run[..|run| - 1]).value, run[|run| - 1]);
    }
  }

  /** While invalidations of one datasource do not overlap, the blocked datasources are exactly those being
      invalidated. */
  lemma BlockedExactly(cfg: Config, d: Discipline, run: seq<Action>, id: Id)
    requires d.apart && Run(cfg, d, run).Some?
    ensures var s := Run(cfg, d, run).value; id in s.core.blocked <==> exists v :: Invalidating(s, v, id)
  {
    ApartRunsBlock(cfg, d, run);
    RunsBlockForReason(cfg, d, run);
  }

  /** An entry registered under a datasource was made for another organization. */
  predicate OfAnother(s: State, org: Org, id: Id) {
    id in s.core.registry.values && EntryOf(s.core, s.core.registry.values[id]).org != org
  }

  /** While the manager accepts calls, one is refused only if its datasource is being invalidated or its
      entry is another organization's; any other call gets its entry, joins or starts an initialisation. */
  lemma RefusedOnlyForReason(cfg: Config, d: Discipline, run: seq<Action>, t: TaskId, org: Org, id: Id, healthy: bool,
                             now: int)
    requires Run(cfg, d, run).Some?
    ensures var s := Run(cfg, d, run).value;
      s.core.accepting && Acquire(s.core, t, org, id, healthy, now).0.Refused? ==>
        (exists v :: Invalidating(s, v, id)) || OfAnother(s, org, id)
  {
    RunsBlockForReason(cfg, d, run);
  }

  /** And while invalidations of one datasource do not overlap, exactly then or after shutdown has begun. */
  lemma RefusedExactly(cfg: Config, d: Discipline, run: seq<Action>, t: TaskId, org: Org, id: Id, healthy: bool,
                       now: int)
    requires d.apart && Run(cfg, d, run).Some?
    ensures var s := Run(cfg, d, run).value;
      Acquire(s.core, t, org, id, healthy, now).0.Refused? <==>
        !s.core.accepting || (exists v :: Invalidating(s, v, id)) || OfAnother(s, org, id)
  {
    BlockedExactly(cfg, d, run, id);
  }

  /** What a call that is not refused gets: an entry whose tunnel, if it has one, is healthy; a refresh if it
      is not; and without an entry the initialisation in flight, or a new one. */
  lemma AnsweredExactly(c: Core, t: TaskId, org: Org, id: Id, healthy: bool, now: int)
    requires !Acquire(c, t, org, id, healthy, now).0.Refused?
    ensures var answer := Acquire(c, t, org, id, healthy, now).0;
      && (answer.Leased? || answer.Refreshes? <==> id in c.registry.values)
      && (answer.Leased? ==> answer.entry == c.registry.values[id])
      && (answer.Refreshes? ==> answer.stale == c.registry.values[id])
      && (answer.Refreshes? <==>
            id in c.registry.values && !healthy && EntryOf(c, c.registry.values[id]).tunnel != None)
      && (answer.Joins? ==> id in c.inFlight.values && answer.init == c.inFlight.values[id])
      && (answer.Starts? <==> id !in c.registry.values && id !in c.inFlight.values)
  {
  }

  // The manager stops accepting exactly when closeAll is called.

  lemma ClosingAccepts(s: State, event: ClosingEvent)
    requires ClosingEnabled(s, event)
    ensures DoClosing(s, event).core.accepting <==> s.core.accepting && !event.CloseAll?
    ensures DoClosing(s, event).closers.Keys == s.closers.Keys + if event.CloseAll? then {event.k} else {}
  {
  }

  /** Calls are accepted until closeAll is called, and never again. */
  lemma {:induction false} AcceptingUntilShutdown(cfg: Config, d: Discipline, run: seq<Action>)
    requires Run(cfg, d, run).Some?
    ensures Run(cfg, d, run).value.core.accepting <==> Run(cfg, d, run).value.closers.Keys == {}
  {
    if run != [] {
      var prefix, a := run[..|run| - 1], run[|run| - 1];
      AcceptingUntilShutdown(cfg, d, prefix);
      if a.Closing? {
        ClosingAccepts(Run(cfg, d, prefix).value, a.closing);
        assert a.closing.CloseAll? ==> a.closing.k in Run(cfg, d, run).value.closers.Keys;
      } else {
        OthersLeaveClosing(cfg, Run(cfg, d, prefix).value, a);
      }
    }
  }
}
