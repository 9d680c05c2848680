/** What `lastUsedAt` means: in every run it is the time of the entry's creation, or of the last call that took
    the entry or ended an operation on it since. */
module RegistryRecency {
  import opened OrderedMaps
  import opened RegistryCore
  import opened RegistryProtocol
  import opened RegistryLeases
  import opened RegistryTenants

  /** A call that finds entry e registered takes it. */
  predicate TakesRegistered(s: State, s': State, t: TaskId, e: EntryId) {
    t !in s.tasks && t in s'.tasks && s'.tasks[t].Holding? && s'.tasks[t].entry == e
  }

  /** A call that joined the initialisation of another one takes entry e. */
  predicate TakesJoined(s: State, s': State, t: TaskId, e: EntryId) {
    t in s.tasks && s.tasks[t].Waiting? && t in s'.tasks && s'.tasks[t].Holding? && s'.tasks[t].entry == e
  }

  /** The time at which the step from s to s' uses entry e, if it does. */
  function UsedBy(s: State, s': State, a: Action, e: EntryId): Option<int> {
    match a
    case Connect(_, made, now) => if made == e then Some(now) else None
    case Call(t, _, _, _, now) => if TakesRegistered(s, s', t, e) then Some(now) else None
    case Resume(t, now) => if TakesJoined(s, s', t, e) then Some(now) else None
    case Finish(t, touched) => if t in s.tasks && s.tasks[t].Holding? && s.tasks[t].entry == e then touched else None
    case _ => None
  }

  /** The last use of an entry in a run. */
  ghost function LastUse(cfg: Config, d: Discipline, run: seq<Action>, e: EntryId): Option<int>
    requires Run(cfg, d, run).Some?
  {
    if run == [] then None
    else
      var prefix, a := run[..|run| - 1], run[|run| - 1];
      var used := UsedBy(Run(cfg, d, prefix).value, Run(cfg, d, run).value, a, e);
      if used.Some? then used else LastUse(cfg, d, prefix, e)
  }

  /** After a step an entry's last use is the time of this step, if it used it, and what it was before. */
  ghost predicate Touched(s: State, s': State, a: Action) {
    forall e :: e in s'.core.entries ==>
      var used := UsedBy(s, s', a, e);
      if used.Some? then s'.core.entries[e].lastUsedAt == used.value
      else e in s.core.entries && s'.core.entries[e].lastUsedAt == s.core.entries[e].lastUsedAt
  }

  lemma CallTouches(s: State, t: TaskId, org: Org, id: Id, healthy: bool, now: int)
    requires RegistryKnown(s.core) && t !in s.tasks
    ensures Touched(s, DoCall(s, t, org, id, healthy, now), Call(t, org, id, healthy, now))
  {
  }

  lemma ResumeTouches(s: State, t: TaskId, now: int)
    requires ResolvedKnown(s) && Resumable(s, t)
    ensures Touched(s, DoResume(s, t, now), Resume(t, now))
  {
  }

  lemma FinishTouches(s: State, t: TaskId, touched: Option<int>)
    requires HeldKnown(s) && t in s.tasks && s.tasks[t].Holding?
    ensures Touched(s, DoFinish(s, t, touched), Finish(t, touched))
  {
  }

  lemma ConnectTouches(s: State, t: TaskId, e: EntryId, now: int)
    requires Connects(s, t) && e !in s.core.entries
    ensures Touched(s, DoConnect(s, t, e, now), Connect(t, e, now))
  {
  }

  lemma StepTouches(cfg: Config, s: State, a: Action)
    requires Enabled(s, a) && EntriesKnown(s)
    ensures Touched(s, Step(cfg, s, a), a)
  {
    match a
    case Call(t, org, id, healthy, now) => CallTouches(s, t, org, id, healthy, now);
    case Resume(t, now) => ResumeTouches(s, t, now);
    case Finish(t, touched) => FinishTouches(s, t, touched);
    case Connect(t, e, now) => ConnectTouches(s, t, e, now);
    case Phase(t, event) => PhaseStep(s, t, event);
    case Closing(event) => ClosingStep(s, event);
    case _ =>
  }

  /** Under any schedule `lastUsedAt` is the last use. */
  lemma {:induction false} LastUsedIsTheLastUse(cfg: Config, d: Discipline, run: seq<Action>, e: EntryId)
    requires Run(cfg, d, run).Some? && e in Run(cfg, d, run).value.core.entries
    ensures LastUse(cfg, d, run, e) == Some(Run(cfg, d, run).value.core.entries[e].lastUsedAt)
  {
    if run != [] {
      var prefix, a := run[..|run| - 1], run[|run| - 1];
      var s := Run(cfg, d, prefix).value;
      EveryRunIsSafe(cfg, d, prefix);
      StepTouches(cfg, s, a);
      if e in s.core.entries {
        LastUsedIsTheLastUse(cfg, d, prefix, e);
      }
    }
  }

  /** An operation that ends at some time leaves its entry last used then, and every other entry alone. */
  lemma EndedOperationsAreUses(cfg: Config, d: Discipline, run: seq<Action>, t: TaskId, now: int, e: EntryId)
    requires Run(cfg, d, run).Some? && Permitted(d, Run(cfg, d, run).value, Finish(t, Some(now)))
    requires e in Run(cfg, d, run).value.core.entries
    ensures var s := Run(cfg, d, run).value;
      var s' := Step(cfg, s, Finish(t, Some(now)));
      && e in s'.core.entries
      && s'.core.entries[e].lastUsedAt == if e == s.tasks[t].entry then now else s.core.entries[e].lastUsedAt
  {
    EveryRunIsSafe(cfg, d, run);
    var s := Run(cfg, d, run).value;
    StepTouches(cfg, s, Finish(t, Some(now)));
    EntriesAfter(cfg, s, Finish(t, Some(now)));
  }

  /** The sweep takes exactly the entries that no call holds and whose last use is the timeout ago. */
  lemma SweepTakesUnused(cfg: Config, d: Discipline, run: seq<Action>, now: int, id: Id)
    requires Run(cfg, d, run).Some? && id in Run(cfg, d, run).value.core.registry.values
    ensures var s := Run(cfg, d, run).value;
      var e := s.core.registry.values[id];
      && LastUse(cfg, d, run, e).Some?
      && (id !in Cleanup(s.core, now, cfg.idleTimeout).registry.values <==>
            Holders(s.tasks, e) == {} && now - LastUse(cfg, d, run, e).value >= cfg.idleTimeout)
  {
    EveryRunIsSafe(cfg, d, run);
    LastUsedIsTheLastUse(cfg, d, run, Run(cfg, d, run).value.core.registry.values[id]);
    SweepTakesIdleOnly(cfg, d, run, now, id);
  }

  /** Of the registered entries that no call holds, the evicted one has the least last use. */
  lemma EvictionTakesLeastUsed(cfg: Config, d: Discipline, run: seq<Action>, t: TaskId, id: Id, other: Id)
    requires Run(cfg, d, run).Some? && Evicted(cfg, Run(cfg, d, run).value, t, id)
    requires other in Run(cfg, d, run).value.core.registry.values
    ensures var s := Run(cfg, d, run).value;
      var e, e' := s.core.registry.values[id], s.core.registry.values[other];
      && LastUse(cfg, d, run, e).Some? && LastUse(cfg, d, run, e').Some?
      && Holders(s.tasks, e) == {}
      && (Holders(s.tasks, e') == {} ==> LastUse(cfg, d, run, e).value <= LastUse(cfg, d, run, e').value)
  {
    var s := Run(cfg, d, run).value;
    EveryRunIsSafe(cfg, d, run);
    LastUsedIsTheLastUse(cfg, d, run, s.core.registry.values[id]);
    LastUsedIsTheLastUse(cfg, d, run, s.core.registry.values[other]);
    EvictionTakesIdleOnly(cfg, d, run, t, id, other);
  }
}
