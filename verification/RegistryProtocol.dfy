/** The connection manager and all calls in progress as a step system. One step is the code
    between two awaits; every await is a place where any other step may come next. */
module RegistryProtocol {
  import opened OrderedMaps
  import opened RegistryCore

  /** Where the initialisation started by a call stands. */
  datatype Phase =
    | ClosingStale                             // refresh: the unhealthy entry is being closed
    | Resolving                                // before the capacity check
    | Admitted                                 // capacity granted, nothing opened yet
    | Connecting(tunnel: Option<TunnelId>)     // data source being created
    | Abandoning                               // creation failed, tunnel being closed
    | Resolved(entry: EntryId)
    | Rejected

  datatype Init = Init(org: Org, id: Id, phase: Phase)

  datatype Task =
    | Initiating(org: Org)                     // awaits the initialisation it started itself
    | Waiting(org: Org, id: Id, init: TaskId)  // awaits another call's initialisation
    | Holding(org: Org, id: Id, entry: EntryId)

  datatype Invalidation =
    | AwaitingInit(id: Id, init: Option<TaskId>)
    | WaitingIdle(id: Id, entry: EntryId)
    | ClosingEntry(id: Id)

  datatype Closer = AwaitingAll(inits: set<TaskId>) | Draining(pending: set<EntryId>) | Returned

  datatype State = State(
    core: Core,
    inits: map<TaskId, Init>,
    tasks: map<TaskId, Task>,
    invals: map<TaskId, Invalidation>,
    closers: map<TaskId, Closer>,
    tunnels: set<TunnelId>,
    closedTunnels: set<TunnelId>)

  const INITIAL: State := State(EMPTY, map[], map[], map[], map[], {}, {})

  /** Steps of an initialisation that touch no field of the manager. */
  datatype PhaseEvent =
    | StaleClosed(ok: bool)
    | ResolveFails
    | OpenFails
    | OpenTunnel(tunnel: TunnelId)
    | SkipTunnel
    | ConnectFails
    | Abandoned

  /** Steps of invalidateDatasource and closeAll. */
  datatype ClosingEvent =
    | Invalidate(v: TaskId, id: Id)
    | InvalidateProceeds(v: TaskId)
    | InvalidateCloses(v: TaskId)
    | InvalidateDone(v: TaskId)
    | CloseAll(k: TaskId)
    | CloseAllDrains(k: TaskId)
    | DrainOne(k: TaskId, entry: EntryId)
    | CloseAllReturns(k: TaskId)

  datatype Action =
    | Call(t: TaskId, org: Org, id: Id, healthy: bool, now: int)
    | Phase(t: TaskId, event: PhaseEvent)
    | CheckCapacity(t: TaskId)
    | Connect(t: TaskId, entry: EntryId, now: int)
    | Resume(t: TaskId, now: int)
    | Finish(t: TaskId, touched: Option<int>)
    | Sweep(now: int)
    | Closing(closing: ClosingEvent)

  predicate Settled(p: Phase) { p.Resolved? || p.Rejected? }

  predicate Checked(p: Phase) { !p.ClosingStale? && !p.Resolving? }

  predicate Counted(p: Phase) { p.Admitted? || p.Connecting? || p.Abandoning? }

  /** Lookups; only identities handed out are ever looked up. */
  function InitOf(s: State, t: TaskId): Init {
    if t in s.inits then s.inits[t] else Init(0, 0, Rejected)
  }

  /** The call whose initialisation a call in progress awaits: its own, or the one it joined. */
  function Awaits(s: State, t: TaskId): TaskId {
    if t in s.tasks && s.tasks[t].Waiting? then s.tasks[t].init else t
  }

  predicate AtPhase(s: State, t: TaskId, p: Phase) {
    t in s.inits && s.inits[t].phase == p
  }

  predicate Connects(s: State, t: TaskId) {
    t in s.inits && s.inits[t].phase.Connecting?
  }

  /** The promise this call awaits has settled, so the call can go on. */
  predicate Resumable(s: State, t: TaskId) {
    t in s.tasks &&
    match s.tasks[t]
    case Initiating(_) => Settled(InitOf(s, t).phase)
    case Waiting(_, _, i) => Settled(InitOf(s, i).phase)
    case Holding(_, _, _) => false
  }

  predicate PhaseEnabled(s: State, t: TaskId, event: PhaseEvent) {
    match event
    case StaleClosed(_) => AtPhase(s, t, ClosingStale)
    case ResolveFails => AtPhase(s, t, Resolving)
    case OpenFails => AtPhase(s, t, Admitted)
    case OpenTunnel(u) => AtPhase(s, t, Admitted) && u !in s.tunnels
    case SkipTunnel => AtPhase(s, t, Admitted)
    case ConnectFails => Connects(s, t)
    case Abandoned => AtPhase(s, t, Abandoning)
  }

  ghost predicate ClosingEnabled(s: State, event: ClosingEvent) {
    match event
    case Invalidate(v, _) => v !in s.invals
    case InvalidateProceeds(v) =>
      v in s.invals && s.invals[v].AwaitingInit? &&
      (s.invals[v].init.Some? ==> Settled(InitOf(s, s.invals[v].init.value).phase))
    case InvalidateCloses(v) => v in s.invals && s.invals[v].WaitingIdle?
    case InvalidateDone(v) => v in s.invals && s.invals[v].ClosingEntry?
    case CloseAll(k) => k !in s.closers
    case CloseAllDrains(k) =>
      k in s.closers && s.closers[k].AwaitingAll? &&
      forall t :: t in s.closers[k].inits ==> Settled(InitOf(s, t).phase)
    case DrainOne(k, e) => k in s.closers && s.closers[k].Draining? && e in s.closers[k].pending
    case CloseAllReturns(k) => k in s.closers && s.closers[k] == Draining({})
  }

  ghost predicate Enabled(s: State, a: Action) {
    match a
    case Call(t, _, _, _, _) => t !in s.tasks && t !in s.inits
    case Phase(t, event) => PhaseEnabled(s, t, event)
    case CheckCapacity(t) => AtPhase(s, t, Resolving)
    case Connect(t, e, _) => Connects(s, t) && e !in s.core.entries
    case Resume(t, _) => Resumable(s, t)
    case Finish(t, _) => t in s.tasks && s.tasks[t].Holding?
    case Sweep(_) => true
    case Closing(event) => ClosingEnabled(s, event)
  }

  function SetPhase(s: State, t: TaskId, p: Phase): State {
    s.(inits := s.inits[t := InitOf(s, t).(phase := p)])
  }

  function DoCall(s: State, t: TaskId, org: Org, id: Id, healthy: bool, now: int): State {
    var (answer, c) := Acquire(s.core, t, org, id, healthy, now);
    match answer
    case Refused => s
    case Leased(e) => s.(core := c, tasks := s.tasks[t := Holding(org, id, e)])
    case Joins(i) => s.(tasks := s.tasks[t := Waiting(org, id, i)])
    case Starts =>
      s.(core := c, tasks := s.tasks[t := Initiating(org)], inits := s.inits[t := Init(org, id, Resolving)])
    case Refreshes(_) =>
      s.(core := c, tasks := s.tasks[t := Initiating(org)], inits := s.inits[t := Init(org, id, ClosingStale)])
  }

  function DoCheck(cfg: Config, s: State, t: TaskId): State {
    var (answer, c) := EnsureCapacity(s.core, InitOf(s, t).id, cfg.maxActive);
    SetPhase(s.(core := c), t, if answer.Exhausted? then Rejected else Admitted)
  }

  function DoConnect(s: State, t: TaskId, e: EntryId, now: int): State
    requires Connects(s, t)
  {
    var i := s.inits[t];
    SetPhase(s.(core := Register(s.core, i.id, e, i.org, i.phase.tunnel, now)), t, Resolved(e))
  }

  function DoResume(s: State, t: TaskId, now: int): State
    requires Resumable(s, t)
  {
    match s.tasks[t]
    case Initiating(org) =>
      var i := InitOf(s, t);
      var c := s.core.(inFlight := Delete(s.core.inFlight, i.id));
      if i.phase.Rejected? then s.(core := c, tasks := s.tasks - {t})
      else s.(core := Lease(c, i.phase.entry, None), tasks := s.tasks[t := Holding(org, i.id, i.phase.entry)])
    case Waiting(org, id, i) =>
      var p := InitOf(s, i).phase;
      if p.Rejected? || EntryOf(s.core, p.entry).org != org then s.(tasks := s.tasks - {t})
      else s.(core := Lease(s.core, p.entry, Some(now)), tasks := s.tasks[t := Holding(org, id, p.entry)])
  }

  function DoFinish(s: State, t: TaskId, touched: Option<int>): State
    requires t in s.tasks && s.tasks[t].Holding?
  {
    s.(core := Release(s.core, s.tasks[t].entry, touched), tasks := s.tasks - {t})
  }

  function DoInvalidateProceeds(s: State, v: TaskId): State
    requires v in s.invals
  {
    var id := s.invals[v].id;
    if id in s.core.registry.values then s.(invals := s.invals[v := WaitingIdle(id, s.core.registry.values[id])])
    else s.(core := s.core.(blocked := s.core.blocked - {id}), invals := s.invals - {v})
  }

  function DoInvalidateCloses(s: State, v: TaskId): State
    requires v in s.invals && s.invals[v].WaitingIdle?
  {
    var WaitingIdle(id, e) := s.invals[v];
    s.(core := s.core.(registry := Delete(s.core.registry, id), closed := s.core.closed + {e}),
       invals := s.invals[v := ClosingEntry(id)])
  }

  function DoPhase(s: State, t: TaskId, event: PhaseEvent): State
    requires PhaseEnabled(s, t, event)
  {
    match event
    case StaleClosed(ok) => SetPhase(s, t, if ok then Resolving else Rejected)
    case ResolveFails => SetPhase(s, t, Rejected)
    case OpenFails => SetPhase(s, t, Rejected)
    case OpenTunnel(u) => SetPhase(s.(tunnels := s.tunnels + {u}), t, Connecting(Some(u)))
    case SkipTunnel => SetPhase(s, t, Connecting(None))
    case ConnectFails =>
      var u := s.inits[t].phase.tunnel;
      SetPhase(s.(closedTunnels := s.closedTunnels + if u.Some? then {u.value} else {}), t, Abandoning)
    case Abandoned => SetPhase(s, t, Rejected)
  }

  function DoClosing(s: State, event: ClosingEvent): State
    requires ClosingEnabled(s, event)
  {
    match event
    case Invalidate(v, id) =>
      s.(core := s.core.(blocked := s.core.blocked + {id}),
         invals := s.invals[v := AwaitingInit(id, Get(s.core.inFlight, id))])
    case InvalidateProceeds(v) => DoInvalidateProceeds(s, v)
    case InvalidateCloses(v) => DoInvalidateCloses(s, v)
    case InvalidateDone(v) =>
      s.(core := s.core.(blocked := s.core.blocked - {s.invals[v].id}), invals := s.invals - {v})
    case CloseAll(k) =>
      s.(core := s.core.(accepting := false),
         closers := s.closers[k := AwaitingAll(s.core.inFlight.values.Values)])
    case CloseAllDrains(k) =>
      s.(core := s.core.(registry := EMPTY.registry, inFlight := EMPTY.inFlight),
         closers := s.closers[k := Draining(s.core.registry.values.Values)])
    case DrainOne(k, e) =>
      s.(core := s.core.(closed := s.core.closed + {e}),
         closers := s.closers[k := Draining(s.closers[k].pending - {e})])
    case CloseAllReturns(k) => s.(closers := s.closers[k := Returned])
  }

  function Step(cfg: Config, s: State, a: Action): State
    requires Enabled(s, a)
  {
    match a
    case Call(t, org, id, healthy, now) => DoCall(s, t, org, id, healthy, now)
    case Phase(t, event) => DoPhase(s, t, event)
    case CheckCapacity(t) => DoCheck(cfg, s, t)
    case Connect(t, e, now) => DoConnect(s, t, e, now)
    case Resume(t, now) => DoResume(s, t, now)
    case Finish(t, now) => DoFinish(s, t, now)
    case Sweep(now) => s.(core := Cleanup(s.core, now, cfg.idleTimeout))
    case Closing(event) => DoClosing(s, event)
  }

  // What a run may be assumed to do, switched on one by one.

  /** prompt: calls whose promise settled go on before anything else happens.
      fifo: capacity checks run in the order in which the keys went in flight.
      apart: no two invalidations of one id overlap. */
  datatype Discipline = Discipline(prompt: bool, fifo: bool, apart: bool)

  ghost predicate Prompt(s: State, a: Action) {
    (exists t :: Resumable(s, t)) ==> a.Resume?
  }

  predicate Before(m: OrderedMap, a: Id, b: Id) {
    Position(m.order, a) < Position(m.order, b)
  }

  ghost predicate Fifo(s: State, a: Action) {
    a.CheckCapacity? ==>
      forall id | id in s.core.inFlight.values && Before(s.core.inFlight, id, InitOf(s, a.t).id) ::
        Checked(InitOf(s, s.core.inFlight.values[id]).phase)
  }

  ghost predicate Apart(s: State, a: Action) {
    a.Closing? && a.closing.Invalidate? ==> forall v :: v in s.invals ==> s.invals[v].id != a.closing.id
  }

  ghost predicate Permitted(d: Discipline, s: State, a: Action) {
    && Enabled(s, a)
    && (d.prompt ==> Prompt(s, a)) && (d.fifo ==> Fifo(s, a)) && (d.apart ==> Apart(s, a))
  }

  /** The state after a run, if every action of it was permitted when it was taken. */
  ghost function Run(cfg: Config, d: Discipline, run: seq<Action>): Option<State> {
    if run == [] then Some(INITIAL)
    else
      match Run(cfg, d, run[..|run| - 1])
      case None => None
      case Some(s) =>
        var a := run[|run| - 1];
        if Permitted(d, s, a) then Some(Step(cfg, s, a)) else None
  }

  ghost predicate Reachable(cfg: Config, d: Discipline, s: State) {
    exists run :: Run(cfg, d, run) == Some(s)
  }

  ghost predicate Leads(cfg: Config, d: Discipline, s: State, a: Action, s': State) {
    Permitted(d, s, a) && Step(cfg, s, a) == s'
  }

  lemma Extend(cfg: Config, d: Discipline, s: State, a: Action, s': State)
    requires Reachable(cfg, d, s) && Leads(cfg, d, s, a, s')
    ensures Reachable(cfg, d, s')
  {
    var run :| Run(cfg, d, run) == Some(s);
    assert (run + [a])[..|run|] == run;
    assert Run(cfg, d, run + [a]) == Some(s');
  }
}
