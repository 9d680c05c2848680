/** A refresh closes an entry under the call that holds it: a concrete run, with every assumption kept. */
module RegistryRefreshed {
  import opened OrderedMaps
  import opened RegistryCore
  import opened RegistryProtocol
  import opened RegistryHeld

  const ROOMY: Config := Config(5, 1000)
  const STRICTEST: Discipline := Discipline(true, true, true)

  /** One datasource and the call that started it. */
  function At(registry: OrderedMap, inFlight: map<nat, nat>, entries: map<EntryId, Entry>, closed: set<EntryId>,
              init: Init, task: Task, tunnels: set<TunnelId>): State
  {
    State(Core(registry, OrderedMap(if inFlight == map[] then [] else [0], inFlight), {}, true, entries, closed),
          map[0 := init], map[0 := task], map[], map[], tunnels, {})
  }

  // Call 0 holds entry 0. Call 1 comes when the tunnel has become unhealthy.

  function After1(): State {
    At(OrderedMap([], map[]), map[0 := 0], map[], {},
       Init(7, 0, Resolving), Initiating(7), {})
  }

  function After2(): State {
    At(OrderedMap([], map[]), map[0 := 0], map[], {},
       Init(7, 0, Admitted), Initiating(7), {})
  }

  function After3(): State {
    At(OrderedMap([], map[]), map[0 := 0], map[], {},
       Init(7, 0, Connecting(Some(3))), Initiating(7), {3})
  }

  function After4(): State {
    At(OrderedMap([0], map[0 := 0]), map[0 := 0], map[0 := Entry(0, 7, Some(3), 0, 0)], {},
       Init(7, 0, Resolved(0)), Initiating(7), {3})
  }

  function After5(): State {
    At(OrderedMap([0], map[0 := 0]), map[], map[0 := Entry(0, 7, Some(3), 1, 0)], {},
       Init(7, 0, Resolved(0)), Holding(7, 0, 0), {3})
  }

  function After6(): State {
    State(Core(OrderedMap([], map[]), OrderedMap([0], map[0 := 1]), {}, true,
               map[0 := Entry(0, 7, Some(3), 1, 0)], {0}),
          map[0 := Init(7, 0, Resolved(0)), 1 := Init(7, 0, ClosingStale)],
          map[0 := Holding(7, 0, 0), 1 := Initiating(7)], map[], map[], {3}, {})
  }

  lemma Step1()
    ensures Leads(ROOMY, STRICTEST, INITIAL, Call(0, 7, 0, true, 0), After1())
  {
  }

  lemma Step2()
    ensures Leads(ROOMY, STRICTEST, After1(), CheckCapacity(0), After2())
  {
  }

  lemma Step3()
    ensures Leads(ROOMY, STRICTEST, After2(), Phase(0, OpenTunnel(3)), After3())
  {
  }

  lemma Step4()
    ensures Leads(ROOMY, STRICTEST, After3(), Connect(0, 0, 0), After4())
  {
  }

  lemma Step5()
    ensures Leads(ROOMY, STRICTEST, After4(), Resume(0, 0), After5())
  {
  }

  lemma Step6()
    ensures Leads(ROOMY, STRICTEST, After5(), Call(1, 7, 0, false, 1), After6())
  {
  }

  lemma RefreshReachable()
    ensures Reachable(ROOMY, STRICTEST, After6())
  {
    assert Run(ROOMY, STRICTEST, []) == Some(INITIAL);
    Step1();
    Extend(ROOMY, STRICTEST, INITIAL, Call(0, 7, 0, true, 0), After1());
    Step2();
    Extend(ROOMY, STRICTEST, After1(), CheckCapacity(0), After2());
    Step3();
    Extend(ROOMY, STRICTEST, After2(), Phase(0, OpenTunnel(3)), After3());
    Step4();
    Extend(ROOMY, STRICTEST, After3(), Connect(0, 0, 0), After4());
    Step5();
    Extend(ROOMY, STRICTEST, After4(), Resume(0, 0), After5());
    Step6();
    Extend(ROOMY, STRICTEST, After5(), Call(1, 7, 0, false, 1), After6());
  }

  /** After the run call 0 holds entry 0, which is closed. */
  lemma RefreshClosesAHeldEntry()
    ensures var s := After6();
      Reachable(ROOMY, STRICTEST, s) && s.tasks[0] == Holding(7, 0, 0) && 0 in s.core.closed && !HeldOpen(s)
  {
    RefreshReachable();
  }
}
