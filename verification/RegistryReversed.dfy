/** Without the order of checks the bound on live data sources fails: a concrete run. */
module RegistryReversed {
  import opened OrderedMaps
  import opened RegistryCore
  import opened RegistryProtocol
  import opened RegistryCapacity

  /** One data source may be live. Every assumption but the order of checks is kept. */
  const TINY: Config := Config(1, 1000)
  const UNORDERED: Discipline := Discipline(true, false, true)

  function At(registry: OrderedMap, inFlight: OrderedMap, entries: map<EntryId, Entry>, closed: set<EntryId>,
              inits: map<TaskId, Init>, tasks: map<TaskId, Task>): State
  {
    State(Core(registry, inFlight, {}, true, entries, closed), inits, tasks, map[], map[], {}, {})
  }

  // Datasource 0 is registered and idle; 1 and 2 go in flight in that order and 2 is checked first: it
  // sees a full registry and evicts 0, then 1 sees an empty one and is admitted too.

  function After1(): State {
    At(OrderedMap([], map[]), OrderedMap([0], map[0 := 0]), map[], {},
       map[0 := Init(7, 0, Resolving)],
       map[0 := Initiating(7)])
  }

  function After2(): State {
    At(OrderedMap([], map[]), OrderedMap([0], map[0 := 0]), map[], {},
       map[0 := Init(7, 0, Admitted)],
       map[0 := Initiating(7)])
  }

  function After3(): State {
    At(OrderedMap([], map[]), OrderedMap([0], map[0 := 0]), map[], {},
       map[0 := Init(7, 0, Connecting(None))],
       map[0 := Initiating(7)])
  }

  function After4(): State {
    At(OrderedMap([0], map[0 := 0]), OrderedMap([0], map[0 := 0]), map[0 := Entry(0, 7, None, 0, 0)], {},
       map[0 := Init(7, 0, Resolved(0))],
       map[0 := Initiating(7)])
  }

  function After5(): State {
    At(OrderedMap([0], map[0 := 0]), OrderedMap([], map[]), map[0 := Entry(0, 7, None, 1, 0)], {},
       map[0 := Init(7, 0, Resolved(0))],
       map[0 := Holding(7, 0, 0)])
  }

  function After6(): State {
    At(OrderedMap([0], map[0 := 0]), OrderedMap([], map[]), map[0 := Entry(0, 7, None, 0, 0)], {},
       map[0 := Init(7, 0, Resolved(0))],
       map[])
  }

  function After7(): State {
    At(OrderedMap([0], map[0 := 0]), OrderedMap([1], map[1 := 1]), map[0 := Entry(0, 7, None, 0, 0)], {},
       map[0 := Init(7, 0, Resolved(0)), 1 := Init(7, 1, Resolving)],
       map[1 := Initiating(7)])
  }

  function After8(): State {
    At(OrderedMap([0], map[0 := 0]), OrderedMap([1, 2], map[1 := 1, 2 := 2]), map[0 := Entry(0, 7, None, 0, 0)], {},
       map[0 := Init(7, 0, Resolved(0)), 1 := Init(7, 1, Resolving), 2 := Init(7, 2, Resolving)],
       map[1 := Initiating(7), 2 := Initiating(7)])
  }

  function After9(): State {
    At(OrderedMap([], map[]), OrderedMap([1, 2], map[1 := 1, 2 := 2]), map[0 := Entry(0, 7, None, 0, 0)], {0},
       map[0 := Init(7, 0, Resolved(0)), 1 := Init(7, 1, Resolving), 2 := Init(7, 2, Admitted)],
       map[1 := Initiating(7), 2 := Initiating(7)])
  }

  function After10(): State {
    At(OrderedMap([], map[]), OrderedMap([1, 2], map[1 := 1, 2 := 2]), map[0 := Entry(0, 7, None, 0, 0)], {0},
       map[0 := Init(7, 0, Resolved(0)), 1 := Init(7, 1, Admitted), 2 := Init(7, 2, Admitted)],
       map[1 := Initiating(7), 2 := Initiating(7)])
  }

  lemma Step1()
    ensures Leads(TINY, UNORDERED, INITIAL, Call(0, 7, 0, true, 0), After1())
  {
  }

  lemma Step2()
    ensures Leads(TINY, UNORDERED, After1(), CheckCapacity(0), After2())
  {
  }

  lemma Step3()
    ensures Leads(TINY, UNORDERED, After2(), Phase(0, SkipTunnel), After3())
  {
  }

  lemma Step4()
    ensures Leads(TINY, UNORDERED, After3(), Connect(0, 0, 0), After4())
  {
  }

  lemma Step5()
    ensures Leads(TINY, UNORDERED, After4(), Resume(0, 0), After5())
  {
  }

  lemma Step6()
    ensures Leads(TINY, UNORDERED, After5(), Finish(0, None), After6())
  {
  }

  lemma Step7()
    ensures Leads(TINY, UNORDERED, After6(), Call(1, 7, 1, true, 1), After7())
  {
  }

  lemma Step8()
    ensures Leads(TINY, UNORDERED, After7(), Call(2, 7, 2, true, 1), After8())
  {
  }

  lemma SecondCheckEvicts()
    ensures EnsureCapacity(After8().core, 2, TINY.maxActive) == (Evicts(0), After9().core)
  {
    assert Candidate(After8().core, 1) == Some(0);
  }

  lemma Step9()
    ensures Leads(TINY, UNORDERED, After8(), CheckCapacity(2), After9())
  {
    SecondCheckEvicts();
  }

  lemma Step10()
    ensures Leads(TINY, UNORDERED, After9(), CheckCapacity(1), After10())
  {
  }

  lemma ReversalReachable()
    ensures Reachable(TINY, UNORDERED, After10())
  {
    assert Run(TINY, UNORDERED, []) == Some(INITIAL);
    Step1();
    Extend(TINY, UNORDERED, INITIAL, Call(0, 7, 0, true, 0), After1());
    Step2();
    Extend(TINY, UNORDERED, After1(), CheckCapacity(0), After2());
    Step3();
    Extend(TINY, UNORDERED, After2(), Phase(0, SkipTunnel), After3());
    Step4();
    Extend(TINY, UNORDERED, After3(), Connect(0, 0, 0), After4());
    Step5();
    Extend(TINY, UNORDERED, After4(), Resume(0, 0), After5());
    Step6();
    Extend(TINY, UNORDERED, After5(), Finish(0, None), After6());
    Step7();
    Extend(TINY, UNORDERED, After6(), Call(1, 7, 1, true, 1), After7());
    Step8();
    Extend(TINY, UNORDERED, After7(), Call(2, 7, 2, true, 1), After8());
    Step9();
    Extend(TINY, UNORDERED, After8(), CheckCapacity(2), After9());
    Step10();
    Extend(TINY, UNORDERED, After9(), CheckCapacity(1), After10());
  }

  /** After the run two initialisations are admitted although only one data source may be live. */
  lemma ReversedChecksExceedTheBound()
    ensures Reachable(TINY, UNORDERED, After10())
    ensures |After10().core.registry.values| + |AdmittedInits(After10())| > TINY.maxActive
  {
    ReversalReachable();
    assert AdmittedInits(After10()) == {1, 2};
  }
}
