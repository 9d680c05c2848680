/** Overlapping invalidations of one datasource lose an entry: a concrete run. */
module RegistryOverlap {
  import opened OrderedMaps
  import opened RegistryCore
  import opened RegistryProtocol
  import opened RegistryLeaks

  const ANY_SIZE: Config := Config(5, 1000)
  const OVERLAPPING: Discipline := Discipline(true, true, false)

  function At(registry: OrderedMap, inFlight: OrderedMap, blocked: set<Id>, entries: map<EntryId, Entry>,
              closed: set<EntryId>, inits: map<TaskId, Init>, tasks: map<TaskId, Task>,
              invals: map<TaskId, Invalidation>): State
  {
    State(Core(registry, inFlight, blocked, true, entries, closed), inits, tasks, invals, map[], {}, {})
  }

  // Two invalidations wait for entry 0 to be idle. The first closes it and unblocks the datasource,
  // which is then connected again as entry 1; the second takes entry 1 out of the registry and closes
  // entry 0 once more.

  function After1(): State {
    At(OrderedMap([], map[]), OrderedMap([0], map[0 := 0]), {},
       map[], {},
       map[0 := Init(7, 0, Resolving)], map[0 := Initiating(7)],
       map[])
  }

  function After2(): State {
    At(OrderedMap([], map[]), OrderedMap([0], map[0 := 0]), {},
       map[], {},
       map[0 := Init(7, 0, Admitted)], map[0 := Initiating(7)],
       map[])
  }

  function After3(): State {
    At(OrderedMap([], map[]), OrderedMap([0], map[0 := 0]), {},
       map[], {},
       map[0 := Init(7, 0, Connecting(None))], map[0 := Initiating(7)],
       map[])
  }

  function After4(): State {
    At(OrderedMap([0], map[0 := 0]), OrderedMap([0], map[0 := 0]), {},
       map[0 := Entry(0, 7, None, 0, 0)], {},
       map[0 := Init(7, 0, Resolved(0))], map[0 := Initiating(7)],
       map[])
  }

  function After5(): State {
    At(OrderedMap([0], map[0 := 0]), OrderedMap([], map[]), {},
       map[0 := Entry(0, 7, None, 1, 0)], {},
       map[0 := Init(7, 0, Resolved(0))], map[0 := Holding(7, 0, 0)],
       map[])
  }

  function After6(): State {
    At(OrderedMap([0], map[0 := 0]), OrderedMap([], map[]), {},
       map[0 := Entry(0, 7, None, 0, 0)], {},
       map[0 := Init(7, 0, Resolved(0))], map[],
       map[])
  }

  function After7(): State {
    At(OrderedMap([0], map[0 := 0]), OrderedMap([], map[]), {0},
       map[0 := Entry(0, 7, None, 0, 0)], {},
       map[0 := Init(7, 0, Resolved(0))], map[],
       map[1 := AwaitingInit(0, None)])
  }

  function After8(): State {
    At(OrderedMap([0], map[0 := 0]), OrderedMap([], map[]), {0},
       map[0 := Entry(0, 7, None, 0, 0)], {},
       map[0 := Init(7, 0, Resolved(0))], map[],
       map[1 := WaitingIdle(0, 0)])
  }

  function After9(): State {
    At(OrderedMap([0], map[0 := 0]), OrderedMap([], map[]), {0},
       map[0 := Entry(0, 7, None, 0, 0)], {},
       map[0 := Init(7, 0, Resolved(0))], map[],
       map[1 := WaitingIdle(0, 0), 2 := AwaitingInit(0, None)])
  }

  function After10(): State {
    At(OrderedMap([0], map[0 := 0]), OrderedMap([], map[]), {0},
       map[0 := Entry(0, 7, None, 0, 0)], {},
       map[0 := Init(7, 0, Resolved(0))], map[],
       map[1 := WaitingIdle(0, 0), 2 := WaitingIdle(0, 0)])
  }

  function After11(): State {
    At(OrderedMap([], map[]), OrderedMap([], map[]), {0},
       map[0 := Entry(0, 7, None, 0, 0)], {0},
       map[0 := Init(7, 0, Resolved(0))], map[],
       map[1 := ClosingEntry(0), 2 := WaitingIdle(0, 0)])
  }

  function After12(): State {
    At(OrderedMap([], map[]), OrderedMap([], map[]), {},
       map[0 := Entry(0, 7, None, 0, 0)], {0},
       map[0 := Init(7, 0, Resolved(0))], map[],
       map[2 := WaitingIdle(0, 0)])
  }

  function After13(): State {
    At(OrderedMap([], map[]), OrderedMap([0], map[0 := 1]), {},
       map[0 := Entry(0, 7, None, 0, 0)], {0},
       map[0 := Init(7, 0, Resolved(0)), 1 := Init(7, 0, Resolving)], map[1 := Initiating(7)],
       map[2 := WaitingIdle(0, 0)])
  }

  function After14(): State {
    At(OrderedMap([], map[]), OrderedMap([0], map[0 := 1]), {},
       map[0 := Entry(0, 7, None, 0, 0)], {0},
       map[0 := Init(7, 0, Resolved(0)), 1 := Init(7, 0, Admitted)], map[1 := Initiating(7)],
       map[2 := WaitingIdle(0, 0)])
  }

  function After15(): State {
    At(OrderedMap([], map[]), OrderedMap([0], map[0 := 1]), {},
       map[0 := Entry(0, 7, None, 0, 0)], {0},
       map[0 := Init(7, 0, Resolved(0)), 1 := Init(7, 0, Connecting(None))], map[1 := Initiating(7)],
       map[2 := WaitingIdle(0, 0)])
  }

  function After16(): State {
    At(OrderedMap([0], map[0 := 1]), OrderedMap([0], map[0 := 1]), {},
       map[0 := Entry(0, 7, None, 0, 0), 1 := Entry(0, 7, None, 0, 0)], {0},
       map[0 := Init(7, 0, Resolved(0)), 1 := Init(7, 0, Resolved(1))], map[1 := Initiating(7)],
       map[2 := WaitingIdle(0, 0)])
  }

  function After17(): State {
    At(OrderedMap([0], map[0 := 1]), OrderedMap([], map[]), {},
       map[0 := Entry(0, 7, None, 0, 0), 1 := Entry(0, 7, None, 1, 0)], {0},
       map[0 := Init(7, 0, Resolved(0)), 1 := Init(7, 0, Resolved(1))], map[1 := Holding(7, 0, 1)],
       map[2 := WaitingIdle(0, 0)])
  }

  function After18(): State {
    At(OrderedMap([0], map[0 := 1]), OrderedMap([], map[]), {},
       map[0 := Entry(0, 7, None, 0, 0), 1 := Entry(0, 7, None, 0, 0)], {0},
       map[0 := Init(7, 0, Resolved(0)), 1 := Init(7, 0, Resolved(1))], map[],
       map[2 := WaitingIdle(0, 0)])
  }

  function After19(): State {
    At(OrderedMap([], map[]), OrderedMap([], map[]), {},
       map[0 := Entry(0, 7, None, 0, 0), 1 := Entry(0, 7, None, 0, 0)], {0},
       map[0 := Init(7, 0, Resolved(0)), 1 := Init(7, 0, Resolved(1))], map[],
       map[2 := ClosingEntry(0)])
  }

  lemma Step1()
    ensures Leads(ANY_SIZE, OVERLAPPING, INITIAL, Call(0, 7, 0, true, 0), After1())
  {
  }

  lemma Step2()
    ensures Leads(ANY_SIZE, OVERLAPPING, After1(), CheckCapacity(0), After2())
  {
  }

  lemma Step3()
    ensures Leads(ANY_SIZE, OVERLAPPING, After2(), Phase(0, SkipTunnel), After3())
  {
  }

  lemma Step4()
    ensures Leads(ANY_SIZE, OVERLAPPING, After3(), Connect(0, 0, 0), After4())
  {
  }

  lemma Step5()
    ensures Leads(ANY_SIZE, OVERLAPPING, After4(), Resume(0, 0), After5())
  {
  }

  lemma Step6()
    ensures Leads(ANY_SIZE, OVERLAPPING, After5(), Finish(0, None), After6())
  {
  }

  lemma Step7()
    ensures Leads(ANY_SIZE, OVERLAPPING, After6(), Closing(Invalidate(1, 0)), After7())
  {
  }

  lemma Step8()
    ensures Leads(ANY_SIZE, OVERLAPPING, After7(), Closing(InvalidateProceeds(1)), After8())
  {
  }

  lemma Step9()
    ensures Leads(ANY_SIZE, OVERLAPPING, After8(), Closing(Invalidate(2, 0)), After9())
  {
  }

  lemma Step10()
    ensures Leads(ANY_SIZE, OVERLAPPING, After9(), Closing(InvalidateProceeds(2)), After10())
  {
  }

  lemma Step11()
    ensures Leads(ANY_SIZE, OVERLAPPING, After10(), Closing(InvalidateCloses(1)), After11())
  {
  }

  lemma Step12()
    ensures Leads(ANY_SIZE, OVERLAPPING, After11(), Closing(InvalidateDone(1)), After12())
  {
  }

  lemma Step13()
    ensures Leads(ANY_SIZE, OVERLAPPING, After12(), Call(1, 7, 0, true, 0), After13())
  {
  }

  lemma Step14()
    ensures Leads(ANY_SIZE, OVERLAPPING, After13(), CheckCapacity(1), After14())
  {
  }

  lemma Step15()
    ensures Leads(ANY_SIZE, OVERLAPPING, After14(), Phase(1, SkipTunnel), After15())
  {
  }

  lemma Step16()
    ensures Leads(ANY_SIZE, OVERLAPPING, After15(), Connect(1, 1, 0), After16())
  {
  }

  lemma Step17()
    ensures Leads(ANY_SIZE, OVERLAPPING, After16(), Resume(1, 0), After17())
  {
  }

  lemma Step18()
    ensures Leads(ANY_SIZE, OVERLAPPING, After17(), Finish(1, None), After18())
  {
  }

  lemma Step19()
    ensures Leads(ANY_SIZE, OVERLAPPING, After18(), Closing(InvalidateCloses(2)), After19())
  {
  }

  lemma OverlapReachable()
    ensures Reachable(ANY_SIZE, OVERLAPPING, After19())
  {
    assert Run(ANY_SIZE, OVERLAPPING, []) == Some(INITIAL);
    Step1();
    Extend(ANY_SIZE, OVERLAPPING, INITIAL, Call(0, 7, 0, true, 0), After1());
    Step2();
    Extend(ANY_SIZE, OVERLAPPING, After1(), CheckCapacity(0), After2());
    Step3();
    Extend(ANY_SIZE, OVERLAPPING, After2(), Phase(0, SkipTunnel), After3());
    Step4();
    Extend(ANY_SIZE, OVERLAPPING, After3(), Connect(0, 0, 0), After4());
    Step5();
    Extend(ANY_SIZE, OVERLAPPING, After4(), Resume(0, 0), After5());
    Step6();
    Extend(ANY_SIZE, OVERLAPPING, After5(), Finish(0, None), After6());
    Step7();
    Extend(ANY_SIZE, OVERLAPPING, After6(), Closing(Invalidate(1, 0)), After7());
    Step8();
    Extend(ANY_SIZE, OVERLAPPING, After7(), Closing(InvalidateProceeds(1)), After8());
    Step9();
    Extend(ANY_SIZE, OVERLAPPING, After8(), Closing(Invalidate(2, 0)), After9());
    Step10();
    Extend(ANY_SIZE, OVERLAPPING, After9(), Closing(InvalidateProceeds(2)), After10());
    Step11();
    Extend(ANY_SIZE, OVERLAPPING, After10(), Closing(InvalidateCloses(1)), After11());
    Step12();
    Extend(ANY_SIZE, OVERLAPPING, After11(), Closing(InvalidateDone(1)), After12());
    Step13();
    Extend(ANY_SIZE, OVERLAPPING, After12(), Call(1, 7, 0, true, 0), After13());
    Step14();
    Extend(ANY_SIZE, OVERLAPPING, After13(), CheckCapacity(1), After14());
    Step15();
    Extend(ANY_SIZE, OVERLAPPING, After14(), Phase(1, SkipTunnel), After15());
    Step16();
    Extend(ANY_SIZE, OVERLAPPING, After15(), Connect(1, 1, 0), After16());
    Step17();
    Extend(ANY_SIZE, OVERLAPPING, After16(), Resume(1, 0), After17());
    Step18();
    Extend(ANY_SIZE, OVERLAPPING, After17(), Finish(1, None), After18());
    Step19();
    Extend(ANY_SIZE, OVERLAPPING, After18(), Closing(InvalidateCloses(2)), After19());
  }

  lemma OverlappingInvalidationsLoseAnEntry()
    ensures Reachable(ANY_SIZE, OVERLAPPING, After19()) && !NoneLost(After19())
  {
    OverlapReachable();
    assert !Accounted(After19(), 1);
  }
}
