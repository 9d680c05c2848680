/** The connection manager object: each method is one synchronous segment, updates the fields in place and is
    proved to do exactly what RegistryCore says of that segment, and to keep every entry's count of active
    operations the number of calls that hold it. */
module ConnectionManagers {
  import opened OrderedMaps
  import opened RegistryCore

  /** The calls that hold an entry. */
  ghost function HoldersOf(holders: map<TaskId, EntryId>, e: EntryId): set<TaskId> {
    set t | t in holders && holders[t] == e
  }

  /** Every entry's count of active operations is the number of calls that hold it. */
  ghost predicate Conserved(entries: map<EntryId, Entry>, holders: map<TaskId, EntryId>) {
    && (forall t :: t in holders ==> holders[t] in entries)
    && (forall e :: e in entries ==> entries[e].active == |HoldersOf(holders, e)|)
  }

  lemma OneMoreHolder(holders: map<TaskId, EntryId>, t: TaskId, e: EntryId, x: EntryId)
    requires t !in holders
    ensures |HoldersOf(holders[t := e], x)| == |HoldersOf(holders, x)| + if x == e then 1 else 0
  {
    if x == e {
      assert HoldersOf(holders[t := e], x) == HoldersOf(holders, x) + {t};
    } else {
      assert HoldersOf(holders[t := e], x) == HoldersOf(holders, x);
    }
  }

  lemma OneHolderLess(holders: map<TaskId, EntryId>, t: TaskId, x: EntryId)
    requires t in holders
    ensures |HoldersOf(holders - {t}, x)| == |HoldersOf(holders, x)| - if x == holders[t] then 1 else 0
  {
    assert (holders - {t})[t := holders[t]] == holders;
    OneMoreHolder(holders - {t}, t, holders[t], x);
  }

  /** Held by no call, and no other entry held by no call was used less recently. */
  ghost predicate LeastRecentUnheld(c: Core, holders: map<TaskId, EntryId>, victim: Id) {
    && victim in c.registry.values && HoldersOf(holders, c.registry.values[victim]) == {}
    && forall id :: id in c.registry.values && HoldersOf(holders, c.registry.values[id]) == {} ==>
         EntryOf(c, c.registry.values[victim]).lastUsedAt <= EntryOf(c, c.registry.values[id]).lastUsedAt
  }

  lemma VictimIsUnheld(c: Core, holders: map<TaskId, EntryId>, id: Id, maxActive: nat)
    requires Wf(c) && Conserved(c.entries, holders) && RegistryCore.EnsureCapacity(c, id, maxActive).0.Evicts?
    ensures LeastRecentUnheld(c, holders, RegistryCore.EnsureCapacity(c, id, maxActive).0.victim)
    ensures Wf(RegistryCore.EnsureCapacity(c, id, maxActive).1)
  {
    var victim := RegistryCore.EnsureCapacity(c, id, maxActive).0.victim;
    EvictsLeastRecent(c, id, maxActive, victim);
    DeleteProper(c.registry, victim);
    assert EntryOf(c, c.registry.values[victim]).active == |HoldersOf(holders, c.registry.values[victim])|;
    forall other | other in c.registry.values && HoldersOf(holders, c.registry.values[other]) == {}
      ensures EntryOf(c, c.registry.values[victim]).lastUsedAt <= EntryOf(c, c.registry.values[other]).lastUsedAt
    {
      EvictsLeastRecent(c, id, maxActive, other);
      assert EntryOf(c, c.registry.values[other]).active == |HoldersOf(holders, c.registry.values[other])|;
    }
  }

  lemma RefreshWf(c: Core, t: TaskId, id: Id, stale: EntryId)
    requires Wf(c)
    ensures Wf(c.(registry := Delete(c.registry, id), closed := c.closed + {stale}, inFlight := Put(c.inFlight, id, t)))
  {
    DeleteProper(c.registry, id);
    PutProper(c.inFlight, id, t);
  }

  lemma EmptiedWf(c: Core)
    requires Wf(c)
    ensures Wf(c.(registry := EMPTY.registry, inFlight := EMPTY.inFlight))
    ensures |c.registry.order| == |c.registry.values|
    ensures forall e :: e in InOrder(c.registry) <==> e in c.registry.values.Values
  {
    ListsMembers(c.registry.order, c.registry.values.Keys);
    forall e { InOrderIsAll(c.registry, e); }
  }

  lemma SweptAreUnheld(c: Core, holders: map<TaskId, EntryId>, now: int, idleTimeout: int)
    requires Wf(c) && Conserved(c.entries, holders)
    ensures forall id :: id in c.registry.values ==>
      (id !in Cleanup(c, now, idleTimeout).registry.values <==>
         HoldersOf(holders, c.registry.values[id]) == {}
         && now - EntryOf(c, c.registry.values[id]).lastUsedAt >= idleTimeout)
  {
    CleanupExactly(c, now, idleTimeout);
    forall id | id in c.registry.values
      ensures Stale(EntryOf(c, c.registry.values[id]), now, idleTimeout) <==>
        HoldersOf(holders, c.registry.values[id]) == {}
        && now - EntryOf(c, c.registry.values[id]).lastUsedAt >= idleTimeout
    {
      assert EntryOf(c, c.registry.values[id]).active == |HoldersOf(holders, c.registry.values[id])|;
    }
  }

  class ConnectionManager {
    const config: Config
    var registry: OrderedMap
    var inFlight: OrderedMap
    var blocked: set<Id>
    var accepting: bool
    var entries: map<EntryId, Entry>
    var closed: set<EntryId>
    ghost var holders: map<TaskId, EntryId>   // calls that were given an entry and have not released it

    ghost function View(): Core
      reads this
    {
      Core(registry, inFlight, blocked, accepting, entries, closed)
    }

    ghost predicate Valid()
      reads this
    {
      Wf(View()) && Conserved(entries, holders)
    }

    constructor (config: Config)
      ensures Valid() && View() == EMPTY && this.config == config && holders == map[]
    {
      this.config, holders := config, map[];
      registry, inFlight, blocked, accepting, entries, closed :=
        OrderedMap([], map[]), OrderedMap([], map[]), {}, true, map[], {};
    }

    method Acquire(t: TaskId, org: Org, id: Id, healthy: bool, now: int) returns (answer: Acquired)
      requires Valid() && t !in holders
      modifies this
      ensures Valid() && holders == if answer.Leased? then old(holders)[t := answer.entry] else old(holders)
      ensures (answer, View()) == RegistryCore.Acquire(old(View()), t, org, id, healthy, now)
    {
      if !accepting || id in blocked {
        return Refused;
      }
      var existing := Get(registry, id);
      if existing.Some? {
        var entry := entries[existing.value];
        if entry.org != org {
          return Refused;
        }
        if entry.tunnel.Some? && !healthy {
          Refresh(t, id, existing.value);
          return Refreshes(existing.value);
        }
        LeaseEntry(t, existing.value, Some(now));
        return Leased(existing.value);
      }
      var pending := Get(inFlight, id);
      if pending.Some? {
        return Joins(pending.value);
      }
      PutProper(inFlight, id, t);
      inFlight := Put(inFlight, id, t);
      return Starts;
    }

    /** A stale entry leaves the registry and is closed, under an in-flight mark. */
    method Refresh(t: TaskId, id: Id, stale: EntryId)
      requires Valid()
      modifies this`registry, this`inFlight, this`closed
      ensures Valid()
      ensures registry == Delete(old(registry), id) && inFlight == Put(old(inFlight), id, t)
      ensures closed == old(closed) + {stale}
    {
      RefreshWf(View(), t, id, stale);
      registry, closed, inFlight := Delete(registry, id), closed + {stale}, Put(inFlight, id, t);
    }

    method EnsureCapacity(id: Id) returns (answer: Capacity)
      requires Valid()
      modifies this`registry, this`closed
      ensures Valid()
      ensures (answer, View()) == RegistryCore.EnsureCapacity(old(View()), id, config.maxActive)
      // The victim is held by no call, and no idle entry was used less recently.
      ensures answer.Evicts? ==> LeastRecentUnheld(old(View()), holders, answer.victim)
    {
      if RegistryCore.EnsureCapacity(View(), id, config.maxActive).0.Evicts? {
        VictimIsUnheld(View(), holders, id, config.maxActive);
      }
      var queuedBefore := Position(inFlight.order, id);
      if |registry.values| + (if queuedBefore < 0 then 0 else queuedBefore) < config.maxActive {
        return Room;
      }
      var best: Option<nat> := None;
      for i := 0 to |registry.order|
        invariant best == Candidate(View(), i)
      {
        var entry := entries[registry.values[registry.order[i]]];
        if entry.active == 0 &&
           (best.None? || entry.lastUsedAt < entries[registry.values[registry.order[best.value]]].lastUsedAt)
        {
          best := Some(i);
        }
      }
      if best.None? {
        return Exhausted;
      }
      var victim := registry.order[best.value];
      closed := closed + {registry.values[victim]};
      registry := Delete(registry, victim);
      return Evicts(victim);
    }

    method CleanupIdleDataSources(now: int)
      requires Valid()
      modifies this`registry, this`closed
      ensures Valid()
      ensures View() == Cleanup(old(View()), now, config.idleTimeout)
      ensures forall id :: id in old(registry).values ==>
        (id !in registry.values <==>
           HoldersOf(holders, old(registry).values[id]) == {}
           && now - EntryOf(old(View()), old(registry).values[id]).lastUsedAt >= config.idleTimeout)
    {
      ghost var was := View();
      var snapshot := registry;
      for i := 0 to |snapshot.order|
        invariant (registry, closed) == SweptTo(was, i, now, config.idleTimeout)
      {
        var id := snapshot.order[i];
        var entry := entries[snapshot.values[id]];
        if entry.active == 0 && now - entry.lastUsedAt >= config.idleTimeout {
          registry := Delete(registry, id);
          closed := closed + {snapshot.values[id]};
        }
      }
      CleanupExactly(was, now, config.idleTimeout);
      SweptAreUnheld(was, holders, now, config.idleTimeout);
    }

    /** Registers the entry a finished initialisation built. */
    method Register(id: Id, e: EntryId, org: Org, tunnel: Option<TunnelId>, now: int)
      requires Valid() && e !in entries
      modifies this`registry, this`entries
      ensures Valid() && HoldersOf(holders, e) == {}
      ensures View() == RegistryCore.Register(old(View()), id, e, org, tunnel, now)
      // One entry per datasource: of the others none is touched, and none is dropped if id was free.
      ensures forall id' :: id' in old(registry).values && id' != id ==>
        id' in registry.values && registry.values[id'] == old(registry).values[id']
      ensures |registry.values| == |old(registry).values| + if id in old(registry).values then 0 else 1
    {
      assert HoldersOf(holders, e) == {};
      entries := entries[e := Entry(id, org, tunnel, 0, now)];
      PutProper(registry, id, e);
      assert id in registry.values ==> registry.values[id := e].Keys == registry.values.Keys;
      registry := Put(registry, id, e);
    }

    /** A call takes an entry; one that started the initialisation itself does not touch its last use. */
    method LeaseEntry(t: TaskId, e: EntryId, now: Option<int>)
      requires Valid() && e in entries && t !in holders
      modifies this`entries, this`holders
      ensures Valid() && holders == old(holders)[t := e]
      ensures View() == Lease(old(View()), e, now)
      ensures entries[e].lastUsedAt == if now.Some? then now.value else old(entries)[e].lastUsedAt
      ensures forall x :: x in old(entries) && x != e ==> x in entries && entries[x] == old(entries)[x]
    {
      var entry := entries[e];
      entry := entry.(active := entry.active + 1);
      if now.Some? {
        entry := entry.(lastUsedAt := now.value);
      }
      forall x { OneMoreHolder(holders, t, e, x); }
      entries, holders := entries[e := entry], holders[t := e];
    }

    /** A call gives its entry back; one that ran an operation touches its last use. */
    method ReleaseEntry(t: TaskId, e: EntryId, now: Option<int>)
      requires Valid() && t in holders && holders[t] == e
      modifies this`entries, this`holders
      ensures Valid() && holders == old(holders) - {t}
      ensures View() == Release(old(View()), e, now)
      ensures entries[e].lastUsedAt == if now.Some? then now.value else old(entries)[e].lastUsedAt
      ensures forall x :: x in old(entries) && x != e ==> x in entries && entries[x] == old(entries)[x]
    {
      var entry := entries[e];
      entry := entry.(active := entry.active - 1);
      if now.Some? {
        entry := entry.(lastUsedAt := now.value);
      }
      forall x { OneHolderLess(holders, t, x); }
      entries, holders := entries[e := entry], holders - {t};
    }

    /** The part of closeAll after every initialisation has settled: all that was registered, in order. */
    method DrainRegistry() returns (drained: seq<EntryId>)
      requires Valid()
      modifies this`registry, this`inFlight
      ensures Valid() && |drained| == |old(registry).values|
      ensures forall e :: e in drained <==> e in old(registry).values.Values
      ensures View() == old(View()).(registry := EMPTY.registry, inFlight := EMPTY.inFlight)
    {
      EmptiedWf(View());
      drained := InOrder(registry);
      registry, inFlight := OrderedMap([], map[]), OrderedMap([], map[]);
    }
  }
}
