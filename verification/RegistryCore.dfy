/** The fields of the customer connection manager and what each synchronous segment of its
    methods (the code between two awaits) does to them. */
module RegistryCore {
  import opened OrderedMaps

  type Id = nat        // datasource id
  type Org = nat       // organization id
  type EntryId = nat   // identity of a connection entry object
  type TaskId = nat    // identity of a call in progress
  type TunnelId = nat

  datatype Config = Config(maxActive: nat, idleTimeout: int)

  datatype Entry = Entry(id: Id, org: Org, tunnel: Option<TunnelId>, active: int, lastUsedAt: int)

  /** `entries` holds every entry object ever created; `closed` those handed to closeEntry. An
      in-flight promise is named by the call that started it. */
  datatype Core = Core(
    registry: OrderedMap,
    inFlight: OrderedMap,
    blocked: set<Id>,
    accepting: bool,
    entries: map<EntryId, Entry>,
    closed: set<EntryId>)

  const EMPTY: Core := Core(OrderedMap([], map[]), OrderedMap([], map[]), {}, true, map[], {})

  ghost predicate RegistryKnown(c: Core) {
    forall id :: id in c.registry.values ==> c.registry.values[id] in c.entries
  }

  ghost predicate Wf(c: Core) {
    Proper(c.registry) && Proper(c.inFlight) && RegistryKnown(c)
  }

  /** The entry object with an identity; only identities handed out are ever looked up. */
  function EntryOf(c: Core, e: EntryId): Entry {
    if e in c.entries then c.entries[e] else Entry(0, 0, None, 0, 0)
  }

  datatype Acquired = Refused | Leased(entry: EntryId) | Joins(init: TaskId) | Starts | Refreshes(stale: EntryId)

  function Lease(c: Core, e: EntryId, now: Option<int>): Core {
    var entry := EntryOf(c, e);
    c.(entries := c.entries[e := entry.(active := entry.active + 1,
                                        lastUsedAt := if now.Some? then now.value else entry.lastUsedAt)])
  }

  function Release(c: Core, e: EntryId, now: Option<int>): Core {
    var entry := EntryOf(c, e);
    c.(entries := c.entries[e := entry.(active := entry.active - 1,
                                        lastUsedAt := if now.Some? then now.value else entry.lastUsedAt)])
  }

  /** acquire up to its first await. */
  function Acquire(c: Core, t: TaskId, org: Org, id: Id, healthy: bool, now: int): (Acquired, Core) {
    if !c.accepting || id in c.blocked then (Refused, c)
    else if id in c.registry.values then
      var e := c.registry.values[id];
      if EntryOf(c, e).org != org then (Refused, c)
      else if EntryOf(c, e).tunnel.Some? && !healthy then
        (Refreshes(e),
         c.(registry := Delete(c.registry, id), closed := c.closed + {e}, inFlight := Put(c.inFlight, id, t)))
      else (Leased(e), Lease(c, e, Some(now)))
    else if id in c.inFlight.values then (Joins(c.inFlight.values[id]), c)
    else (Starts, c.(inFlight := Put(c.inFlight, id, t)))
  }

  /** The i-th registered entry. */
  function At(c: Core, i: nat): Entry
    requires i < |c.registry.order|
  {
    EntryOf(c, ValueOf(c.registry, c.registry.order[i]))
  }

  /** Place of the first of the least recently used idle entries among the first n: what
      filtering and a stable sort put in front. */
  function Candidate(c: Core, n: nat): (r: Option<nat>)
    requires n <= |c.registry.order|
    ensures r.None? <==> forall j: nat :: j < n ==> At(c, j).active != 0
    ensures r.Some? ==> r.value < n && At(c, r.value).active == 0
    ensures r.Some? ==> forall j: nat :: j < n && At(c, j).active == 0 ==>
      && At(c, r.value).lastUsedAt <= At(c, j).lastUsedAt
      && (j < r.value ==> At(c, r.value).lastUsedAt < At(c, j).lastUsedAt)
  {
    if n == 0 then None
    else
      var r := Candidate(c, n - 1);
      if At(c, n - 1).active != 0 then r
      else if r.None? || At(c, n - 1).lastUsedAt < At(c, r.value).lastUsedAt then Some(n - 1)
      else r
  }

  datatype Capacity = Room | Evicts(victim: Id) | Exhausted

  function EnsureCapacity(c: Core, id: Id, maxActive: nat): (Capacity, Core) {
    var queuedBefore := Position(c.inFlight.order, id);
    if |c.registry.values| + (if queuedBefore < 0 then 0 else queuedBefore) < maxActive then (Room, c)
    else
      match Candidate(c, |c.registry.order|)
      case None => (Exhausted, c)
      case Some(i) =>
        var victim := c.registry.order[i];
        (Evicts(victim), c.(registry := Delete(c.registry, victim), closed := c.closed + {ValueOf(c.registry, victim)}))
  }

  predicate Stale(entry: Entry, now: int, idleTimeout: int) {
    entry.active == 0 && now - entry.lastUsedAt >= idleTimeout
  }

  /** Registry and closed entries once the idle sweep has passed its first n keys. */
  function SweptTo(c: Core, n: nat, now: int, idleTimeout: int): (OrderedMap, set<EntryId>)
    requires n <= |c.registry.order|
  {
    if n == 0 then (c.registry, c.closed)
    else
      var (m, closed) := SweptTo(c, n - 1, now, idleTimeout);
      var id := c.registry.order[n - 1];
      if Stale(At(c, n - 1), now, idleTimeout) then (Delete(m, id), closed + {ValueOf(c.registry, id)}) else (m, closed)
  }

  function Cleanup(c: Core, now: int, idleTimeout: int): Core {
    var (m, closed) := SweptTo(c, |c.registry.order|, now, idleTimeout);
    c.(registry := m, closed := closed)
  }

  lemma {:induction false} SweptProper(c: Core, n: nat, now: int, idleTimeout: int)
    requires Proper(c.registry) && n <= |c.registry.order|
    ensures var (m, closed) := SweptTo(c, n, now, idleTimeout);
      && Proper(m) && c.closed <= closed && m.values.Keys <= c.registry.values.Keys
  {
    if n > 0 {
      SweptProper(c, n - 1, now, idleTimeout);
      DeleteProper(SweptTo(c, n - 1, now, idleTimeout).0, c.registry.order[n - 1]);
    }
  }

  /** Of one key: the sweep drops it exactly if it has passed it and its entry is stale, and
      then closes that entry. */
  lemma {:induction false} SweptKey(c: Core, n: nat, now: int, idleTimeout: int, id: Id)
    requires n <= |c.registry.order| && id in c.registry.values
    ensures var (m, closed) := SweptTo(c, n, now, idleTimeout);
      && (id in m.values <==>
            !(id in c.registry.order[..n] && Stale(EntryOf(c, c.registry.values[id]), now, idleTimeout)))
      && (id in m.values ==> m.values[id] == c.registry.values[id])
      && (id !in m.values ==> c.registry.values[id] in closed)
  {
    if n > 0 {
      SweptKey(c, n - 1, now, idleTimeout, id);
      assert c.registry.order[..n] == c.registry.order[..n - 1] + [c.registry.order[n - 1]];
    }
  }

  /** What the idle sweep does, key by key. */
  lemma CleanupExactly(c: Core, now: int, idleTimeout: int)
    requires Proper(c.registry)
    ensures var r := Cleanup(c, now, idleTimeout);
      && Proper(r.registry) && c.closed <= r.closed
      && (forall id :: id in r.registry.values <==>
            id in c.registry.values && !Stale(EntryOf(c, c.registry.values[id]), now, idleTimeout))
      && (forall id :: id in r.registry.values ==> r.registry.values[id] == c.registry.values[id])
      && (forall id :: id in c.registry.values && id !in r.registry.values ==> c.registry.values[id] in r.closed)
  {
    var n := |c.registry.order|;
    SweptProper(c, n, now, idleTimeout);
    ListsMembers(c.registry.order, c.registry.values.Keys);
    assert c.registry.order[..n] == c.registry.order;
    forall id | id in c.registry.values { SweptKey(c, n, now, idleTimeout, id); }
  }

  lemma CleanupKey(c: Core, now: int, idleTimeout: int, id: Id)
    requires Proper(c.registry) && id in c.registry.values
    ensures id in Cleanup(c, now, idleTimeout).registry.values
       <==> !Stale(EntryOf(c, c.registry.values[id]), now, idleTimeout)
  {
    var n := |c.registry.order|;
    ListsMembers(c.registry.order, c.registry.values.Keys);
    assert c.registry.order[..n] == c.registry.order;
    SweptKey(c, n, now, idleTimeout, id);
  }

  lemma Listed(c: Core, id: Id) returns (j: nat)
    requires Proper(c.registry) && id in c.registry.values
    ensures j < |c.registry.order| && At(c, j) == EntryOf(c, c.registry.values[id])
  {
    ListsMembers(c.registry.order, c.registry.values.Keys);
    j :| j < |c.registry.order| && c.registry.order[j] == id;
  }

  /** A capacity check that evicts takes an idle entry, and no idle entry was used less recently. */
  lemma EvictsLeastRecent(c: Core, id: Id, maxActive: nat, other: Id)
    requires Proper(c.registry) && EnsureCapacity(c, id, maxActive).0.Evicts?
    ensures var victim := EnsureCapacity(c, id, maxActive).0.victim;
      && victim in c.registry.values
      && EntryOf(c, c.registry.values[victim]).active == 0
      && (other in c.registry.values && EntryOf(c, c.registry.values[other]).active == 0 ==>
            EntryOf(c, c.registry.values[victim]).lastUsedAt <= EntryOf(c, c.registry.values[other]).lastUsedAt)
  {
    var i := Candidate(c, |c.registry.order|).value;
    assert At(c, i).active == 0;
    if other in c.registry.values && EntryOf(c, c.registry.values[other]).active == 0 {
      var j := Listed(c, other);
    }
  }

  function Register(c: Core, id: Id, e: EntryId, org: Org, tunnel: Option<TunnelId>, now: int): Core {
    c.(entries := c.entries[e := Entry(id, org, tunnel, 0, now)], registry := Put(c.registry, id, e))
  }
}
