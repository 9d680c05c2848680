/** Optional values, and the insertion-ordered maps of the host language: `set` on a
    present key keeps the key's place, `set` on a new key appends, `delete` closes the gap. */
module OrderedMaps {

  datatype Option<+T> = None | Some(value: T)

  /** From ids to object identities. */
  datatype OrderedMap = OrderedMap(order: seq<nat>, values: map<nat, nat>)

  /** The sequence lists every key exactly once. */
  ghost predicate Lists(order: seq<nat>, keys: set<nat>) {
    if order == [] then keys == {}
    else order[|order| - 1] in keys && Lists(order[..|order| - 1], keys - {order[|order| - 1]})
  }

  ghost predicate Proper(m: OrderedMap) {
    Lists(m.order, m.values.Keys) && forall i :: 0 <= i < |m.order| ==> m.order[i] in m.values
  }

  function Get(m: OrderedMap, k: nat): Option<nat> {
    if k in m.values then Some(m.values[k]) else None
  }

  /** The value of a key, 0 for an absent one. */
  function ValueOf(m: OrderedMap, k: nat): nat {
    if k in m.values then m.values[k] else 0
  }

  function Put(m: OrderedMap, k: nat, v: nat): OrderedMap {
    OrderedMap(if k in m.values then m.order else m.order + [k], m.values[k := v])
  }

  function Delete(m: OrderedMap, k: nat): OrderedMap {
    OrderedMap(Without(m.order, k), m.values - {k})
  }

  function Without(order: seq<nat>, k: nat): seq<nat> {
    if order == [] then []
    else
      var rest := Without(order[..|order| - 1], k);
      if order[|order| - 1] == k then rest else rest + [order[|order| - 1]]
  }

  /** Place of a key, or -1. */
  function Position(order: seq<nat>, k: nat): (i: int)
    ensures -1 <= i < |order|
    ensures i >= 0 ==> order[i] == k
    ensures i >= 0 <==> k in order
  {
    if order == [] then -1
    else
      var i := Position(order[..|order| - 1], k);
      if i >= 0 then i else if order[|order| - 1] == k then |order| - 1 else -1
  }

  lemma {:induction false} ListsMembers(order: seq<nat>, keys: set<nat>)
    requires Lists(order, keys)
    ensures forall k :: k in order <==> k in keys
    ensures |order| == |keys|
  {
    if order != [] {
      var last, init := order[|order| - 1], order[..|order| - 1];
      ListsMembers(init, keys - {last});
      assert order == init + [last];
    }
  }

  lemma {:induction false} WithoutLists(order: seq<nat>, keys: set<nat>, k: nat)
    requires Lists(order, keys)
    ensures Lists(Without(order, k), keys - {k})
  {
    if order == [] {
      assert keys - {k} == keys;
    } else {
      var last, init := order[|order| - 1], order[..|order| - 1];
      WithoutLists(init, keys - {last}, k);
      var w := Without(init, k);
      if last == k {
        assert keys - {last} - {k} == keys - {k};
      } else {
        assert (w + [last])[..|w|] == w;
        assert keys - {k} - {last} == keys - {last} - {k};
      }
    }
  }

  lemma LastPosition(order: seq<nat>, last: nat, k: nat)
    requires last !in order
    ensures Position(order + [last], k) == if k == last then |order| else Position(order, k)
  {
    assert (order + [last])[..|order|] == order;
  }

  /** Deleting a key keeps the order of the others. */
  lemma {:induction false} WithoutKeepsOrder(order: seq<nat>, keys: set<nat>, k: nat, a: nat, b: nat)
    requires Lists(order, keys) && {a, b} <= keys - {k}
    ensures Position(Without(order, k), a) < Position(Without(order, k), b) <==> Position(order, a) < Position(order, b)
  {
    var last, init := order[|order| - 1], order[..|order| - 1];
    assert order == init + [last];
    ListsMembers(init, keys - {last});
    LastPosition(init, last, a);
    LastPosition(init, last, b);
    WithoutLists(init, keys - {last}, k);
    var w := Without(init, k);
    ListsMembers(w, keys - {last} - {k});
    LastPosition(w, last, a);
    LastPosition(w, last, b);
    if a != last && b != last {
      WithoutKeepsOrder(init, keys - {last}, k, a, b);
    }
  }

  /** The values in the order of the keys. */
  function InOrder(m: OrderedMap): (values: seq<nat>)
    ensures |values| == |m.order|
    ensures forall i :: 0 <= i < |m.order| ==> values[i] == ValueOf(m, m.order[i])
  {
    seq(|m.order|, i requires 0 <= i < |m.order| => ValueOf(m, m.order[i]))
  }

  lemma InOrderIsAll(m: OrderedMap, v: nat)
    requires Proper(m)
    ensures v in InOrder(m) <==> v in m.values.Values
  {
    ListsMembers(m.order, m.values.Keys);
    if v in m.values.Values {
      var k :| k in m.values && m.values[k] == v;
      var i :| 0 <= i < |m.order| && m.order[i] == k;
      assert InOrder(m)[i] == v;
    }
  }

  lemma PutProper(m: OrderedMap, k: nat, v: nat)
    requires Proper(m)
    ensures Proper(Put(m, k, v))
  {
    if k in m.values {
      assert Put(m, k, v).values.Keys == m.values.Keys;
    } else {
      assert (m.order + [k])[..|m.order|] == m.order;
      assert Put(m, k, v).values.Keys - {k} == m.values.Keys;
    }
  }

  lemma DeleteProper(m: OrderedMap, k: nat)
    requires Proper(m)
    ensures Proper(Delete(m, k))
  {
    WithoutLists(m.order, m.values.Keys, k);
    assert Delete(m, k).values.Keys == m.values.Keys - {k};
    ListsMembers(Without(m.order, k), m.values.Keys - {k});
  }
}
