/**
 The buffer loop of `finalize`: it walks the buffer map in key order and
 destroys each buffer once.
 */
module Finalization {
  import opened Wayland
  import opened Compositor
  import opened ConnectionLog
  import opened WindowRun
  import opened WindowTheorems

  lemma {:induction false} HasLeast(keys: set<HandlePtr>)
    requires keys != {}
    ensures exists k :: k in keys && forall j :: j in keys ==> k <= j
  {
    var k :| k in keys;
    if keys == {k} {
      assert forall j :: j in keys ==> k <= j;
    } else {
      var rest := keys - {k};
      HasLeast(rest);
      var r :| r in rest && forall j :: j in rest ==> r <= j;
      LeastOfBoth(keys, k, r);
    }
  }

  lemma LeastOfBoth(keys: set<HandlePtr>, k: HandlePtr, r: HandlePtr)
    requires k in keys && r in keys && forall j :: j in keys - {k} ==> r <= j
    ensures var least := if r < k then r else k; least in keys && forall j :: j in keys ==> least <= j
  {
    forall j | j in keys
      ensures (if r < k then r else k) <= j
    {
      assert j == k || j in keys - {k};
    }
  }

  /** The key at which a std::map iteration starts. */
  ghost function LeastKey(keys: set<HandlePtr>): (k: HandlePtr)
    requires keys != {}
    ensures k in keys && forall j :: j in keys ==> k <= j
  {
    HasLeast(keys);
    var k :| k in keys && forall j :: j in keys ==> k <= j;
    k
  }

  /** The buffers of `keys`, in ascending key order. */
  ghost function InKeyOrder(bufferMap: map<HandlePtr, ObjId>, keys: set<HandlePtr>): (order: seq<ObjId>)
    requires keys <= bufferMap.Keys
    ensures |order| == |keys|
    ensures forall b :: b in order <==> exists k :: k in keys && bufferMap[k] == b
    decreases |keys|
  {
    if keys == {} then []
    else
      var k := LeastKey(keys);
      [bufferMap[k]] + InKeyOrder(bufferMap, keys - {k})
  }

  /** The first buffer of the walk, and the rest of it. */
  lemma KeyOrderStep(bufferMap: map<HandlePtr, ObjId>, keys: set<HandlePtr>, k: HandlePtr)
    requires keys <= bufferMap.Keys && k in keys && forall j :: j in keys ==> k <= j
    ensures InKeyOrder(bufferMap, keys) == [bufferMap[k]] + InKeyOrder(bufferMap, keys - {k})
  {
    assert LeastKey(keys) == k;
  }

  /** Of two keys, the buffer of the smaller comes first. */
  lemma {:induction false} SmallerFirst(bufferMap: map<HandlePtr, ObjId>, keys: set<HandlePtr>, p: HandlePtr, q: HandlePtr)
    requires keys <= bufferMap.Keys && p in keys && q in keys && p < q
    ensures var order := InKeyOrder(bufferMap, keys);
      exists i, j :: 0 <= i < j < |order| && order[i] == bufferMap[p] && order[j] == bufferMap[q]
    decreases |keys|
  {
    var k, order := LeastKey(keys), InKeyOrder(bufferMap, keys);
    KeyOrderStep(bufferMap, keys, k);
    var rest := InKeyOrder(bufferMap, keys - {k});
    if p == k {
      assert bufferMap[q] in rest;
      var j :| 0 <= j < |rest| && rest[j] == bufferMap[q];
      assert order[0] == bufferMap[p] && order[j + 1] == bufferMap[q];
    } else {
      SmallerFirst(bufferMap, keys - {k}, p, q);
      var i, j :| 0 <= i < j < |rest| && rest[i] == bufferMap[p] && rest[j] == bufferMap[q];
      assert order[i + 1] == bufferMap[p] && order[j + 1] == bufferMap[q];
    }
  }

  function DestroyCalls(order: seq<ObjId>): seq<Entry> {
    seq(|order|, i requires 0 <= i < |order| => DestroyBuffer(order[i]))
  }

  lemma DestroyCallsSnoc(order: seq<ObjId>, b: ObjId)
    ensures DestroyCalls(order + [b]) == DestroyCalls(order) + [DestroyBuffer(b)]
  {
  }

  predicate Distinct(order: seq<ObjId>) {
    forall i, j :: 0 <= i < j < |order| ==> order[i] != order[j]
  }

  lemma {:induction false} KeyOrderDistinct(bufferMap: map<HandlePtr, ObjId>, keys: set<HandlePtr>)
    requires keys <= bufferMap.Keys
    requires forall p, q :: p in bufferMap && q in bufferMap && bufferMap[p] == bufferMap[q] ==> p == q
    ensures Distinct(InKeyOrder(bufferMap, keys))
    decreases |keys|
  {
    if keys != {} {
      var k := LeastKey(keys);
      KeyOrderDistinct(bufferMap, keys - {k});
      assert bufferMap[k] !in InKeyOrder(bufferMap, keys - {k});
    }
  }

  lemma DestroyEffect(s: Server, b: ObjId)
    requires s.error.None?
    ensures var s' := Apply(s, DestroyBuffer(b));
      && (s'.error.None? <==> b in s.buffers)
      && (b in s.buffers ==> s'.buffers == s.buffers - {b})
  {
  }

  /**
   The compositor accepts a sequence of destructions exactly when it names
   existing buffers and none twice; then exactly those are gone.
   */
  lemma {:induction false} DestroysAccepted(s: Server, order: seq<ObjId>)
    requires s.error.None?
    ensures var s' := ApplyAll(s, DestroyCalls(order));
      && (s'.error.None? <==> Distinct(order) && forall b :: b in order ==> b in s.buffers)
      && (s'.error.None? ==> s'.buffers == map b | b in s.buffers && b !in order :: s.buffers[b])
  {
    hide Apply, ApplyAll, Distinct, DestroyCalls;
    if order == [] {
      NoDestroys(s);
    } else {
      var k := |order| - 1;
      var before, b := order[..k], order[k];
      assert order == before + [b];
      DestroysAccepted(s, before);
      DestroyCallsSnoc(before, b);
      ApplyAllSnoc(s, DestroyCalls(before), DestroyBuffer(b));
      var s1 := ApplyAll(s, DestroyCalls(before));
      DistinctSnoc(before, b);
      if s1.error.None? {
        DestroyEffect(s1, b);
      } else {
        DeadStays(s1, DestroyBuffer(b));
      }
    }
  }

  lemma NoDestroys(s: Server)
    ensures ApplyAll(s, DestroyCalls([])) == s && Distinct([])
  {
    assert DestroyCalls([]) == [];
  }

  lemma DistinctSnoc(before: seq<ObjId>, b: ObjId)
    ensures Distinct(before + [b]) <==> Distinct(before) && b !in before
  {
    var order := before + [b];
    if Distinct(order) {
      forall i, j | 0 <= i < j < |before| ensures before[i] != before[j] {
        assert order[i] != order[j];
      }
      forall i | 0 <= i < |before| ensures before[i] != b {
        assert order[i] != order[|before|];
      }
    }
  }

  lemma DeadStays(s: Server, e: Entry)
    requires s.error.Some?
    ensures Apply(s, e) == s
  {
  }

  /**
   From any state between two pushes, finalize's loop destroys every buffer ever
   created, each exactly once, and leaves none alive.
   */
  lemma FinalizeLeavesNothing(polite: bool, garbage: ObjId, steps: seq<Step>)
    requires Accepted(true, polite, garbage, steps) && Reached(true, polite, garbage, steps).pc.Idle?
    ensures var m := Reached(true, polite, garbage, steps);
      var order := InKeyOrder(m.bufferMap, m.bufferMap.Keys);
      var s' := ApplyAll(m.server, DestroyCalls(order));
      && s'.error.None? && s'.buffers == map[]
      && Distinct(order) && |order| == Creates(m.log)
  {
    hide Apply, Reached, Accepted, Has, First;
    var m := Reached(true, polite, garbage, steps);
    LiveBuffersAreTheMap(polite, garbage, steps);
    LogAccounts(true, polite, garbage, steps);
    var order := InKeyOrder(m.bufferMap, m.bufferMap.Keys);
    KeyOrderDistinct(m.bufferMap, m.bufferMap.Keys);
    DestroysAccepted(m.server, order);
    assert forall b :: b in order <==> b in m.server.buffers;
  }
}
