/** The ring kept by the RPC layer: an array of points rebuilt on every change and searched by
    bisection. */
module NodeManagement {
  import opened Ordering
  import opened HashRing

  /** Go's sort.Search on `ring[i] >= h`. */
  method SearchPoint(ring: seq<Hash>, h: Hash) returns (idx: nat)
    requires Sorted(HashLe, ring)
    ensures idx <= |ring|
    ensures forall i :: 0 <= i < idx ==> ring[i] < h
    ensures forall i :: idx <= i < |ring| ==> h <= ring[i]
  {
    var lo, hi := 0, |ring|;
    while lo < hi
      invariant 0 <= lo <= hi <= |ring|
      invariant forall i :: 0 <= i < lo ==> ring[i] < h
      invariant forall i :: hi <= i < |ring| ==> h <= ring[i]
    {
      var mid := (lo + hi) / 2;
      assert forall i :: 0 <= i < mid ==> HashLe(ring[i], ring[mid]);
      assert forall i :: mid < i < |ring| ==> HashLe(ring[mid], ring[i]);
      if h <= ring[mid] {
        hi := mid;
      } else {
        lo := mid + 1;
      }
    }
    idx := lo;
  }

  /** The first point at or after the hash or, when the hash is past the last point, the first of all. */
  predicate Answering(ring: seq<Hash>, h: Hash, p: Hash) {
    && p in ring
    && (h <= p || forall q :: q in ring ==> q < h)
    && (forall q :: q in ring && q < p ==> h <= p && q < h)
  }

  lemma BisectionFindsSuccessor(ring: seq<Hash>, h: Hash, idx: nat)
    requires Sorted(HashLe, ring) && ring != [] && idx <= |ring|
    requires forall i :: 0 <= i < idx ==> ring[i] < h
    requires forall i :: idx <= i < |ring| ==> h <= ring[i]
    ensures ring[if idx == |ring| then 0 else idx] == Successor(ring, h)
  {
    var k := if idx == |ring| then 0 else idx;
    forall q | q in ring && (h <= ring[k] ==> h <= q) ensures ring[k] <= q {
      var i :| 0 <= i < |ring| && ring[i] == q;
      assert k < i ==> HashLe(ring[k], ring[i]);
    }
    assert IsSuccessor(ring, h, ring[k]);
    SuccessorUnique(ring, ring, h, ring[k], Successor(ring, h));
  }

  lemma AppendNone(crc: HashFn, id: int, points: seq<Hash>, owners: map<Hash, int>)
    ensures points == points + NodePoints(crc, id, 0)
    ensures owners == owners + NodeMap(crc, id, 0)
  {
  }

  lemma AppendOne(crc: HashFn, id: int, i: nat, points: seq<Hash>, owners: map<Hash, int>)
    ensures (points + NodePoints(crc, id, i)) + [Point(crc, id, i)] == points + NodePoints(crc, id, i + 1)
    ensures (owners + NodeMap(crc, id, i))[Point(crc, id, i) := id] == owners + NodeMap(crc, id, i + 1)
  {
    assert NodePoints(crc, id, i + 1) == NodePoints(crc, id, i) + [Point(crc, id, i)];
    assert NodeMap(crc, id, i + 1) == NodeMap(crc, id, i)[Point(crc, id, i) := id];
  }

  lemma RingIsOrdered(crc: HashFn, st: RingState, order: seq<int>)
    requires RebuiltIn(crc, st, order)
    ensures Sorted(HashLe, st.ring)
    ensures forall p :: p in st.ring ==> p in st.ringMap && st.ringMap[p] in st.nodes && Owns(crc, st.ringMap[p], p)
  {
    HashLeTotal();
    SortCorrect(HashLe, Points(crc, order));
    RingMapSound(crc, order);
    OrderMembers(order, st.nodes.Keys);
    forall p | p in st.ring ensures p in Points(crc, order) {
      assert p in multiset(st.ring);
    }
  }

  class NodeManager {
    const crc: HashFn
    var nodes: map<int, CppNode>
    var ring: seq<Hash>
    var ringMap: map<Hash, int>

    constructor (crc: HashFn)
      ensures this.crc == crc && State() == EMPTY_RING && Valid()
    {
      this.crc := crc;
      nodes, ring, ringMap := map[], [], map[];
      new;
      assert RebuiltIn(crc, State(), []);
    }

    function State(): RingState
      reads this
    {
      RingState(nodes, ring, ringMap)
    }

    ghost predicate Valid()
      reads this
    {
      Rebuilt(crc, State()) && WellNamed(State())
    }

    /** The inner loop of a rebuild: the virtual points of one node. */
    method AppendNodePoints(id: int)
      modifies this`ring, this`ringMap
      ensures ring == old(ring) + NodePoints(crc, id, REPLICAS)
      ensures ringMap == old(ringMap) + NodeMap(crc, id, REPLICAS)
    {
      AppendNone(crc, id, ring, ringMap);
      for i := 0 to REPLICAS
        invariant ring == old(ring) + NodePoints(crc, id, i)
        invariant ringMap == old(ringMap) + NodeMap(crc, id, i)
      {
        var h := Point(crc, id, i);
        AppendOne(crc, id, i, old(ring), old(ringMap));
        ring, ringMap := ring + [h], ringMap[h := id];
      }
    }

    /** Recomputes every point of every registered node, in whatever order the map yields them. */
    method RebuildRing()
      modifies this`ring, this`ringMap
      ensures Rebuilt(crc, State())
    {
      ring, ringMap := [], map[];
      var order := Enumerate(nodes.Keys);
      for k := 0 to |order|
        invariant ring == Points(crc, order[..k]) && ringMap == RingMapOf(crc, order[..k])
      {
        AppendNodePoints(order[k]);
        assert order[..k + 1][..k] == order[..k];
      }
      assert order[..|order|] == order;
      ring := Sort(HashLe, ring);
      assert RebuiltIn(crc, State(), order);
    }

    method RegisterNode(id: int, addr: string, client: nat)
      modifies this
      ensures old(Valid()) ==> Valid()
      ensures RingStep(crc, old(State()), Register(id, addr, client), State())
      ensures nodes.Keys == old(nodes.Keys) + {id}
    {
      nodes := nodes[id := CppNode(id, addr, client)];
      RebuildRing();
    }

    method RemoveNode(id: int)
      modifies this
      ensures old(Valid()) ==> Valid()
      ensures RingStep(crc, old(State()), Remove(id), State())
      ensures nodes == old(nodes) - {id}
    {
      if id in nodes {
        nodes := nodes - {id};
        RebuildRing();
      }
    }

    /** The lookup by bisection and wrap-around answers as the specification does. */
    method GetNodeByRoomID(roomID: string) returns (node: Option<CppNode>)
      requires Valid()
      ensures node == Lookup(State(), crc(roomID))
      ensures node.None? <==> nodes == map[]
      ensures node.Some? ==> node.value.id in nodes && nodes[node.value.id] == node.value
      ensures node.Some? ==> Owns(crc, node.value.id, Successor(ring, crc(roomID)))
      ensures node.Some? ==> exists p :: Answering(ring, crc(roomID), p) && p in ringMap && ringMap[p] == node.value.id
    {
      ghost var order :| RebuiltIn(crc, State(), order);
      var h := crc(roomID);
      LookupRefinesOwner(crc, State(), order, h);
      RingIsOrdered(crc, State(), order);
      if |ring| == 0 {
        return None;
      }
      var idx := SearchPoint(ring, h);
      BisectionFindsSuccessor(ring, h, idx);
      if idx == |ring| {
        idx := 0;
      }
      node := Some(nodes[ringMap[ring[idx]]]);
    }

    method GetNodeByID(id: int) returns (node: Option<CppNode>)
      ensures node.Some? <==> id in nodes
      ensures node.Some? ==> node.value == nodes[id] && (Valid() ==> node.value.id == id)
    {
      node := if id in nodes then Some(nodes[id]) else None;
    }
  }
}
