/** The consistent-hash ring as a function of the order in which the registered nodes were
    enumerated, its lookup specification, and the theorems that make it a consistent hash. */
module HashRing {
  import opened Ordering
  import opened VirtualKeys

  const REPLICAS: nat := 100

  type Hash = h: int | 0 <= h < 0x1_0000_0000
  type HashFn = string -> Hash

  datatype Option<T> = None | Some(value: T)

  datatype CppNode = CppNode(id: int, addr: string, client: nat)

  predicate HashLe(x: Hash, y: Hash) { x <= y }

  lemma HashLeTotal()
    ensures TotalOrder(HashLe)
  {
  }

  function Point(crc: HashFn, id: int, replica: nat): Hash {
    crc(VirtualKey(id, replica))
  }

  /** The first `count` virtual points of a node. */
  function NodePoints(crc: HashFn, id: int, count: nat): seq<Hash> {
    seq(count, i requires 0 <= i < count => Point(crc, id, i))
  }

  function NodeMap(crc: HashFn, id: int, count: nat): map<Hash, int> {
    map h | h in NodePoints(crc, id, count) :: id
  }

  /** The points appended by the rebuild loop when it meets the nodes in this order. */
  function Points(crc: HashFn, order: seq<int>): seq<Hash> {
    if order == [] then []
    else Points(crc, order[..|order| - 1]) + NodePoints(crc, order[|order| - 1], REPLICAS)
  }

  /** The point-to-node map it leaves: on a shared point the later node wins. */
  function RingMapOf(crc: HashFn, order: seq<int>): map<Hash, int> {
    if order == [] then map[]
    else RingMapOf(crc, order[..|order| - 1]) + NodeMap(crc, order[|order| - 1], REPLICAS)
  }

  ghost predicate Owns(crc: HashFn, id: int, h: Hash) {
    h in NodePoints(crc, id, REPLICAS)
  }

  /** No two different nodes share a virtual point. */
  ghost predicate NoCrossCollision(crc: HashFn, ids: set<int>) {
    forall a, b, h :: a in ids && b in ids && Owns(crc, a, h) && Owns(crc, b, h) ==> a == b
  }

  /** `p` is the least point at or after `h`, or, when there is none, the least point of all. */
  ghost predicate IsSuccessor(points: seq<Hash>, h: Hash, p: Hash) {
    && p in points
    && (h <= p || forall q :: q in points ==> q < h)
    && (forall q :: q in points && (h <= p ==> h <= q) ==> p <= q)
  }

  lemma {:induction false} SuccessorExists(points: seq<Hash>, h: Hash)
    requires points != []
    ensures exists p :: IsSuccessor(points, h, p)
  {
    var first := points[0];
    if |points| == 1 {
      assert IsSuccessor(points, h, first);
    } else {
      SuccessorExists(points[1..], h);
      var rest :| IsSuccessor(points[1..], h, rest);
      var p := if (h <= first) == (h <= rest) then (if first <= rest then first else rest)
               else if h <= first then first else rest;
      assert forall q :: q in points <==> q == first || q in points[1..];
      assert IsSuccessor(points, h, p);
    }
  }

  lemma SuccessorUnique(points: seq<Hash>, points': seq<Hash>, h: Hash, p: Hash, p': Hash)
    requires IsSuccessor(points, h, p) && IsSuccessor(points', h, p')
    requires forall q :: q in points <==> q in points'
    ensures p == p'
  {
  }

  ghost function Successor(points: seq<Hash>, h: Hash): (p: Hash)
    requires points != []
    ensures IsSuccessor(points, h, p)
  {
    SuccessorExists(points, h);
    var p :| IsSuccessor(points, h, p);
    p
  }

  lemma {:induction false} PointsMembers(crc: HashFn, order: seq<int>)
    ensures forall h :: h in Points(crc, order) <==> exists id :: id in order && Owns(crc, id, h)
    ensures order != [] ==> Points(crc, order) != []
  {
    if order != [] {
      var init, last := order[..|order| - 1], order[|order| - 1];
      assert order == init + [last];
      PointsMembers(crc, init);
      forall h
        ensures h in Points(crc, order) <==> exists id :: id in order && Owns(crc, id, h)
      {
        if h in Points(crc, init) {
          var id :| id in init && Owns(crc, id, h);
          assert id in order;
        }
        if h in NodePoints(crc, last, REPLICAS) {
          assert last in order && Owns(crc, last, h);
        }
      }
    }
  }

  /** Every point is mapped to a node of the order that owns it, collisions or not. */
  lemma {:induction false} RingMapSound(crc: HashFn, order: seq<int>)
    ensures forall h :: h in RingMapOf(crc, order) <==> h in Points(crc, order)
    ensures forall h :: h in RingMapOf(crc, order) ==>
              RingMapOf(crc, order)[h] in order && Owns(crc, RingMapOf(crc, order)[h], h)
  {
    if order != [] {
      RingMapSound(crc, order[..|order| - 1]);
    }
  }

  lemma {:induction false} PointsConcat(crc: HashFn, a: seq<int>, b: seq<int>)
    ensures Points(crc, a + b) == Points(crc, a) + Points(crc, b)
  {
    if b == [] {
      assert a + b == a;
    } else {
      assert (a + b)[..|a + b| - 1] == a + b[..|b| - 1];
      PointsConcat(crc, a, b[..|b| - 1]);
    }
  }

  lemma PointsSingle(crc: HashFn, id: int)
    ensures Points(crc, [id]) == NodePoints(crc, id, REPLICAS)
  {
    assert [id][..0] == [];
  }

  lemma PointsExtract(crc: HashFn, before: seq<int>, x: int, after: seq<int>)
    ensures multiset(Points(crc, before + [x] + after)) ==
            multiset(Points(crc, before + after)) + multiset(NodePoints(crc, x, REPLICAS))
  {
    PointsConcat(crc, before, after);
    PointsConcat(crc, before + [x], after);
    PointsConcat(crc, before, [x]);
    PointsSingle(crc, x);
  }

  lemma CancelOne(m: multiset<int>, n: multiset<int>, x: int)
    requires m + multiset{x} == n + multiset{x}
    ensures m == n
  {
    assert m == (m + multiset{x}) - multiset{x};
    assert n == (n + multiset{x}) - multiset{x};
  }

  /** The points, counted with multiplicity, depend on the node set alone. */
  lemma {:induction false} PointsOrderIrrelevant(crc: HashFn, a: seq<int>, b: seq<int>)
    requires multiset(a) == multiset(b)
    ensures multiset(Points(crc, a)) == multiset(Points(crc, b))
  {
    assert |multiset(a)| == |a| && |multiset(b)| == |b|;
    if a != [] {
      var init, x := a[..|a| - 1], a[|a| - 1];
      assert a == init + [x] + [];
      assert x in multiset(b);
      var before, after := SplitAt(b, x);
      CancelOne(multiset(init), multiset(before + after), x);
      PointsOrderIrrelevant(crc, init, before + after);
      assert init + [] == init;
      PointsExtract(crc, init, x, []);
      PointsExtract(crc, before, x, after);
    }
  }

  /** The node that answers for hash `h` after a rebuild in this order. */
  ghost function Owner(crc: HashFn, order: seq<int>, h: Hash): (id: int)
    requires order != []
    ensures id in order && Owns(crc, id, Successor(Points(crc, order), h))
  {
    PointsMembers(crc, order);
    RingMapSound(crc, order);
    RingMapOf(crc, order)[Successor(Points(crc, order), h)]
  }

  lemma SuccessorsAgree(crc: HashFn, ids: set<int>, a: seq<int>, b: seq<int>, h: Hash)
    requires IsOrderOf(a, ids) && IsOrderOf(b, ids) && ids != {}
    ensures a != [] && b != []
    ensures Successor(Points(crc, a), h) == Successor(Points(crc, b), h)
  {
    OrderMembers(a, ids);
    OrderMembers(b, ids);
    PointsMembers(crc, a);
    PointsMembers(crc, b);
    SuccessorUnique(Points(crc, a), Points(crc, b), h, Successor(Points(crc, a), h), Successor(Points(crc, b), h));
  }

  /** An answer that does not depend on the map iteration order. */
  ghost predicate OrderIrrelevant(crc: HashFn, ids: set<int>) {
    forall a, b, h :: IsOrderOf(a, ids) && IsOrderOf(b, ids) && a != [] && b != [] ==>
      Owner(crc, a, h) == Owner(crc, b, h)
  }

  lemma OwnerAtOwnPoint(crc: HashFn, order: seq<int>, h: Hash)
    requires order != [] && Owns(crc, order[|order| - 1], h)
    ensures Owner(crc, order, h) == order[|order| - 1]
  {
    var points := Points(crc, order);
    PointsMembers(crc, order);
    assert order[|order| - 1] in order;
    assert IsSuccessor(points, h, h);
    SuccessorUnique(points, points, h, h, Successor(points, h));
  }

  lemma OrderEndingWith(ids: set<int>, last: int) returns (order: seq<int>)
    requires last in ids
    ensures IsOrderOf(order, ids) && order != [] && order[|order| - 1] == last
  {
    var init := OrderExists(ids - {last});
    order := init + [last];
    assert multiset(ids) == multiset(ids - {last}) + multiset{last};
  }

  lemma CollisionExposesOrder(crc: HashFn, ids: set<int>, a: int, b: int, h: Hash)
    requires a in ids && b in ids && a != b && Owns(crc, a, h) && Owns(crc, b, h)
    ensures !OrderIrrelevant(crc, ids)
  {
    var x := OrderEndingWith(ids, a);
    var y := OrderEndingWith(ids, b);
    OwnerAtOwnPoint(crc, x, h);
    OwnerAtOwnPoint(crc, y, h);
    assert Owner(crc, x, h) != Owner(crc, y, h);
  }

  /** Lookups are a function of the node set exactly when no two nodes share a virtual point. */
  lemma OrderIrrelevantIffNoCollision(crc: HashFn, ids: set<int>)
    ensures OrderIrrelevant(crc, ids) <==> NoCrossCollision(crc, ids)
  {
    if NoCrossCollision(crc, ids) {
      forall a, b, h | IsOrderOf(a, ids) && IsOrderOf(b, ids) && a != [] && b != []
        ensures Owner(crc, a, h) == Owner(crc, b, h)
      {
        OrderMembers(a, ids);
        OrderMembers(b, ids);
        SuccessorsAgree(crc, ids, a, b, h);
      }
    } else {
      var a, b, h :| a in ids && b in ids && Owns(crc, a, h) && Owns(crc, b, h) && a != b;
      CollisionExposesOrder(crc, ids, a, b, h);
    }
  }

  /** A shared point is a collision of the hash on two different texts. */
  lemma CollisionComesFromHash(crc: HashFn, a: int, b: int, h: Hash)
    requires a != b && Owns(crc, a, h) && Owns(crc, b, h)
    ensures exists k, l :: k != l && crc(k) == crc(l) == h
  {
    var i :| 0 <= i < REPLICAS && NodePoints(crc, a, REPLICAS)[i] == h;
    var j :| 0 <= j < REPLICAS && NodePoints(crc, b, REPLICAS)[j] == h;
    if VirtualKey(a, i) == VirtualKey(b, j) {
      VirtualKeyInjective(a, i, b, j);
    }
    assert crc(VirtualKey(a, i)) == crc(VirtualKey(b, j)) == h;
  }

  /** Minimal disruption. `before` and `after` are any rebuilds without and with node `id`: the
      owner with `id` present is `id` exactly where the successor is one of its points, and the
      owner without it everywhere else. */
  lemma MinimalDisruption(crc: HashFn, ids: set<int>, id: int, before: seq<int>, after: seq<int>, h: Hash)
    requires id !in ids && ids != {}
    requires IsOrderOf(before, ids) && IsOrderOf(after, ids + {id})
    requires NoCrossCollision(crc, ids + {id})
    ensures before != [] && after != []
    ensures Owner(crc, after, h) ==
            if Owns(crc, id, Successor(Points(crc, after), h)) then id else Owner(crc, before, h)
  {
    OrderMembers(before, ids);
    OrderMembers(after, ids + {id});
    PointsMembers(crc, before);
    PointsMembers(crc, after);
    var p := Successor(Points(crc, after), h);
    if !Owns(crc, id, p) {
      assert forall q :: q in Points(crc, before) ==> q in Points(crc, after);
      assert p in Points(crc, before);
      SuccessorUnique(Points(crc, before), Points(crc, before), h, p, Successor(Points(crc, before), h));
    }
  }

  // ----- histories of the ring -----

  datatype RingState = RingState(nodes: map<int, CppNode>, ring: seq<Hash>, ringMap: map<Hash, int>)

  datatype RingOp = Register(id: int, addr: string, client: nat) | Remove(id: int)

  const EMPTY_RING := RingState(map[], [], map[])

  ghost predicate RebuiltIn(crc: HashFn, st: RingState, order: seq<int>) {
    && IsOrderOf(order, st.nodes.Keys)
    && st.ring == Sort(HashLe, Points(crc, order))
    && st.ringMap == RingMapOf(crc, order)
  }

  /** The ring and its map are those of some enumeration of the registered nodes. */
  ghost predicate Rebuilt(crc: HashFn, st: RingState) {
    exists order :: RebuiltIn(crc, st, order)
  }

  ghost predicate RingStep(crc: HashFn, st: RingState, op: RingOp, st': RingState) {
    match op
    case Register(id, addr, client) =>
      st'.nodes == st.nodes[id := CppNode(id, addr, client)] && Rebuilt(crc, st')
    case Remove(id) =>
      if id in st.nodes then st'.nodes == st.nodes - {id} && Rebuilt(crc, st') else st' == st
  }

  ghost predicate RingRun(crc: HashFn, ops: seq<RingOp>, states: seq<RingState>) {
    && |states| == |ops| + 1
    && states[0] == EMPTY_RING
    && (forall i :: 0 <= i < |ops| ==> RingStep(crc, states[i], ops[i], states[i + 1]))
  }

  /** Which node answers for hash `h`; None when nothing is registered. */
  ghost function Lookup(st: RingState, h: Hash): Option<CppNode> {
    if st.ring == [] then None
    else
      var p := Successor(st.ring, h);
      if p in st.ringMap && st.ringMap[p] in st.nodes then Some(st.nodes[st.ringMap[p]]) else None
  }

  ghost predicate WellNamed(st: RingState) {
    forall id :: id in st.nodes ==> st.nodes[id].id == id
  }

  lemma {:induction false} RunsStayRebuilt(crc: HashFn, ops: seq<RingOp>, states: seq<RingState>, i: nat)
    requires RingRun(crc, ops, states) && i < |states|
    ensures Rebuilt(crc, states[i]) && WellNamed(states[i])
  {
    if i == 0 {
      assert RebuiltIn(crc, EMPTY_RING, []);
    } else {
      RunsStayRebuilt(crc, ops, states, i - 1);
      assert RingStep(crc, states[i - 1], ops[i - 1], states[i]);
    }
  }

  /** The answer of a rebuilt ring: none exactly when no node is registered, otherwise the node,
      always a registered one, that the enumeration order gives for the hash. */
  lemma LookupRefinesOwner(crc: HashFn, st: RingState, order: seq<int>, h: Hash)
    requires RebuiltIn(crc, st, order)
    ensures Lookup(st, h).None? <==> st.nodes == map[]
    ensures order != [] <==> st.nodes != map[]
    ensures order != [] ==> Owner(crc, order, h) in st.nodes && Lookup(st, h) == Some(st.nodes[Owner(crc, order, h)])
  {
    OrderMembers(order, st.nodes.Keys);
    HashLeTotal();
    SortCorrect(HashLe, Points(crc, order));
    assert st.nodes == map[] <==> st.nodes.Keys == {};
    if order != [] {
      PointsMembers(crc, order);
      RingMapSound(crc, order);
      assert forall q :: q in st.ring <==> q in multiset(st.ring);
      assert forall q :: q in Points(crc, order) <==> q in multiset(Points(crc, order));
      SuccessorUnique(st.ring, Points(crc, order), h, Successor(st.ring, h), Successor(Points(crc, order), h));
    }
  }

  /** Any two histories that register the same nodes in the end leave the same sorted ring, and,
      when no two nodes share a point, give the same node for every hash. */
  lemma HistoryIndependence(crc: HashFn, ops: seq<RingOp>, states: seq<RingState>,
                            ops': seq<RingOp>, states': seq<RingState>)
    requires RingRun(crc, ops, states) && RingRun(crc, ops', states')
    requires states[|ops|].nodes.Keys == states'[|ops'|].nodes.Keys
    ensures states[|ops|].ring == states'[|ops'|].ring
    ensures NoCrossCollision(crc, states[|ops|].nodes.Keys) ==>
              forall h :: var a, b := Lookup(states[|ops|], h), Lookup(states'[|ops'|], h);
                a.Some? == b.Some? && (a.Some? ==> a.value.id == b.value.id)
  {
    var st, st' := states[|ops|], states'[|ops'|];
    RunsStayRebuilt(crc, ops, states, |ops|);
    RunsStayRebuilt(crc, ops', states', |ops'|);
    var a :| RebuiltIn(crc, st, a);
    var b :| RebuiltIn(crc, st', b);
    PointsOrderIrrelevant(crc, a, b);
    HashLeTotal();
    SortCorrect(HashLe, Points(crc, a));
    SortCorrect(HashLe, Points(crc, b));
    SortedUnique(HashLe, st.ring, st'.ring);
    OrderIrrelevantIffNoCollision(crc, st.nodes.Keys);
    forall h
      ensures Lookup(st, h).Some? == Lookup(st', h).Some?
      ensures NoCrossCollision(crc, st.nodes.Keys) && Lookup(st, h).Some? ==>
                Lookup(st, h).value.id == Lookup(st', h).value.id
    {
      LookupRefinesOwner(crc, st, a, h);
      LookupRefinesOwner(crc, st', b, h);
      assert st.nodes == map[] <==> st.nodes.Keys == {};
      assert st'.nodes == map[] <==> st'.nodes.Keys == {};
    }
  }

  /** One step of a run disturbs only what it must: a registration of a new node moves hashes
      only to that node, a removal moves only hashes that node answered for, and re-registering
      a known node moves none. */
  lemma StepDisruption(crc: HashFn, st: RingState, op: RingOp, st': RingState, h: Hash)
    requires Rebuilt(crc, st) && WellNamed(st) && RingStep(crc, st, op, st') && WellNamed(st')
    requires NoCrossCollision(crc, st.nodes.Keys + {op.id})
    requires Lookup(st, h).Some? && Lookup(st', h).Some?
    ensures Lookup(st, h).value.id != Lookup(st', h).value.id ==>
              if op.Register? then op.id !in st.nodes && Lookup(st', h).value.id == op.id
              else Lookup(st, h).value.id == op.id
  {
    if op.Register? || op.id in st.nodes {
      var a :| RebuiltIn(crc, st, a);
      var b :| RebuiltIn(crc, st', b);
      LookupRefinesOwner(crc, st, a, h);
      LookupRefinesOwner(crc, st', b, h);
      if op.Register? {
        RegisterMoves(crc, st.nodes.Keys, op.id, a, b, h);
      } else {
        RemoveMoves(crc, st.nodes.Keys, op.id, a, b, h);
      }
    }
  }

  lemma RemoveMoves(crc: HashFn, ids: set<int>, id: int, before: seq<int>, after: seq<int>, h: Hash)
    requires id in ids && ids != {id} && IsOrderOf(before, ids) && IsOrderOf(after, ids - {id})
    requires NoCrossCollision(crc, ids)
    ensures before != [] && after != []
    ensures Owner(crc, before, h) != Owner(crc, after, h) ==> Owner(crc, before, h) == id
  {
    assert ids - {id} + {id} == ids && ids - {id} != {};
    MinimalDisruption(crc, ids - {id}, id, after, before, h);
  }

  lemma RegisterMoves(crc: HashFn, ids: set<int>, id: int, before: seq<int>, after: seq<int>, h: Hash)
    requires ids != {} && IsOrderOf(before, ids) && IsOrderOf(after, ids + {id})
    requires NoCrossCollision(crc, ids + {id})
    ensures before != [] && after != []
    ensures Owner(crc, before, h) != Owner(crc, after, h) ==> id !in ids && Owner(crc, after, h) == id
  {
    OrderMembers(before, ids);
    OrderMembers(after, ids + {id});
    if id in ids {
      assert ids + {id} == ids;
      OrderIrrelevantIffNoCollision(crc, ids);
    } else {
      MinimalDisruption(crc, ids, id, before, after, h);
    }
  }
  // ----- how many points -----

  lemma {:induction false} PointsLength(crc: HashFn, order: seq<int>)
    ensures |Points(crc, order)| == 100 * |order|
  {
    if order != [] {
      PointsLength(crc, order[..|order| - 1]);
    }
  }

  /** The `i`-th point of the `m`-th node. */
  lemma {:induction false} PointAt(crc: HashFn, order: seq<int>, k: nat, m: nat, i: nat)
    requires m < |order| && i < 100 && k == 100 * m + i
    ensures k < |Points(crc, order)| && Points(crc, order)[k] == crc(VirtualKey(order[m], i))
  {
    var init := order[..|order| - 1];
    PointsLength(crc, order);
    PointsLength(crc, init);
    if m < |init| {
      PointAt(crc, init, k, m, i);
      assert Points(crc, order)[k] == Points(crc, init)[k] && init[m] == order[m];
    } else {
      assert Points(crc, order)[k] == NodePoints(crc, order[m], REPLICAS)[i];
    }
  }

  /** Distinct entries make a list an order of its members. */
  lemma {:induction false} DistinctIsOrder(s: seq<Hash>)
    requires forall i, j :: 0 <= i < j < |s| ==> s[i] != s[j]
    ensures IsOrderOf(s, set x | x in s)
  {
    if s != [] {
      var init, last := s[..|s| - 1], s[|s| - 1];
      assert s == init + [last];
      DistinctIsOrder(init);
      SameSet(set x | x in s, (set x | x in init) + {last});
      assert last !in init;
    }
  }

  /** The hash tells all the keys of these nodes apart. */
  ghost predicate TellsApart(crc: HashFn, ids: set<int>) {
    forall a, b, i: nat, j: nat ::
      (a in ids && b in ids && i < 100 && j < 100 && crc(VirtualKey(a, i)) == crc(VirtualKey(b, j))) ==>
        a == b && i == j
  }

  lemma SamePoint(crc: HashFn, ids: set<int>, order: seq<int>, m: nat, i: nat, n: nat, j: nat)
    requires IsOrderOf(order, ids) && TellsApart(crc, ids) && m < |order| && n < |order| && i < 100 && j < 100
    requires crc(VirtualKey(order[m], i)) == crc(VirtualKey(order[n], j))
    ensures m == n && i == j
  {
    OrderMembers(order, ids);
    OrderDistinct(order, ids);
    assert order[m] == order[n];
  }

  lemma SplitIndex(k: nat, count: nat) returns (m: nat, i: nat)
    requires k < 100 * count
    ensures k == 100 * m + i && i < 100 && m < count
  {
    m, i := k / 100, k % 100;
  }

  lemma PointsDiffer(crc: HashFn, ids: set<int>, order: seq<int>, k: nat, l: nat)
    requires IsOrderOf(order, ids) && TellsApart(crc, ids)
    requires k < |Points(crc, order)| && l < |Points(crc, order)| && Points(crc, order)[k] == Points(crc, order)[l]
    ensures k == l
  {
    PointsLength(crc, order);
    var m, i := SplitIndex(k, |order|);
    var n, j := SplitIndex(l, |order|);
    PointAt(crc, order, k, m, i);
    PointAt(crc, order, l, n, j);
    SamePoint(crc, ids, order, m, i, n, j);
  }

  lemma RingCounts(crc: HashFn, st: RingState, order: seq<int>)
    requires RebuiltIn(crc, st, order)
    ensures multiset(st.ring) == multiset(Points(crc, order)) && Sorted(HashLe, st.ring)
    ensures |st.ring| == 100 * |st.nodes|
  {
    OrderMembers(order, st.nodes.Keys);
    PointsLength(crc, order);
    HashLeTotal();
    SortCorrect(HashLe, Points(crc, order));
    assert |multiset(st.ring)| == |st.ring| && |multiset(Points(crc, order))| == |Points(crc, order)|;
    assert |st.nodes| == |st.nodes.Keys|;
  }

  lemma RingHasKey(crc: HashFn, st: RingState, order: seq<int>, id: int, i: nat)
    requires RebuiltIn(crc, st, order) && id in st.nodes && i < 100
    ensures crc(VirtualKey(id, i)) in st.ring
  {
    RingCounts(crc, st, order);
    OrderMembers(order, st.nodes.Keys);
    var m :| 0 <= m < |order| && order[m] == id;
    PointAt(crc, order, 100 * m + i, m, i);
    assert crc(VirtualKey(id, i)) in multiset(Points(crc, order));
  }

  lemma RingAscends(crc: HashFn, st: RingState, order: seq<int>)
    requires RebuiltIn(crc, st, order) && TellsApart(crc, st.nodes.Keys)
    ensures forall i, j :: 0 <= i < j < |st.ring| ==> st.ring[i] < st.ring[j]
  {
    var points := Points(crc, order);
    RingCounts(crc, st, order);
    forall k, l | 0 <= k < |points| && 0 <= l < |points| && points[k] == points[l] ensures k == l {
      PointsDiffer(crc, st.nodes.Keys, order, k, l);
    }
    DistinctIsOrder(points);
    OrderDistinct(st.ring, set x | x in points);
    assert forall i, j :: 0 <= i < j < |st.ring| ==> HashLe(st.ring[i], st.ring[j]) && st.ring[i] != st.ring[j];
  }

  /** The ring has a hundred points for every node: the hashes of its keys "node_<id>_0" to
      "node_<id>_99". When the hash tells the keys apart the points are all different, and the ring
      ascends strictly. */
  lemma RingSize(crc: HashFn, st: RingState)
    requires Rebuilt(crc, st)
    ensures |st.ring| == 100 * |st.nodes|
    ensures forall id, i: nat :: id in st.nodes && i < 100 ==> crc(VirtualKey(id, i)) in st.ring
    ensures TellsApart(crc, st.nodes.Keys) ==> forall i, j :: 0 <= i < j < |st.ring| ==> st.ring[i] < st.ring[j]
  {
    var order :| RebuiltIn(crc, st, order);
    RingCounts(crc, st, order);
    forall id, i: nat | id in st.nodes && i < 100 ensures crc(VirtualKey(id, i)) in st.ring {
      RingHasKey(crc, st, order, id, i);
    }
    if TellsApart(crc, st.nodes.Keys) {
      RingAscends(crc, st, order);
    }
  }
}
