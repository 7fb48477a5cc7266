/** The registry of engine pods as a value: every step of it, its runs, and what they keep. */
module EngineState {
  import opened Ordering
  import opened HashRing

  // configs.CppMaxInstance, the capacity assumed of a pod that has not reported one.
  const DEFAULT_CAPACITY := 10

  datatype NodeVal = NodeVal(addr: string, healthy: bool, conn: Option<nat>, activeRooms: int,
                             cpu: real, maxCapacity: int, serverID: string, failures: nat)

  datatype HeartbeatInfo = HeartbeatInfo(activeRooms: int, cpu: real, maxCapacity: int, serverID: string)

  /** `ring` are the pods the hash ring knows, with the address and client it has for each;
      `reassigns` records, for every call of the room-reassignment callback, the pods as they were
      registered at that moment. */
  datatype Registry = Registry(nodes: map<int, NodeVal>, ring: map<int, CppNode>, replicas: int,
                               maxPodIndex: int, reassigns: seq<map<int, NodeVal>>)

  const BLANK_NODE := NodeVal("", false, None, 0, 0.0, 0, "", 0)

  function Initial(replicas: int): Registry {
    Registry(map[], map[], replicas, replicas - 1, [])
  }

  function Reassign(g: Registry): Registry {
    g.(reassigns := g.reassigns + [g.nodes])
  }

  function Attach(g: Registry, pod: int, addr: string, conn: nat): Registry {
    var node := if pod in g.nodes then g.nodes[pod] else BLANK_NODE;
    g.(nodes := g.nodes[pod := node.(addr := addr, conn := Some(conn), healthy := true)])
  }

  function SetFailures(g: Registry, pod: int, failures: nat): Registry
    requires pod in g.nodes
  {
    g.(nodes := g.nodes[pod := g.nodes[pod].(failures := failures)])
  }

  /** A successful dial: the node gets the connection, the ring learns of the pod, and the failure
      count restarts. */
  function Connect(g: Registry, pod: int, addr: string, conn: nat): Registry {
    var attached := Attach(g, pod, addr, conn);
    SetFailures(attached.(ring := g.ring[pod := CppNode(pod, addr, conn)]), pod, 0)
  }

  function UpdateMax(g: Registry, pod: int): Registry {
    if pod > g.maxPodIndex then g.(maxPodIndex := pod) else g
  }

  /** Deletion tells the ring only when the pod still held a connection. */
  function Delete(g: Registry, pod: int): Registry {
    if pod !in g.nodes then g
    else g.(nodes := g.nodes - {pod},
            ring := if g.nodes[pod].conn.Some? then g.ring - {pod} else g.ring)
  }

  function RecordFailure(g: Registry, pod: int): Registry {
    if pod !in g.nodes then g
    else
      var n := g.nodes[pod].failures + 1;
      var counted := SetFailures(g, pod, n);
      var called := if n > 1 then Reassign(counted) else counted;
      if n >= 2 then Delete(called, pod) else called
  }

  predicate ServerChanged(n: NodeVal, hb: HeartbeatInfo) {
    n.serverID != "" && n.serverID != hb.serverID
  }

  function MarkHealthy(n: NodeVal, hb: HeartbeatInfo): NodeVal {
    n.(healthy := true, activeRooms := hb.activeRooms, cpu := hb.cpu, maxCapacity := hb.maxCapacity,
       serverID := hb.serverID, failures := if ServerChanged(n, hb) then 0 else n.failures)
  }

  /** One heartbeat; `hb` is None when the call failed. */
  function Heartbeat(g: Registry, pod: int, hb: Option<HeartbeatInfo>): Registry {
    if pod !in g.nodes then g
    else
      var n := g.nodes[pod];
      if n.conn.None? || hb.None? then g.(nodes := g.nodes[pod := n.(healthy := false)])
      else
        var marked := g.(nodes := g.nodes[pod := MarkHealthy(n, hb.value)]);
        if ServerChanged(n, hb.value) then Reassign(marked) else marked
  }

  /** `m` is -1 or an element, and no element exceeds it. */
  ghost predicate IsGreatest(s: set<int>, m: int) {
    m >= -1 && (m >= 0 ==> m in s) && forall p :: p in s ==> p <= m
  }

  lemma {:induction false} GreatestExists(s: set<int>)
    ensures exists m :: IsGreatest(s, m)
    decreases s
  {
    if s == {} {
      assert IsGreatest(s, -1);
    } else {
      var x := SomeMember(s);
      GreatestExists(s - {x});
      var m :| IsGreatest(s - {x}, m);
      assert forall p :: p in s ==> p == x || p in s - {x};
      assert IsGreatest(s, if x > m then x else m);
    }
  }

  /** The highest non-negative index of a healthy pod, or -1. */
  ghost function MaxHealthy(nodes: map<int, NodeVal>): (m: int)
    ensures IsGreatest(HealthyPods(nodes), m)
  {
    GreatestExists(HealthyPods(nodes));
    var m :| IsGreatest(HealthyPods(nodes), m);
    m
  }

  ghost function Shrink(g: Registry): Registry {
    var m := MaxHealthy(g.nodes);
    if m < 0 || m + 1 >= g.replicas then g
    else g.(replicas := m + 1, maxPodIndex := if g.maxPodIndex >= m + 1 then m else g.maxPodIndex)
  }

  /** The pods of a list that hold a connection. */
  function Connecting(nodes: map<int, NodeVal>, pods: seq<int>): set<int> {
    set p | p in pods && p in nodes && nodes[p].conn.Some?
  }

  function ConnectedPods(nodes: map<int, NodeVal>): set<int> {
    set p | p in nodes && nodes[p].conn.Some?
  }

  function ShutDown(g: Registry): Registry {
    g.(nodes := map[], ring := g.ring - ConnectedPods(g.nodes))
  }

  lemma ConnectingNext(nodes: map<int, NodeVal>, pods: seq<int>, k: nat)
    requires k < |pods| && pods[k] in nodes
    ensures Connecting(nodes, pods[..k + 1]) ==
            Connecting(nodes, pods[..k]) + if nodes[pods[k]].conn.Some? then {pods[k]} else {}
  {
    assert pods[..k + 1] == pods[..k] + [pods[k]];
  }

  lemma ConnectingAll(nodes: map<int, NodeVal>, order: seq<int>)
    requires IsOrderOf(order, nodes.Keys)
    ensures Connecting(nodes, order) == ConnectedPods(nodes)
  {
    OrderMembers(order, nodes.Keys);
  }

  /** Pods GetStatus lists: the healthy ones, and the others that still hold rooms. */
  function Listed(nodes: map<int, NodeVal>): set<int> {
    set p | p in nodes && (nodes[p].healthy || nodes[p].activeRooms != 0)
  }

  function HealthyPods(nodes: map<int, NodeVal>): set<int> {
    set p | p in nodes && nodes[p].healthy
  }

  /** Unhealthy pods that still hold rooms. */
  function Stranded(nodes: map<int, NodeVal>): set<int> {
    set p | p in nodes && !nodes[p].healthy && nodes[p].activeRooms != 0
  }

  function CheckReassign(g: Registry): Registry {
    if Stranded(g.nodes) == {} then g else Reassign(g)
  }

  // ----- runs -----

  datatype Event =
    | Connected(pod: int, addr: string, conn: nat)
    | Discovered(pod: int, addr: string, conn: nat)
    | FailureRecorded(pod: int)
    | Beat(pod: int, hb: Option<HeartbeatInfo>)
    | Shrunk
    | StatusChecked
    | Stopped

  ghost function Step(g: Registry, e: Event): Registry {
    match e
    case Connected(pod, addr, conn) => Connect(g, pod, addr, conn)
    case Discovered(pod, addr, conn) => UpdateMax(Connect(g, pod, addr, conn), pod)
    case FailureRecorded(pod) => RecordFailure(g, pod)
    case Beat(pod, hb) => Heartbeat(g, pod, hb)
    case Shrunk => Shrink(g)
    case StatusChecked => CheckReassign(g)
    case Stopped => ShutDown(g)
  }

  ghost predicate RegistryRun(replicas: int, events: seq<Event>, states: seq<Registry>) {
    && |states| == |events| + 1
    && states[0] == Initial(replicas)
    && (forall i :: 0 <= i < |events| ==> states[i + 1] == Step(states[i], events[i]))
  }

  /** The ring has for pod `p` the address and the connection of its node. */
  ghost predicate Routed(g: Registry, p: int)
    requires p in g.nodes
  {
    p in g.ring && g.nodes[p].conn.Some? && g.ring[p] == CppNode(p, g.nodes[p].addr, g.nodes[p].conn.value)
  }

  /** The registry and the ring list the same pods, each under its present address and connection,
      and no pod has more than one failure. */
  ghost predicate InStep(g: Registry) {
    && (forall p :: p in g.ring ==> p in g.nodes)
    && (forall p :: p in g.nodes ==> Routed(g, p) && g.nodes[p].failures <= 1)
  }

  lemma StepKeepsInStep(g: Registry, e: Event)
    requires InStep(g)
    ensures InStep(Step(g, e))
  {
    var g' := Step(g, e);
    forall p | p in g'.nodes ensures Routed(g', p) && g'.nodes[p].failures <= 1 {
      assert p in g.nodes ==> Routed(g, p);
    }
  }

  lemma {:induction false} RegistryAndRingAgree(replicas: int, events: seq<Event>, states: seq<Registry>, i: nat)
    requires RegistryRun(replicas, events, states) && i < |states|
    ensures InStep(states[i])
  {
    if i > 0 {
      RegistryAndRingAgree(replicas, events, states, i - 1);
      StepKeepsInStep(states[i - 1], events[i - 1]);
    }
  }

  /** So the nil-connection guard of deletion always lets the ring forget the pod. */
  lemma DeletedPodLeavesRing(g: Registry, pod: int)
    requires InStep(g)
    ensures pod !in Delete(g, pod).ring && pod !in Delete(g, pod).nodes
    ensures Delete(g, pod).ring == g.ring - {pod}
  {
    assert pod in g.nodes ==> Routed(g, pod);
  }

  /** So a ring lookup finds a pod whenever one is registered, never a deleted one, and always with
      the address and the connection the registry has for it now, after any reconnects. */
  lemma LookupsReachLivePods(crc: HashFn, ring: RingState, g: Registry, h: Hash)
    requires Rebuilt(crc, ring) && WellNamed(ring) && ring.nodes == g.ring && InStep(g)
    ensures Lookup(ring, h).None? <==> g.nodes == map[]
    ensures Lookup(ring, h).Some? ==>
              var found := Lookup(ring, h).value;
              && found.id in g.nodes
              && g.nodes[found.id].addr == found.addr && g.nodes[found.id].conn == Some(found.client)
  {
    var order :| RebuiltIn(crc, ring, order);
    LookupRefinesOwner(crc, ring, order, h);
    assert ring.nodes == map[] <==> ring.nodes.Keys == {};
    assert g.nodes == map[] <==> g.nodes.Keys == {};
    forall p ensures p in g.nodes <==> p in ring.nodes {
      assert p in g.nodes ==> Routed(g, p);
    }
    SameSet(g.nodes.Keys, ring.nodes.Keys);
    if order != [] {
      assert Routed(g, Owner(crc, order, h));
    }
  }

  // ----- reconnect accounting -----

  /** An event that clears the failure count of `pod`. */
  ghost predicate Clears(g: Registry, e: Event, pod: int) {
    match e
    case Connected(p, _, _) => p == pod
    case Discovered(p, _, _) => p == pod
    case Beat(p, hb) =>
      p == pod && pod in g.nodes && g.nodes[pod].conn.Some? && hb.Some? && ServerChanged(g.nodes[pod], hb.value)
    case _ => false
  }

  /** Failures reported for `pod` since the last event that cleared them, read off the history. */
  ghost function FailuresSince(events: seq<Event>, states: seq<Registry>, pod: int, i: nat): nat
    requires |states| == |events| + 1 && i < |states|
  {
    if i == 0 then 0
    else if Clears(states[i - 1], events[i - 1], pod) then 0
    else FailuresSince(events, states, pod, i - 1) + if events[i - 1] == FailureRecorded(pod) then 1 else 0
  }

  lemma CounterStep(g: Registry, e: Event, pod: int)
    requires pod in Step(g, e).nodes
    ensures Clears(g, e, pod) ==> Step(g, e).nodes[pod].failures == 0
    ensures !Clears(g, e, pod) ==>
              && pod in g.nodes
              && Step(g, e).nodes[pod].failures == g.nodes[pod].failures + if e == FailureRecorded(pod) then 1 else 0
  {
  }

  lemma {:induction false} CounterMatchesHistory(replicas: int, events: seq<Event>, states: seq<Registry>,
                                                 pod: int, i: nat)
    requires RegistryRun(replicas, events, states) && i < |states|
    ensures pod in states[i].nodes ==> states[i].nodes[pod].failures == FailuresSince(events, states, pod, i) <= 1
  {
    RegistryAndRingAgree(replicas, events, states, i);
    if i > 0 && pod in states[i].nodes {
      CounterMatchesHistory(replicas, events, states, pod, i - 1);
      CounterStep(states[i - 1], events[i - 1], pod);
    }
  }

  /** The pods a failure report hands to the callback: the reported one has its failure counted. */
  function WithFailure(nodes: map<int, NodeVal>, pod: int): map<int, NodeVal>
    requires pod in nodes
  {
    nodes[pod := nodes[pod].(failures := nodes[pod].failures + 1)]
  }

  lemma RemovalStep(g: Registry, e: Event, pod: int)
    requires pod in g.nodes
    ensures pod !in Step(g, e).nodes <==> e.Stopped? || (e == FailureRecorded(pod) && g.nodes[pod].failures >= 1)
    ensures pod !in Step(g, e).nodes && !e.Stopped? ==>
              && Step(g, e).reassigns == g.reassigns + [WithFailure(g.nodes, pod)]
              && Step(g, e).nodes == g.nodes - {pod}
  {
    assert WithFailure(g.nodes, pod) - {pod} == g.nodes - {pod};
  }

  /** A registered pod leaves the registry at step `i` exactly when the server stops or when the
      step reports its second failure since the last clearing event; in the latter case the
      reassignment callback ran in that step, with the pod still registered. */
  lemma RemovedAtSecondFailure(replicas: int, events: seq<Event>, states: seq<Registry>, pod: int, i: nat)
    requires RegistryRun(replicas, events, states) && i < |events|
    requires pod in states[i].nodes
    ensures pod !in states[i + 1].nodes <==>
            events[i].Stopped? ||
            (events[i] == FailureRecorded(pod) && FailuresSince(events, states, pod, i + 1) == 2)
    ensures pod !in states[i + 1].nodes && !events[i].Stopped? ==>
              && states[i + 1].reassigns == states[i].reassigns + [WithFailure(states[i].nodes, pod)]
              && states[i + 1].nodes == states[i].nodes - {pod}
  {
    CounterMatchesHistory(replicas, events, states, pod, i);
    assert states[i + 1] == Step(states[i], events[i]);
    RemovalStep(states[i], events[i], pod);
  }

  // ----- replica bounds -----

  function HashRoom(replicas: int, h: Hash): int {
    h % (if replicas <= 0 then 1 else replicas)
  }

  lemma ReplicaStep(g: Registry, e: Event)
    requires g.maxPodIndex >= g.replicas - 1
    ensures var g' := Step(g, e);
      && g'.replicas <= g.replicas
      && g'.maxPodIndex >= g'.replicas - 1
      && (g.replicas >= 1 ==> g'.replicas >= 1)
      && (g.replicas <= 0 ==> g'.replicas == g.replicas)
      && (g'.replicas != g.replicas ==> g.maxPodIndex >= g'.replicas && g'.maxPodIndex == g'.replicas - 1)
  {
  }

  /** Replica bounds over every run, from any configured count: the count never grows and never
      drops below one, the highest probed index never falls behind it and meets it right after
      every effective shrink (whose inner test therefore always holds), and a room always hashes
      inside it. A count configured at zero or below never changes. */
  lemma {:induction false} ReplicaBounds(replicas: int, events: seq<Event>, states: seq<Registry>, i: nat, h: Hash)
    requires RegistryRun(replicas, events, states) && i < |states|
    ensures states[i].maxPodIndex >= states[i].replicas - 1
    ensures if replicas >= 1 then 1 <= states[i].replicas <= replicas else states[i].replicas == replicas
    ensures i > 0 ==> states[i].replicas <= states[i - 1].replicas
    ensures i > 0 && states[i].replicas != states[i - 1].replicas ==>
              states[i - 1].maxPodIndex >= states[i].replicas == states[i].maxPodIndex + 1
    ensures replicas >= 1 ==> 0 <= HashRoom(states[i].replicas, h) < states[i].replicas
  {
    if i > 0 {
      ReplicaBounds(replicas, events, states, i - 1, h);
      ReplicaStep(states[i - 1], events[i - 1]);
    }
  }

  // ----- placement -----

  function EffectiveCapacity(n: NodeVal): int {
    if n.maxCapacity <= 0 then DEFAULT_CAPACITY else n.maxCapacity
  }

  predicate NotFull(n: NodeVal) {
    n.healthy && n.activeRooms < EffectiveCapacity(n)
  }

  predicate UnderLoad(n: NodeVal) {
    NotFull(n) && n.cpu < 70.0
  }

  function OpenPods(nodes: map<int, NodeVal>): set<int> {
    set p | p in nodes && NotFull(nodes[p])
  }

  function LightPods(nodes: map<int, NodeVal>): set<int> {
    set p | p in nodes && UnderLoad(nodes[p])
  }

  function Candidates(nodes: map<int, NodeVal>): set<int> {
    if LightPods(nodes) != {} then LightPods(nodes) else OpenPods(nodes)
  }

  /** The entry a hash selects among pods in ascending order of index. */
  ghost function Choose(pods: set<int>, h: Hash): (choice: Option<int>)
    ensures choice.None? <==> pods == {}
    ensures choice.Some? ==> choice.value in pods
  {
    IntLeTotal();
    var a := Ascending(IntLe, pods);
    OrderMembers(a, pods);
    if a == [] then None else Some(a[h % |a|])
  }

  /** Sorting the candidates and indexing by the hash chooses as the specification does. */
  method ChooseSorted(candidates: seq<int>, ghost pods: set<int>, h: Hash) returns (choice: Option<int>)
    requires IsOrderOf(candidates, pods)
    ensures choice == Choose(pods, h)
  {
    OrderMembers(candidates, pods);
    IntLeTotal();
    SortOfOrder(IntLe, candidates, pods);
    SortCorrect(IntLe, candidates);
    if |candidates| == 0 {
      return None;
    }
    var sorted := Sort(IntLe, candidates);
    choice := Some(sorted[h % |sorted|]);
  }

  ghost function Preferred(nodes: map<int, NodeVal>, h: Hash): Option<int> {
    Choose(Candidates(nodes), h)
  }

  ghost function NodeForRoom(g: Registry, h: Hash): Option<int> {
    var p := Preferred(g.nodes, h);
    if p.Some? then p
    else if g.replicas <= 0 then None
    else if HashRoom(g.replicas, h) in g.nodes then Some(HashRoom(g.replicas, h))
    else None
  }

  ghost function IsListed(nodes: map<int, NodeVal>): int -> bool {
    p => p in nodes && (nodes[p].healthy || nodes[p].activeRooms != 0)
  }

  ghost function IsHealthy(nodes: map<int, NodeVal>): int -> bool {
    p => p in nodes && nodes[p].healthy
  }

  ghost function IsOpen(nodes: map<int, NodeVal>): int -> bool {
    p => p in nodes && NotFull(nodes[p])
  }

  ghost function IsLight(nodes: map<int, NodeVal>): int -> bool {
    p => p in nodes && UnderLoad(nodes[p])
  }

  /** `statuses` are the snapshots of the pods `listed`. */
  ghost predicate Snapshots(nodes: map<int, NodeVal>, listed: seq<int>, statuses: seq<NodeVal>) {
    |statuses| == |listed| && forall i :: 0 <= i < |listed| ==> listed[i] in nodes && statuses[i] == nodes[listed[i]]
  }

  lemma SnapshotsNext(nodes: map<int, NodeVal>, listed: seq<int>, statuses: seq<NodeVal>, p: int)
    requires p in nodes && Snapshots(nodes, listed, statuses)
    ensures Snapshots(nodes, listed + [p], statuses + [nodes[p]])
  {
  }

  lemma StatusCounts(nodes: map<int, NodeVal>, order: seq<int>)
    requires IsOrderOf(order, nodes.Keys)
    ensures IsOrderOf(Filter(IsListed(nodes), order), Listed(nodes))
    ensures |Filter(IsHealthy(nodes), order)| == |HealthyPods(nodes)|
    ensures |Filter(IsListed(nodes), order)| == |HealthyPods(nodes)| + |Stranded(nodes)|
  {
    FilterOrder(IsListed(nodes), order, nodes.Keys, Listed(nodes));
    FilterOrder(IsHealthy(nodes), order, nodes.Keys, HealthyPods(nodes));
    assert Listed(nodes) == HealthyPods(nodes) + Stranded(nodes);
    assert HealthyPods(nodes) !! Stranded(nodes);
  }

  lemma CandidateOrders(nodes: map<int, NodeVal>, order: seq<int>)
    requires IsOrderOf(order, nodes.Keys)
    ensures IsOrderOf(Filter(IsOpen(nodes), order), OpenPods(nodes))
    ensures IsOrderOf(Filter(IsLight(nodes), order), LightPods(nodes))
    ensures Filter(IsLight(nodes), order) == [] <==> LightPods(nodes) == {}
  {
    FilterOrder(IsOpen(nodes), order, nodes.Keys, OpenPods(nodes));
    FilterOrder(IsLight(nodes), order, nodes.Keys, LightPods(nodes));
  }

  /** A preferred pod exists exactly when some pod is healthy and below its capacity; it is such a
      pod, and a lightly loaded one whenever there is a lightly loaded one. */
  lemma PreferredCorrect(nodes: map<int, NodeVal>, h: Hash)
    ensures Preferred(nodes, h).Some? <==> exists p :: p in nodes && NotFull(nodes[p])
    ensures Preferred(nodes, h).Some? ==>
              var p := Preferred(nodes, h).value;
              && p in nodes && NotFull(nodes[p])
              && ((exists q :: q in nodes && UnderLoad(nodes[q])) ==> nodes[p].cpu < 70.0)
  {
    assert forall p :: p in nodes && UnderLoad(nodes[p]) ==> p in LightPods(nodes);
    assert forall p :: p in nodes && NotFull(nodes[p]) ==> p in OpenPods(nodes);
  }

  /** The same in the figures the pods report: healthy, fewer rooms than the capacity (ten where none
      was reported), and CPU below 70 where some such pod has that. */
  lemma PreferredExactly(nodes: map<int, NodeVal>, h: Hash)
    ensures Preferred(nodes, h).Some? <==>
            exists p :: p in nodes && nodes[p].healthy &&
                        nodes[p].activeRooms < (if nodes[p].maxCapacity <= 0 then 10 else nodes[p].maxCapacity)
    ensures Preferred(nodes, h).Some? ==>
              var p := Preferred(nodes, h).value;
              && p in nodes && nodes[p].healthy
              && nodes[p].activeRooms < (if nodes[p].maxCapacity <= 0 then 10 else nodes[p].maxCapacity)
    ensures Preferred(nodes, h).Some? ==>
              forall q :: q in nodes && nodes[q].healthy && nodes[q].cpu < 70.0 &&
                          nodes[q].activeRooms < (if nodes[q].maxCapacity <= 0 then 10 else nodes[q].maxCapacity) ==>
                nodes[Preferred(nodes, h).value].cpu < 70.0
  {
    PreferredCorrect(nodes, h);
    forall p | p in nodes
      ensures NotFull(nodes[p]) <==>
              nodes[p].healthy &&
              nodes[p].activeRooms < (if nodes[p].maxCapacity <= 0 then 10 else nodes[p].maxCapacity)
    {
    }
  }

  /** Among the equally good pods the hash decides: the chosen one has as many of them below it as the
      hash leaves as remainder. */
  lemma PreferredRank(nodes: map<int, NodeVal>, h: Hash, good: set<int>)
    requires Preferred(nodes, h).Some?
    requires forall p :: p in good <==>
               && p in nodes && nodes[p].healthy
               && nodes[p].activeRooms < (if nodes[p].maxCapacity <= 0 then 10 else nodes[p].maxCapacity)
               && (nodes[Preferred(nodes, h).value].cpu < 70.0 ==> nodes[p].cpu < 70.0)
    ensures |good| > 0 && |set q | q in good && q < Preferred(nodes, h).value| == h % |good|
  {
    var chosen := Preferred(nodes, h).value;
    assert chosen in Candidates(nodes);
    assert LightPods(nodes) == {} ==> chosen !in LightPods(nodes);
    assert UnderLoad(nodes[chosen]) <==> LightPods(nodes) != {};
    forall p: int ensures p in good <==> p in Candidates(nodes) {
      if p in nodes {
        assert p in OpenPods(nodes) <==> NotFull(nodes[p]);
        assert p in LightPods(nodes) <==> UnderLoad(nodes[p]);
      }
    }
    SameSet(good, Candidates(nodes));
    ChoiceRank(good, h);
  }

  /** In ascending order as many elements are below the `k`-th as its position says. */
  lemma RankInOrder(a: seq<int>, pods: set<int>, k: nat)
    requires Sorted(IntLe, a) && IsOrderOf(a, pods) && k < |a|
    ensures |set q | q in pods && q < a[k]| == k
  {
    OrderMembers(a, pods);
    OrderDistinct(a, pods);
    DistinctPrefix(a, k);
    forall q | q in pods ensures q in First(a, k) <==> q < a[k] {
      var i :| 0 <= i < |a| && a[i] == q;
      assert i < k ==> a[..k][i] == q && IntLe(a[i], a[k]);
      assert i > k ==> IntLe(a[k], a[i]);
    }
    SameSet(First(a, k), set q | q in pods && q < a[k]);
  }

  lemma ChoiceRank(pods: set<int>, h: Hash)
    requires pods != {}
    ensures |pods| > 0 && Choose(pods, h).Some?
    ensures |set q | q in pods && q < Choose(pods, h).value| == h % |pods|
  {
    IntLeTotal();
    var a := Ascending(IntLe, pods);
    OrderMembers(a, pods);
    RankInOrder(a, pods, h % |a|);
  }

  ghost function First(a: seq<int>, k: nat): set<int>
    requires k <= |a|
  {
    set q | q in a[..k]
  }

  lemma {:induction false} DistinctPrefix(a: seq<int>, k: nat)
    requires k <= |a| && forall i, j :: 0 <= i < j < |a| ==> a[i] != a[j]
    ensures |First(a, k)| == k
  {
    if k > 0 {
      DistinctPrefix(a, k - 1);
      assert a[..k] == a[..k - 1] + [a[k - 1]];
      SameSet(First(a, k), First(a, k - 1) + {a[k - 1]});
    }
  }

  /** A new room is refused exactly when every pod is full or unhealthy and the hashed pod of the
      configured replicas is not registered (or none is configured). */
  lemma NodeForRoomCorrect(g: Registry, h: Hash)
    ensures NodeForRoom(g, h).Some? ==> NodeForRoom(g, h).value in g.nodes
    ensures NodeForRoom(g, h).None? <==>
            (forall p :: p in g.nodes ==> !NotFull(g.nodes[p])) && (g.replicas <= 0 || h % g.replicas !in g.nodes)
  {
    PreferredCorrect(g.nodes, h);
  }

  /** The same in the figures reported; a pod that can take the room wins over the hashed replica,
      which is the answer only when no pod can. */
  lemma NodeForRoomExactly(g: Registry, h: Hash)
    ensures NodeForRoom(g, h) ==
            if exists p :: p in g.nodes && g.nodes[p].healthy &&
                           g.nodes[p].activeRooms < (if g.nodes[p].maxCapacity <= 0 then 10 else g.nodes[p].maxCapacity)
            then Preferred(g.nodes, h)
            else if g.replicas > 0 && h % g.replicas in g.nodes then Some(h % g.replicas)
            else None
  {
    PreferredExactly(g.nodes, h);
  }
}
