/** The engine connection manager: pods held in a map of objects, kept in step with the ring. */
module EngineManagement {
  import opened Ordering
  import opened HashRing
  import opened NodeManagement
  import opened EngineState

  class EngineNode {
    const podIndex: int
    var addr: string
    var healthy: bool
    var conn: Option<nat>
    var activeRooms: int
    var cpu: real
    var maxCapacity: int
    var serverID: string
    var failures: nat

    function Val(): NodeVal
      reads this
    {
      NodeVal(addr, healthy, conn, activeRooms, cpu, maxCapacity, serverID, failures)
    }

    constructor (podIndex: int)
      ensures this.podIndex == podIndex && Val() == BLANK_NODE
    {
      this.podIndex := podIndex;
      addr, healthy, conn, activeRooms := "", false, None, 0;
      cpu, maxCapacity, serverID, failures := 0.0, 0, "", 0;
    }

    method ReplaceConnection(addr: string, conn: nat) returns (oldConn: Option<nat>)
      modifies this
      ensures oldConn == old(this.conn)
      ensures Val() == old(Val()).(addr := addr, conn := Some(conn), healthy := true)
    {
      oldConn := this.conn;
      this.addr, this.conn, healthy := addr, Some(conn), true;
    }

    method CloseConn() returns (oldConn: Option<nat>)
      modifies this
      ensures oldConn == old(conn)
      ensures Val() == old(Val()).(conn := None)
    {
      oldConn := conn;
      conn := None;
    }

    method MarkHealthy(hb: HeartbeatInfo) returns (changed: bool)
      modifies this
      ensures changed == ServerChanged(old(Val()), hb)
      ensures Val() == EngineState.MarkHealthy(old(Val()), hb)
    {
      changed := serverID != "" && serverID != hb.serverID;
      healthy, activeRooms, cpu, maxCapacity, serverID := true, hb.activeRooms, hb.cpu, hb.maxCapacity, hb.serverID;
      if changed {
        failures := 0;
      }
    }
  }

  class EngineInstance {
    const mgr: NodeManager
    var nodes: map<int, EngineNode>
    var replicas: int
    var maxPodIndex: int

    // The registry as a value, kept up to date by every method.
    ghost var view: Registry
    // The node objects it may change.
    ghost var repr: set<EngineNode>

    constructor (replicas: int, mgr: NodeManager)
      requires mgr.nodes == map[]
      ensures this.mgr == mgr && Valid() && view == Initial(replicas)
    {
      this.mgr := mgr;
      nodes := map[];
      this.replicas, maxPodIndex := replicas, replicas - 1;
      view, repr := Initial(replicas), {};
    }

    ghost predicate Valid()
      reads this, repr, mgr
    {
      && view.nodes.Keys == nodes.Keys
      && (forall p :: p in nodes ==> nodes[p] in repr && nodes[p].podIndex == p && nodes[p].Val() == view.nodes[p])
      && view.ring == mgr.nodes
      && view.replicas == replicas && view.maxPodIndex == maxPodIndex
    }

    /** Finds or creates the pod's node and gives it the new connection. */
    method AttachConnection(pod: int, addr: string, conn: nat)
      requires Valid()
      modifies this`nodes, this`view, this`repr, repr
      ensures Valid() && pod in nodes && fresh(repr - old(repr))
      ensures view == Attach(old(view), pod, addr, conn)
    {
      var node;
      if pod in nodes {
        node := nodes[pod];
      } else {
        node := new EngineNode(pod);
        nodes, repr := nodes[pod := node], repr + {node};
      }
      var oldConn := node.ReplaceConnection(addr, conn);
      view := Attach(view, pod, addr, conn);
    }

    method ResetReconnectFailures(pod: int)
      requires Valid()
      modifies this`view, repr
      ensures Valid()
      ensures view == if pod in nodes then SetFailures(old(view), pod, 0) else old(view)
    {
      if pod in nodes {
        nodes[pod].failures := 0;
        view := SetFailures(view, pod, 0);
      }
    }

    /** Dials a pod; `dial` is the new connection, or None when dialling failed. */
    method ConnectAndRegisterPod(pod: int, addr: string, dial: Option<nat>) returns (ok: bool)
      requires Valid()
      modifies this`nodes, this`view, this`repr, repr, mgr
      ensures old(mgr.Valid()) ==> mgr.Valid()
      ensures Valid() && ok == dial.Some?
      ensures fresh(repr - old(repr))
      ensures view == if dial.Some? then Connect(old(view), pod, addr, dial.value) else old(view)
    {
      if dial.None? {
        return false;
      }
      AttachConnection(pod, addr, dial.value);
      mgr.RegisterNode(pod, addr, dial.value);
      view := view.(ring := mgr.nodes);
      ResetReconnectFailures(pod);
      ok := true;
    }

    method UpdateMaxPodIndex(pod: int)
      requires Valid()
      modifies this`maxPodIndex, this`view
      ensures Valid()
      ensures view == UpdateMax(old(view), pod)
    {
      if pod > maxPodIndex {
        maxPodIndex := pod;
      }
      view := UpdateMax(view, pod);
    }

    /** A pod found by probing: connected, registered, and counted in the highest known index. */
    method AdoptDiscoveredPod(pod: int, addr: string, dial: Option<nat>)
      requires Valid()
      modifies this`nodes, this`maxPodIndex, this`view, this`repr, repr, mgr
      ensures old(mgr.Valid()) ==> mgr.Valid()
      ensures Valid()
      ensures view == if dial.Some? then UpdateMax(Connect(old(view), pod, addr, dial.value), pod) else old(view)
    {
      var ok := ConnectAndRegisterPod(pod, addr, dial);
      if ok {
        UpdateMaxPodIndex(pod);
      }
    }

    /** The callback is represented by what it can observe: the pods as registered when it runs. */
    method TriggerReassignRooms()
      requires Valid()
      modifies this`view
      ensures Valid()
      ensures view == Reassign(old(view))
    {
      view := Reassign(view);
    }

    /** Closes a node's connection; only if there was one does the ring forget the pod. */
    method DropConnection(node: EngineNode, pod: int)
      modifies node, mgr
      ensures old(mgr.Valid()) ==> mgr.Valid()
      ensures node.conn == None
      ensures mgr.nodes == old(mgr.nodes) - if old(node.conn).Some? then {pod} else {}
    {
      var conn := node.CloseConn();
      if conn.Some? {
        mgr.RemoveNode(pod);
      }
    }

    method DeleteNode(pod: int)
      requires Valid()
      modifies this`nodes, this`view, repr, mgr
      ensures old(mgr.Valid()) ==> mgr.Valid()
      ensures Valid()
      ensures view == Delete(old(view), pod)
    {
      if pod !in nodes {
        return;
      }
      var node := nodes[pod];
      nodes := nodes - {pod};
      view := Delete(view, pod);
      DropConnection(node, pod);
    }

    method IncrementReconnectFailures(pod: int) returns (failures: nat)
      requires Valid() && pod in nodes
      modifies this`view, repr
      ensures Valid() && failures == old(view).nodes[pod].failures + 1
      ensures view == SetFailures(old(view), pod, failures)
    {
      nodes[pod].failures := nodes[pod].failures + 1;
      failures := nodes[pod].failures;
      view := SetFailures(view, pod, failures);
    }

    method RecordReconnectFailure(pod: int)
      requires Valid()
      modifies this`nodes, this`view, repr, mgr
      ensures old(mgr.Valid()) ==> mgr.Valid()
      ensures Valid()
      ensures view == RecordFailure(old(view), pod)
    {
      if pod !in nodes {
        return;
      }
      var failures := IncrementReconnectFailures(pod);
      if failures > 1 {
        TriggerReassignRooms();
      }
      if failures >= 2 {
        DeleteNode(pod);
      }
    }

    /** One heartbeat round trip; `reply` is None when the call failed. */
    method CheckSingleNode(pod: int, reply: Option<HeartbeatInfo>) returns (ok: bool)
      requires Valid()
      modifies this`view, repr
      ensures Valid()
      ensures ok <==> pod in nodes && nodes[pod].conn.Some? && reply.Some?
      ensures view == Heartbeat(old(view), pod, reply)
    {
      if pod !in nodes {
        return false;
      }
      var node := nodes[pod];
      if node.conn.None? || reply.None? {
        node.healthy := false;
        view := Heartbeat(view, pod, reply);
        return false;
      }
      var changed := node.MarkHealthy(reply.value);
      view := view.(nodes := view.nodes[pod := EngineState.MarkHealthy(view.nodes[pod], reply.value)]);
      if changed {
        TriggerReassignRooms();
      }
      ok := true;
    }

    method HighestHealthyIndex() returns (maxHealthyIndex: int)
      requires Valid()
      ensures maxHealthyIndex == MaxHealthy(view.nodes)
    {
      var indices := Enumerate(nodes.Keys);
      OrderMembers(indices, nodes.Keys);
      maxHealthyIndex := -1;
      for k := 0 to |indices|
        modifies {}
        invariant maxHealthyIndex >= -1
        invariant maxHealthyIndex >= 0 ==> maxHealthyIndex in nodes && view.nodes[maxHealthyIndex].healthy
        invariant forall i :: 0 <= i < k && view.nodes[indices[i]].healthy ==> indices[i] <= maxHealthyIndex
      {
        var idx := indices[k];
        if nodes[idx].healthy && idx > maxHealthyIndex {
          maxHealthyIndex := idx;
        }
      }
      forall p | p in view.nodes && view.nodes[p].healthy ensures p <= maxHealthyIndex {
        var i :| 0 <= i < |indices| && indices[i] == p;
      }
      assert IsGreatest(HealthyPods(view.nodes), maxHealthyIndex);
    }

    /** Drops the replica count to just above the highest healthy pod. */
    method ShrinkReplicaCountIfNeeded()
      requires Valid()
      modifies this`replicas, this`maxPodIndex, this`view
      ensures Valid()
      ensures view == Shrink(old(view))
    {
      var maxHealthyIndex := HighestHealthyIndex();
      if maxHealthyIndex < 0 {
        return;
      }
      var newReplicas := maxHealthyIndex + 1;
      if newReplicas >= replicas {
        return;
      }
      view := Shrink(view);
      replicas := newReplicas;
      if maxPodIndex >= newReplicas {
        maxPodIndex := newReplicas - 1;
      }
    }

    /** Every listed pod has an object of its own, with the connection the registry has for it. */
    ghost predicate Holds(pods: seq<int>, g: map<int, NodeVal>, from: nat)
      reads this, repr
    {
      forall i :: from <= i < |pods| ==>
        && pods[i] in nodes && nodes[pods[i]] in repr && nodes[pods[i]].podIndex == pods[i]
        && pods[i] in g && nodes[pods[i]].conn == g[pods[i]].conn
    }

    method DropNext(pods: seq<int>, k: nat, ghost g: Registry)
      requires k < |pods| && Holds(pods, g.nodes, k)
      requires forall i, j :: 0 <= i < j < |pods| ==> pods[i] != pods[j]
      requires mgr.nodes == g.ring - Connecting(g.nodes, pods[..k])
      modifies repr, mgr
      ensures old(mgr.Valid()) ==> mgr.Valid()
      ensures Holds(pods, g.nodes, k + 1)
      ensures mgr.nodes == g.ring - Connecting(g.nodes, pods[..k + 1])
    {
      ConnectingNext(g.nodes, pods, k);
      DropConnection(nodes[pods[k]], pods[k]);
    }

    method DropConnections()
      requires Valid()
      modifies repr, mgr
      ensures old(mgr.Valid()) ==> mgr.Valid()
      ensures mgr.nodes == view.ring - ConnectedPods(view.nodes)
    {
      var indices := Enumerate(nodes.Keys);
      OrderMembers(indices, nodes.Keys);
      OrderDistinct(indices, nodes.Keys);
      ghost var g := view;
      forall i | 0 <= i < |indices|
        ensures indices[i] in nodes && nodes[indices[i]] in repr && nodes[indices[i]].podIndex == indices[i]
        ensures indices[i] in g.nodes && nodes[indices[i]].conn == g.nodes[indices[i]].conn
      {
        var p := indices[i];
        assert p in nodes.Keys;
        assert nodes[p].Val() == g.nodes[p];
      }
      for k := 0 to |indices|
        invariant nodes == old(nodes) && repr == old(repr) && Holds(indices, g.nodes, k)
        invariant old(mgr.Valid()) ==> mgr.Valid()
        invariant mgr.nodes == g.ring - Connecting(g.nodes, indices[..k])
      {
        DropNext(indices, k, g);
      }
      assert indices[..|indices|] == indices;
      ConnectingAll(g.nodes, indices);
    }

    /** Closes every connection and forgets every pod. */
    method Shutdown()
      requires Valid()
      modifies this`nodes, this`view, repr, mgr
      ensures old(mgr.Valid()) ==> mgr.Valid()
      ensures Valid()
      ensures view == ShutDown(old(view))
    {
      DropConnections();
      nodes := map[];
      view := ShutDown(view);
    }

    /** The pods exposed by the status, a snapshot of each, and the counts of healthy and unhealthy ones. */
    method GetStatus() returns (listed: seq<int>, statuses: seq<NodeVal>, healthy: nat, unhealthy: nat)
      requires Valid()
      ensures IsOrderOf(listed, Listed(view.nodes))
      ensures |statuses| == |listed|
      ensures forall i :: 0 <= i < |listed| ==> listed[i] in view.nodes && statuses[i] == view.nodes[listed[i]]
      ensures healthy == |HealthyPods(view.nodes)| && unhealthy == |Stranded(view.nodes)|
    {
      var indices := Enumerate(nodes.Keys);
      OrderMembers(indices, nodes.Keys);
      listed, statuses, healthy := [], [], 0;
      ghost var g := view.nodes;
      ghost var isListed, isHealthy := IsListed(g), IsHealthy(g);
      for k := 0 to |indices|
        modifies {}
        invariant listed == Filter(isListed, indices[..k]) && Snapshots(g, listed, statuses)
        invariant healthy == |Filter(isHealthy, indices[..k])|
      {
        FilterNext(isListed, indices, k);
        FilterNext(isHealthy, indices, k);
        var pod := indices[k];
        assert pod in nodes;
        var status := nodes[pod].Val();
        assert status == g[pod];
        if status.healthy || status.activeRooms != 0 {
          if status.healthy {
            healthy := healthy + 1;
          }
          SnapshotsNext(g, listed, statuses, pod);
          listed, statuses := listed + [pod], statuses + [status];
        }
      }
      assert indices[..|indices|] == indices;
      StatusCounts(g, indices);
      unhealthy := |listed| - healthy;
    }

    method CheckAndTriggerReassign()
      requires Valid()
      modifies this`view
      ensures Valid()
      ensures view == CheckReassign(old(view))
    {
      var listed, statuses, healthy, unhealthy := GetStatus();
      assert unhealthy == 0 <==> Stranded(view.nodes) == {};
      if unhealthy > 0 {
        TriggerReassignRooms();
      }
    }

    /** Candidates are gathered in enumeration order and then sorted, so the choice is a function
        of the pod snapshots and the room alone. */
    method PickPreferredNodeForRoom(roomID: string) returns (choice: Option<int>)
      requires Valid()
      ensures choice == Preferred(view.nodes, mgr.crc(roomID))
    {
      var indices := Enumerate(nodes.Keys);
      OrderMembers(indices, nodes.Keys);
      var light: seq<int>, open: seq<int> := [], [];
      ghost var isLight, isOpen := IsLight(view.nodes), IsOpen(view.nodes);
      for k := 0 to |indices|
        modifies {}
        invariant light == Filter(isLight, indices[..k])
        invariant open == Filter(isOpen, indices[..k])
      {
        FilterNext(isLight, indices, k);
        FilterNext(isOpen, indices, k);
        var idx := indices[k];
        var status := nodes[idx].Val();
        if status.healthy {
          var effectiveMax := if status.maxCapacity <= 0 then DEFAULT_CAPACITY else status.maxCapacity;
          if !(effectiveMax > 0 && status.activeRooms >= effectiveMax) {
            open := open + [idx];
            if status.cpu < 70.0 {
              light := light + [idx];
            }
          }
        }
      }
      assert indices[..|indices|] == indices;
      CandidateOrders(view.nodes, indices);
      choice := ChooseSorted(if |light| == 0 then open else light, Candidates(view.nodes), mgr.crc(roomID));
    }

    method GetNodeForRoom(roomID: string) returns (choice: Option<int>)
      requires Valid()
      ensures choice == EngineState.NodeForRoom(view, mgr.crc(roomID))
    {
      choice := PickPreferredNodeForRoom(roomID);
      if choice.Some? {
        return;
      }
      if replicas <= 0 {
        return None;
      }
      var podIndex := HashRoom(replicas, mgr.crc(roomID));
      choice := if podIndex in nodes then Some(podIndex) else None;
    }
  }
}
