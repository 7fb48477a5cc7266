/** The registry and the room table together: whether the failover run that the second reconnect
    failure of a pod triggers takes care of the rooms on that pod before the pod is deleted. */
module NodeCleanup {
  import opened HashRing
  import opened EngineState
  import opened RoomState
  import opened Failover

  /** The snapshot of the room can be read and names another server than its pod's. */
  predicate NamesOtherServer(c: Cluster, t: Table, id: string, probe: bool)
    requires Refers(t) && id in t.rooms
  {
    var node := t.roomData[t.rooms[id]].nodeID;
    c.hasStore && Loads(t, id, probe) && node in c.nodes &&
    t.store[id].serverID != "" && t.store[id].serverID != c.nodes[node].serverID
  }

  /** The registry as the callback sees it when `pod` has failed once more. */
  function AtCallback(nodes: map<int, NodeVal>, pod: int, hasStore: bool): Cluster
    requires pod in nodes
  {
    Cluster(true, WithFailure(nodes, pod), hasStore)
  }

  lemma CountingKeepsHealth(nodes: map<int, NodeVal>, pod: int)
    requires pod in nodes
    ensures HealthyPods(WithFailure(nodes, pod)) == HealthyPods(nodes)
  {
  }

  /** A playing room on the pod is targeted, and then migrated to a pod that stays or counted as
      skipped, exactly when some pod is healthy and the pod is unhealthy or the snapshot names
      another server. */
  lemma RoomOnFailingPod(crc: HashFn, nodes: map<int, NodeVal>, pod: int, hasStore: bool, o: Oracle, t: Table,
                         id: string)
    requires pod in nodes && Keyed(t) && id in t.rooms
    requires t.roomData[t.rooms[id]].status == Playing && t.roomData[t.rooms[id]].nodeID == pod
    ensures var c := AtCallback(nodes, pod, hasStore);
            var node := FailoverRun(crc, c, o, t).roomData[t.rooms[id]].nodeID;
            var skipped := id in SkippedOf(crc, c, o, t, Targets(c, o, t));
      && (node in nodes - {pod} || skipped <==>
            HealthyPods(nodes) != {} && (!nodes[pod].healthy || NamesOtherServer(c, t, id, o(id).probe)))
      && !(node in nodes - {pod} && skipped)
      && (node !in nodes - {pod} ==> node == pod)
  {
    var c := AtCallback(nodes, pod, hasStore);
    CountingKeepsHealth(nodes, pod);
    assert t.roomData[t.rooms[id]].id == id;
    assert pod in HealthyPods(c.nodes) <==> nodes[pod].healthy;
    assert id in Targets(c, o, t) <==> Targeted(c, t, id, o(id).probe);
    if FateOf(crc, c, o, t, id).Migrated? {
      FateIsSound(crc, c, o, t, id);
    }
  }

  /** Migration before cleanup, over every run of the registry: when a pod leaves at step `i` for its
      second failure, the failover over the registry the callback saw takes care of a playing room
      on that pod exactly under that condition; otherwise the room stays on a pod that is gone. */
  lemma MigrationBeforeCleanup(replicas: int, events: seq<Event>, states: seq<Registry>, pod: int, i: nat,
                               crc: HashFn, hasStore: bool, o: Oracle, t: Table, id: string)
    requires RegistryRun(replicas, events, states) && i < |events|
    requires pod in states[i].nodes && pod !in states[i + 1].nodes && !events[i].Stopped?
    requires Keyed(t) && id in t.rooms
    requires t.roomData[t.rooms[id]].status == Playing && t.roomData[t.rooms[id]].nodeID == pod
    ensures var c := AtCallback(states[i].nodes, pod, hasStore);
            var node := FailoverRun(crc, c, o, t).roomData[t.rooms[id]].nodeID;
            var skipped := id in SkippedOf(crc, c, o, t, Targets(c, o, t));
      && states[i + 1].reassigns == states[i].reassigns + [c.nodes]
      && (node in states[i + 1].nodes || skipped <==>
            HealthyPods(states[i].nodes) != {} &&
            (!states[i].nodes[pod].healthy || NamesOtherServer(c, t, id, o(id).probe)))
      && (node !in states[i + 1].nodes ==> node == pod)
  {
    RemovedAtSecondFailure(replicas, events, states, pod, i);
    RoomOnFailingPod(crc, states[i].nodes, pod, hasStore, o, t, id);
  }

  // What a healthy heartbeat of the server "s" reports.
  const ALIVE := HeartbeatInfo(1, 0.0, 10, "s")

  /** A pod with connection `conn`; and the same pod after it has answered one heartbeat. */
  function Dialled(conn: nat, healthy: bool, failures: nat): NodeVal {
    BLANK_NODE.(healthy := healthy, conn := Some(conn), failures := failures)
  }

  function Answered(conn: nat, failures: nat): NodeVal {
    MarkHealthy(Dialled(conn, false, failures), ALIVE)
  }

  const ROUTES := map[0 := CppNode(0, "", 7), 1 := CppNode(1, "", 8)]

  function TwoPods(zero: NodeVal): Registry {
    Registry(map[0 := zero, 1 := Dialled(8, true, 0)], ROUTES, 2, 1, [])
  }

  function OnePodLeft(): Registry {
    Registry(map[1 := Dialled(8, true, 0)], map[1 := CppNode(1, "", 8)], 2, 1, [TwoPods(Answered(7, 2)).nodes])
  }

  lemma ConnectingSteps()
    ensures Connect(Connect(Initial(2), 0, "", 7), 1, "", 8) == TwoPods(Dialled(7, true, 0))
  {
  }

  lemma FailingSteps()
    ensures Heartbeat(TwoPods(Dialled(7, true, 0)), 0, None) == TwoPods(Dialled(7, false, 0))
    ensures RecordFailure(TwoPods(Dialled(7, false, 0)), 0) == TwoPods(Dialled(7, false, 1))
    ensures Heartbeat(TwoPods(Dialled(7, false, 1)), 0, Some(ALIVE)) == TwoPods(Answered(7, 1))
  {
  }

  lemma DeletingStep()
    ensures RecordFailure(TwoPods(Answered(7, 1)), 0) == OnePodLeft()
  {
    var called := TwoPods(Answered(7, 2)).nodes;
    assert TwoPods(Answered(7, 1)).nodes[0 := called[0]] == called;
    assert called - {0} == map[1 := Dialled(8, true, 0)];
    assert ROUTES - {0} == map[1 := CppNode(1, "", 8)];
  }

  /** The condition can fail: a heartbeat of pod 0 fails and so does the reconnect, the next heartbeat
      over the old connection succeeds and raises the flag again, and then the reconnect loop reports
      its failure, the second, and the healthy pod is deleted. */
  lemma HealthyPodDeleted() returns (events: seq<Event>, states: seq<Registry>)
    ensures events == [Connected(0, "", 7), Connected(1, "", 8),
                       Beat(0, None), FailureRecorded(0), Beat(0, Some(ALIVE)), FailureRecorded(0)]
    ensures RegistryRun(2, events, states)
    ensures 0 in states[5].nodes && states[5].nodes[0].healthy && states[5].nodes[0].serverID == "s"
    ensures HealthyPods(states[5].nodes) == {0, 1}
    ensures 0 !in states[6].nodes && 1 in states[6].nodes
  {
    ConnectingSteps();
    FailingSteps();
    DeletingStep();
    events := [Connected(0, "", 7), Connected(1, "", 8),
               Beat(0, None), FailureRecorded(0), Beat(0, Some(ALIVE)), FailureRecorded(0)];
    states := [Initial(2), Connect(Initial(2), 0, "", 7), TwoPods(Dialled(7, true, 0)),
               TwoPods(Dialled(7, false, 0)), TwoPods(Dialled(7, false, 1)), TwoPods(Answered(7, 1)), OnePodLeft()];
  }

  /** Then a playing room on that pod whose snapshot, if any, names the pod's server is left on the
      deleted pod. */
  lemma RoomLeftOnDeletedPod(crc: HashFn, hasStore: bool, o: Oracle, t: Table, id: string)
      returns (events: seq<Event>, states: seq<Registry>)
    requires Keyed(t) && id in t.rooms && (id in t.store ==> t.store[id].serverID == "s")
    requires t.roomData[t.rooms[id]].status == Playing && t.roomData[t.rooms[id]].nodeID == 0
    ensures RegistryRun(2, events, states) && |events| == 6 && events[5] == FailureRecorded(0)
    ensures 0 in states[5].nodes && 0 !in states[6].nodes
    ensures FailoverRun(crc, AtCallback(states[5].nodes, 0, hasStore), o, t).roomData[t.rooms[id]].nodeID == 0
  {
    events, states := HealthyPodDeleted();
    MigrationBeforeCleanup(2, events, states, 0, 5, crc, hasStore, o, t, id);
  }
}
