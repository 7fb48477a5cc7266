/** The registry field by field: which events write it, and what they write. */
module RegistryFields {
  import opened Ordering
  import opened HashRing
  import opened EngineState

  predicate Dials(e: Event, p: int) {
    (e.Connected? || e.Discovered?) && e.pod == p
  }

  predicate Answers(g: Registry, e: Event, p: int) {
    e.Beat? && e.pod == p && e.hb.Some? && p in g.nodes && g.nodes[p].conn.Some?
  }

  predicate Silent(g: Registry, e: Event, p: int) {
    e.Beat? && e.pod == p && p in g.nodes && (e.hb.None? || g.nodes[p].conn.None?)
  }

  /** A pod is registered by a dial, and leaves at a stop or when its second failure is reported. */
  lemma RegistrationWritten(g: Registry, e: Event, p: int)
    ensures p in Step(g, e).nodes <==>
            Dials(e, p) || (p in g.nodes && !e.Stopped? && !(e == FailureRecorded(p) && g.nodes[p].failures >= 1))
  {
  }

  /** A dial and an answered heartbeat make a pod healthy, an unanswered one unhealthy; nothing else
      does either. */
  lemma HealthWritten(g: Registry, e: Event, p: int)
    requires p in Step(g, e).nodes
    ensures Step(g, e).nodes[p].healthy <==>
            Dials(e, p) || Answers(g, e, p) || (!Silent(g, e, p) && p in g.nodes && g.nodes[p].healthy)
  {
  }

  /** Rooms, CPU, capacity and server are what the last answered heartbeat reported. */
  lemma FiguresWritten(g: Registry, e: Event, p: int)
    requires p in Step(g, e).nodes
    ensures var n := Step(g, e).nodes[p];
      && (Answers(g, e, p) ==>
            && n.activeRooms == e.hb.value.activeRooms && n.cpu == e.hb.value.cpu
            && n.maxCapacity == e.hb.value.maxCapacity && n.serverID == e.hb.value.serverID)
      && (!Answers(g, e, p) && p in g.nodes ==>
            && n.activeRooms == g.nodes[p].activeRooms && n.cpu == g.nodes[p].cpu
            && n.maxCapacity == g.nodes[p].maxCapacity && n.serverID == g.nodes[p].serverID)
      && (p !in g.nodes ==> n.activeRooms == 0 && n.cpu == 0.0 && n.maxCapacity == 0 && n.serverID == "")
  {
  }

  /** Address and connection are those of the last dial, in the registry and in the ring. */
  lemma RouteWritten(g: Registry, e: Event, p: int)
    requires p in Step(g, e).nodes
    ensures var g' := Step(g, e);
      && (Dials(e, p) ==> g'.nodes[p].addr == e.addr && g'.nodes[p].conn == Some(e.conn) &&
                          p in g'.ring && g'.ring[p] == CppNode(p, e.addr, e.conn))
      && (!Dials(e, p) ==>
            && p in g.nodes && g'.nodes[p].addr == g.nodes[p].addr && g'.nodes[p].conn == g.nodes[p].conn
            && (p in g'.ring <==> p in g.ring) && (p in g.ring ==> g'.ring[p] == g.ring[p]))
  {
  }

  /** The failure count: cleared by a dial and by an answer of another server, raised by a report. */
  lemma FailuresWritten(g: Registry, e: Event, p: int)
    requires p in Step(g, e).nodes
    ensures Step(g, e).nodes[p].failures ==
            if Dials(e, p) then 0
            else if Answers(g, e, p) && g.nodes[p].serverID != "" && g.nodes[p].serverID != e.hb.value.serverID then 0
            else if e == FailureRecorded(p) then g.nodes[p].failures + 1
            else g.nodes[p].failures
  {
  }

  /** When the callback runs: at a report that is not the first, when another server answers, and when
      an unhealthy pod still holds rooms at the end of a check; then once, over the present registry. */
  predicate CallsBack(g: Registry, e: Event) {
    match e
    case FailureRecorded(p) => p in g.nodes && g.nodes[p].failures >= 1
    case Beat(p, hb) => Answers(g, e, p) && g.nodes[p].serverID != "" && g.nodes[p].serverID != hb.value.serverID
    case StatusChecked => exists p :: p in g.nodes && !g.nodes[p].healthy && g.nodes[p].activeRooms != 0
    case _ => false
  }

  lemma StrandedExactly(nodes: map<int, NodeVal>)
    ensures Stranded(nodes) != {} <==> exists p :: p in nodes && !nodes[p].healthy && nodes[p].activeRooms != 0
  {
    if p :| p in nodes && !nodes[p].healthy && nodes[p].activeRooms != 0 {
      assert p in Stranded(nodes);
    }
    if Stranded(nodes) != {} {
      var p := SomeMember(Stranded(nodes));
    }
  }

  lemma CallbacksWritten(g: Registry, e: Event)
    ensures |Step(g, e).reassigns| == |g.reassigns| + (if CallsBack(g, e) then 1 else 0)
    ensures g.reassigns <= Step(g, e).reassigns
    ensures CallsBack(g, e) ==> Step(g, e).reassigns[|g.reassigns|].Keys == g.nodes.Keys
  {
    StrandedExactly(g.nodes);
    if e.FailureRecorded? && e.pod in g.nodes {
      assert g.nodes[e.pod := WithFailure(g.nodes, e.pod)[e.pod]].Keys == g.nodes.Keys;
    }
  }

  /** The replica count drops exactly when some healthy pod has an index of zero or more and all have
      one below the count less one, and then to just above the greatest. */
  lemma ReplicasWritten(g: Registry, e: Event)
    ensures Step(g, e).replicas != g.replicas <==>
            && e.Shrunk? && (exists p :: p in g.nodes && g.nodes[p].healthy && p >= 0)
            && (forall p :: p in g.nodes && g.nodes[p].healthy ==> p + 1 < g.replicas)
    ensures Step(g, e).replicas != g.replicas ==>
              var top := Step(g, e).replicas - 1;
              && top in g.nodes && g.nodes[top].healthy
              && (forall p :: p in g.nodes && g.nodes[p].healthy ==> p <= top)
  {
    var m := MaxHealthy(g.nodes);
    assert forall p :: p in g.nodes && g.nodes[p].healthy ==> p in HealthyPods(g.nodes);
  }

  /** The highest known index follows discoveries upwards and effective shrinks downwards. */
  lemma MaxIndexWritten(g: Registry, e: Event)
    ensures var g' := Step(g, e);
      g'.maxPodIndex ==
      if e.Discovered? && e.pod > g.maxPodIndex then e.pod
      else if g'.replicas != g.replicas && g.maxPodIndex >= g'.replicas then g'.replicas - 1
      else g.maxPodIndex
  {
  }

  /** A stop forgets every pod, and the ring those that were connected. */
  lemma StopWritten(g: Registry)
    ensures Step(g, Stopped).nodes == map[]
    ensures forall p :: p in Step(g, Stopped).ring <==> p in g.ring && !(p in g.nodes && g.nodes[p].conn.Some?)
  {
  }

  /** A registry starts empty with the configured count. */
  lemma StartWritten(replicas: int)
    ensures var g := Initial(replicas);
      && g.nodes == map[] && g.ring == map[] && g.reassigns == []
      && g.replicas == replicas && g.maxPodIndex == replicas - 1
  {
  }
  /** The status lists a pod exactly when it is healthy or still holds rooms. */
  lemma StatusExactly(nodes: map<int, NodeVal>, listed: seq<int>)
    requires IsOrderOf(listed, Listed(nodes))
    ensures forall p :: p in listed <==> p in nodes && (nodes[p].healthy || nodes[p].activeRooms != 0)
    ensures forall p :: p in HealthyPods(nodes) <==> p in nodes && nodes[p].healthy
    ensures forall p :: p in Stranded(nodes) <==> p in nodes && !nodes[p].healthy && nodes[p].activeRooms != 0
  {
    OrderMembers(listed, Listed(nodes));
  }
}
