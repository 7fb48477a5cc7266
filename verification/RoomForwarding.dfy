/** Where battle actions go: over every run, exactly when the node a room forwards to is the engine
    that accepted its battle. */
module RoomForwarding {
  import opened HashRing
  import opened RoomState
  import opened Failover
  import opened RoomPlacement
  import opened RoomLifecycle
  import opened RoomEvents
  import opened RoomRuns
  import opened RoomLaws

  /** What the history of a room says about its node: the pod the last failover moved it to since a
      node was last assigned, and the answers with which its start looked the assigned node up. */
  datatype Trail = Trail(moved: Option<int>, lookup: Option<StartOracle>)

  ghost predicate Assigns(crc: HashFn, t: Table, e: Event, r: GameRoom)
    requires Placed(t) && Enabled(t, e)
  {
    e.StartSteps? && t.starts[e.k].room == r && NextMove(crc, t, e.k, e.answers).Launches?
  }

  ghost predicate LooksUp(t: Table, e: Event, r: GameRoom)
    requires Placed(t) && Enabled(t, e)
  {
    e.StartSteps? && t.starts[e.k].room == r && t.starts[e.k].phase.Launched?
  }

  ghost predicate Moves(crc: HashFn, t: Table, e: Event, r: GameRoom)
    requires Placed(t) && Enabled(t, e)
  {
    && e.FailsOver? && r in t.roomData && Live(t, r)
    && FateOf(crc, e.c, e.o, t, t.roomData[r].id).Migrated?
  }

  ghost function NextTrail(crc: HashFn, t: Table, e: Event, r: GameRoom, trail: Trail): Trail
    requires Placed(t) && Enabled(t, e)
  {
    if Assigns(crc, t, e, r) then Trail(None, None)
    else if LooksUp(t, e, r) then trail.(lookup := Some(e.answers))
    else if Moves(crc, t, e, r) then trail.(moved := Some(FateOf(crc, e.c, e.o, t, t.roomData[r].id).pod))
    else trail
  }

  /** The trail of a room after `i` events of a run. */
  ghost function TrailOf(crc: HashFn, events: seq<Event>, states: seq<Table>, r: GameRoom, i: nat): Trail
    requires |states| == |events| + 1 && i < |states|
  {
    if i == 0 then Trail(None, None)
    else
      var t, e, trail := states[i - 1], events[i - 1], TrailOf(crc, events, states, r, i - 1);
      if Placed(t) && Enabled(t, e) then NextTrail(crc, t, e, r, trail) else trail
  }

  // ----- who writes a room's node -----

  lemma FailoverWritesNode(crc: HashFn, c: Cluster, o: Oracle, t: Table, r: GameRoom)
    requires Placed(t) && Keyed(t) && r in t.roomData
    ensures r in FailoverRun(crc, c, o, t).roomData
    ensures FailoverRun(crc, c, o, t).roomData[r].nodeID ==
            if Moves(crc, t, FailsOver(c, o), r) then FateOf(crc, c, o, t, t.roomData[r].id).pod
            else t.roomData[r].nodeID
  {
    var id := t.roomData[r].id;
    assert FailoverRun(crc, c, o, t).roomData[r] == RoomAfter(crc, c, o, t, Targets(c, o, t), r);
    if id in t.rooms && FateOf(crc, c, o, t, id).Migrated? {
      FateIsSound(crc, c, o, t, id);
      assert id in Targets(c, o, t);
    }
  }

  lemma LeaveKeepsNodes(t: Table, s: Session, id: string, r: GameRoom)
    requires Refers(t) && s in t.sessions && r in t.roomData
    ensures r in Leave(t, s, id).roomData && Leave(t, s, id).roomData[r].nodeID == t.roomData[r].nodeID
  {
  }

  /** The same rooms, nodes and accepted battles. */
  ghost predicate KeepsNodes(t: Table, t': Table) {
    && t'.accepted == t.accepted && t'.roomData.Keys == t.roomData.Keys
    && (forall r :: r in t.roomData ==> t'.roomData[r].nodeID == t.roomData[r].nodeID)
  }

  lemma ClaimKeepsNodes(t: Table, r: GameRoom)
    requires r in t.roomData
    ensures KeepsNodes(t, Claim(t, r))
  {
  }

  lemma ReadyKeepsNodes(t: Table, r: GameRoom, p: string)
    requires r in t.roomData
    ensures KeepsNodes(t, MarkReady(t, r, p))
  {
    var chosen := SetRoom(t, r, t.roomData[r].(ready := t.roomData[r].ready[p := true]));
    assert KeepsNodes(t, chosen);
    ClaimKeepsNodes(chosen, r);
  }

  lemma SelectKeepsNodes(t: Table, s: Session, input: SelectInput)
    requires Refers(t) && s in t.sessions
    ensures KeepsNodes(t, Select(t, s, input))
  {
    if SelectOutcome(t, s, input) == Chosen {
      var stored := SetSession(t, s, t.sessions[s].(team := StoredTeam(input.team)));
      ReadyKeepsNodes(stored, t.rooms[t.sessions[s].roomID], t.sessions[s].player);
    }
  }

  lemma StartRequestKeepsNodes(t: Table, s: Session)
    requires Refers(t) && s in t.sessions
    ensures KeepsNodes(t, StartRequest(t, s))
  {
    if t.sessions[s].roomID in t.rooms {
      ClaimKeepsNodes(t, t.rooms[t.sessions[s].roomID]);
    }
  }

  lemma CleanUpKeepsNodes(t: Table, uid: string, r: GameRoom)
    requires Refers(t) && r in t.roomData
    ensures r in CleanUp(t, uid).roomData && CleanUp(t, uid).roomData[r].nodeID == t.roomData[r].nodeID
  {
    if uid in t.users && t.sessions[t.users[uid]].roomID != "" {
      LeaveKeepsNodes(t.(users := t.users - {uid}), t.users[uid], t.sessions[t.users[uid]].roomID, r);
    }
  }

  lemma SeatKeepsNodes(t: Table, s: Session, r: GameRoom, id: string, q: GameRoom)
    requires Refers(t) && s in t.sessions && q in t.roomData
    ensures Join(t, s, id).roomData.Keys == t.roomData.Keys && Join(t, s, id).roomData[q].nodeID == t.roomData[q].nodeID
    ensures r !in t.roomData ==> Create(t, s, r, id).roomData[q] == t.roomData[q]
  {
  }

  lemma RestoreKeepsNodes(t: Table, snap: RoomSnapshot, r: GameRoom, made: map<string, Session>, q: GameRoom)
    requires r !in t.roomData && q in t.roomData
    ensures q in Restore(t, snap, r, made).roomData && Restore(t, snap, r, made).roomData[q] == t.roomData[q]
  {
  }

  /** Apart from node assignments and failovers nothing writes a room's node. */
  lemma QuietEventKeepsNode(crc: HashFn, t: Table, e: Event, r: GameRoom)
    requires Placed(t) && Enabled(t, e) && r in t.roomData && !e.StartSteps? && !e.FailsOver?
    ensures r in Apply(crc, t, e).roomData && Apply(crc, t, e).roomData[r].nodeID == t.roomData[r].nodeID
  {
    match e
    case Leaves(s) => LeaveKeepsNodes(t, s, t.sessions[s].roomID, r);
    case CleansUp(uid) => CleanUpKeepsNodes(t, uid, r);
    case Selects(s, input) => SelectKeepsNodes(t, s, input);
    case Starts(s) => StartRequestKeepsNodes(t, s);
    case Creates(s, q, id) => SeatKeepsNodes(t, s, q, id, r);
    case Joins(s, id) => SeatKeepsNodes(t, s, r, id, r);
    case Restores(snap, q, made) => RestoreKeepsNodes(t, snap, q, made, r);
    case _ =>
  }

  // ----- the node and the trail -----

  /** The node of `r`, as its trail predicts it from an assigned target. */
  ghost predicate At(t: Table, r: GameRoom, trail: Trail, target: int)
    requires r in t.roomData
  {
    t.roomData[r].nodeID == if trail.moved.Some? then trail.moved.value else target
  }

  /** The node a start calls, as the trail of its room predicts it. */
  predicate CallsAs(trail: Trail, target: int, node: int) {
    && trail.lookup.Some?
    && (node == target <==> trail.lookup.value.targetFound || trail.lookup.value.node == Some(target))
  }

  ghost predicate StartFollows(t: Table, r: GameRoom, trail: Trail, k: nat)
    requires r in t.roomData && k in t.starts
  {
    var phase := t.starts[k].phase;
    t.starts[k].room == r && Requested(phase) ==>
      At(t, r, trail, phase.target) && (phase.Calling? ==> CallsAs(trail, phase.target, phase.node))
  }

  ghost predicate Follows(t: Table, r: GameRoom, trail: Trail) {
    r in t.roomData ==>
      && (forall k {:trigger StartFollows(t, r, trail, k)} :: k in t.starts ==> StartFollows(t, r, trail, k))
      && (r in t.accepted ==>
            At(t, r, trail, t.accepted[r].target) && CallsAs(trail, t.accepted[r].target, t.accepted[r].node))
  }

  /** Events outside a start may only add a claimed one. */
  lemma QuietEventFollows(t: Table, t': Table, r: GameRoom, trail: Trail, trail': Trail)
    requires Follows(t, r, trail) && StartsGrow(t, t') && t'.accepted == t.accepted && trail'.lookup == trail.lookup
    requires r in t.roomData && r in t'.roomData
    requires forall target :: At(t, r, trail, target) ==> At(t', r, trail', target)
    ensures Follows(t', r, trail')
  {
    forall k | k in t'.starts ensures StartFollows(t', r, trail', k) {
      assert k in t.starts ==> StartFollows(t, r, trail, k);
    }
  }

  lemma NewRoomFollows(t: Table, r: GameRoom, trail: Trail)
    requires forall k :: k in t.starts ==> t.starts[k].room != r
    requires r !in t.accepted
    ensures Follows(t, r, trail)
  {
  }

  lemma OtherEventKeepsAccepted(crc: HashFn, t: Table, e: Event)
    requires Placed(t) && Enabled(t, e) && !e.StartSteps?
    ensures Apply(crc, t, e).accepted == t.accepted
  {
    match e
    case Selects(s, input) => SelectKeepsNodes(t, s, input);
    case Starts(s) => StartRequestKeepsNodes(t, s);
    case Restores(snap, r, made) =>
    case _ => EventWinds(crc, t, e);
  }

  /** A step of another room's start. */
  lemma OtherStartFollows(t: Table, t': Table, j: nat, r: GameRoom, trail: Trail)
    requires r in t.roomData && r in t'.roomData && Follows(t, r, trail) && j in t.starts && t.starts[j].room != r
    requires t'.roomData[r] == t.roomData[r] && t'.starts - {j} == t.starts - {j}
    requires j in t'.starts ==> t'.starts[j].room == t.starts[j].room
    requires r in t'.accepted <==> r in t.accepted
    requires r in t.accepted ==> t'.accepted[r] == t.accepted[r]
    ensures Follows(t', r, trail)
  {
    forall k | k in t'.starts ensures StartFollows(t', r, trail, k) {
      if k != j {
        assert k in t'.starts - {j} && (t'.starts - {j})[k] == (t.starts - {j})[k];
        assert StartFollows(t, r, trail, k);
      }
    }
  }

  lemma SoleStart(t: Table, k: nat)
    requires Lifecycle(t) && k in t.starts
    ensures t.starts[k].room in t.roomData && t.starts[k].room !in t.accepted
    ensures forall l :: l in t.starts && t.starts[l].room == t.starts[k].room ==> l == k
  {
    assert StartOk(t, k);
  }

  lemma FailFollows(t: Table, k: nat, trail: Trail)
    requires Lifecycle(t) && k in t.starts
    ensures Follows(FailStart(t, k), t.starts[k].room, trail)
  {
    SoleStart(t, k);
    NewRoomFollows(FailStart(t, k), t.starts[k].room, trail);
  }

  lemma LaunchFollows(t: Table, k: nat, init: BattleInit, node: int)
    requires Lifecycle(t) && k in t.starts
    ensures Follows(Launch(t, k, init, node), t.starts[k].room, Trail(None, None))
  {
    SoleStart(t, k);
    var t', r := Launch(t, k, init, node), t.starts[k].room;
    forall l | l in t'.starts ensures StartFollows(t', r, Trail(None, None), l) {
    }
  }

  lemma PhaseFollows(t: Table, k: nat, phase: Phase, trail: Trail, trail': Trail)
    requires Lifecycle(t) && k in t.starts && Requested(t.starts[k].phase) && phase.Calling?
    requires Follows(t, t.starts[k].room, trail)
    requires phase.target == t.starts[k].phase.target && trail'.moved == trail.moved
    requires CallsAs(trail', phase.target, phase.node)
    ensures Follows(SetPhase(t, k, phase), t.starts[k].room, trail')
  {
    SoleStart(t, k);
    var t', r := SetPhase(t, k, phase), t.starts[k].room;
    assert StartFollows(t, r, trail, k);
    forall l | l in t'.starts ensures StartFollows(t', r, trail', l) {
    }
  }

  lemma AcceptFollows(t: Table, k: nat, trail: Trail)
    requires Lifecycle(t) && k in t.starts && t.starts[k].phase.Calling? && Follows(t, t.starts[k].room, trail)
    ensures Follows(Accept(t, k), t.starts[k].room, trail)
  {
    SoleStart(t, k);
    var t', r := Accept(t, k), t.starts[k].room;
    assert StartFollows(t, r, trail, k);
    forall l | l in t'.starts ensures StartFollows(t', r, trail, l) {
    }
  }

  /** A step of the room's own start. */
  lemma OwnStartFollows(crc: HashFn, t: Table, k: nat, o: StartOracle, trail: Trail)
    requires Placed(t) && Lifecycle(t) && k in t.starts && Follows(t, t.starts[k].room, trail)
    ensures RosterOk(t, t.starts[k].roster)
    ensures var r := t.starts[k].room;
      Follows(StartStep(crc, t, k, o), r, NextTrail(crc, t, StartSteps(k, o), r, trail))
  {
    var r := t.starts[k].room;
    assert StartFollows(t, r, trail, k);
    var trail' := NextTrail(crc, t, StartSteps(k, o), r, trail);
    match NextMove(crc, t, k, o)
    case Fails => FailFollows(t, k, trail');
    case Launches(init, node) => LaunchFollows(t, k, init, node);
    case Proceeds(phase) => PhaseFollows(t, k, phase, trail, trail');
    case Succeeds => AcceptFollows(t, k, trail);
  }

  lemma OtherStartStep(crc: HashFn, t: Table, k: nat, o: StartOracle, r: GameRoom, trail: Trail)
    requires Placed(t) && k in t.starts && t.starts[k].room != r && r in t.roomData && Follows(t, r, trail)
    ensures RosterOk(t, t.starts[k].roster)
    ensures Follows(StartStep(crc, t, k, o), r, trail)
  {
    assert RosterOk(t, t.starts[k].roster);
    StepAdvances(crc, t, k, o);
    OtherStartFollows(t, StartStep(crc, t, k, o), k, r, trail);
  }

  lemma QuietStep(crc: HashFn, t: Table, e: Event, r: GameRoom, trail: Trail)
    requires Placed(t) && Enabled(t, e) && !e.StartSteps? && r in t.roomData && Follows(t, r, trail)
    ensures Follows(Apply(crc, t, e), r, NextTrail(crc, t, e, r, trail))
  {
    var t' := Apply(crc, t, e);
    OtherEventsGrow(crc, t, e);
    OtherEventKeepsAccepted(crc, t, e);
    if e.FailsOver? {
      PlacedIsKeyed(t);
      FailoverWritesNode(crc, e.c, e.o, t, r);
    } else {
      QuietEventKeepsNode(crc, t, e, r);
    }
    QuietEventFollows(t, t', r, trail, NextTrail(crc, t, e, r, trail));
  }

  lemma FailMakesNoRoom(t: Table, k: nat)
    requires Refers(t) && k in t.starts
    ensures FailStart(t, k).roomData.Keys == t.roomData.Keys
  {
  }

  lemma LaunchMakesNoRoom(t: Table, k: nat, init: BattleInit, node: int)
    requires Refers(t) && k in t.starts
    ensures Launch(t, k, init, node).roomData.Keys == t.roomData.Keys
  {
  }

  lemma StartStepMakesNoRoom(crc: HashFn, t: Table, k: nat, o: StartOracle)
    requires Refers(t) && k in t.starts && RosterOk(t, t.starts[k].roster)
    ensures StartStep(crc, t, k, o).roomData.Keys == t.roomData.Keys
  {
    match NextMove(crc, t, k, o)
    case Fails => FailMakesNoRoom(t, k);
    case Launches(init, node) => LaunchMakesNoRoom(t, k, init, node);
    case _ =>
  }

  /** A room that did not exist has no start and no battle yet. */
  lemma UnmadeStep(crc: HashFn, t: Table, e: Event, r: GameRoom, trail: Trail)
    requires Placed(t) && Lifecycle(t) && Enabled(t, e) && r !in t.roomData
    ensures Follows(Apply(crc, t, e), r, trail)
  {
    assert r in t.accepted ==> AcceptedOk(t, r);
    match e
    case StartSteps(k, o) =>
      assert RosterOk(t, t.starts[k].roster);
      StartStepMakesNoRoom(crc, t, k, o);
    case Selects(s, input) => SelectKeepsNodes(t, s, input);
    case Starts(s) => StartRequestKeepsNodes(t, s);
    case Restores(snap, q, made) => NewRoomFollows(Restore(t, snap, q, made), r, trail);
    case _ =>
      EventWinds(crc, t, e);
      NewRoomFollows(Apply(crc, t, e), r, trail);
  }

  lemma TrailStep(crc: HashFn, t: Table, e: Event, r: GameRoom, trail: Trail)
    requires Placed(t) && Lifecycle(t) && Enabled(t, e) && Follows(t, r, trail)
    ensures Follows(Apply(crc, t, e), r, NextTrail(crc, t, e, r, trail))
  {
    if r !in t.roomData {
      UnmadeStep(crc, t, e, r, NextTrail(crc, t, e, r, trail));
    } else if !e.StartSteps? {
      QuietStep(crc, t, e, r, trail);
    } else if t.starts[e.k].room == r {
      OwnStartFollows(crc, t, e.k, e.answers, trail);
    } else {
      OtherStartStep(crc, t, e.k, e.answers, r, trail);
    }
  }

  lemma TrailNext(crc: HashFn, t: Table, e: Event, t': Table, r: GameRoom, trail: Trail)
    requires Inv(t) && Next(crc, t, e, t') && Follows(t, r, trail)
    ensures Placed(t) && Enabled(t, e) && Follows(t', r, NextTrail(crc, t, e, r, trail))
  {
    TrailStep(crc, t, e, r, trail);
  }

  lemma {:induction false} RoomsFollowTrails(crc: HashFn, events: seq<Event>, states: seq<Table>, i: nat, r: GameRoom)
    requires TableRun(crc, events, states) && i < |states|
    ensures Follows(states[i], r, TrailOf(crc, events, states, r, i))
  {
    if i > 0 {
      RoomsFollowTrails(crc, events, states, i - 1, r);
      ReachableStatesAreSound(crc, events, states, i - 1);
      assert Next(crc, states[i - 1], events[i - 1], states[i]);
      TrailNext(crc, states[i - 1], events[i - 1], states[i], r, TrailOf(crc, events, states, r, i - 1));
    }
  }

  /** A forwarded action goes to the engine that accepted the battle exactly when, no failover having
      moved the room since its node was assigned, the start found that node or fell back to the
      same one; or when the last failover that did move it moved it to the accepting engine. */
  lemma ForwardingReachesAcceptor(crc: HashFn, events: seq<Event>, states: seq<Table>, i: nat, r: GameRoom)
    requires TableRun(crc, events, states) && i < |states| && r in states[i].accepted
    ensures r in states[i].roomData
    ensures var trail, a := TrailOf(crc, events, states, r, i), states[i].accepted[r];
      && trail.lookup.Some?
      && (states[i].roomData[r].nodeID == a.node <==>
            match trail.moved
            case Some(pod) => pod == a.node
            case None => trail.lookup.value.targetFound || trail.lookup.value.node == Some(a.target))
    // The node is an engine that created the room: the acceptor, or the pod of the last migration.
    ensures var trail, a := TrailOf(crc, events, states, r, i), states[i].accepted[r];
            var node := states[i].roomData[r].nodeID;
      (node == a.node || trail.moved == Some(node) <==>
         trail.moved.Some? || trail.lookup.value.targetFound || trail.lookup.value.node == Some(a.target))
  {
    ReachableStatesAreSound(crc, events, states, i);
    assert AcceptedOk(states[i], r);
    RoomsFollowTrails(crc, events, states, i, r);
  }
}
