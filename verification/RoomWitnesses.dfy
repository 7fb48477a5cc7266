/** Concrete runs that reach the situations in which the server does less than one might expect. */
module RoomWitnesses {
  import opened HashRing
  import opened EngineState
  import opened RoomState
  import opened Failover
  import opened RoomEvents
  import opened RoomRuns
  import opened RoomLifecycle

  lemma RunExtends(crc: HashFn, events: seq<RoomEvents.Event>, states: seq<Table>, e: RoomEvents.Event, t': Table)
      returns (more: seq<RoomEvents.Event>, after: seq<Table>)
    requires TableRun(crc, events, states) && Next(crc, states[|events|], e, t')
    ensures more == events + [e] && after == states + [t'] && TableRun(crc, more, after)
  {
    more, after := events + [e], states + [t'];
    assert after[0] == states[0];
    forall i | 0 <= i < |more| ensures Next(crc, after[i], more[i], after[i + 1]) {
      if i < |events| {
        assert Next(crc, states[i], events[i], states[i + 1]);
        assert after[i] == states[i] && after[i + 1] == states[i + 1] && more[i] == events[i];
      }
    }
  }

  /** Two users, "a" and "b", and what their sessions hold when both are in room `id`. */
  function Users(s1: Session, s2: Session): map<string, Session> {
    map["a" := s1, "b" := s2]
  }

  function Player(name: string, id: string): SessionVal {
    SessionVal(name, id, true, [])
  }

  function BothIn(s1: Session, s2: Session, id1: string, id2: string): map<Session, SessionVal>
    requires s1 != s2
  {
    map[s1 := Player("a", id1), s2 := Player("b", id2)]
  }

  function RoomOf(sessions: map<string, Session>, ready: map<string, bool>, status: Status): RoomVal {
    RoomVal("x", sessions, ready, status, 0)
  }

  /** Both users in room "x", in the given status and with the given starts. */
  function Paired(s1: Session, s2: Session, r: GameRoom, status: Status, starts: map<nat, Attempt>, next: nat): Table
    requires s1 != s2
  {
    Table(map["x" := r], Users(s1, s2),
          map[r := RoomOf(Users(s1, s2), map["a" := false, "b" := false], status)],
          BothIn(s1, s2, "x", "x"), starts, next, map[], {}, map[])
  }

  function Claimed0(s1: Session, s2: Session, r: GameRoom): map<nat, Attempt> {
    map[0 := Attempt(r, Users(s1, s2), Claimed)]
  }

  function OneUser(s1: Session): Table {
    EMPTY_TABLE.(users := map["a" := s1], sessions := map[s1 := Player("a", "")])
  }

  function TwoUsers(s1: Session, s2: Session): Table
    requires s1 != s2
  {
    EMPTY_TABLE.(users := Users(s1, s2), sessions := BothIn(s1, s2, "", ""))
  }

  function Alone(s1: Session, s2: Session, r: GameRoom): Table
    requires s1 != s2
  {
    Table(map["x" := r], Users(s1, s2), map[r := RoomOf(map["a" := s1], map["a" := false], Waiting)],
          BothIn(s1, s2, "x", ""), map[], 0, map[], {}, map[])
  }

  lemma ConnectSteps(s1: Session, s2: Session)
    requires s1 != s2
    ensures ConnectUser(EMPTY_TABLE, "a", s1) == OneUser(s1)
    ensures ConnectUser(OneUser(s1), "b", s2) == TwoUsers(s1, s2)
  {
  }

  lemma CreatingStep(s1: Session, s2: Session, r: GameRoom)
    requires s1 != s2
    ensures Create(TwoUsers(s1, s2), s1, r, "x") == Alone(s1, s2, r)
  {
  }

  lemma JoiningStep(s1: Session, s2: Session, r: GameRoom)
    requires s1 != s2
    ensures Join(Alone(s1, s2, r), s2, "x") == Paired(s1, s2, r, Waiting, map[], 0)
  {
    var room := RoomOf(map["a" := s1], map["a" := false], Waiting);
    assert JoinedRoom(room, "b", s2) == RoomOf(Users(s1, s2), map["a" := false, "b" := false], Waiting);
  }

  lemma ClaimingStep(s1: Session, s2: Session, r: GameRoom)
    requires s1 != s2
    ensures StartRequest(Paired(s1, s2, r, Waiting, map[], 0), s1) == Paired(s1, s2, r, Playing, Claimed0(s1, s2, r), 1)
  {
  }

  lemma ConnectEvents(crc: HashFn, s1: Session, s2: Session)
    requires s1 != s2
    ensures Next(crc, EMPTY_TABLE, Connects("a", s1), OneUser(s1))
    ensures Next(crc, OneUser(s1), Connects("b", s2), TwoUsers(s1, s2))
  {
    ConnectSteps(s1, s2);
  }

  lemma CreatingEvent(crc: HashFn, s1: Session, s2: Session, r: GameRoom)
    requires s1 != s2
    ensures Next(crc, TwoUsers(s1, s2), Creates(s1, r, "x"), Alone(s1, s2, r))
  {
    CreatingStep(s1, s2, r);
  }

  lemma JoiningEvent(crc: HashFn, s1: Session, s2: Session, r: GameRoom)
    requires s1 != s2
    ensures Next(crc, Alone(s1, s2, r), Joins(s2, "x"), Paired(s1, s2, r, Waiting, map[], 0))
  {
    JoiningStep(s1, s2, r);
  }

  lemma ClaimingEvent(crc: HashFn, s1: Session, s2: Session, r: GameRoom)
    requires s1 != s2
    ensures Next(crc, Paired(s1, s2, r, Waiting, map[], 0), Starts(s1),
                 Paired(s1, s2, r, Playing, Claimed0(s1, s2, r), 1))
  {
    ClaimingStep(s1, s2, r);
  }

  lemma RunOfFive(crc: HashFn, e: seq<RoomEvents.Event>, t: seq<Table>)
    requires |e| == 5 && |t| == 6 && t[0] == EMPTY_TABLE
    requires Next(crc, t[0], e[0], t[1]) && Next(crc, t[1], e[1], t[2]) && Next(crc, t[2], e[2], t[3])
    requires Next(crc, t[3], e[3], t[4]) && Next(crc, t[4], e[4], t[5])
    ensures TableRun(crc, e, t)
  {
  }

  /** A run in which two users connect, meet in a room, and one of them asks for the start. */
  lemma ClaimedRun(crc: HashFn, s1: Session, s2: Session, r: GameRoom)
      returns (events: seq<RoomEvents.Event>, states: seq<Table>)
    requires s1 != s2
    ensures TableRun(crc, events, states) && |events| == 5
    ensures states[5] == Paired(s1, s2, r, Playing, Claimed0(s1, s2, r), 1)
  {
    ConnectEvents(crc, s1, s2);
    CreatingEvent(crc, s1, s2, r);
    JoiningEvent(crc, s1, s2, r);
    ClaimingEvent(crc, s1, s2, r);
    events := [Connects("a", s1), Connects("b", s2), Creates(s1, r, "x"), Joins(s2, "x"), Starts(s1)];
    states := [EMPTY_TABLE, OneUser(s1), TwoUsers(s1, s2), Alone(s1, s2, r),
               Paired(s1, s2, r, Waiting, map[], 0), Paired(s1, s2, r, Playing, Claimed0(s1, s2, r), 1)];
    RunOfFive(crc, events, states);
  }

  /** The same room after one player has left it during the start, with or without that start. */
  function Deserted(s1: Session, s2: Session, r: GameRoom, status: Status, starts: map<nat, Attempt>): Table
    requires s1 != s2
  {
    Table(map["x" := r], Users(s1, s2), map[r := RoomOf(map["a" := s1], map["a" := false], status)],
          BothIn(s1, s2, "x", ""), starts, 1, map[], {}, map[])
  }

  lemma LeavingRoom(s1: Session, s2: Session)
    ensures LeftRoom(RoomOf(Users(s1, s2), map["a" := false, "b" := false], Playing), "b") ==
            RoomOf(map["a" := s1], map["a" := false], Finished)
  {
    assert Users(s1, s2) - {"b"} == map["a" := s1];
    assert map["a" := false, "b" := false] - {"b"} == map["a" := false];
  }

  lemma LeavingStep(s1: Session, s2: Session, r: GameRoom)
    requires s1 != s2
    ensures Leave(Paired(s1, s2, r, Playing, Claimed0(s1, s2, r), 1), s2, "x") ==
            Deserted(s1, s2, r, Finished, Claimed0(s1, s2, r))
  {
    LeavingRoom(s1, s2);
  }

  lemma FailingStep(s1: Session, s2: Session, r: GameRoom)
    requires s1 != s2
    ensures Refers(Deserted(s1, s2, r, Finished, Claimed0(s1, s2, r)))
    ensures FailStart(Deserted(s1, s2, r, Finished, Claimed0(s1, s2, r)), 0) == Deserted(s1, s2, r, Waiting, map[])
  {
    assert Claimed0(s1, s2, r) - {0} == map[];
  }

  const NOTHING_FOUND := StartOracle(None, false, false)

  lemma FailingEvent(crc: HashFn, s1: Session, s2: Session, r: GameRoom)
    requires s1 != s2
    ensures Next(crc, Deserted(s1, s2, r, Finished, Claimed0(s1, s2, r)), StartSteps(0, NOTHING_FOUND),
                 Deserted(s1, s2, r, Waiting, map[]))
  {
    FailingStep(s1, s2, r);
    var t := Deserted(s1, s2, r, Finished, Claimed0(s1, s2, r));
    assert t.starts[0].phase.Claimed?;
  }

  lemma LeavingEvent(crc: HashFn, s1: Session, s2: Session, r: GameRoom)
    requires s1 != s2
    ensures Next(crc, Paired(s1, s2, r, Playing, Claimed0(s1, s2, r), 1), Leaves(s2),
                 Deserted(s1, s2, r, Finished, Claimed0(s1, s2, r)))
  {
    LeavingStep(s1, s2, r);
  }

  /** The situation of `FinishedReopensExactly` occurs: a player leaves while the node is being
      assigned, which finishes the room, no node is found, and the room waits again. */
  lemma FinishedCanReopen(crc: HashFn, s1: Session, s2: Session, r: GameRoom)
      returns (events: seq<RoomEvents.Event>, states: seq<Table>)
    requires s1 != s2
    ensures TableRun(crc, events, states) && |events| == 7
    ensures r in states[6].roomData && states[6].roomData[r].status == Finished && Starting(states[6], r)
    ensures r in states[7].roomData && states[7].roomData[r].status == Waiting && !Starting(states[7], r)
  {
    events, states := ClaimedRun(crc, s1, s2, r);
    LeavingEvent(crc, s1, s2, r);
    FailingEvent(crc, s1, s2, r);
    var finished, waiting := Deserted(s1, s2, r, Finished, Claimed0(s1, s2, r)), Deserted(s1, s2, r, Waiting, map[]);
    events, states := RunExtends(crc, events, states, Leaves(s2), finished);
    events, states := RunExtends(crc, events, states, StartSteps(0, NOTHING_FOUND), waiting);
    assert finished.starts[0].room == r;
  }

  // ----- a battle that is moved and then moved again -----

  /** Answers that offer a node, find an assigned pod 0 only if that is the node, and accept. */
  function Offers(node: int): StartOracle {
    StartOracle(Some(node), node == 0, true)
  }

  /** The room plays, is assigned to pod 0, and its battle was accepted by `node`. */
  ghost predicate PlaysOnZero(t: Table, r: GameRoom, node: int) {
    && Keyed(t) && t.rooms == map["x" := r] && r in t.roomData && r in t.accepted
    && t.roomData[r].id == "x" && t.roomData[r].status == Playing && t.roomData[r].nodeID == 0
    && t.accepted[r].node == node
  }

  ghost function LaunchedOnZero(crc: HashFn, t: Table): Table
    requires Refers(t) && 0 in t.starts && |t.starts[0].roster| >= 2 && RosterOk(t, t.starts[0].roster)
  {
    Launch(t, 0, BuildInit(crc, t, t.roomData[t.starts[0].room].id, t.starts[0].roster), 0)
  }

  function CallingFrom(t: Table, node: int): Table
    requires 0 in t.starts && t.starts[0].phase.Launched?
  {
    SetPhase(t, 0, Calling(t.starts[0].phase.init, 0, node, 0))
  }

  lemma AcceptedSteps(crc: HashFn, t: Table, node: int)
    requires Refers(t) && 0 in t.starts && t.starts[0].phase.Claimed?
    requires |t.starts[0].roster| == 2 && RosterOk(t, t.starts[0].roster)
    ensures var launched := LaunchedOnZero(crc, t);
            var calling := CallingFrom(launched, node);
      && StartStep(crc, t, 0, Offers(0)) == launched
      && Refers(launched) && 0 in launched.starts && RosterOk(launched, launched.starts[0].roster)
      && StartStep(crc, launched, 0, Offers(node)) == calling
      && Refers(calling) && 0 in calling.starts && RosterOk(calling, calling.starts[0].roster)
      && StartStep(crc, calling, 0, Offers(node)) == Accept(calling, 0)
  {
  }

  lemma AcceptedOnZero(crc: HashFn, t: Table, r: GameRoom, node: int)
    requires Refers(t) && 0 in t.starts && |t.starts[0].roster| >= 2 && RosterOk(t, t.starts[0].roster)
    requires t.rooms == map["x" := r] && t.starts[0].room == r
    requires t.roomData[r].id == "x" && t.roomData[r].status == Playing
    ensures PlaysOnZero(Accept(CallingFrom(LaunchedOnZero(crc, t), node), 0), r, node)
  {
  }

  lemma StartEvent(crc: HashFn, t: Table, o: StartOracle, t': Table)
    requires Refers(t) && 0 in t.starts && RosterOk(t, t.starts[0].roster) && t' == StartStep(crc, t, 0, o)
    ensures Next(crc, t, StartSteps(0, o), t')
  {
  }

  lemma AcceptedEvents(crc: HashFn, t: Table, node: int)
    requires Refers(t) && 0 in t.starts && t.starts[0].phase.Claimed?
    requires |t.starts[0].roster| == 2 && RosterOk(t, t.starts[0].roster)
    ensures var launched, e := LaunchedOnZero(crc, t), StartSteps(0, Offers(node));
            var calling := CallingFrom(launched, node);
      && Next(crc, t, StartSteps(0, Offers(0)), launched)
      && Next(crc, launched, e, calling) && Next(crc, calling, e, Accept(calling, 0))
  {
    AcceptedSteps(crc, t, node);
    var launched := LaunchedOnZero(crc, t);
    var calling := CallingFrom(launched, node);
    StartEvent(crc, t, Offers(0), launched);
    StartEvent(crc, launched, Offers(node), calling);
    StartEvent(crc, calling, Offers(node), Accept(calling, 0));
  }

  lemma ClaimedTable(s1: Session, s2: Session, r: GameRoom)
    requires s1 != s2
    ensures var t := Paired(s1, s2, r, Playing, Claimed0(s1, s2, r), 1);
      && Refers(t) && t.starts[0].phase.Claimed? && |t.starts[0].roster| == 2 && RosterOk(t, t.starts[0].roster)
      && t.starts[0].room == r && t.roomData[r].id == "x" && t.roomData[r].status == Playing
  {
  }

  /** A run after which the room is assigned to pod 0 and plays where `node` accepted it. */
  lemma AcceptedRun(crc: HashFn, s1: Session, s2: Session, r: GameRoom, node: int)
      returns (events: seq<RoomEvents.Event>, states: seq<Table>)
    requires s1 != s2
    ensures TableRun(crc, events, states) && |events| == 8 && PlaysOnZero(states[8], r, node)
  {
    events, states := ClaimedRun(crc, s1, s2, r);
    ClaimedTable(s1, s2, r);
    events, states := AcceptRun(crc, events, states, r, node);
  }

  /** The situation of `ForwardingReachesAcceptor` that fails: pod 0 is assigned but gone when its
      connection is looked up, pod 1 accepts the battle, and the room still names pod 0. */
  lemma ForwardingCanMissAcceptor(crc: HashFn, s1: Session, s2: Session, r: GameRoom)
      returns (events: seq<RoomEvents.Event>, states: seq<Table>)
    requires s1 != s2
    ensures TableRun(crc, events, states) && |events| == 8
    ensures r in states[8].roomData && r in states[8].accepted && states[8].roomData[r].status == Playing
    ensures states[8].accepted[r].node == 1 && states[8].roomData[r].nodeID == 0
  {
    events, states := AcceptedRun(crc, s1, s2, r, 1);
  }

  lemma AcceptRun(crc: HashFn, events: seq<RoomEvents.Event>, states: seq<Table>, r: GameRoom, node: int)
      returns (more: seq<RoomEvents.Event>, after: seq<Table>)
    requires TableRun(crc, events, states)
    requires var t := states[|events|];
      && Refers(t) && 0 in t.starts && t.starts[0].phase.Claimed?
      && |t.starts[0].roster| == 2 && RosterOk(t, t.starts[0].roster)
      && t.rooms == map["x" := r] && t.starts[0].room == r && t.roomData[r].id == "x" && t.roomData[r].status == Playing
    ensures TableRun(crc, more, after) && |more| == |events| + 3 && PlaysOnZero(after[|more|], r, node)
  {
    var t := states[|events|];
    AcceptedEvents(crc, t, node);
    AcceptedOnZero(crc, t, r, node);
    var launched, e := LaunchedOnZero(crc, t), StartSteps(0, Offers(node));
    var calling := CallingFrom(launched, node);
    var last := [StartSteps(0, Offers(0)), e, e];
    ThreeMore(crc, events, states, last, [launched, calling, Accept(calling, 0)]);
    more, after := events + last, states + [launched, calling, Accept(calling, 0)];
  }

  lemma ThreeMore(crc: HashFn, events: seq<RoomEvents.Event>, states: seq<Table>, e: seq<RoomEvents.Event>,
                  t: seq<Table>)
    requires TableRun(crc, events, states) && |e| == |t| == 3
    requires Next(crc, states[|events|], e[0], t[0]) && Next(crc, t[0], e[1], t[1]) && Next(crc, t[1], e[2], t[2])
    ensures TableRun(crc, events + e, states + t)
  {
    var n := |events|;
    var more, after := events + e, states + t;
    forall i | 0 <= i < |more| ensures Next(crc, after[i], more[i], after[i + 1]) {
      if i < n {
        assert Next(crc, states[i], events[i], states[i + 1]);
      } else {
        assert more[i] == e[i - n] && after[i + 1] == t[i - n];
      }
    }
  }

  function Reported(conn: nat, serverID: string): NodeVal {
    MarkHealthy(BLANK_NODE.(healthy := true, conn := Some(conn)), Reports(serverID))
  }

  function Reports(serverID: string): HeartbeatInfo {
    HeartbeatInfo(0, 0.0, 10, serverID)
  }

  /** Pod 0 is down, pod 1 is a healthy new server, and the snapshot names the old server. */
  const TWO_PODS := Cluster(true, map[0 := Reported(7, "old").(healthy := false), 1 := Reported(8, "new")], true)

  /** A run of the registry that leads to that cluster. */
  lemma TwoPodsReached() returns (events: seq<EngineState.Event>, states: seq<Registry>)
    ensures events == [Connected(0, "", 7), Connected(1, "", 8), Beat(0, Some(Reports("old"))),
                       Beat(1, Some(Reports("new"))), Beat(0, None)]
    ensures RegistryRun(2, events, states) && states[5].nodes == TWO_PODS.nodes
  {
    var a, b := BLANK_NODE.(healthy := true, conn := Some(7)), BLANK_NODE.(healthy := true, conn := Some(8));
    events := [Connected(0, "", 7), Connected(1, "", 8), Beat(0, Some(Reports("old"))),
               Beat(1, Some(Reports("new"))), Beat(0, None)];
    var g1 := Connect(Initial(2), 0, "", 7);
    var g2 := Connect(g1, 1, "", 8);
    assert g2.nodes == map[0 := a, 1 := b];
    var g3 := Heartbeat(g2, 0, Some(Reports("old")));
    assert g3.nodes == map[0 := Reported(7, "old"), 1 := b];
    var g4 := Heartbeat(g3, 1, Some(Reports("new")));
    assert g4.nodes == map[0 := Reported(7, "old"), 1 := Reported(8, "new")];
    var g5 := Heartbeat(g4, 0, None);
    assert g5.nodes == TWO_PODS.nodes;
    states := [Initial(2), g1, g2, g3, g4, g5];
  }

  const OLD_SNAPSHOT := RoomSnapshot("x", 1, 0, "old", ["a", "b"], map[], map[])

  /** Reads and the engine call succeed, both saves fail, nothing is erased. */
  function SavesFail(): Oracle {
    id => RoomOracle(true, true, true, Created, false, false, false)
  }

  lemma OnlyPodOne(crc: HashFn)
    ensures HealthyPods(TWO_PODS.nodes) == {1} && Pick(crc, TWO_PODS, "x", 0) == Some(1)
  {
    assert 1 in HealthyPods(TWO_PODS.nodes);
    assert HealthyPods(TWO_PODS.nodes) - {0} == {1};
  }

  lemma MovedToPodOne(crc: HashFn, t: Table, r: GameRoom)
    requires PlaysOnZero(t, r, 0) && t.store == map["x" := OLD_SNAPSHOT]
    ensures FateOf(crc, TWO_PODS, SavesFail(), t, "x") == Migrated(1)
  {
    OnlyPodOne(crc);
  }

  lemma MovedAndTargeted(crc: HashFn, t: Table, r: GameRoom)
    requires PlaysOnZero(t, r, 0) && t.store == map["x" := OLD_SNAPSHOT]
    ensures var t' := FailoverRun(crc, TWO_PODS, SavesFail(), t);
      && t'.rooms == t.rooms && Refers(t') && r in t'.roomData && t'.roomData[r].nodeID == 1
      && Targeted(TWO_PODS, t', "x", SavesFail()("x").probe)
  {
    MovedToPodOne(crc, t, r);
    var t' := FailoverRun(crc, TWO_PODS, SavesFail(), t);
    MigratedRetargeted(crc, TWO_PODS, SavesFail(), SavesFail(), t, {}, "x");
    assert Erase(t', {}) == t';
    FateIsSound(crc, TWO_PODS, SavesFail(), t, "x");
    assert "x" in Targets(TWO_PODS, SavesFail(), t);
  }

  lemma SnapshotEvent(crc: HashFn, t: Table, r: GameRoom)
    requires PlaysOnZero(t, r, 0)
    ensures PlaysOnZero(t.(store := map["x" := OLD_SNAPSHOT]), r, 0)
    ensures Next(crc, t, StoreChanges(map["x" := OLD_SNAPSHOT]), t.(store := map["x" := OLD_SNAPSHOT]))
  {
  }

  lemma FailoverEvent(crc: HashFn, t: Table)
    requires Keyed(t)
    ensures Next(crc, t, FailsOver(TWO_PODS, SavesFail()), FailoverRun(crc, TWO_PODS, SavesFail(), t))
  {
  }

  /** The situation of `MigratedRetargeted` occurs, on a registry that a run of its own reaches: neither
      save of the new snapshot succeeds, and the next run targets the migrated room again. */
  lemma MigratedCanBeRetargeted(crc: HashFn, s1: Session, s2: Session, r: GameRoom)
      returns (events: seq<RoomEvents.Event>, states: seq<Table>,
               beats: seq<EngineState.Event>, registries: seq<Registry>)
    requires s1 != s2
    ensures RegistryRun(2, beats, registries) && |beats| == 5 && registries[5].nodes == TWO_PODS.nodes
    ensures TableRun(crc, events, states) && |events| == 10 && events[9] == FailsOver(TWO_PODS, SavesFail())
    ensures PlaysOnZero(states[9], r, 0)
    ensures Refers(states[10]) && states[10].rooms == map["x" := r]
    ensures r in states[10].roomData && states[10].roomData[r].nodeID == 1
    ensures Targeted(TWO_PODS, states[10], "x", SavesFail()("x").probe)
  {
    beats, registries := TwoPodsReached();
    events, states := AcceptedRun(crc, s1, s2, r, 0);
    SnapshotEvent(crc, states[8], r);
    events, states := RunExtends(crc, events, states, StoreChanges(map["x" := OLD_SNAPSHOT]),
                                 states[8].(store := map["x" := OLD_SNAPSHOT]));
    var t := states[9];
    MovedAndTargeted(crc, t, r);
    FailoverEvent(crc, t);
    events, states := RunExtends(crc, events, states, FailsOver(TWO_PODS, SavesFail()),
                                 FailoverRun(crc, TWO_PODS, SavesFail(), t));
  }
}
