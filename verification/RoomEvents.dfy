/** The events of the room table: commands, steps of background starts, failovers and restores, and
    what each of them keeps. */
module RoomEvents {
  import opened HashRing
  import opened RoomState
  import opened Failover
  import opened RoomPlacement
  import opened RoomLifecycle

  // ----- events -----

  datatype Event =
    | Connects(uid: string, newcomer: Session)
    | Disconnects(s: Session)
    | CleansUp(uid: string)
    | Creates(s: Session, r: GameRoom, id: string)
    | Joins(s: Session, id: string)
    | Leaves(s: Session)
    | Selects(s: Session, input: SelectInput)
    | Starts(s: Session)
    | StartSteps(k: nat, answers: StartOracle)
    | FailsOver(c: Cluster, o: Oracle)
    | StoreChanges(store: map<string, RoomSnapshot>)
    | Restores(snap: RoomSnapshot, r: GameRoom, made: map<string, Session>)

  /** What makes an event possible: new objects are new, a command comes from an existing session,
      and a snapshot is restored for one or two players under a room id not in use. */
  ghost predicate Enabled(t: Table, e: Event) {
    match e
    case Connects(uid, newcomer) => newcomer !in t.sessions
    case Disconnects(s) => s in t.sessions
    case CleansUp(uid) => true
    case Creates(s, r, id) => s in t.sessions && r !in t.roomData && id != "" && id !in t.rooms
    case Joins(s, id) => s in t.sessions
    case Leaves(s) => s in t.sessions
    case Selects(s, input) => s in t.sessions
    case Starts(s) => s in t.sessions
    case StartSteps(k, answers) => k in t.starts
    case FailsOver(c, o) => true
    case StoreChanges(store) => true
    case Restores(snap, r, made) =>
      Restorable(t, snap, r, made) && snap.roomID !in t.rooms && 1 <= |PlayersOf(snap)| <= 2
  }

  ghost function Apply(crc: HashFn, t: Table, e: Event): Table
    requires Placed(t) && Enabled(t, e)
  {
    match e
    case Connects(uid, newcomer) => ConnectUser(t, uid, newcomer)
    case Disconnects(s) => Disconnect(t, s)
    case CleansUp(uid) => CleanUp(t, uid)
    case Creates(s, r, id) => Create(t, s, r, id)
    case Joins(s, id) => Join(t, s, id)
    case Leaves(s) => Leave(t, s, t.sessions[s].roomID)
    case Selects(s, input) => Select(t, s, input)
    case Starts(s) => StartRequest(t, s)
    case StartSteps(k, answers) => StartStep(crc, t, k, answers)
    case FailsOver(c, o) => PlacedIsKeyed(t); FailoverRun(crc, c, o, t)
    case StoreChanges(store) => t.(store := store)
    case Restores(snap, r, made) => Restore(t, snap, r, made)
  }

  // ----- every event keeps sessions and rooms in agreement -----

  lemma StartRequestStaysPlaced(t: Table, s: Session)
    requires Placed(t) && s in t.sessions
    ensures Placed(StartRequest(t, s))
  {
    if t.sessions[s].roomID in t.rooms {
      ClaimStaysPlaced(t, t.rooms[t.sessions[s].roomID]);
    }
  }

  lemma KnownUserConnects(t: Table, uid: string)
    requires Placed(t) && uid in t.users
    ensures SameRooms(t, SetSession(t, t.users[uid], t.sessions[t.users[uid]].(online := true)))
  {
  }

  lemma NewcomerConnects(t: Table, uid: string, newcomer: Session)
    requires Placed(t) && newcomer !in t.sessions
    ensures SameRooms(t, SetSession(t, newcomer, SessionVal(uid, "", true, [])).(users := t.users[uid := newcomer]))
  {
  }

  lemma ConnectStaysPlaced(t: Table, uid: string, newcomer: Session)
    requires Placed(t) && newcomer !in t.sessions
    ensures Placed(ConnectUser(t, uid, newcomer))
  {
    if uid in t.users {
      KnownUserConnects(t, uid);
    } else {
      NewcomerConnects(t, uid, newcomer);
    }
    SameRoomsStayPlaced(t, ConnectUser(t, uid, newcomer));
  }

  lemma DisconnectStaysPlaced(t: Table, s: Session)
    requires Placed(t) && s in t.sessions
    ensures Placed(Disconnect(t, s))
  {
    SameRoomsStayPlaced(t, Disconnect(t, s));
  }

  lemma StoreStaysPlaced(t: Table, store: map<string, RoomSnapshot>)
    requires Placed(t)
    ensures Placed(t.(store := store))
  {
    SameRoomsStayPlaced(t, t.(store := store));
  }

  lemma EventKeepsPlaced(crc: HashFn, t: Table, e: Event)
    requires Placed(t) && Enabled(t, e)
    ensures Placed(Apply(crc, t, e))
  {
    match e
    case Connects(uid, newcomer) => ConnectStaysPlaced(t, uid, newcomer);
    case Disconnects(s) => DisconnectStaysPlaced(t, s);
    case CleansUp(uid) => CleanedStaysPlaced(t, uid);
    case Creates(s, r, id) => CreatedStaysPlaced(t, s, r, id);
    case Joins(s, id) => JoinedStaysPlaced(t, s, id);
    case Leaves(s) => LeftStaysPlaced(t, s);
    case Selects(s, input) => SelectStaysPlaced(t, s, input);
    case Starts(s) => StartRequestStaysPlaced(t, s);
    case StartSteps(k, answers) => StartStepStaysPlaced(crc, t, k, answers);
    case FailsOver(c, o) => FailoverStaysPlaced(crc, c, o, t);
    case Restores(snap, r, made) => RestoredUnusedStaysPlaced(t, snap, r, made);
    case StoreChanges(store) => StoreStaysPlaced(t, store);
  }

  lemma FailoverStaysPlaced(crc: HashFn, c: Cluster, o: Oracle, t: Table)
    requires Placed(t)
    ensures Keyed(t) && Placed(FailoverRun(crc, c, o, t))
  {
    PlacedIsKeyed(t);
    RunIsSound(crc, c, o, t);
    RelocationStaysPlaced(t, FailoverRun(crc, c, o, t));
  }

  lemma RestoredUnusedStaysPlaced(t: Table, snap: RoomSnapshot, r: GameRoom, made: map<string, Session>)
    requires Placed(t) && Restorable(t, snap, r, made) && snap.roomID !in t.rooms && 1 <= |PlayersOf(snap)| <= 2
    ensures Placed(Restore(t, snap, r, made))
  {
    forall s | s in t.sessions ensures t.sessions[s].roomID != snap.roomID {
      assert Held(t, s);
    }
    RestoredStaysPlaced(t, snap, r, made);
  }

  // ----- every event keeps statuses and starts in agreement -----

  /** Events that neither claim, advance nor resolve a start. */
  predicate LeavesStarts(e: Event) {
    !e.Selects? && !e.Starts? && !e.StartSteps? && !e.Restores?
  }

  lemma LeaveWinds(t: Table, s: Session, id: string)
    requires Refers(t) && s in t.sessions
    ensures Winds(t, Leave(t, s, id))
  {
  }

  lemma CleanUpWinds(t: Table, uid: string)
    requires Refers(t)
    ensures Winds(t, CleanUp(t, uid))
  {
    if uid in t.users && t.sessions[t.users[uid]].roomID != "" {
      LeaveWinds(t.(users := t.users - {uid}), t.users[uid], t.sessions[t.users[uid]].roomID);
    }
  }

  lemma JoinWinds(t: Table, s: Session, id: string)
    requires Refers(t) && s in t.sessions
    ensures Winds(t, Join(t, s, id))
  {
  }

  lemma CreateWinds(t: Table, s: Session, r: GameRoom, id: string)
    requires s in t.sessions && r !in t.roomData
    ensures Winds(t, Create(t, s, r, id))
  {
  }

  lemma FailoverWinds(crc: HashFn, c: Cluster, o: Oracle, t: Table)
    requires Keyed(t)
    ensures Winds(t, FailoverRun(crc, c, o, t))
  {
    RunIsSound(crc, c, o, t);
  }

  lemma SettledWinds(t: Table, t': Table)
    requires t'.roomData == t.roomData && t'.starts == t.starts && t'.nextStart == t.nextStart
    requires t'.accepted == t.accepted && t'.resumed == t.resumed
    ensures Winds(t, t')
  {
  }

  lemma EventWinds(crc: HashFn, t: Table, e: Event)
    requires Placed(t) && Enabled(t, e) && LeavesStarts(e)
    ensures Winds(t, Apply(crc, t, e))
  {
    match e
    case Connects(uid, newcomer) => SettledWinds(t, ConnectUser(t, uid, newcomer));
    case Disconnects(s) => SettledWinds(t, Disconnect(t, s));
    case CleansUp(uid) => CleanUpWinds(t, uid);
    case Creates(s, r, id) => CreateWinds(t, s, r, id);
    case Leaves(s) => LeaveWinds(t, s, t.sessions[s].roomID);
    case Joins(s, id) => JoinWinds(t, s, id);
    case FailsOver(c, o) =>
      PlacedIsKeyed(t);
      FailoverWinds(crc, c, o, t);
    case StoreChanges(store) => SettledWinds(t, t.(store := store));
  }

  lemma ReadyKeepsLifecycle(t: Table, r: GameRoom, p: string)
    requires Lifecycle(t) && r in t.roomData
    ensures Lifecycle(MarkReady(t, r, p))
  {
    var chosen := SetRoom(t, r, t.roomData[r].(ready := t.roomData[r].ready[p := true]));
    WindsKeepsLifecycle(t, chosen);
    ClaimKeepsLifecycle(chosen, r);
  }

  lemma SelectKeepsLifecycle(t: Table, s: Session, input: SelectInput)
    requires Lifecycle(t) && s in t.sessions
    ensures Lifecycle(Select(t, s, input))
  {
    var stored := SetSession(t, s, t.sessions[s].(team := if input.Request? then StoredTeam(input.team) else []));
    WindsKeepsLifecycle(t, stored);
    if SelectOutcome(t, s, input) == Chosen {
      ReadyKeepsLifecycle(stored, t.rooms[t.sessions[s].roomID], t.sessions[s].player);
    }
  }

  lemma LaunchKeepsLifecycle(t: Table, k: nat, init: BattleInit, node: int)
    requires Lifecycle(t) && k in t.starts
    ensures Lifecycle(Launch(t, k, init, node))
  {
    AdvanceKeepsLifecycle(t, Launch(t, k, init, node), k);
  }

  lemma PhaseKeepsLifecycle(t: Table, k: nat, phase: Phase)
    requires Lifecycle(t) && k in t.starts && (phase.Calling? ==> phase.failed < MAX_TRIES)
    ensures Lifecycle(SetPhase(t, k, phase))
  {
    AdvanceKeepsLifecycle(t, SetPhase(t, k, phase), k);
  }

  lemma StartStepKeepsLifecycle(crc: HashFn, t: Table, k: nat, o: StartOracle)
    requires Lifecycle(t) && k in t.starts && RosterOk(t, t.starts[k].roster)
    ensures Lifecycle(StartStep(crc, t, k, o))
  {
    match NextMove(crc, t, k, o)
    case Fails => FailKeepsLifecycle(t, k);
    case Launches(init, node) => LaunchKeepsLifecycle(t, k, init, node);
    case Proceeds(phase) => PhaseKeepsLifecycle(t, k, phase);
    case Succeeds => AcceptKeepsLifecycle(t, Accept(t, k), k);
  }

  lemma EventKeepsLifecycle(crc: HashFn, t: Table, e: Event)
    requires Placed(t) && Lifecycle(t) && Enabled(t, e)
    ensures Lifecycle(Apply(crc, t, e))
  {
    if LeavesStarts(e) {
      EventKeepsPlaced(crc, t, e);
      EventWinds(crc, t, e);
      WindsKeepsLifecycle(t, Apply(crc, t, e));
    } else {
      match e
      case Selects(s, input) => SelectKeepsLifecycle(t, s, input);
      case Starts(s) =>
        if t.sessions[s].roomID in t.rooms {
          ClaimKeepsLifecycle(t, t.rooms[t.sessions[s].roomID]);
        }
      case StartSteps(k, answers) =>
        assert RosterOk(t, t.starts[k].roster);
        StartStepKeepsLifecycle(crc, t, k, answers);
      case Restores(snap, r, made) =>
        EventKeepsPlaced(crc, t, e);
        RestoreKeepsLifecycle(t, snap, r, made);
    }
  }

  // ----- what one event does to the players of a room -----

  ghost predicate Within(small: map<string, Session>, big: map<string, Session>) {
    forall p :: p in small ==> p in big && big[p] == small[p]
  }

  predicate Live(t: Table, r: GameRoom)
    requires r in t.roomData
  {
    t.roomData[r].id in t.rooms && t.rooms[t.roomData[r].id] == r
  }

  /** Once a room is not waiting it only loses players, and while it plays it loses none. */
  ghost predicate Thins(t: Table, t': Table, r: GameRoom)
    requires r in t.roomData && r in t'.roomData
  {
    && t'.roomData[r].id == t.roomData[r].id
    && (t.roomData[r].status != Waiting ==> Within(t'.roomData[r].sessions, t.roomData[r].sessions))
    && (t.roomData[r].status == Playing && t'.roomData[r].status == Playing && Live(t', r) ==>
          t'.roomData[r].sessions == t.roomData[r].sessions)
    && (Live(t', r) ==> Live(t, r))
  }

  ghost predicate AllThin(t: Table, t': Table) {
    forall r {:trigger r in t'.roomData} :: r in t.roomData ==> r in t'.roomData && Thins(t, t', r)
  }

  lemma LeaveThins(t: Table, s: Session, id: string)
    requires Refers(t) && s in t.sessions
    requires id in t.rooms ==> t.roomData[t.rooms[id]].id == id
    ensures AllThin(t, Leave(t, s, id))
  {
  }

  lemma JoinThins(t: Table, s: Session, id: string)
    requires Refers(t) && s in t.sessions
    ensures AllThin(t, Join(t, s, id))
  {
  }

  /** Every room keeps its id and sessions. */
  ghost predicate KeepsSeats(t: Table, t': Table) {
    && t'.rooms == t.rooms
    && (forall r :: r in t.roomData ==>
          && r in t'.roomData
          && t'.roomData[r].id == t.roomData[r].id && t'.roomData[r].sessions == t.roomData[r].sessions)
  }

  lemma KeptSeatsThin(t: Table, t': Table)
    requires KeepsSeats(t, t')
    ensures AllThin(t, t')
  {
    forall r | r in t.roomData ensures r in t'.roomData && Thins(t, t', r) {
    }
  }

  lemma SessionsAsideThins(t: Table, t1: Table, t2: Table)
    requires t1.rooms == t.rooms && t1.roomData == t.roomData && AllThin(t1, t2)
    ensures AllThin(t, t2)
  {
    forall r | r in t.roomData ensures r in t2.roomData && Thins(t, t2, r) {
      assert r in t1.roomData && r in t2.roomData;
      assert Thins(t1, t2, r);
    }
  }

  lemma CleanUpThins(t: Table, uid: string)
    requires Placed(t)
    ensures AllThin(t, CleanUp(t, uid))
  {
    KeptSeatsThin(t, t.(users := t.users - {uid}));
    if uid in t.users && !t.sessions[t.users[uid]].online && t.sessions[t.users[uid]].roomID != "" {
      var id, forgotten := t.sessions[t.users[uid]].roomID, t.(users := t.users - {uid});
      assert id in t.rooms ==> LiveOk(t, id);
      LeaveThins(forgotten, t.users[uid], id);
      SessionsAsideThins(t, forgotten, CleanUp(t, uid));
    } else {
      KeptSeatsThin(t, t);
    }
  }

  lemma CreateThins(t: Table, s: Session, r: GameRoom, id: string)
    requires Refers(t) && s in t.sessions && r !in t.roomData
    ensures AllThin(t, Create(t, s, r, id))
  {
  }

  lemma EditKeepsSeats(t: Table, t': Table, r: GameRoom, v: RoomVal)
    requires r in t.roomData && t'.rooms == t.rooms && t'.roomData == t.roomData[r := v]
    requires v.id == t.roomData[r].id && v.sessions == t.roomData[r].sessions
    ensures KeepsSeats(t, t')
  {
  }

  lemma ClaimKeepsSeats(t: Table, r: GameRoom)
    requires r in t.roomData
    ensures KeepsSeats(t, Claim(t, r))
  {
  }

  lemma KeepsSeatsTransitive(t: Table, t1: Table, t2: Table)
    requires KeepsSeats(t, t1) && KeepsSeats(t1, t2)
    ensures KeepsSeats(t, t2)
  {
  }

  lemma ReadyKeepsSeats(t: Table, r: GameRoom, p: string)
    requires r in t.roomData
    ensures KeepsSeats(t, MarkReady(t, r, p))
  {
    var room := t.roomData[r].(ready := t.roomData[r].ready[p := true]);
    var chosen := SetRoom(t, r, room);
    EditKeepsSeats(t, chosen, r, room);
    ClaimKeepsSeats(chosen, r);
    KeepsSeatsTransitive(t, chosen, Claim(chosen, r));
  }

  lemma SelectThins(t: Table, s: Session, input: SelectInput)
    requires Refers(t) && s in t.sessions
    ensures AllThin(t, Select(t, s, input))
  {
    if SelectOutcome(t, s, input) == Chosen {
      var stored := SetSession(t, s, t.sessions[s].(team := StoredTeam(input.team)));
      ReadyKeepsSeats(stored, t.rooms[t.sessions[s].roomID], t.sessions[s].player);
    }
    KeptSeatsThin(t, Select(t, s, input));
  }

  lemma FailThins(t: Table, k: nat)
    requires Refers(t) && k in t.starts
    ensures AllThin(t, FailStart(t, k))
  {
    var r := t.starts[k].room;
    EditKeepsSeats(t, FailStart(t, k), r, t.roomData[r].(status := Waiting));
    KeptSeatsThin(t, FailStart(t, k));
  }

  lemma LaunchThins(t: Table, k: nat, init: BattleInit, node: int)
    requires Refers(t) && k in t.starts
    ensures AllThin(t, Launch(t, k, init, node))
  {
    var r := t.starts[k].room;
    EditKeepsSeats(t, Launch(t, k, init, node), r, t.roomData[r].(nodeID := node));
    KeptSeatsThin(t, Launch(t, k, init, node));
  }

  lemma SettledThins(t: Table, t': Table)
    requires t'.rooms == t.rooms && t'.roomData == t.roomData
    ensures AllThin(t, t')
  {
    KeptSeatsThin(t, t');
  }

  lemma StartStepThins(crc: HashFn, t: Table, k: nat, o: StartOracle)
    requires Refers(t) && k in t.starts && RosterOk(t, t.starts[k].roster)
    ensures AllThin(t, StartStep(crc, t, k, o))
  {
    match NextMove(crc, t, k, o)
    case Fails => FailThins(t, k);
    case Launches(init, node) => LaunchThins(t, k, init, node);
    case Proceeds(phase) => SettledThins(t, SetPhase(t, k, phase));
    case Succeeds => SettledThins(t, Accept(t, k));
  }

  lemma RestoreThins(t: Table, snap: RoomSnapshot, r: GameRoom, made: map<string, Session>)
    requires Refers(t) && r !in t.roomData
    ensures AllThin(t, Restore(t, snap, r, made))
  {
  }

  lemma StartRequestThins(t: Table, s: Session)
    requires Refers(t) && s in t.sessions
    ensures AllThin(t, StartRequest(t, s))
  {
    KeptSeatsThin(t, StartRequest(t, s));
  }

  lemma FailoverThins(crc: HashFn, c: Cluster, o: Oracle, t: Table)
    requires Keyed(t)
    ensures AllThin(t, FailoverRun(crc, c, o, t))
  {
    RunIsSound(crc, c, o, t);
    KeptSeatsThin(t, FailoverRun(crc, c, o, t));
  }

  lemma EventThins(crc: HashFn, t: Table, e: Event)
    requires Placed(t) && Enabled(t, e)
    ensures AllThin(t, Apply(crc, t, e))
  {
    match e
    case CleansUp(uid) => CleanUpThins(t, uid);
    case Creates(s, r, id) => CreateThins(t, s, r, id);
    case Joins(s, id) => JoinThins(t, s, id);
    case Leaves(s) =>
      var id := t.sessions[s].roomID;
      assert id in t.rooms ==> LiveOk(t, id);
      LeaveThins(t, s, id);
    case Selects(s, input) => SelectThins(t, s, input);
    case StartSteps(k, answers) =>
      assert RosterOk(t, t.starts[k].roster);
      StartStepThins(crc, t, k, answers);
    case FailsOver(c, o) =>
      PlacedIsKeyed(t);
      FailoverThins(crc, c, o, t);
    case Restores(snap, r, made) => RestoreThins(t, snap, r, made);
    case Connects(uid, newcomer) => KeptSeatsThin(t, ConnectUser(t, uid, newcomer));
    case Disconnects(s) => KeptSeatsThin(t, Disconnect(t, s));
    case Starts(s) => StartRequestThins(t, s);
    case StoreChanges(store) => KeptSeatsThin(t, t.(store := store));
  }
}
