/** The room table field by field: which events write it, and what they write. */
module RoomFields {
  import opened HashRing
  import opened RoomState
  import opened Failover
  import opened RoomPlacement
  import opened RoomLifecycle
  import opened RoomEvents
  import opened RoomRuns
  import opened RoomLaws

  // ----- what an event does, said of the table before it -----

  /** The session that leaves its room: at its own wish, or forgotten while still offline. */
  function Leaver(t: Table, e: Event): Option<Session>
    requires Refers(t)
  {
    match e
    case Leaves(s) => Some(s)
    case CleansUp(uid) => if uid in t.users && !t.sessions[t.users[uid]].online then Some(t.users[uid]) else None
    case _ => None
  }

  ghost predicate LeavesRoom(t: Table, e: Event, r: GameRoom)
    requires Refers(t) && Enabled(t, e)
  {
    Leaver(t, e).Some? &&
    var id := t.sessions[Leaver(t, e).value].roomID;
    id in t.rooms && t.rooms[id] == r
  }

  ghost predicate JoinsRoom(t: Table, e: Event, r: GameRoom)
    requires Refers(t) && Enabled(t, e)
  {
    && e.Joins? && e.id in t.rooms && t.rooms[e.id] == r
    && t.roomData[r].status == Waiting
    && t.sessions[e.s].player !in t.roomData[r].sessions && |t.roomData[r].sessions| < 2
  }

  /** A member of a waiting room sends a team of at most six. */
  ghost predicate Chooses(t: Table, e: Event, r: GameRoom)
    requires Refers(t) && Enabled(t, e)
  {
    && e.Selects? && t.sessions[e.s].roomID in t.rooms && t.rooms[t.sessions[e.s].roomID] == r
    && t.sessions[e.s].player in t.roomData[r].sessions && t.roomData[r].status == Waiting
    && e.input.Request? && |e.input.team| <= 6
  }

  /** And every ability in it is a number. */
  ghost predicate ChoosesWell(t: Table, e: Event, r: GameRoom)
    requires Refers(t) && Enabled(t, e)
  {
    Chooses(t, e, r) && forall i :: 0 <= i < |e.input.team| ==> e.input.team[i].hasAbility
  }

  /** A start is asked for in a waiting room, or a good choice finds another member ready. */
  ghost predicate ClaimsRoom(t: Table, e: Event, r: GameRoom)
    requires Refers(t) && Enabled(t, e) && r in t.roomData
  {
    t.roomData[r].status == Waiting &&
    (|| (e.Starts? && t.sessions[e.s].roomID in t.rooms && t.rooms[t.sessions[e.s].roomID] == r)
     || (ChoosesWell(t, e, r) &&
         exists q :: q in t.roomData[r].ready && q != t.sessions[e.s].player && t.roomData[r].ready[q]))
  }

  /** A start ends without a battle: too few players, no node, or the third call failing. */
  ghost predicate Aborts(t: Table, e: Event, r: GameRoom)
    requires Refers(t) && Enabled(t, e)
  {
    && e.StartSteps? && t.starts[e.k].room == r
    && match t.starts[e.k].phase
       case Claimed => |t.starts[e.k].roster| < 2 || e.answers.node.None?
       case Launched(_, _) => !e.answers.targetFound && e.answers.node.None?
       case Calling(_, _, _, failed) => !e.answers.created && failed >= 2
  }

  // ----- answers -----

  lemma JoinAnswers(t: Table, s: Session, id: string)
    requires Refers(t) && s in t.sessions
    ensures JoinOutcome(t, s, id) == NoSuchRoom <==> id !in t.rooms
    ensures JoinOutcome(t, s, id) == AlreadyInside <==>
            id in t.rooms && t.sessions[s].player in t.roomData[t.rooms[id]].sessions
    ensures id in t.rooms && t.sessions[s].player !in t.roomData[t.rooms[id]].sessions ==>
              var room := t.roomData[t.rooms[id]];
              && (JoinOutcome(t, s, id) == NotWaiting <==> room.status != Waiting)
              && (JoinOutcome(t, s, id) == Full <==> room.status == Waiting && |room.sessions| >= 2)
  {
  }

  lemma SelectAnswers(t: Table, s: Session, input: SelectInput)
    requires Placed(t) && s in t.sessions
    ensures var outcome, id := SelectOutcome(t, s, input), t.sessions[s].roomID;
      && (outcome == NoRoom <==> id == "")
      && outcome != NotInside
      && (id != "" ==>
            && id in t.rooms
            && var waits := t.roomData[t.rooms[id]].status == Waiting;
               && (outcome == Started <==> !waits)
               && (outcome == NoData <==> waits && input.Empty?)
               && (outcome == BadData <==> waits && input.Malformed?)
               && (outcome == TooMany <==> waits && input.Request? && |input.team| > 6)
               && (outcome == Chosen <==> waits && input.Request? && |input.team| <= 6 &&
                                          forall i :: 0 <= i < |input.team| ==> input.team[i].hasAbility))
  {
    assert Held(t, s);
  }

  /** What a request leaves on the session: its longest beginning with numeric abilities. */
  lemma StoredTeamExactly(team: seq<PokemonRequest>)
    ensures |StoredTeam(team)| <= |team|
    ensures forall i :: 0 <= i < |StoredTeam(team)| ==> team[i].hasAbility && StoredTeam(team)[i] == team[i].pokemon
    ensures |StoredTeam(team)| < |team| ==> !team[|StoredTeam(team)|].hasAbility
  {
  }

  // ----- sessions -----

  /** The room a session names: the one it made or joined last, until it leaves. */
  ghost function RoomIDAfter(t: Table, e: Event, s: Session): string
    requires Refers(t) && Enabled(t, e) && s in t.sessions
  {
    if e.Creates? && e.s == s then e.id
    else if e.Joins? && e.s == s && e.id in t.rooms && JoinsRoom(t, e, t.rooms[e.id]) then e.id
    else if Leaver(t, e) == Some(s) then ""
    else t.sessions[s].roomID
  }

  /** It is online from a connection of its user to the next disconnection. */
  ghost predicate OnlineAfter(t: Table, e: Event, s: Session)
    requires Refers(t) && s in t.sessions
  {
    (e.Connects? && e.uid in t.users && t.users[e.uid] == s) || (t.sessions[s].online && e != Disconnects(s))
  }

  /** Its team is what its last choice stored. */
  ghost function TeamAfter(t: Table, e: Event, s: Session): Team
    requires Refers(t) && Enabled(t, e) && s in t.sessions
  {
    if e.Selects? && e.s == s && t.sessions[s].roomID in t.rooms && Chooses(t, e, t.rooms[t.sessions[s].roomID])
    then StoredTeam(e.input.team) else t.sessions[s].team
  }

  ghost function SessionAfter(t: Table, e: Event, s: Session): SessionVal
    requires Refers(t) && Enabled(t, e) && s in t.sessions
  {
    SessionVal(t.sessions[s].player, RoomIDAfter(t, e, s), OnlineAfter(t, e, s), TeamAfter(t, e, s))
  }

  lemma ReturnWrites(t: Table, uid: string, newcomer: Session, x: Session)
    requires Refers(t) && newcomer !in t.sessions && x in t.sessions && uid in t.users
    ensures ConnectUser(t, uid, newcomer).sessions[x] == SessionAfter(t, Connects(uid, newcomer), x)
  {
  }

  lemma ArrivalWrites(t: Table, uid: string, newcomer: Session, x: Session)
    requires Refers(t) && newcomer !in t.sessions && x in t.sessions && uid !in t.users
    ensures x in ConnectUser(t, uid, newcomer).sessions
    ensures ConnectUser(t, uid, newcomer).sessions[x] == SessionAfter(t, Connects(uid, newcomer), x)
  {
  }

  lemma ConnectWrites(t: Table, uid: string, newcomer: Session, x: Session)
    requires Placed(t) && newcomer !in t.sessions && x in t.sessions
    ensures x in ConnectUser(t, uid, newcomer).sessions
    ensures ConnectUser(t, uid, newcomer).sessions[x] == SessionAfter(t, Connects(uid, newcomer), x)
  {
    if uid in t.users {
      ReturnWrites(t, uid, newcomer, x);
    } else {
      ArrivalWrites(t, uid, newcomer, x);
    }
  }

  lemma DisconnectWrites(t: Table, s: Session, x: Session)
    requires Placed(t) && s in t.sessions && x in t.sessions
    ensures Disconnect(t, s).sessions[x] == SessionAfter(t, Disconnects(s), x)
  {
  }

  lemma CreateWrites(t: Table, s: Session, r: GameRoom, id: string, x: Session)
    requires Placed(t) && Enabled(t, Creates(s, r, id)) && x in t.sessions
    ensures Create(t, s, r, id).sessions[x] == SessionAfter(t, Creates(s, r, id), x)
  {
  }

  lemma JoinWrites(t: Table, s: Session, id: string, x: Session)
    requires Placed(t) && s in t.sessions && x in t.sessions
    ensures Join(t, s, id).sessions[x] == SessionAfter(t, Joins(s, id), x)
  {
    JoinAnswers(t, s, id);
  }

  lemma LeaveWrites(t: Table, s: Session, x: Session)
    requires Placed(t) && s in t.sessions && x in t.sessions
    ensures Leave(t, s, t.sessions[s].roomID).sessions[x] == SessionAfter(t, Leaves(s), x)
  {
    assert Held(t, s);
  }

  lemma LeaveIgnoresUsers(t: Table, t': Table, s: Session, id: string)
    requires Refers(t) && Refers(t') && s in t.sessions && t' == t.(users := t'.users)
    ensures Leave(t', s, id) == Leave(t, s, id).(users := t'.users)
  {
    if id in t.rooms {
      var left := LeftRoom(t.roomData[t.rooms[id]], t.sessions[s].player);
      assert left == LeftRoom(t'.roomData[t'.rooms[id]], t'.sessions[s].player);
    }
  }

  /** Forgetting an offline user is leaving, apart from the list of users. */
  lemma CleanUpIsLeave(t: Table, uid: string)
    requires Placed(t) && uid in t.users && !t.sessions[t.users[uid]].online
    ensures CleanUp(t, uid) == Leave(t, t.users[uid], t.sessions[t.users[uid]].roomID).(users := t.users - {uid})
  {
    PlacedIsKeyed(t);
    var s, users := t.users[uid], t.users - {uid};
    assert "" !in t.rooms;
    assert Refers(t.(users := users));
    LeaveIgnoresUsers(t, t.(users := users), s, t.sessions[s].roomID);
    assert t.sessions[s].roomID == "" ==> Leave(t, s, "") == t;
  }

  lemma SameSession(t: Table, uid: string, x: Session)
    requires Refers(t) && uid in t.users && !t.sessions[t.users[uid]].online && x in t.sessions
    ensures SessionAfter(t, CleansUp(uid), x) == SessionAfter(t, Leaves(t.users[uid]), x)
  {
  }

  lemma CleanUpWrites(t: Table, uid: string, x: Session)
    requires Placed(t) && x in t.sessions
    ensures CleanUp(t, uid).sessions[x] == SessionAfter(t, CleansUp(uid), x)
  {
    if uid in t.users && !t.sessions[t.users[uid]].online {
      CleanUpIsLeave(t, uid);
      LeaveWrites(t, t.users[uid], x);
      SameSession(t, uid, x);
    }
  }

  /** A raised flag changes its room and may begin a start; it leaves the sessions alone. */
  lemma ReadyRoom(t: Table, r: GameRoom, p: string)
    requires r in t.roomData
    ensures var room := t.roomData[r].(ready := t.roomData[r].ready[p := true]);
            var claims := AutoStart(room) && room.status == Waiting;
      && MarkReady(t, r, p).roomData == t.roomData[r := if claims then room.(status := Playing) else room]
      && MarkReady(t, r, p).sessions == t.sessions
      && MarkReady(t, r, p).nextStart == t.nextStart + (if claims then 1 else 0)
      && (claims ==> t.nextStart in MarkReady(t, r, p).starts &&
                     MarkReady(t, r, p).starts[t.nextStart] == Attempt(r, room.sessions, Claimed))
  {
    var room := t.roomData[r].(ready := t.roomData[r].ready[p := true]);
    var chosen := SetRoom(t, r, room);
    assert chosen.roomData[r] == room;
    assert chosen.roomData[r := room.(status := Playing)] == t.roomData[r := room.(status := Playing)];
  }

  /** What a choice by a member of a waiting room does, good or bad. */
  lemma ChoiceStored(t: Table, s: Session, input: SelectInput)
    requires Refers(t) && s in t.sessions
    requires SelectOutcome(t, s, input) == Chosen || SelectOutcome(t, s, input) == BadAbility
    ensures Select(t, s, input).sessions == t.sessions[s := t.sessions[s].(team := StoredTeam(input.team))]
    ensures Select(t, s, input).roomData ==
            if SelectOutcome(t, s, input) == BadAbility then t.roomData
            else MarkReady(t, t.rooms[t.sessions[s].roomID], t.sessions[s].player).roomData
  {
    var stored := SetSession(t, s, t.sessions[s].(team := StoredTeam(input.team)));
    var r, p := t.rooms[t.sessions[s].roomID], t.sessions[s].player;
    ReadyRoom(t, r, p);
    ReadyRoom(stored, r, p);
  }

  lemma SelectWrites(t: Table, s: Session, input: SelectInput, x: Session)
    requires Placed(t) && s in t.sessions && x in t.sessions
    ensures x in Select(t, s, input).sessions
    ensures Select(t, s, input).sessions[x] == SessionAfter(t, Selects(s, input), x)
  {
    SelectAnswers(t, s, input);
    PlacedIsKeyed(t);
    assert Held(t, s) && "" !in t.rooms;
    if SelectOutcome(t, s, input) == Chosen || SelectOutcome(t, s, input) == BadAbility {
      ChoiceStored(t, s, input);
      assert Chooses(t, Selects(s, input), t.rooms[t.sessions[s].roomID]);
    }
  }

  lemma QuietWrites(t: Table, e: Event, t': Table, x: Session)
    requires Placed(t) && Enabled(t, e) && x in t.sessions && t'.sessions == t.sessions
    requires e.Starts? || e.StartSteps? || e.FailsOver? || e.StoreChanges?
    ensures t'.sessions[x] == SessionAfter(t, e, x)
  {
  }

  lemma RestoreWrites(t: Table, snap: RoomSnapshot, r: GameRoom, made: map<string, Session>, x: Session)
    requires Placed(t) && Enabled(t, Restores(snap, r, made)) && x in t.sessions
    ensures x in Restore(t, snap, r, made).sessions
    ensures Restore(t, snap, r, made).sessions[x] == SessionAfter(t, Restores(snap, r, made), x)
  {
    RestoredObjects(t, snap, r, made);
  }

  lemma FailKeepsSessions(t: Table, k: nat)
    requires Refers(t) && k in t.starts
    ensures var t' := FailStart(t, k);
      t'.sessions == t.sessions && t'.rooms == t.rooms && t'.users == t.users && t'.store == t.store
  {
  }

  lemma LaunchKeepsSessions(t: Table, k: nat, init: BattleInit, node: int)
    requires Refers(t) && k in t.starts
    ensures var t' := Launch(t, k, init, node);
      t'.sessions == t.sessions && t'.rooms == t.rooms && t'.users == t.users && t'.store == t.store
  {
  }

  /** A start step leaves sessions, users and the rooms in the table alone. */
  lemma StartStepKeepsSessions(crc: HashFn, t: Table, k: nat, o: StartOracle)
    requires Refers(t) && k in t.starts && RosterOk(t, t.starts[k].roster)
    ensures var t' := StartStep(crc, t, k, o);
      t'.sessions == t.sessions && t'.rooms == t.rooms && t'.users == t.users && t'.store == t.store
  {
    match NextMove(crc, t, k, o)
    case Fails => FailKeepsSessions(t, k);
    case Launches(init, node) => LaunchKeepsSessions(t, k, init, node);
    case Proceeds(phase) =>
    case Succeeds =>
  }

  predicate IsCommand(e: Event) {
    e.Creates? || e.Joins? || e.Leaves? || e.Selects? || e.CleansUp?
  }

  lemma CommandsWriteSessions(crc: HashFn, t: Table, e: Event, x: Session)
    requires Placed(t) && Enabled(t, e) && x in t.sessions && IsCommand(e)
    ensures x in Apply(crc, t, e).sessions
    ensures Apply(crc, t, e).sessions[x] == SessionAfter(t, e, x)
  {
    match e
    case CleansUp(uid) => CleanUpWrites(t, uid, x);
    case Creates(s, r, id) => CreateWrites(t, s, r, id, x);
    case Joins(s, id) => JoinWrites(t, s, id, x);
    case Leaves(s) => LeaveWrites(t, s, x);
    case Selects(s, input) => SelectWrites(t, s, input, x);
  }

  /** Every event leaves every session as described. */
  lemma SessionsWritten(crc: HashFn, t: Table, e: Event, x: Session)
    requires Placed(t) && Enabled(t, e) && x in t.sessions
    ensures x in Apply(crc, t, e).sessions
    ensures Apply(crc, t, e).sessions[x] == SessionAfter(t, e, x)
  {
    if IsCommand(e) {
      CommandsWriteSessions(crc, t, e, x);
    } else {
      match e
      case Connects(uid, newcomer) => ConnectWrites(t, uid, newcomer, x);
      case Disconnects(s) => DisconnectWrites(t, s, x);
      case Starts(s) => QuietWrites(t, e, StartRequest(t, s), x);
      case StartSteps(k, o) =>
        assert RosterOk(t, t.starts[k].roster);
        StartStepKeepsSessions(crc, t, k, o);
        QuietWrites(t, e, StartStep(crc, t, k, o), x);
      case FailsOver(c, o) =>
        PlacedIsKeyed(t);
        RunIsSound(crc, c, o, t);
        QuietWrites(t, e, FailoverRun(crc, c, o, t), x);
      case StoreChanges(store) => QuietWrites(t, e, t.(store := store), x);
      case Restores(snap, r, made) => RestoreWrites(t, snap, r, made, x);
    }
  }

  // ----- rooms -----

  /** The players: one who joins is added, one who leaves taken away. */
  ghost function PlayersAfter(t: Table, e: Event, r: GameRoom): map<string, Session>
    requires Refers(t) && Enabled(t, e) && r in t.roomData
  {
    if LeavesRoom(t, e, r) then t.roomData[r].sessions - {t.sessions[Leaver(t, e).value].player}
    else if JoinsRoom(t, e, r) then t.roomData[r].sessions[t.sessions[e.s].player := e.s]
    else t.roomData[r].sessions
  }

  /** The flags: down for one who joins, up for one who chooses well. */
  ghost function FlagsAfter(t: Table, e: Event, r: GameRoom): map<string, bool>
    requires Refers(t) && Enabled(t, e) && r in t.roomData
  {
    if LeavesRoom(t, e, r) then t.roomData[r].ready - {t.sessions[Leaver(t, e).value].player}
    else if JoinsRoom(t, e, r) then t.roomData[r].ready[t.sessions[e.s].player := false]
    else if ChoosesWell(t, e, r) then t.roomData[r].ready[t.sessions[e.s].player := true]
    else t.roomData[r].ready
  }

  /** The status: a claimed room plays, a playing room that one of two players leaves is finished, and
      an aborted start makes its room wait. */
  ghost function StatusAfter(t: Table, e: Event, r: GameRoom): Status
    requires Refers(t) && Enabled(t, e) && r in t.roomData
  {
    if ClaimsRoom(t, e, r) then Playing
    else if LeavesRoom(t, e, r) && t.roomData[r].status == Playing && |t.roomData[r].sessions| == 2 then Finished
    else if Aborts(t, e, r) then Waiting
    else t.roomData[r].status
  }

  /** `v` is the room as the event leaves it, wherever it is placed. */
  ghost predicate RoomAsDescribed(t: Table, e: Event, r: GameRoom, v: RoomVal)
    requires Refers(t) && Enabled(t, e) && r in t.roomData
  {
    && v.id == t.roomData[r].id
    && v.sessions == PlayersAfter(t, e, r) && v.ready == FlagsAfter(t, e, r) && v.status == StatusAfter(t, e, r)
  }

  lemma UntouchedRoom(t: Table, e: Event, r: GameRoom)
    requires Refers(t) && Enabled(t, e) && r in t.roomData
    requires e.Connects? || e.Disconnects? || e.FailsOver? || e.StoreChanges? || e.Restores? || e.Creates?
    ensures RoomAsDescribed(t, e, r, t.roomData[r])
  {
  }

  lemma RefusedJoin(t: Table, s: Session, id: string, r: GameRoom)
    requires Placed(t) && s in t.sessions && r in t.roomData && JoinOutcome(t, s, id) != Joined
    ensures Join(t, s, id) == t && RoomAsDescribed(t, Joins(s, id), r, t.roomData[r])
  {
    JoinAnswers(t, s, id);
  }

  lemma AcceptedJoin(t: Table, s: Session, id: string)
    requires Refers(t) && s in t.sessions && JoinOutcome(t, s, id) == Joined
    ensures id in t.rooms
    ensures var r, p := t.rooms[id], t.sessions[s].player; var room := t.roomData[r];
      && JoinsRoom(t, Joins(s, id), r)
      && Join(t, s, id).roomData ==
         t.roomData[r := RoomVal(room.id, room.sessions[p := s], room.ready[p := false], room.status, room.nodeID)]
  {
    JoinAnswers(t, s, id);
  }

  lemma JoinWritesRoom(t: Table, s: Session, id: string, r: GameRoom)
    requires Placed(t) && s in t.sessions && r in t.roomData
    ensures r in Join(t, s, id).roomData && RoomAsDescribed(t, Joins(s, id), r, Join(t, s, id).roomData[r])
  {
    if JoinOutcome(t, s, id) == Joined {
      AcceptedJoin(t, s, id);
    } else {
      RefusedJoin(t, s, id, r);
    }
  }

  lemma TwoMembers(t: Table, s: Session)
    requires Placed(t) && s in t.sessions && t.sessions[s].roomID != ""
    ensures t.sessions[s].roomID in t.rooms
    ensures var room := t.roomData[t.rooms[t.sessions[s].roomID]];
      && t.sessions[s].player in room.sessions
      && (|room.sessions - {t.sessions[s].player}| != 0 <==> |room.sessions| == 2)
  {
    var id, p := t.sessions[s].roomID, t.sessions[s].player;
    assert Held(t, s) && LiveOk(t, id);
    var sessions := t.roomData[t.rooms[id]].sessions;
    assert (sessions - {p}).Keys == sessions.Keys - {p};
    assert |sessions| == |sessions.Keys| && |sessions - {p}| == |(sessions - {p}).Keys|;
  }

  lemma LeftExactly(t: Table, s: Session, id: string)
    requires Refers(t) && s in t.sessions && id in t.rooms
    ensures var r, p := t.rooms[id], t.sessions[s].player; var room := t.roomData[r];
            var stays := |room.sessions - {p}| != 0;
            var left := RoomVal(room.id, room.sessions - {p}, room.ready - {p},
                                if stays && room.status == Playing then Finished else room.status, room.nodeID);
      && Leave(t, s, id).roomData == t.roomData[r := left]
      && Leave(t, s, id).rooms == if stays then t.rooms else t.rooms - {id}
  {
  }

  lemma DepartureDescribed(t: Table, s: Session, r: GameRoom)
    requires Refers(t) && s in t.sessions && r in t.roomData && LeavesRoom(t, Leaves(s), r)
    ensures var room, p := t.roomData[r], t.sessions[s].player;
      && PlayersAfter(t, Leaves(s), r) == room.sessions - {p} && FlagsAfter(t, Leaves(s), r) == room.ready - {p}
      && StatusAfter(t, Leaves(s), r) ==
         if room.status == Playing && |room.sessions| == 2 then Finished else room.status
  {
  }

  lemma LeaveWritesOwnRoom(t: Table, s: Session)
    requires Placed(t) && s in t.sessions && t.sessions[s].roomID != ""
    ensures t.sessions[s].roomID in t.rooms
    ensures var id := t.sessions[s].roomID; var r, t' := t.rooms[id], Leave(t, s, id);
      && t'.roomData == t.roomData[r := t'.roomData[r]]
      && RoomAsDescribed(t, Leaves(s), r, t'.roomData[r])
  {
    TwoMembers(t, s);
    LeftExactly(t, s, t.sessions[s].roomID);
    DepartureDescribed(t, s, t.rooms[t.sessions[s].roomID]);
  }

  lemma OtherRoomsDescribed(t: Table, s: Session, r: GameRoom)
    requires Placed(t) && s in t.sessions && r in t.roomData
    requires t.sessions[s].roomID in t.rooms ==> t.rooms[t.sessions[s].roomID] != r
    ensures RoomAsDescribed(t, Leaves(s), r, t.roomData[r])
  {
  }

  lemma LeaveWritesRoom(t: Table, s: Session, r: GameRoom)
    requires Placed(t) && s in t.sessions && r in t.roomData
    ensures var t' := Leave(t, s, t.sessions[s].roomID);
      r in t'.roomData && RoomAsDescribed(t, Leaves(s), r, t'.roomData[r])
  {
    PlacedIsKeyed(t);
    if t.sessions[s].roomID == "" {
      OtherRoomsDescribed(t, s, r);
    } else {
      LeaveWritesOwnRoom(t, s);
      if t.rooms[t.sessions[s].roomID] != r {
        OtherRoomsDescribed(t, s, r);
      }
    }
  }

  lemma SameDeparture(t: Table, uid: string, r: GameRoom)
    requires Refers(t) && uid in t.users && !t.sessions[t.users[uid]].online && r in t.roomData
    ensures LeavesRoom(t, Leaves(t.users[uid]), r) <==> LeavesRoom(t, CleansUp(uid), r)
    ensures PlayersAfter(t, Leaves(t.users[uid]), r) == PlayersAfter(t, CleansUp(uid), r)
    ensures FlagsAfter(t, Leaves(t.users[uid]), r) == FlagsAfter(t, CleansUp(uid), r)
    ensures StatusAfter(t, Leaves(t.users[uid]), r) == StatusAfter(t, CleansUp(uid), r)
  {
    assert Leaver(t, CleansUp(uid)) == Some(t.users[uid]) == Leaver(t, Leaves(t.users[uid]));
  }

  lemma CleanUpWritesRoom(t: Table, uid: string, r: GameRoom)
    requires Placed(t) && r in t.roomData
    ensures r in CleanUp(t, uid).roomData && RoomAsDescribed(t, CleansUp(uid), r, CleanUp(t, uid).roomData[r])
  {
    if uid in t.users && !t.sessions[t.users[uid]].online {
      CleanUpIsLeave(t, uid);
      LeaveWritesRoom(t, t.users[uid], r);
      SameDeparture(t, uid, r);
    }
  }

  /** A choice that is refused leaves every room as it was. */
  lemma RefusedChoice(t: Table, s: Session, input: SelectInput, r: GameRoom)
    requires Placed(t) && s in t.sessions && r in t.roomData && SelectOutcome(t, s, input) != Chosen
    ensures RoomAsDescribed(t, Selects(s, input), r, t.roomData[r])
    ensures Select(t, s, input).roomData == t.roomData
  {
    SelectAnswers(t, s, input);
    PlacedIsKeyed(t);
  }

  lemma ReadyExactly(t: Table, r: GameRoom, p: string)
    requires r in t.roomData && t.roomData[r].status == Waiting
    requires t.roomData[r].ready.Keys == t.roomData[r].sessions.Keys && |t.roomData[r].sessions| <= 2
    requires p in t.roomData[r].sessions
    ensures var room := t.roomData[r];
            var claims := exists q :: q in room.ready && q != p && room.ready[q];
      MarkReady(t, r, p).roomData ==
      t.roomData[r := room.(ready := room.ready[p := true], status := if claims then Playing else Waiting)]
  {
    SecondFlag(t.roomData[r], p);
    ReadyRoom(t, r, p);
  }

  lemma ChoiceDescribed(t: Table, s: Session, input: SelectInput, r: GameRoom)
    requires Refers(t) && s in t.sessions && r in t.roomData && ChoosesWell(t, Selects(s, input), r)
    ensures var room, p := t.roomData[r], t.sessions[s].player;
            var claims := exists q :: q in room.ready && q != p && room.ready[q];
      && PlayersAfter(t, Selects(s, input), r) == room.sessions
      && FlagsAfter(t, Selects(s, input), r) == room.ready[p := true]
      && StatusAfter(t, Selects(s, input), r) == if claims then Playing else Waiting
  {
  }

  lemma GoodChoice(t: Table, s: Session, input: SelectInput)
    requires Placed(t) && s in t.sessions && SelectOutcome(t, s, input) == Chosen
    ensures t.sessions[s].roomID in t.rooms
    ensures var r, t' := t.rooms[t.sessions[s].roomID], Select(t, s, input);
      && t'.roomData == t.roomData[r := t'.roomData[r]]
      && RoomAsDescribed(t, Selects(s, input), r, t'.roomData[r])
  {
    SelectAnswers(t, s, input);
    var id, p := t.sessions[s].roomID, t.sessions[s].player;
    assert Held(t, s) && LiveOk(t, id) && MembersOk(t, t.rooms[id]);
    ChoiceStored(t, s, input);
    ReadyExactly(t, t.rooms[id], p);
    ChoiceDescribed(t, s, input, t.rooms[id]);
  }

  lemma UnchosenRoom(t: Table, s: Session, input: SelectInput, r: GameRoom)
    requires Placed(t) && s in t.sessions && r in t.roomData
    requires t.sessions[s].roomID in t.rooms ==> t.rooms[t.sessions[s].roomID] != r
    ensures RoomAsDescribed(t, Selects(s, input), r, t.roomData[r])
  {
  }

  lemma SelectWritesRoom(t: Table, s: Session, input: SelectInput, r: GameRoom)
    requires Placed(t) && s in t.sessions && r in t.roomData
    ensures r in Select(t, s, input).roomData
    ensures RoomAsDescribed(t, Selects(s, input), r, Select(t, s, input).roomData[r])
  {
    if SelectOutcome(t, s, input) == Chosen {
      GoodChoice(t, s, input);
      if t.rooms[t.sessions[s].roomID] != r {
        UnchosenRoom(t, s, input, r);
      }
    } else {
      RefusedChoice(t, s, input, r);
    }
  }

  lemma StartRequestWritesRoom(t: Table, s: Session, r: GameRoom)
    requires Placed(t) && s in t.sessions && r in t.roomData
    ensures r in StartRequest(t, s).roomData && RoomAsDescribed(t, Starts(s), r, StartRequest(t, s).roomData[r])
  {
    PlacedIsKeyed(t);
  }

  lemma FailWritesRoom(t: Table, k: nat, o: StartOracle, r: GameRoom)
    requires Refers(t) && k in t.starts && r in t.roomData
    requires Aborts(t, StartSteps(k, o), t.starts[k].room)
    ensures r in FailStart(t, k).roomData && RoomAsDescribed(t, StartSteps(k, o), r, FailStart(t, k).roomData[r])
  {
  }

  lemma LaunchWritesRoom(t: Table, k: nat, o: StartOracle, init: BattleInit, node: int, r: GameRoom)
    requires Refers(t) && k in t.starts && r in t.roomData
    requires !Aborts(t, StartSteps(k, o), t.starts[k].room)
    ensures r in Launch(t, k, init, node).roomData
    ensures RoomAsDescribed(t, StartSteps(k, o), r, Launch(t, k, init, node).roomData[r])
    ensures RoomAsDescribed(t, StartSteps(k, o), r, t.roomData[r])
  {
  }

  /** The step that fails is the one described as aborting; the third failed call is the last. */
  lemma FailsExactly(crc: HashFn, t: Table, k: nat, o: StartOracle)
    requires Refers(t) && k in t.starts && RosterOk(t, t.starts[k].roster)
    ensures NextMove(crc, t, k, o).Fails? <==> Aborts(t, StartSteps(k, o), t.starts[k].room)
  {
  }

  lemma StartStepWritesRoom(crc: HashFn, t: Table, k: nat, o: StartOracle, r: GameRoom)
    requires Refers(t) && k in t.starts && RosterOk(t, t.starts[k].roster) && r in t.roomData
    ensures r in StartStep(crc, t, k, o).roomData
    ensures RoomAsDescribed(t, StartSteps(k, o), r, StartStep(crc, t, k, o).roomData[r])
  {
    FailsExactly(crc, t, k, o);
    match NextMove(crc, t, k, o)
    case Fails => FailWritesRoom(t, k, o, r);
    case Launches(init, node) => LaunchWritesRoom(t, k, o, init, node, r);
    case Proceeds(phase) => LaunchWritesRoom(t, k, o, phase.init, 0, r);
    case Succeeds => LaunchWritesRoom(t, k, o, t.starts[k].phase.init, 0, r);
  }

  lemma CommandsWriteRooms(crc: HashFn, t: Table, e: Event, r: GameRoom)
    requires Placed(t) && Enabled(t, e) && r in t.roomData && IsCommand(e)
    ensures r in Apply(crc, t, e).roomData && RoomAsDescribed(t, e, r, Apply(crc, t, e).roomData[r])
  {
    match e
    case CleansUp(uid) => CleanUpWritesRoom(t, uid, r);
    case Creates(s, q, id) => UntouchedRoom(t, e, r);
    case Joins(s, id) => JoinWritesRoom(t, s, id, r);
    case Leaves(s) => LeaveWritesRoom(t, s, r);
    case Selects(s, input) => SelectWritesRoom(t, s, input, r);
  }

  /** A failover may move a room, and nothing else about it changes. */
  lemma FailoverWritesRoom(crc: HashFn, t: Table, c: Cluster, o: Oracle, r: GameRoom)
    requires Placed(t) && Keyed(t) && r in t.roomData
    ensures r in FailoverRun(crc, c, o, t).roomData
    ensures RoomAsDescribed(t, FailsOver(c, o), r, FailoverRun(crc, c, o, t).roomData[r])
  {
    RunIsSound(crc, c, o, t);
    UntouchedRoom(t, FailsOver(c, o), r);
  }

  lemma ConnectKeepsRooms(t: Table, uid: string, newcomer: Session)
    requires Refers(t)
    ensures ConnectUser(t, uid, newcomer).roomData == t.roomData
  {
  }

  lemma RestoreKeepsRoom(t: Table, snap: RoomSnapshot, q: GameRoom, made: map<string, Session>, r: GameRoom)
    requires q !in t.roomData && r in t.roomData
    ensures r in Restore(t, snap, q, made).roomData && Restore(t, snap, q, made).roomData[r] == t.roomData[r]
  {
  }

  lemma QuietWritesRooms(crc: HashFn, t: Table, e: Event, r: GameRoom)
    requires Placed(t) && Enabled(t, e) && r in t.roomData
    requires e.Connects? || e.Disconnects? || e.StoreChanges? || e.Restores?
    ensures r in Apply(crc, t, e).roomData && Apply(crc, t, e).roomData[r] == t.roomData[r]
  {
    match e
    case Connects(uid, newcomer) => ConnectKeepsRooms(t, uid, newcomer);
    case Restores(snap, q, made) => RestoreKeepsRoom(t, snap, q, made, r);
    case Disconnects(s) =>
    case StoreChanges(store) =>
  }

  /** Every event leaves every room as described; its placement aside. */
  lemma RoomsWritten(crc: HashFn, t: Table, e: Event, r: GameRoom)
    requires Placed(t) && Enabled(t, e) && r in t.roomData
    ensures r in Apply(crc, t, e).roomData && RoomAsDescribed(t, e, r, Apply(crc, t, e).roomData[r])
  {
    if IsCommand(e) {
      CommandsWriteRooms(crc, t, e, r);
    } else if e.Starts? {
      StartRequestWritesRoom(t, e.s, r);
    } else if e.StartSteps? {
      assert RosterOk(t, t.starts[e.k].roster);
      StartStepWritesRoom(crc, t, e.k, e.answers, r);
    } else if e.FailsOver? {
      PlacedIsKeyed(t);
      FailoverWritesRoom(crc, t, e.c, e.o, r);
    } else {
      UntouchedRoom(t, e, r);
      QuietWritesRooms(crc, t, e, r);
    }
  }

  // ----- what comes and goes -----

  /** A new user's session and a new room, as they begin. */
  lemma BeginningsWritten(crc: HashFn, t: Table, e: Event)
    requires Placed(t) && Enabled(t, e)
    ensures e.Connects? && e.uid !in t.users ==>
              e.newcomer in Apply(crc, t, e).sessions &&
              var w := Apply(crc, t, e).sessions[e.newcomer];
              w.player == e.uid && w.roomID == "" && w.online && w.team == []
    ensures e.Creates? ==>
              e.r in Apply(crc, t, e).roomData &&
              var room, p := Apply(crc, t, e).roomData[e.r], t.sessions[e.s].player;
              && room.id == e.id && room.status == Waiting && room.nodeID == 0
              && room.sessions == map[p := e.s] && room.ready == map[p := false]
  {
  }

  /** The leaver is the room's last player. */
  ghost predicate Empties(t: Table, e: Event)
    requires Refers(t) && Enabled(t, e)
  {
    Leaver(t, e).Some? &&
    var id := t.sessions[Leaver(t, e).value].roomID;
    id in t.rooms && |t.roomData[t.rooms[id]].sessions| == 1
  }

  /** The room objects in the table: one per id, from creation or restoration until the last player
      leaves. */
  ghost function RoomsAfter(t: Table, e: Event): map<string, GameRoom>
    requires Refers(t) && Enabled(t, e)
  {
    if e.Creates? then t.rooms[e.id := e.r]
    else if e.Restores? then t.rooms[e.snap.roomID := e.r]
    else if Empties(t, e) then t.rooms - {t.sessions[Leaver(t, e).value].roomID}
    else t.rooms
  }

  /** The users: known from a first connection, or a restored snapshot that names them, until they are
      forgotten while offline. */
  ghost predicate KnownAfter(t: Table, e: Event, uid: string)
    requires Refers(t) && Enabled(t, e)
  {
    || (e.Connects? && e.uid == uid)
    || (e.Restores? && uid in PlayersOf(e.snap))
    || (uid in t.users && !(e == CleansUp(uid) && !t.sessions[t.users[uid]].online))
  }

  lemma LeaveKeepsUsers(t: Table, s: Session, id: string)
    requires Refers(t) && s in t.sessions
    ensures Leave(t, s, id).users == t.users && (id !in t.rooms ==> Leave(t, s, id) == t)
  {
  }

  lemma LastLeaves(t: Table, s: Session)
    requires Placed(t) && s in t.sessions && t.sessions[s].roomID in t.rooms
    ensures var sessions := t.roomData[t.rooms[t.sessions[s].roomID]].sessions;
      |sessions - {t.sessions[s].player}| == 0 <==> |sessions| == 1
  {
    PlacedIsKeyed(t);
    assert LiveOk(t, t.sessions[s].roomID);
    TwoMembers(t, s);
  }

  lemma DepartureFromTable(t: Table, s: Session)
    requires Refers(t) && s in t.sessions
    ensures var id := t.sessions[s].roomID;
      RoomsAfter(t, Leaves(s)) ==
      if id in t.rooms && |t.roomData[t.rooms[id]].sessions| == 1 then t.rooms - {id} else t.rooms
  {
  }

  lemma LeaveWritesTable(t: Table, s: Session)
    requires Placed(t) && s in t.sessions
    ensures Leave(t, s, t.sessions[s].roomID).rooms == RoomsAfter(t, Leaves(s))
    ensures Leave(t, s, t.sessions[s].roomID).users == t.users
  {
    var id := t.sessions[s].roomID;
    LeaveKeepsUsers(t, s, id);
    DepartureFromTable(t, s);
    if id in t.rooms {
      LastLeaves(t, s);
      LeftExactly(t, s, id);
    }
  }

  lemma SameRoomsAfter(t: Table, uid: string)
    requires Refers(t) && uid in t.users && !t.sessions[t.users[uid]].online
    ensures RoomsAfter(t, CleansUp(uid)) == RoomsAfter(t, Leaves(t.users[uid]))
  {
  }

  lemma CleanUpWritesTable(t: Table, uid: string)
    requires Placed(t)
    ensures CleanUp(t, uid).rooms == RoomsAfter(t, CleansUp(uid))
    ensures forall u :: u in CleanUp(t, uid).users <==> KnownAfter(t, CleansUp(uid), u)
  {
    if uid in t.users && !t.sessions[t.users[uid]].online {
      CleanUpIsLeave(t, uid);
      LeaveWritesTable(t, t.users[uid]);
      SameRoomsAfter(t, uid);
    }
  }

  lemma QuietWritesTable(t: Table, e: Event, t': Table)
    requires Placed(t) && Enabled(t, e) && t'.rooms == t.rooms && t'.users == t.users
    requires e.Disconnects? || e.Joins? || e.Selects? || e.Starts? || e.StartSteps? || e.FailsOver? || e.StoreChanges?
    ensures t'.rooms == RoomsAfter(t, e) && forall u :: u in t'.users <==> KnownAfter(t, e, u)
  {
  }

  lemma ConnectWritesTable(t: Table, uid: string, newcomer: Session)
    requires Refers(t) && newcomer !in t.sessions
    ensures ConnectUser(t, uid, newcomer).rooms == RoomsAfter(t, Connects(uid, newcomer))
    ensures forall u :: u in ConnectUser(t, uid, newcomer).users <==> KnownAfter(t, Connects(uid, newcomer), u)
  {
    assert ConnectUser(t, uid, newcomer).users.Keys == t.users.Keys + {uid};
  }

  lemma CreateWritesTable(t: Table, s: Session, r: GameRoom, id: string)
    requires Refers(t) && Enabled(t, Creates(s, r, id))
    ensures Create(t, s, r, id).rooms == RoomsAfter(t, Creates(s, r, id))
    ensures forall u :: u in Create(t, s, r, id).users <==> KnownAfter(t, Creates(s, r, id), u)
  {
  }

  lemma RestoreWritesUsers(t: Table, snap: RoomSnapshot, r: GameRoom, made: map<string, Session>)
    requires made.Keys == PlayersOf(snap)
    ensures Restore(t, snap, r, made).users.Keys == t.users.Keys + PlayersOf(snap)
    ensures Restore(t, snap, r, made).rooms == t.rooms[snap.roomID := r]
  {
  }

  lemma KnownAfterRestore(t: Table, e: Event, t': Table)
    requires Refers(t) && Enabled(t, e) && e.Restores? && t'.users.Keys == t.users.Keys + PlayersOf(e.snap)
    ensures forall u :: u in t'.users <==> KnownAfter(t, e, u)
  {
    forall u ensures u in t'.users <==> KnownAfter(t, e, u) {
      assert u in t'.users.Keys <==> u in t.users.Keys || u in PlayersOf(e.snap);
    }
  }

  lemma RestoreWritesTable(t: Table, snap: RoomSnapshot, r: GameRoom, made: map<string, Session>)
    requires Refers(t) && Enabled(t, Restores(snap, r, made))
    ensures Restore(t, snap, r, made).rooms == RoomsAfter(t, Restores(snap, r, made))
    ensures forall u :: u in Restore(t, snap, r, made).users <==> KnownAfter(t, Restores(snap, r, made), u)
  {
    RestoreWritesUsers(t, snap, r, made);
    KnownAfterRestore(t, Restores(snap, r, made), Restore(t, snap, r, made));
  }

  lemma JoinKeepsTable(t: Table, s: Session, id: string)
    requires Refers(t) && s in t.sessions
    ensures Join(t, s, id).rooms == t.rooms && Join(t, s, id).users == t.users
  {
  }

  lemma SelectKeepsTable(t: Table, s: Session, input: SelectInput)
    requires Refers(t) && s in t.sessions
    ensures Select(t, s, input).rooms == t.rooms && Select(t, s, input).users == t.users
  {
  }

  /** The tables of rooms and users are as the event should leave them. */
  ghost predicate TableAsDescribed(t: Table, e: Event, t': Table)
    requires Refers(t) && Enabled(t, e)
  {
    t'.rooms == RoomsAfter(t, e) && forall u :: u in t'.users <==> KnownAfter(t, e, u)
  }

  lemma CommandsWriteTable(crc: HashFn, t: Table, e: Event)
    requires Placed(t) && Enabled(t, e) && IsCommand(e)
    ensures TableAsDescribed(t, e, Apply(crc, t, e))
  {
    match e
    case CleansUp(uid) => CleanUpWritesTable(t, uid);
    case Leaves(s) => LeaveWritesTable(t, s);
    case Creates(s, r, id) => CreateWritesTable(t, s, r, id);
    case Joins(s, id) =>
      JoinKeepsTable(t, s, id);
      QuietWritesTable(t, e, Join(t, s, id));
    case Selects(s, input) =>
      SelectKeepsTable(t, s, input);
      QuietWritesTable(t, e, Select(t, s, input));
  }

  /** Every event leaves the tables of rooms and users as described. */
  lemma TableWritten(crc: HashFn, t: Table, e: Event)
    requires Placed(t) && Enabled(t, e)
    ensures TableAsDescribed(t, e, Apply(crc, t, e))
  {
    if IsCommand(e) {
      CommandsWriteTable(crc, t, e);
    } else {
      match e
      case StartSteps(k, o) =>
        assert RosterOk(t, t.starts[k].roster);
        StartStepKeepsSessions(crc, t, k, o);
        QuietWritesTable(t, e, StartStep(crc, t, k, o));
      case FailsOver(c, o) =>
        PlacedIsKeyed(t);
        RunIsSound(crc, c, o, t);
        QuietWritesTable(t, e, FailoverRun(crc, c, o, t));
      case Connects(uid, newcomer) => ConnectWritesTable(t, uid, newcomer);
      case Restores(snap, r, made) => RestoreWritesTable(t, snap, r, made);
      case Disconnects(s) => QuietWritesTable(t, e, Disconnect(t, s));
      case Starts(s) => QuietWritesTable(t, e, StartRequest(t, s));
      case StoreChanges(store) => QuietWritesTable(t, e, t.(store := store));
    }
  }

  // ----- starts and battles -----

  /** A claim begins an attempt with the players of the room. */
  lemma ClaimsBegin(crc: HashFn, t: Table, e: Event, r: GameRoom)
    requires Placed(t) && Enabled(t, e) && r in t.roomData && ClaimsRoom(t, e, r)
    ensures var t' := Apply(crc, t, e);
      && t'.nextStart == t.nextStart + 1 && t.nextStart in t'.starts
      && t'.starts[t.nextStart] == Attempt(r, t.roomData[r].sessions, Claimed)
  {
    PlacedIsKeyed(t);
    assert "" !in t.rooms;
    if e.Selects? {
      ChoiceBegins(t, e.s, e.input, r);
    }
  }

  lemma ChoiceBegins(t: Table, s: Session, input: SelectInput, r: GameRoom)
    requires Placed(t) && s in t.sessions && r in t.roomData && ClaimsRoom(t, Selects(s, input), r)
    ensures var t' := Select(t, s, input);
      && t'.nextStart == t.nextStart + 1 && t.nextStart in t'.starts
      && t'.starts[t.nextStart] == Attempt(r, t.roomData[r].sessions, Claimed)
  {
    SelectAnswers(t, s, input);
    var id, p := t.sessions[s].roomID, t.sessions[s].player;
    assert Held(t, s) && LiveOk(t, id) && MembersOk(t, r);
    SecondFlag(t.roomData[r], p);
    ReadyRoom(SetSession(t, s, t.sessions[s].(team := StoredTeam(input.team))), r, p);
  }

  /** A battle is accepted exactly when the engine called creates the room, and is the one the start
      carried: its sides, its players, its target, its node, and the number of the call. */
  lemma AcceptanceWritten(crc: HashFn, t: Table, k: nat, o: StartOracle)
    requires Lifecycle(t) && k in t.starts && RosterOk(t, t.starts[k].roster)
    ensures var r, phase, t' := t.starts[k].room, t.starts[k].phase, StartStep(crc, t, k, o);
      && (r in t'.accepted <==> phase.Calling? && o.created)
      && (r in t'.accepted ==>
            t'.accepted[r] == Acceptance(phase.init, t.starts[k].roster, phase.target, phase.node, phase.failed + 1))
      && (forall q :: q != r ==> (q in t'.accepted <==> q in t.accepted))
  {
    assert StartOk(t, k);
    match NextMove(crc, t, k, o)
    case Fails =>
    case Launches(init, node) => LaunchAccepts(t, k, init, node);
    case Proceeds(phase) =>
    case Succeeds =>
  }

  lemma LaunchAccepts(t: Table, k: nat, init: BattleInit, node: int)
    requires Refers(t) && k in t.starts
    ensures Launch(t, k, init, node).accepted == t.accepted
  {
  }

  /** An assignment writes the node that was offered into the room and into the start. */
  lemma AssignmentWritten(crc: HashFn, t: Table, k: nat, o: StartOracle)
    requires Refers(t) && k in t.starts && RosterOk(t, t.starts[k].roster)
    requires t.starts[k].phase.Claimed? && |t.starts[k].roster| >= 2 && o.node.Some?
    ensures var t', r := StartStep(crc, t, k, o), t.starts[k].room;
      && r in t'.roomData && t'.roomData[r].nodeID == o.node.value
      && k in t'.starts && t'.starts[k].phase.Launched? && t'.starts[k].phase.target == o.node.value
      && Equips(t'.starts[k].phase.init, crc, t, t.roomData[r].id, t.starts[k].roster)
      && Fits(t'.starts[k].phase.init, t.starts[k].roster.Keys)
  {
    ClaimedStep(crc, t, k, o);
    BuildInitFits(crc, t, t.roomData[t.starts[k].room].id, t.starts[k].roster);
  }
}
