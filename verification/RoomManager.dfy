/** The room manager: rooms and sessions as objects changed in place. Each method performs one
    command, or one step of a background start, and is proved to change the table as specified. */
module RoomManagement {
  import opened Ordering
  import opened HashRing
  import opened EngineState
  import opened RoomState
  import opened RoomRestore
  import opened Failover

  /** A battle action: the members of a JSON object. */
  type Action = map<string, string>

  datatype ActionInput = NoAction | BadJson | NotAnObject | NullAction | ActionObject(fields: Action)

  // A literal null passes the JSON checks and then panics when the side is written into it.
  datatype ForwardResult =
    | NotMember | NotPlaying | ActionMissing | ActionInvalid | NoSide | Panic | NodeGone
    | Forward(node: int, fields: Action)

  class RoomManager {
    const crc: HashFn
    var rooms: map<string, GameRoom>
    var users: map<string, Session>
    var starts: map<nat, Attempt>
    var nextStart: nat
    var store: map<string, RoomSnapshot>

    // The table as a value, and the objects it is about; kept up to date by every method.
    ghost var view: Table
    ghost var roomRepr: set<GameRoom>
    ghost var sessionRepr: set<Session>

    constructor (crc: HashFn)
      ensures this.crc == crc && Valid() && view == EMPTY_TABLE
    {
      this.crc := crc;
      rooms, users, starts, nextStart, store := map[], map[], map[], 0, map[];
      view, roomRepr, sessionRepr := EMPTY_TABLE, {}, {};
    }

    ghost predicate Valid()
      reads this, roomRepr, sessionRepr
    {
      Fields() && Refers(view) && RoomsSeen() && SessionsSeen()
    }

    ghost predicate Fields()
      reads this
    {
      && view.rooms == rooms && view.users == users && view.store == store
      && view.starts == starts && view.nextStart == nextStart
    }

    ghost predicate RoomsSeen()
      reads this, roomRepr
    {
      && view.roomData.Keys == roomRepr
      && (forall r {:trigger r in roomRepr} :: r in roomRepr ==> r.Val() == view.roomData[r])
    }

    ghost predicate SessionsSeen()
      reads this, sessionRepr
    {
      && view.sessions.Keys == sessionRepr
      && (forall s {:trigger s in sessionRepr} :: s in sessionRepr ==> s.Val() == view.sessions[s])
    }

    // ----- sessions -----

    method ConnectSession(uid: string) returns (s: Session)
      requires Valid()
      modifies this`users, this`view, this`sessionRepr, sessionRepr
      ensures Valid() && s in sessionRepr
      ensures uid !in old(users) ==> fresh(s)
      ensures view == ConnectUser(old(view), uid, s)
    {
      if uid in users {
        s := users[uid];
        SetOnline(s, true);
      } else {
        s := NewSession(uid);
      }
    }

    method NewSession(uid: string) returns (s: Session)
      requires Valid() && uid !in users
      modifies this`users, this`view, this`sessionRepr
      ensures Valid() && s in sessionRepr && fresh(s)
      ensures view == ConnectUser(old(view), uid, s)
    {
      s := new Session(uid, "", true, []);
      AddedUserRefers(view, uid, s);
      users := users[uid := s];
      view, sessionRepr := ConnectUser(view, uid, s), sessionRepr + {s};
    }

    method SetOnline(s: Session, online: bool)
      requires Valid() && s in sessionRepr
      modifies this`view, s`online
      ensures Valid()
      ensures view == SetSession(old(view), s, old(view).sessions[s].(online := online))
    {
      s.online := online;
      view := SetSession(view, s, view.sessions[s].(online := online));
    }

    method DisconnectSession(s: Session)
      requires Valid() && s in sessionRepr
      modifies this`view, s
      ensures Valid()
      ensures view == Disconnect(old(view), s)
    {
      SetOnline(s, false);
    }

    // ----- rooms -----

    /** Draws room ids until one is unused. */
    method UnusedRoomID(candidates: seq<string>) returns (id: string)
      requires exists i :: 0 <= i < |candidates| && candidates[i] !in rooms
      ensures id in candidates && id !in rooms
    {
      var i := 0;
      while candidates[i] in rooms
        invariant 0 <= i < |candidates|
        invariant forall j :: 0 <= j < i ==> candidates[j] in rooms
        decreases |candidates| - i
      {
        i := i + 1;
      }
      id := candidates[i];
    }

    /** Replaces the players of a room and their ready flags. */
    method SetMembers(r: GameRoom, sessions: map<string, Session>, ready: map<string, bool>)
      requires Valid() && r in roomRepr
      modifies this`view, r`sessions, r`ready
      ensures Valid()
      ensures view == SetRoom(old(view), r, old(view).roomData[r].(sessions := sessions, ready := ready))
    {
      r.Reseat(sessions, ready);
      view := SetRoom(view, r, view.roomData[r].(sessions := sessions, ready := ready));
    }

    method SetStatus(r: GameRoom, status: Status)
      requires Valid() && r in roomRepr
      modifies this`view, r`status
      ensures Valid()
      ensures view == SetRoom(old(view), r, old(view).roomData[r].(status := status))
    {
      r.status := status;
      view := SetRoom(view, r, view.roomData[r].(status := status));
    }

    method SetRoomID(s: Session, id: string)
      requires Valid() && s in sessionRepr
      modifies this`view, s`roomID
      ensures Valid()
      ensures view == SetSession(old(view), s, old(view).sessions[s].(roomID := id))
    {
      s.roomID := id;
      view := SetSession(view, s, view.sessions[s].(roomID := id));
    }

    /** A new, empty room, not yet in the table. */
    method NewRoom(id: string, status: Status, nodeID: int) returns (r: GameRoom)
      requires Valid()
      modifies this`view, this`roomRepr
      ensures Valid() && fresh(r) && roomRepr == old(roomRepr) + {r}
      ensures view == SetRoom(old(view), r, RoomVal(id, map[], map[], status, nodeID))
    {
      r := new GameRoom(id, status, nodeID);
      view, roomRepr := SetRoom(view, r, RoomVal(id, map[], map[], status, nodeID)), roomRepr + {r};
    }

    /** Enters a room under an id; `resumed` are the rooms known to play already. */
    method PublishRoom(id: string, r: GameRoom, ghost resumed: set<GameRoom>)
      requires Valid() && r in roomRepr
      modifies this`rooms, this`view
      ensures Valid()
      ensures view == old(view).(rooms := old(view).rooms[id := r], resumed := resumed)
    {
      rooms := rooms[id := r];
      view := view.(rooms := rooms, resumed := resumed);
    }

    /** A new, empty room under an unused id. */
    method AddRoom(id: string, status: Status, nodeID: int) returns (r: GameRoom)
      requires Valid()
      modifies this`rooms, this`view, this`roomRepr
      ensures Valid() && fresh(r) && r !in old(roomRepr) && r in roomRepr
      ensures view == SetRoom(old(view), r, RoomVal(id, map[], map[], status, nodeID)).(
                        rooms := old(view).rooms[id := r],
                        resumed := if status == Playing then old(view).resumed + {r} else old(view).resumed)
    {
      r := NewRoom(id, status, nodeID);
      PublishRoom(id, r, if status == Playing then view.resumed + {r} else view.resumed);
    }

    method CreateRoom(s: Session, candidates: seq<string>) returns (id: string, r: GameRoom)
      requires Valid() && s in sessionRepr
      requires exists i :: 0 <= i < |candidates| && candidates[i] !in rooms
      modifies this`rooms, this`view, this`roomRepr, s
      ensures Valid() && fresh(r) && id in candidates && id !in old(rooms)
      ensures view == Create(old(view), s, r, id)
    {
      id := UnusedRoomID(candidates);
      ghost var before := view;
      r := AddRoom(id, Waiting, 0);
      SetRoomID(s, id);
      SetMembers(r, map[s.player := s], map[s.player := false]);
      CreateInSteps(before, s, r, id);
    }

    method JoinRoom(id: string, s: Session) returns (result: JoinResult)
      requires Valid() && s in sessionRepr
      modifies this`view, roomRepr, s
      ensures Valid()
      ensures result == JoinOutcome(old(view), s, id)
      ensures view == Join(old(view), s, id)
    {
      if id !in rooms {
        return NoSuchRoom;
      }
      var r := rooms[id];
      if s.player in r.sessions {
        return AlreadyInside;
      }
      if r.status != Waiting {
        return NotWaiting;
      }
      if |r.sessions| >= MAX_PLAYERS_PER_ROOM {
        return Full;
      }
      SetRoomID(s, id);
      SetMembers(r, r.sessions[s.player := s], r.ready[s.player := false]);
      result := Joined;
    }

    /** Asks the engine up to three times to destroy a room; `answers` are its replies. */
    static method SendDestroyRoomRequestSync(nodeKnown: bool, answers: seq<bool>) returns (ok: bool, tries: nat)
      requires |answers| >= 3
      ensures ok <==> nodeKnown && (answers[0] || answers[1] || answers[2])
      ensures tries == if !nodeKnown then 0 else if answers[0] then 1 else if answers[1] then 2 else 3
    {
      ok, tries := false, 0;
      if !nodeKnown {
        return;
      }
      while tries < 3
        invariant 0 <= tries <= 3
        invariant forall i :: 0 <= i < tries ==> !answers[i]
      {
        tries := tries + 1;
        if answers[tries - 1] {
          return true, tries;
        }
      }
    }

    method ForgetRoom(id: string)
      requires Valid()
      modifies this`rooms, this`view
      ensures Valid()
      ensures view == old(view).(rooms := old(view).rooms - {id})
    {
      rooms := rooms - {id};
      view := view.(rooms := rooms);
    }

    /** The room disappears from the table whether or not the engine could be told; the engine is asked
        only about a room that is not waiting. */
    method DeleteRoom(id: string, nodeKnown: bool, answers: seq<bool>) returns (tries: nat)
      requires Valid() && |answers| >= 3
      modifies this`rooms, this`view
      ensures Valid()
      ensures view == old(view).(rooms := old(view).rooms - {id})
      ensures tries == if id !in old(rooms) || old(rooms)[id].status == Waiting || !nodeKnown then 0
                       else if answers[0] then 1 else if answers[1] then 2 else 3
    {
      if id !in rooms {
        assert view.rooms - {id} == view.rooms;
        return 0;
      }
      tries := 0;
      if rooms[id].status != Waiting {
        var ok;
        ok, tries := SendDestroyRoomRequestSync(nodeKnown, answers);
        if ok {
          ForgetRoom(id);
        } else {
          ForgetRoom(id);
        }
      } else {
        ForgetRoom(id);
      }
    }

    method LeaveRoom(id: string, s: Session, nodeKnown: bool, answers: seq<bool>)
      requires Valid() && s in sessionRepr && |answers| >= 3
      modifies this`rooms, this`view, roomRepr, s
      ensures Valid()
      ensures view == Leave(old(view), s, id)
    {
      if id !in rooms {
        return;
      }
      var r := rooms[id];
      ghost var before := view;
      SetMembers(r, r.sessions - {s.player}, r.ready - {s.player});
      var remainingCount := |r.sessions|;
      SetRoomID(s, "");
      if remainingCount == 0 {
        var tries := DeleteRoom(id, nodeKnown, answers);
      } else if r.status == Playing {
        SetStatus(r, Finished);
      }
      LeaveInSteps(before, s, id);
    }

    method CleanUpIfStillOffline(uid: string, nodeKnown: bool, answers: seq<bool>)
      requires Valid() && |answers| >= 3
      modifies this`rooms, this`users, this`view, roomRepr, sessionRepr
      ensures Valid()
      ensures view == CleanUp(old(view), uid)
    {
      if uid !in users || users[uid].online {
        return;
      }
      var s := users[uid];
      var roomID := s.roomID;
      users := users - {uid};
      view := view.(users := view.users - {uid});
      if roomID != "" {
        LeaveRoom(roomID, s, nodeKnown, answers);
      }
    }

    // ----- choosing teams -----

    /** Appends the converted members to the session's team, stopping at the first bad ability. */
    static method ConvertTeam(s: Session, team: seq<PokemonRequest>) returns (complete: bool)
      modifies s`team
      ensures complete <==> ValidPrefix(team) == |team|
      ensures s.team == StoredTeam(team)
    {
      s.team := [];
      complete := true;
      var k := 0;
      while k < |team| && complete
        invariant 0 <= k <= |team|
        invariant k <= ValidPrefix(team) && (!complete ==> k == ValidPrefix(team) < |team|)
        invariant s.team == StoredTeam(team)[..k]
        decreases |team| - k, complete
      {
        if !team[k].hasAbility {
          complete := false;
        } else {
          s.team := s.team + [team[k].pokemon];
          k := k + 1;
        }
      }
    }

    method StoreTeam(s: Session, team: seq<PokemonRequest>) returns (complete: bool)
      requires Valid() && s in sessionRepr
      modifies this`view, s`team
      ensures Valid()
      ensures complete <==> ValidPrefix(team) == |team|
      ensures view == SetSession(old(view), s, old(view).sessions[s].(team := StoredTeam(team)))
    {
      complete := ConvertTeam(s, team);
      view := SetSession(view, s, view.sessions[s].(team := StoredTeam(team)));
    }

    method CountReady(r: GameRoom) returns (count: nat)
      ensures count == |ReadyOnes(r.ready)|
    {
      var players := Enumerate(r.ready.Keys);
      OrderMembers(players, r.ready.Keys);
      ghost var flags := r.ready;
      ghost var isReady := p => p in flags && flags[p];
      count := 0;
      for k := 0 to |players|
        modifies {}
        invariant count == |Filter(isReady, players[..k])|
      {
        FilterNext(isReady, players, k);
        if r.ready[players[k]] {
          count := count + 1;
        }
      }
      assert players[..|players|] == players;
      FilterOrder(isReady, players, r.ready.Keys, ReadyOnes(r.ready));
    }

    /** The critical section that lets one start through: test for waiting, and set playing. */
    method ClaimStart(r: GameRoom)
      requires Valid() && r in roomRepr
      modifies this`starts, this`nextStart, this`view, r`status
      ensures Valid()
      ensures view == Claim(old(view), r)
    {
      if r.status != Waiting {
        return;
      }
      ClaimInSteps(view, r);
      SetStatus(r, Playing);
      BeginStart(r);
    }

    method BeginStart(r: GameRoom)
      requires Valid() && r in roomRepr
      modifies this`starts, this`nextStart, this`view
      ensures Valid()
      ensures view == Begin(old(view), r)
    {
      view := Begin(view, r);
      starts := starts[nextStart := Attempt(r, r.sessions, Claimed)];
      nextStart := nextStart + 1;
    }

    method RaiseFlag(r: GameRoom, p: string)
      requires Valid() && r in roomRepr
      modifies this`starts, this`nextStart, this`view, r
      ensures Valid()
      ensures view == MarkReady(old(view), r, p)
    {
      SetMembers(r, r.sessions, r.ready[p := true]);
      var readyCount := CountReady(r);
      var allPlayersReady := |r.sessions| == 2 && readyCount == 2;
      if allPlayersReady {
        ClaimStart(r);
      }
    }

    method HandleSelectPokemon(s: Session, input: SelectInput) returns (result: SelectResult)
      requires Valid() && s in sessionRepr
      modifies this`starts, this`nextStart, this`view, roomRepr, s
      ensures Valid()
      ensures result == SelectOutcome(old(view), s, input)
      ensures view == Select(old(view), s, input)
    {
      if s.roomID == "" || s.roomID !in rooms {
        return NoRoom;
      }
      var r := rooms[s.roomID];
      if s.player !in r.sessions {
        return NotInside;
      }
      if r.status != Waiting {
        return Started;
      }
      if input.Empty? {
        return NoData;
      }
      if input.Malformed? {
        return BadData;
      }
      if |input.team| > MAX_TEAM {
        return TooMany;
      }
      var complete := StoreTeam(s, input.team);
      if !complete {
        return BadAbility;
      }
      RaiseFlag(r, s.player);
      result := Chosen;
    }

    method StartGameForSession(s: Session)
      requires Valid() && s in sessionRepr
      modifies this`starts, this`nextStart, this`view, roomRepr
      ensures Valid()
      ensures view == StartRequest(old(view), s)
    {
      if s.roomID == "" || s.roomID !in rooms {
        return;
      }
      ClaimStart(rooms[s.roomID]);
    }

    // ----- starting a battle in the background -----

    method SortNames(names: set<string>) returns (ids: seq<string>)
      ensures ids == SortedNames(names)
    {
      var order := Enumerate(names);
      StringLeTotal();
      SortOfOrder(StringLe, order, names);
      ids := Sort(StringLe, order);
    }

    /** The request for the engine; an error, None, with fewer than two sessions. */
    method BuildBattleInit(id: string, roster: map<string, Session>) returns (init: Option<BattleInit>)
      requires Valid() && RosterOk(view, roster)
      ensures init == if |roster| < 2 then None else Some(BuildInit(crc, view, id, roster))
      ensures init.Some? ==>
                && init.value.sideA.name in roster && init.value.sideB.name in roster && init.value.seed == crc(id)
                && init.value.sideA.team == roster[init.value.sideA.name].team
                && init.value.sideB.team == roster[init.value.sideB.name].team
    {
      if |roster| < 2 {
        return None;
      }
      var ids := SortNames(roster.Keys);
      OrderMembers(ids, roster.Keys);
      assert |roster| == |roster.Keys|;
      var a, b := roster[ids[0]], roster[ids[1]];
      assert a in sessionRepr && b in sessionRepr;
      init := Some(BattleInit(BattleSide(ids[0], a.team), BattleSide(ids[1], b.team), crc(id)));
    }

    method BattleSideForPlayer(r: GameRoom, player: string) returns (side: Option<Side>)
      ensures side == SideOf(r.sessions.Keys, player)
    {
      if |r.sessions| == 0 {
        assert r.sessions.Keys == {};
        OrderMembers(SortedNames(r.sessions.Keys), r.sessions.Keys);
        return None;
      }
      var playerIDs := SortNames(r.sessions.Keys);
      OrderMembers(playerIDs, r.sessions.Keys);
      assert |r.sessions| == |r.sessions.Keys|;
      if |playerIDs| < 2 {
        return if playerIDs[0] == player then Some(A) else None;
      }
      if player == playerIDs[0] {
        side := Some(A);
      } else if player == playerIDs[1] {
        side := Some(B);
      } else {
        side := None;
      }
    }

    method GiveUp(k: nat)
      requires Valid() && k in starts
      modifies this`starts, this`view, roomRepr
      ensures Valid()
      ensures view == FailStart(old(view), k)
    {
      FailInSteps(view, k);
      SetStatus(starts[k].room, Waiting);
      EndStart(k, view.accepted);
    }

    method Dispatch(k: nat, init: BattleInit, node: int)
      requires Valid() && k in starts
      modifies this`starts, this`view, roomRepr
      ensures Valid()
      ensures view == Launch(old(view), k, init, node)
    {
      LaunchInSteps(view, k, init, node);
      SetNode(starts[k].room, node);
      MoveOn(k, Launched(init, node));
    }

    method EndStart(k: nat, ghost accepted: map<GameRoom, Acceptance>)
      requires Valid() && k in starts
      modifies this`starts, this`view
      ensures Valid()
      ensures view == old(view).(starts := old(view).starts - {k}, accepted := accepted)
    {
      starts := starts - {k};
      view := view.(starts := starts, accepted := accepted);
    }

    /** The foreground part of a start, after the room was claimed. */
    method AssignNode(k: nat, o: StartOracle)
      requires Valid() && k in starts && RosterOk(view, starts[k].roster) && starts[k].phase.Claimed?
      modifies this`starts, this`view, roomRepr
      ensures Valid()
      ensures view == StartStep(crc, old(view), k, o)
    {
      ClaimedStep(crc, view, k, o);
      var a := starts[k];
      assert a.room in roomRepr && a.room.Val() == view.roomData[a.room];
      var init := BuildBattleInit(a.room.id, a.roster);
      if init.None? || o.node.None? {
        GiveUp(k);
      } else {
        Dispatch(k, init.value, o.node.value);
      }
    }

    /** One step of the start `k`: assign a node, find its connection, or try the engine once. */
    method AdvanceStart(k: nat, o: StartOracle)
      requires Valid() && k in starts && RosterOk(view, starts[k].roster)
      modifies this`starts, this`view, roomRepr
      ensures Valid()
      ensures view == StartStep(crc, old(view), k, o)
    {
      var a := starts[k];
      match a.phase
      case Claimed => AssignNode(k, o);
      case Launched(init, target) =>
        LaunchedStep(crc, view, k, o);
        if o.targetFound {
          MoveOn(k, Calling(init, target, target, 0));
        } else if o.node.Some? {
          MoveOn(k, Calling(init, target, o.node.value, 0));
        } else {
          GiveUp(k);
        }
      case Calling(init, target, node, failed) =>
        CallingStep(crc, view, k, o);
        if o.created {
          EndStart(k, Accept(view, k).accepted);
        } else if failed + 1 < MAX_TRIES {
          MoveOn(k, Calling(init, target, node, failed + 1));
        } else {
          GiveUp(k);
        }
    }

    method MoveOn(k: nat, phase: Phase)
      requires Valid() && k in starts
      modifies this`starts, this`view
      ensures Valid()
      ensures view == SetPhase(old(view), k, phase)
    {
      starts := starts[k := starts[k].(phase := phase)];
      view := SetPhase(view, k, phase);
    }

    // ----- battle actions -----

    /** An action reaches the engine only from a member of a playing room, and then with the side
        the server determined, whatever side the client wrote. */
    method ForwardBattleAction(r: GameRoom, player: string, input: ActionInput, nodeFound: bool)
        returns (result: ForwardResult)
      ensures result.NotMember? <==> player !in r.sessions
      ensures result.NotPlaying? <==> player in r.sessions && r.status != Playing
      ensures result.ActionMissing? <==> player in r.sessions && r.status == Playing && input.NoAction?
      ensures var plays, side := player in r.sessions && r.status == Playing, SideOf(r.sessions.Keys, player);
        && (result.ActionInvalid? <==> plays && (input.BadJson? || (input.NotAnObject? && side.Some?)))
        && (result.NoSide? <==> plays && !input.NoAction? && !input.BadJson? && side.None?)
        && (result.Panic? <==> plays && input.NullAction? && side.Some?)
        && (result.NodeGone? <==> plays && input.ActionObject? && side.Some? && !nodeFound)
        && (result.Forward? <==> plays && input.ActionObject? && side.Some? && nodeFound)
      ensures result.Forward? ==>
                result.node == r.nodeID &&
                result.fields == input.fields["side" := SideText(SideOf(r.sessions.Keys, player).value)]
      ensures result.Forward? ==>
                && "side" in result.fields
                && (result.fields["side"] == "a" <==> forall q :: q in r.sessions ==> StringLe(player, q))
                && (result.fields["side"] != "a" ==> result.fields["side"] == "b")
    {
      SideOfMeaning(r.sessions.Keys, player);
      if player !in r.sessions {
        return NotMember;
      }
      if r.status != Playing {
        return NotPlaying;
      }
      if input.NoAction? {
        return ActionMissing;
      }
      if input.BadJson? {
        return ActionInvalid;
      }
      var side := BattleSideForPlayer(r, player);
      if side.None? {
        return NoSide;
      }
      if input.NotAnObject? {
        return ActionInvalid;
      }
      if input.NullAction? {
        return Panic;
      }
      if !nodeFound {
        return NodeGone;
      }
      result := Forward(r.nodeID, input.fields["side" := SideText(side.value)]);
    }

    // ----- restoring -----

    /** The players of a snapshot, gathered from its three parts. */
    static method GatherPlayers(snap: RoomSnapshot) returns (ids: set<string>)
      ensures ids == PlayersOf(snap)
    {
      ids := {};
      for i := 0 to |snap.players|
        invariant ids == (set p | p in snap.players[..i]) - {""}
      {
        assert snap.players[..i + 1] == snap.players[..i] + [snap.players[i]];
        if snap.players[i] != "" {
          ids := ids + {snap.players[i]};
        }
      }
      assert snap.players[..|snap.players|] == snap.players;
      var more := NonEmptyKeys(snap.ready.Keys);
      var others := NonEmptyKeys(snap.selected.Keys);
      ids := ids + more + others;
    }

    static method NonEmptyKeys(keys: set<string>) returns (ids: set<string>)
      ensures ids == keys - {""}
    {
      var order := Enumerate(keys);
      OrderMembers(order, keys);
      ids := {};
      for i := 0 to |order|
        invariant ids == (set p | p in order[..i]) - {""}
      {
        assert order[..i + 1] == order[..i] + [order[i]];
        if order[i] != "" {
          ids := ids + {order[i]};
        }
      }
      assert order[..|order|] == order;
    }

    static method CopySelectedPokemon(team: Team) returns (cloned: Team)
      ensures cloned == team
    {
      cloned := [];
      for i := 0 to |team|
        invariant cloned == team[..i]
      {
        cloned := cloned + [team[i]];
      }
    }

    /** `made` holds, for each of the players, a session as the snapshot describes it. */
    static ghost predicate Described(snap: RoomSnapshot, made: map<string, Session>, players: set<string>)
      reads made.Values
    {
      && made.Keys == players
      && (forall p :: p in made ==> made[p].player == p && made[p].Val() == RestoredSession(snap, p))
    }

    /** A new offline session for one more player of the snapshot. */
    static method AddSession(snap: RoomSnapshot, others: map<string, Session>, p: string)
        returns (made: map<string, Session>)
      requires Described(snap, others, others.Keys)
      ensures Described(snap, made, others.Keys + {p})
      ensures p in made && fresh(made[p]) && made == others[p := made[p]]
    {
      var team: Team := [];
      if p in snap.selected {
        team := CopySelectedPokemon(snap.selected[p]);
      }
      var session := new Session(p, snap.roomID, false, team);
      made := others[p := session];
    }

    /** One new session per player of the snapshot. */
    static method MakeSessions(snap: RoomSnapshot, order: seq<string>) returns (made: map<string, Session>)
      requires IsOrderOf(order, PlayersOf(snap))
      ensures Described(snap, made, PlayersOf(snap))
      ensures forall p :: p in made ==> fresh(made[p])
    {
      OrderDistinct(order, PlayersOf(snap));
      made := map[];
      for i := 0 to |order|
        invariant Described(snap, made, made.Keys) && made.Keys == Seen(order, i)
        invariant forall p :: p in made ==> fresh(made[p])
      {
        SeenNext(order, i);
        made := AddSession(snap, made, order[i]);
      }
      SeenAll(order, PlayersOf(snap));
    }

    static method CopyReady(snap: RoomSnapshot, order: seq<string>) returns (ready: map<string, bool>)
      requires IsOrderOf(order, PlayersOf(snap))
      ensures ready == RestoredReady(snap)
    {
      OrderDistinct(order, PlayersOf(snap));
      ready := map[];
      for i := 0 to |order|
        invariant ready == ReadyFor(snap, Seen(order, i))
      {
        SeenNext(order, i);
        ReadyForOneMore(snap, Seen(order, i), order[i]);
        ready := ready[order[i] := order[i] in snap.ready && snap.ready[order[i]]];
      }
      SeenAll(order, PlayersOf(snap));
    }

    /** The new objects for a snapshot: a session per player, and the ready flags. */
    static method NewPlayers(snap: RoomSnapshot) returns (made: map<string, Session>, ready: map<string, bool>)
      ensures ready == RestoredReady(snap) && Described(snap, made, PlayersOf(snap))
      ensures forall p :: p in made ==> fresh(made[p])
      ensures RestoredSessions(snap, made).Keys == made.Values
      ensures forall s :: s in made.Values ==> fresh(s) && s.Val() == RestoredSessions(snap, made)[s]
    {
      var ids := GatherPlayers(snap);
      var order := Enumerate(ids);
      made := MakeSessions(snap, order);
      ready := CopyReady(snap, order);
    }

    /** Takes over sessions not seen before; `more` says what they hold. */
    method AdoptSessions(ghost more: map<Session, SessionVal>)
      requires Valid()
      requires forall s :: s in more.Keys ==> s !in sessionRepr && s.Val() == more[s]
      modifies this`view, this`sessionRepr
      ensures Valid() && sessionRepr == old(sessionRepr) + more.Keys
      ensures view == old(view).(sessions := old(view).sessions + more)
    {
      view := view.(sessions := view.sessions + more);
      sessionRepr := sessionRepr + more.Keys;
    }

    method RegisterSessions(made: map<string, Session>)
      requires Valid() && forall p :: p in made ==> made[p] in sessionRepr
      modifies this`users, this`view
      ensures Valid()
      ensures view == old(view).(users := old(view).users + made)
    {
      users := users + made;
      view := view.(users := users);
    }

    /** The sessions and ready flags of a snapshot's players, the sessions registered. */
    method RestorePlayers(snap: RoomSnapshot) returns (made: map<string, Session>, ready: map<string, bool>)
      requires Valid()
      modifies this`users, this`view, this`sessionRepr
      ensures Valid() && ready == RestoredReady(snap)
      ensures Described(snap, made, PlayersOf(snap)) && forall p :: p in made ==> fresh(made[p])
      ensures view == old(view).(users := old(view).users + made,
                                 sessions := old(view).sessions + RestoredSessions(snap, made))
    {
      made, ready := NewPlayers(snap);
      AdoptSessions(RestoredSessions(snap, made));
      RegisterSessions(made);
    }

    method RestoreRoomSnapshot(snap: RoomSnapshot) returns (r: GameRoom, made: map<string, Session>)
      requires Valid()
      modifies this`rooms, this`users, this`view, this`roomRepr, this`sessionRepr
      ensures Valid() && fresh(r) && NewFor(old(view), snap, r, made)
      ensures Described(snap, made, PlayersOf(snap)) && forall p :: p in made ==> fresh(made[p])
      ensures forall p :: p in made ==>
        && made[p].roomID == snap.roomID && !made[p].online
        && made[p].team == if p in snap.selected then snap.selected[p] else []
      ensures view == Restore(old(view), snap, r, made)
    {
      ghost var before := view;
      var ready;
      made, ready := RestorePlayers(snap);
      r := AddRoom(snap.roomID, StatusOf(snap.status), snap.nodeID);
      SetMembers(r, made, ready);
      RestoreInSteps(before, snap, r, made);
    }

    // ----- failover -----

    /** A healthy node other than the excluded one, chosen by the room's hash. */
    method PickHealthyNodeForRoom(c: Cluster, id: string, exclude: int) returns (choice: Option<int>)
      ensures choice == Pick(crc, c, id, exclude)
    {
      var pods := Enumerate(c.nodes.Keys);
      OrderMembers(pods, c.nodes.Keys);
      ghost var eligible := p => p in c.nodes && c.nodes[p].healthy && p != exclude;
      var healthyIndices: seq<int> := [];
      for k := 0 to |pods|
        invariant healthyIndices == Filter(eligible, pods[..k])
      {
        FilterNext(eligible, pods, k);
        if c.nodes[pods[k]].healthy && pods[k] != exclude {
          healthyIndices := healthyIndices + [pods[k]];
        }
      }
      assert pods[..|pods|] == pods;
      FilterOrder(eligible, pods, c.nodes.Keys, HealthyPods(c.nodes) - {exclude});
      choice := ChooseSorted(healthyIndices, HealthyPods(c.nodes) - {exclude}, crc(id));
    }

    /** Saves a snapshot before and after the old node is told to destroy its copy. */
    method SaveAroundDestroy(c: Cluster, o: RoomOracle, id: string, updated: RoomSnapshot, oldNodeID: int)
      requires Valid() && id in store
      modifies this`store, this`view
      ensures Valid()
      ensures var entry := EntryAfter(c, o, old(view).store[id], updated, oldNodeID);
        view == old(view).(store := PutEntry(old(view).store, id, entry))
    {
      ghost var before := store;
      if o.save {
        store := store[id := updated];
      }
      if oldNodeID in c.nodes && o.destroyErases {
        store := store - {id};
      }
      if o.resave {
        store := store[id := updated];
      }
      assert store == PutEntry(before, id, EntryAfter(c, o, before[id], updated, oldNodeID));
      view := view.(store := store);
    }

    method SetNode(r: GameRoom, pod: int)
      requires Valid() && r in roomRepr
      modifies this`view, r`nodeID
      ensures Valid()
      ensures view == SetRoom(old(view), r, old(view).roomData[r].(nodeID := pod))
    {
      r.nodeID := pod;
      view := SetRoom(view, r, view.roomData[r].(nodeID := pod));
    }

    /** Updates the node of a migrated room, in memory and in its snapshot. */
    method Relocate(c: Cluster, o: RoomOracle, r: GameRoom, id: string, pod: int)
      requires Valid() && id in rooms && rooms[id] == r && id in store && pod in c.nodes
      modifies this`store, this`view, r`nodeID
      ensures Valid()
      ensures view == Migrate(c, o, old(view), id, pod)
    {
      var oldNodeID := r.nodeID;
      SetNode(r, pod);
      var snap, serverID := store[id], c.nodes[pod].serverID;
      var updated := RoomSnapshot(id, 1, pod, serverID, snap.players, snap.ready, snap.selected);
      SaveAroundDestroy(c, o, id, updated, oldNodeID);
    }

    /** The migration phase for one target. */
    method VisitTarget(c: Cluster, o: RoomOracle, id: string) returns (fate: Fate)
      requires Valid() && Keyed(view) && id in rooms
      modifies this`store, this`view, roomRepr
      ensures Valid()
      ensures fate == FateOfTarget(crc, c, o, old(view), id)
      ensures fate.Migrated? ==>
                id in old(view).store && fate.pod in c.nodes && view == Migrate(c, o, old(view), id, fate.pod)
      ensures !fate.Migrated? ==> view == old(view)
    {
      var r := rooms[id];
      var newNode := PickHealthyNodeForRoom(c, id, r.nodeID);
      if newNode.None? {
        return Skipped;
      }
      if r.status != Playing {
        return Counted;
      }
      if !c.hasStore {
        return Skipped;
      }
      if !(o.load && id != "" && id in store) {
        return Skipped;
      }
      if !o.marshal {
        return Skipped;
      }
      if o.rpc != Created {
        return Skipped;
      }
      fate := Migrated(newNode.value);
      Relocate(c, o, r, id, newNode.value);
    }

    /** The collecting phase: the rooms to move, in enumeration order. */
    method CollectTargets(c: Cluster, o: Oracle) returns (targets: seq<string>)
      requires Valid() && Keyed(view) && Active(c)
      ensures IsOrderOf(targets, Targets(c, o, view))
    {
      var ids := Enumerate(rooms.Keys);
      OrderMembers(ids, rooms.Keys);
      ghost var t := view;
      ghost var isTarget := id => id in t.rooms && Refers(t) && Targeted(c, t, id, o(id).probe);
      targets := [];
      for k := 0 to |ids|
        modifies {}
        invariant targets == Filter(isTarget, ids[..k])
      {
        FilterNext(isTarget, ids, k);
        var id := ids[k];
        assert id in rooms;
        var r := rooms[id];
        assert r in roomRepr && r.Val() == view.roomData[r];
        var node := r.nodeID;
        if node !in c.nodes || !c.nodes[node].healthy {
          targets := targets + [id];
        } else if c.hasStore && o(id).probe && id != "" && id in store {
          if store[id].serverID != "" && c.nodes[node].serverID != store[id].serverID {
            targets := targets + [id];
          }
        }
      }
      assert ids[..|ids|] == ids;
      FilterOrder(isTarget, ids, rooms.Keys, Targets(c, o, view));
    }

    /** One turn of the migration loop, seen from the table `t` the run started with. */
    method VisitNext(c: Cluster, o: Oracle, targets: seq<string>, k: nat, moved: nat, skipped: nat, ghost t: Table)
        returns (moved': nat, skipped': nat)
      requires Valid() && k < |targets| && Visiting(c, o, t, targets)
      requires Progress(crc, c, o, t, targets, k, view, moved, skipped)
      modifies this`store, this`view, roomRepr
      ensures Valid()
      ensures Progress(crc, c, o, t, targets, k + 1, view, moved', skipped')
    {
      ghost var done := Seen(targets, k);
      var id := targets[k];
      SeenNext(targets, k);
      FateUndisturbed(crc, c, o, t, done, id);
      AfterOneMore(crc, c, o, t, done, id);
      CountOneMore(crc, c, o, t, done, id);
      var fate := VisitTarget(c, o(id), id);
      moved', skipped' := if fate.Skipped? then moved else moved + 1, if fate.Skipped? then skipped + 1 else skipped;
    }

    /** The migration phase: the targets visited one after the other, and counted. */
    method MigrateTargets(c: Cluster, o: Oracle, targets: seq<string>, ghost t: Table)
        returns (moved: nat, skipped: nat)
      requires Valid() && Keyed(t) && view == t && IsOrderOf(targets, Targets(c, o, t))
      modifies this`store, this`view, roomRepr
      ensures Valid()
      ensures Progress(crc, c, o, t, targets, |targets|, view, moved, skipped)
    {
      TargetsToVisit(c, o, t, targets);
      NothingVisited(crc, c, o, t, targets);
      moved, skipped := 0, 0;
      for k := 0 to |targets|
        invariant Valid() && Progress(crc, c, o, t, targets, k, view, moved, skipped)
      {
        moved, skipped := VisitNext(c, o, targets, k, moved, skipped, t);
      }
    }

    /** A whole run: the rooms visited in any order, the effect and the counts as specified. */
    method ReassignRunningRoomsFromUnavailableNodes(c: Cluster, o: Oracle) returns (moved: nat, skipped: nat)
      requires Valid() && Keyed(view)
      modifies this`store, this`view, roomRepr
      ensures Valid()
      ensures view == FailoverRun(crc, c, o, old(view))
      ensures moved == |MovedOf(crc, c, o, old(view), Targets(c, o, old(view)))|
      ensures skipped == |SkippedOf(crc, c, o, old(view), Targets(c, o, old(view)))|
    {
      if !c.hasEngine || HealthyPods(c.nodes) == {} {
        InactiveRun(crc, c, o, view);
        return 0, 0;
      }
      var targets := CollectTargets(c, o);
      SeenAll(targets, Targets(c, o, view));
      moved, skipped := MigrateTargets(c, o, targets, view);
    }

    // ----- starting up -----

    /** Restores one snapshot into new objects. */
    method RestoreNext(snap: RoomSnapshot)
      requires Valid() && Keyed(view) && snap.roomID != ""
      modifies this`rooms, this`users, this`view, this`roomRepr, this`sessionRepr
      ensures Valid() && Keyed(view) && Restores(old(view), snap, view)
      ensures old(roomRepr) <= roomRepr && fresh(roomRepr - old(roomRepr))
    {
      ghost var now := view;
      var r, made := RestoreRoomSnapshot(snap);
      RestoredIsKeyed(now, snap, r, made);
    }

    /** Restores a snapshot if it is meant for this node. */
    method RestoreIfWanted(snap: RoomSnapshot, nodeID: int) returns (restored: bool)
      requires Valid() && Keyed(view)
      modifies this`rooms, this`users, this`view, this`roomRepr, this`sessionRepr
      ensures Valid() && Keyed(view) && RestoreStep(old(view), snap, nodeID, view)
      ensures old(roomRepr) <= roomRepr && fresh(roomRepr - old(roomRepr))
      ensures restored == Wanted(snap, nodeID)
      ensures restored <==> snap.roomID != "" && (nodeID <= 0 || snap.nodeID == nodeID)
    {
      if snap.roomID == "" || (nodeID > 0 && snap.nodeID != nodeID) {
        return false;
      }
      RestoreNext(snap);
      restored := true;
    }

    /** Restores the snapshots meant for this node, in the order listed; `tables` are the tables it
        goes through. */
    method RestoreWanted(snapshots: seq<RoomSnapshot>, nodeID: int) returns (loaded: nat, ghost tables: seq<Table>)
      requires Valid() && Keyed(view)
      modifies this`rooms, this`users, this`view, this`roomRepr, this`sessionRepr
      ensures Valid() && Keyed(view)
      ensures fresh(roomRepr - old(roomRepr))
      ensures RestoreRun(tables, snapshots, nodeID) && tables[0] == old(view) && tables[|snapshots|] == view
      ensures AllRestored(old(view), view, PlanOf(snapshots, nodeID))
      ensures loaded == CountWanted(snapshots, nodeID)
    {
      loaded, tables := RestoreEach(snapshots, nodeID);
      assert snapshots[..|snapshots|] == snapshots;
      RunRestoresAll(tables, snapshots, nodeID, |snapshots|);
    }

    method RestoreEach(snapshots: seq<RoomSnapshot>, nodeID: int) returns (loaded: nat, ghost tables: seq<Table>)
      requires Valid() && Keyed(view)
      modifies this`rooms, this`users, this`view, this`roomRepr, this`sessionRepr
      ensures Valid() && Keyed(view)
      ensures fresh(roomRepr - old(roomRepr))
      ensures RestoreRun(tables, snapshots, nodeID) && tables[0] == old(view) && tables[|snapshots|] == view
      ensures loaded == CountWanted(snapshots, nodeID)
    {
      loaded, tables := 0, [view];
      for i := 0 to |snapshots|
        invariant Valid() && Keyed(view)
        invariant fresh(roomRepr - old(roomRepr))
        invariant RestoredUpTo(tables, snapshots, nodeID, i) && tables[0] == old(view) && tables[i] == view
        invariant loaded == CountWanted(snapshots[..i], nodeID)
      {
        WantedNext(snapshots, nodeID, i);
        var restored := RestoreIfWanted(snapshots[i], nodeID);
        OneStepMore(tables, snapshots, nodeID, i, view);
        tables := tables + [view];
        if restored {
          loaded := loaded + 1;
        }
      }
      assert snapshots[..|snapshots|] == snapshots;
    }

    /** Restores what the store lists, if it can be listed, and then moves rooms off unavailable
        nodes; `tables` are the tables of the restoration, up to the failover. */
    method RestoreFromStore(c: Cluster, o: Oracle, listing: Option<seq<RoomSnapshot>>, nodeID: int)
        returns (ok: bool, ghost tables: seq<Table>)
      requires Valid() && Keyed(view)
      modifies this`rooms, this`users, this`store, this`view, this`roomRepr, this`sessionRepr, roomRepr
      ensures Valid()
      ensures ok <==> c.hasStore ==> listing.Some?
      ensures !c.hasStore || listing.None? ==> view == old(view)
      ensures c.hasStore && listing.Some? ==>
                && RestoreRun(tables, listing.value, nodeID) && tables[0] == old(view)
                && Keyed(tables[|listing.value|])
                && AllRestored(old(view), tables[|listing.value|], PlanOf(listing.value, nodeID))
                && view == FailoverRun(crc, c, o, tables[|listing.value|])
    {
      tables := [view];
      if !c.hasStore {
        return true, tables;
      }
      if listing.None? {
        return false, tables;
      }
      var loaded;
      loaded, tables := RestoreWanted(listing.value, nodeID);
      var moved, skipped := ReassignRunningRoomsFromUnavailableNodes(c, o);
      ok := true;
    }
  }
}
